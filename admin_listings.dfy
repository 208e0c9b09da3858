/** The admin console's listings tab: every listing newest first, and a remove
    action that sets the status to `removed`. */
module AdminListings {
  import opened Types
  import opened Store
  import opened ListingViews

  /** The tab's query: all listings, whatever their status, newest first, or
      `data ?? []` = no rows when the request fails. */
  function AdminView(rows: seq<ListingRow>, succeeded: bool): (r: seq<ListingRow>)
    ensures !succeeded ==> r == []
    ensures NewestFirst(r)
    ensures succeeded ==> multiset(r) == multiset(rows)
    ensures succeeded ==> forall l :: l in r <==> l in rows
  {
    if !succeeded then [] else
    var r := SortNewestFirst(rows);
    assert forall l :: l in r <==> l in rows by {
      forall l ensures l in r <==> l in rows { SortedMembership(rows, l); }
    }
    r
  }

  /** The remove button is shown unless the listing is already removed. */
  predicate RemoveOffered(s: ListingStatus) {
    s != Removed
  }

  /** `deleteListing.mutate(id)`: the row with that id gets status `removed`,
      nothing else changes; a failure is thrown, so the toast and the refetch
      happen only on success. */
  method DeleteListing(db: Backend, id: Uuid, succeeded: bool) returns (r: MutationResult)
    modifies db`listings
    ensures r == Updated <==> succeeded
    ensures db.listings == if succeeded then SetStatus(old(db.listings), id, Removed) else old(db.listings)
  {
    var ok := db.UpdateListingStatus(id, Removed, succeeded);
    r := if ok then Updated else Error;
  }

  /** After a removal, the button is gone for every row of that id, and every
      other row keeps its button as it was: the UI never offers a second removal. */
  lemma RemovalNotReoffered(rows: seq<ListingRow>, id: Uuid)
    ensures forall k :: 0 <= k < |rows| && rows[k].id == id ==>
      !RemoveOffered(SetStatus(rows, id, Removed)[k].status)
    ensures forall k :: 0 <= k < |rows| && rows[k].id != id ==>
      RemoveOffered(SetStatus(rows, id, Removed)[k].status) == RemoveOffered(rows[k].status)
  {
  }
}
