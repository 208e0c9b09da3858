/** The "My Listings" page: the owner's listings newest first, the status
    badge's colour, and the two status actions (mark sold, remove) offered
    per listing, with the update they send. */
module MyListings {
  import opened Types
  import opened Store
  import opened ListingViews

  /** The statuses an action can ask for: `"sold" | "removed"`. */
  type StatusTarget = s: ListingStatus | s != Active witness Sold

  /** How far along its life a listing is: active, then sold, then removed. */
  function Rank(s: ListingStatus): nat {
    match s
    case Active => 0
    case Sold => 1
    case Removed => 2
  }

  /** The action buttons shown for a listing in status `s`: "sold" only while it
      is active, "removed" while it is not yet removed. Exactly the moves
      forward in the listing's life are offered, so a removed listing offers none. */
  function OfferedTargets(s: ListingStatus): (r: set<StatusTarget>)
    ensures forall t: StatusTarget :: t in r <==> Rank(s) < Rank(t)
    ensures (Sold in r <==> s == Active) && (Removed in r <==> s != Removed)
    ensures s == Removed <==> r == {}
  {
    (if s == Active then {Sold} else {}) + (if s != Removed then {Removed} else {})
  }

  /** `updateStatus.mutate({ id, status })`: one update of the `status` column
      of the row with that id; a failure is thrown, so the success toast and the
      refetch happen only on `Updated`. */
  method UpdateStatus(db: Backend, id: Uuid, target: StatusTarget, succeeded: bool) returns (r: MutationResult)
    modifies db`listings
    ensures r == Updated <==> succeeded
    ensures db.listings == if r == Updated then SetStatus(old(db.listings), id, target) else old(db.listings)
  {
    var ok := db.UpdateListingStatus(id, target, succeeded);
    r := if ok then Updated else Error;
  }

  /** An action taken from a shown button moves the listing forward, every row
      of that id ends in the target status, and no other row changes. */
  lemma {:induction false} OfferedUpdateMovesForward(rows: seq<ListingRow>, id: Uuid, target: StatusTarget, k: int)
    requires 0 <= k < |rows| && rows[k].id == id && target in OfferedTargets(rows[k].status)
    ensures Rank(rows[k].status) < Rank(SetStatus(rows, id, target)[k].status)
    ensures SetStatus(rows, id, target)[k] == rows[k].(status := target)
    ensures OfferedTargets(SetStatus(rows, id, Removed)[k].status) == {}
  {
  }

  /** The page's query: the signed-in user's listings, newest first, or
      `data ?? []` = no rows when the request fails. */
  function OwnerView(rows: seq<ListingRow>, user_id: Uuid, succeeded: bool): seq<ListingRow> {
    if succeeded then Query(rows, (l: ListingRow) => l.user_id == user_id) else []
  }

  /** The owner view shows exactly the user's listings, in every status,
      each as often as stored, newest first; a failed request shows none. */
  lemma OwnerViewSpec(rows: seq<ListingRow>, user_id: Uuid, succeeded: bool)
    ensures !succeeded ==> OwnerView(rows, user_id, succeeded) == []
    ensures NewestFirst(OwnerView(rows, user_id, succeeded))
    ensures succeeded ==> forall l :: l in OwnerView(rows, user_id, succeeded) <==> l in rows && l.user_id == user_id
    ensures succeeded ==> forall l :: l in rows && l.user_id == user_id ==>
      multiset(OwnerView(rows, user_id, succeeded))[l] == multiset(rows)[l]
  {
  }

  /** `statusColors`, keyed by the status's text. */
  const StatusColors: map<string, string> := map[
    "active" := "bg-green-100 text-green-800",
    "sold" := "bg-blue-100 text-blue-800",
    "removed" := "bg-red-100 text-red-800"]

  /** `statusColors[status] ?? ""`. */
  function StatusColor(name: string): (c: string)
    ensures name in ListingStatusNames ==> c != ""
    ensures name !in ListingStatusNames ==> c == ""
  {
    if name in StatusColors then StatusColors[name] else ""
  }

  /** Each status has its own colour. */
  lemma StatusColorsDistinct(a: ListingStatus, b: ListingStatus)
    ensures a != b ==> StatusColor(StatusName(a)) != StatusColor(StatusName(b))
  {
  }

  /** The card's thumbnail, with the page's own placeholder text. */
  function CardThumbnail(l: ListingRow): (t: Thumb)
    ensures t.Picture? <==> |l.images| > 0 && l.images[0] != ""
    ensures t.Picture? ==> t.url == l.images[0]
    ensures t.Placeholder? ==> t.text == "No img"
  {
    Thumbnail(l.images, "No img")
  }
}
