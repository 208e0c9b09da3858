/** The hosted backend as the client sees it: the `listings` and `profiles`
    tables, the `listing-images` object bucket, and the signed-in session with
    its cached profile. Each remote call is one method; whether the call
    succeeds is decided by the network and the server, so it is an input
    (`succeeded`), and a failed call changes nothing. An `update ... eq(col, v)`
    patches every row whose column equals `v` and no other. */
module Store {
  import opened Wrappers
  import opened Types

  /** A browser `File` picked for upload: its name and its bytes. */
  datatype ImageFile = ImageFile(name: string, content: seq<bv8>)

  // ---------------------------------------------------------------- row patches

  function PatchStatus(l: ListingRow, id: Uuid, status: ListingStatus): ListingRow {
    if l.id == id then l.(status := status) else l
  }

  /** `update({ status }).eq("id", id)` applied to the listings table. */
  function SetStatus(rows: seq<ListingRow>, id: Uuid, status: ListingStatus): (r: seq<ListingRow>)
    ensures |r| == |rows|
    ensures forall k :: 0 <= k < |rows| && rows[k].id == id ==> r[k] == rows[k].(status := status)
    ensures forall k :: 0 <= k < |rows| && rows[k].id != id ==> r[k] == rows[k]
  {
    if rows == [] then [] else [PatchStatus(rows[0], id, status)] + SetStatus(rows[1..], id, status)
  }

  /** Setting a status twice is setting it once. */
  lemma SetStatusIdempotent(rows: seq<ListingRow>, id: Uuid, status: ListingStatus)
    ensures SetStatus(SetStatus(rows, id, status), id, status) == SetStatus(rows, id, status)
  {
  }

  /** A status update touches no row of another id and no column but `status`:
      ids, owners and timestamps are as before, so the order of any query is too. */
  lemma SetStatusKeepsOtherColumns(rows: seq<ListingRow>, id: Uuid, status: ListingStatus, k: int)
    requires 0 <= k < |rows|
    ensures SetStatus(rows, id, status)[k].(status := rows[k].status) == rows[k]
    ensures SetStatus(rows, id, status)[k].status == if rows[k].id == id then status else rows[k].status
  {
  }

  function PatchCredits(p: ProfileRow, user_id: Uuid, credits: int): ProfileRow {
    if p.user_id == user_id then p.(listing_credits := credits) else p
  }

  /** `update({ listing_credits }).eq("user_id", user_id)` applied to the profiles table. */
  function SetCredits(rows: seq<ProfileRow>, user_id: Uuid, credits: int): (r: seq<ProfileRow>)
    ensures |r| == |rows|
    ensures forall k :: 0 <= k < |rows| && rows[k].user_id == user_id ==> r[k] == rows[k].(listing_credits := credits)
    ensures forall k :: 0 <= k < |rows| && rows[k].user_id != user_id ==> r[k] == rows[k]
  {
    if rows == [] then [] else [PatchCredits(rows[0], user_id, credits)] + SetCredits(rows[1..], user_id, credits)
  }

  /** The first profile row of `user_id`, if there is one. */
  function FindProfile(rows: seq<ProfileRow>, user_id: Uuid): Option<ProfileRow> {
    if rows == [] then None
    else if rows[0].user_id == user_id then Some(rows[0])
    else FindProfile(rows[1..], user_id)
  }

  /** The row found is a row of that user, and none is found only when the
      table has no row of that user. */
  lemma {:induction false} FindProfileSpec(rows: seq<ProfileRow>, user_id: Uuid)
    ensures FindProfile(rows, user_id).Some? ==>
      FindProfile(rows, user_id).value in rows && FindProfile(rows, user_id).value.user_id == user_id
    ensures FindProfile(rows, user_id).None? <==> forall p :: p in rows ==> p.user_id != user_id
  {
    if rows != [] && rows[0].user_id != user_id {
      FindProfileSpec(rows[1..], user_id);
      assert rows == [rows[0]] + rows[1..];
    }
  }

  /** After a balance write, the profile read back carries the written value. */
  lemma {:induction false} SetCreditsThenFind(rows: seq<ProfileRow>, user_id: Uuid, credits: int)
    ensures FindProfile(SetCredits(rows, user_id, credits), user_id).Some? <==> FindProfile(rows, user_id).Some?
    ensures FindProfile(rows, user_id).Some? ==>
      FindProfile(SetCredits(rows, user_id, credits), user_id)
        == Some(FindProfile(rows, user_id).value.(listing_credits := credits))
  {
    if rows != [] {
      SetCreditsThenFind(rows[1..], user_id, credits);
      assert SetCredits(rows, user_id, credits)[1..] == SetCredits(rows[1..], user_id, credits);
    }
  }

  // ---------------------------------------------------------------- remote store

  /** A react-query mutation's end: its function returned, or it threw. */
  datatype MutationResult = Updated | Error

  class Backend {
    var listings: seq<ListingRow>
    var profiles: seq<ProfileRow>
    /** The `listing-images` bucket: object path to stored file. */
    var objects: map<string, ImageFile>

    constructor (listings: seq<ListingRow>, profiles: seq<ProfileRow>)
      ensures this.listings == listings && this.profiles == profiles && objects == map[]
    {
      this.listings := listings;
      this.profiles := profiles;
      objects := map[];
    }

    /** `storage.from("listing-images").upload(path, file)`. */
    method Upload(path: string, file: ImageFile, succeeded: bool) returns (ok: bool)
      modifies this`objects
      ensures ok == succeeded
      ensures objects == if ok then old(objects)[path := file] else old(objects)
    {
      ok := succeeded;
      if ok {
        objects := objects[path := file];
      }
    }

    /** `from("listings").insert(ins)`; the database supplies the id and the time. */
    method InsertListing(ins: ListingInsert, freshId: Uuid, now: nat, succeeded: bool) returns (ok: bool)
      modifies this`listings
      ensures ok == succeeded
      ensures listings == if ok then old(listings) + [FromInsert(ins, freshId, now)] else old(listings)
    {
      ok := succeeded;
      if ok {
        listings := listings + [FromInsert(ins, freshId, now)];
      }
    }

    /** `from("listings").update({ status }).eq("id", id)`. */
    method UpdateListingStatus(id: Uuid, status: ListingStatus, succeeded: bool) returns (ok: bool)
      modifies this`listings
      ensures ok == succeeded
      ensures listings == if ok then SetStatus(old(listings), id, status) else old(listings)
    {
      ok := succeeded;
      if ok {
        listings := SetStatus(listings, id, status);
      }
    }

    /** `from("profiles").update({ listing_credits }).eq("user_id", user_id)`. */
    method UpdateCredits(user_id: Uuid, credits: int, succeeded: bool) returns (ok: bool)
      modifies this`profiles
      ensures ok == succeeded
      ensures profiles == if ok then SetCredits(old(profiles), user_id, credits) else old(profiles)
    {
      ok := succeeded;
      if ok {
        profiles := SetCredits(profiles, user_id, credits);
      }
    }
  }

  // ---------------------------------------------------------------- session

  /** The authentication context: the signed-in user and the profile row it
      cached when it last read it. */
  class Session {
    var user: Option<Uuid>
    var profile: Option<ProfileRow>

    constructor (user: Option<Uuid>, profile: Option<ProfileRow>)
      ensures this.user == user && this.profile == profile
    {
      this.user := user;
      this.profile := profile;
    }

    /** `refreshProfile()`: read the signed-in user's profile row again. */
    method RefreshProfile(db: Backend)
      modifies this`profile
      ensures profile == if user.Some? then FindProfile(db.profiles, user.value) else None
    {
      profile := if user.Some? then FindProfile(db.profiles, user.value) else None;
    }
  }
}
