/** The "Add New Product" page: the image picker's list updates, the form's
    field limits, and the posting workflow run on submit (credit pre-check,
    one upload per picked file, the listing insert, and the unchecked debit of
    the cached balance). */
module AddProduct {
  import opened Wrappers
  import opened Types
  import opened Text
  import opened Store

  /** The categories the form's select offers. */
  const Categories: seq<string> :=
    ["Electronics", "Vehicles", "Property", "Furniture", "Fashion", "Books", "Sports", "Services", "Other"]

  /** The picker holds at most this many files. */
  const MaxImages: nat := 5

  // ---------------------------------------------------------------- picker

  function Min(a: int, b: int): int {
    if a <= b then a else b
  }

  /** `handleImageChange`: `[...prev, ...files].slice(0, 5)`. */
  function AddImages(prev: seq<ImageFile>, files: seq<ImageFile>): (r: seq<ImageFile>)
    ensures |r| == Min(|prev| + |files|, MaxImages)
    ensures r <= prev + files
    ensures |prev| <= MaxImages ==> prev <= r
  {
    (prev + files)[..Min(|prev| + |files|, MaxImages)]
  }

  /** Picking files in two rounds keeps the same files as picking them all at once. */
  lemma AddImagesTwice(prev: seq<ImageFile>, a: seq<ImageFile>, b: seq<ImageFile>)
    ensures AddImages(AddImages(prev, a), b) == AddImages(prev, a + b)
  {
    var c := prev + a;
    assert prev + (a + b) == c + b;
    if |c| >= MaxImages {
      assert (c[..MaxImages] + b)[..MaxImages] == c[..MaxImages];
      assert (c + b)[..MaxImages] == c[..MaxImages];
    } else {
      assert AddImages(prev, a) == c;
    }
  }

  /** `removeImage(idx)`: `prev.filter((_, i) => i !== idx)`, keeping every
      file whose position differs from `idx`. */
  function RemoveImage(prev: seq<ImageFile>, idx: int): seq<ImageFile>
    decreases |prev|
  {
    if prev == [] then []
    else
      var last := |prev| - 1;
      RemoveImage(prev[..last], idx) + (if last != idx then [prev[last]] else [])
  }

  /** Removing an index in range drops exactly that file and keeps the others
      in order; an index out of range removes nothing. */
  lemma {:induction false} RemoveImageSpec(prev: seq<ImageFile>, idx: int)
    ensures 0 <= idx < |prev| ==> RemoveImage(prev, idx) == prev[..idx] + prev[idx + 1..]
    ensures !(0 <= idx < |prev|) ==> RemoveImage(prev, idx) == prev
    ensures 0 <= idx < |prev| ==> |RemoveImage(prev, idx)| == |prev| - 1
    decreases |prev|
  {
    if prev != [] {
      var last := |prev| - 1;
      RemoveImageSpec(prev[..last], idx);
      if 0 <= idx < last {
        assert prev[..last][..idx] == prev[..idx];
        assert prev[..last][idx + 1..] + [prev[last]] == prev[idx + 1..];
      } else if idx == last {
        assert prev[..idx] + prev[idx + 1..] == prev[..last];
      } else {
        assert prev[..last] + [prev[last]] == prev;
      }
    }
  }

  // ---------------------------------------------------------------- upload paths

  /** `name.split(".").pop()`: the text after the last `.`,
      or the whole name when it has none. */
  function Extension(name: string): (ext: string)
    decreases |name|
  {
    if name == [] then []
    else if name[|name| - 1] == '.' then []
    else Extension(name[..|name| - 1]) + [name[|name| - 1]]
  }

  /** The extension holds no dot, ends the name, and is preceded by a dot
      unless it is the whole name. */
  lemma {:induction false} ExtensionShape(name: string)
    ensures '.' !in Extension(name)
    ensures |Extension(name)| <= |name| && name[|name| - |Extension(name)|..] == Extension(name)
    ensures Extension(name) == name || name[|name| - |Extension(name)| - 1] == '.'
    ensures '.' !in name ==> Extension(name) == name
    decreases |name|
  {
    if name != [] && name[|name| - 1] != '.' {
      var init, c := name[..|name| - 1], name[|name| - 1];
      ExtensionShape(init);
      var e := Extension(init);
      assert name == init + [c];
      assert Extension(name) == e + [c];
      assert name[|name| - |e| - 1..] == init[|init| - |e|..] + [c];
      if e != init {
        assert name[|name| - |e| - 2] == init[|init| - |e| - 1];
      }
      assert '.' !in name ==> '.' !in init;
    }
  }

  /** The object key of one upload: `${user.id}/${Date.now()}-${token}.${ext}`. */
  function UploadPath(user: Uuid, fileName: string, stamp: nat, token: string): (path: string)
    ensures |path| > |user| && path[..|user| + 1] == user + "/"
    ensures |path| >= |Extension(fileName)| + 1
    ensures path[|path| - |Extension(fileName)| - 1..] == "." + Extension(fileName)
  {
    var ext := Extension(fileName);
    var path := user + "/" + Decimal(stamp) + "-" + token + "." + ext;
    assert path == (user + "/") + (Decimal(stamp) + "-" + token) + ("." + ext);
    path
  }

  /** What the environment decides for one file: the clock reading, the random
      token, and whether the storage call succeeds. */
  datatype UploadEnv = UploadEnv(stamp: nat, token: string, succeeded: bool)

  function PathOf(user: Uuid, file: ImageFile, env: UploadEnv): string {
    UploadPath(user, file.name, env.stamp, env.token)
  }

  /** The public URLs the upload loop collects: one per successful upload,
      in file order; a failed upload contributes nothing. */
  function KeptUrls(user: Uuid, files: seq<ImageFile>, envs: seq<UploadEnv>, publicUrl: string -> string): seq<string>
    requires |envs| == |files|
    decreases |files|
  {
    if files == [] then []
    else
      var n := |files| - 1;
      KeptUrls(user, files[..n], envs[..n], publicUrl)
        + (if envs[n].succeeded then [publicUrl(PathOf(user, files[n], envs[n]))] else [])
  }

  /** The bucket after the loop: each successful upload stored at its path. */
  function StoredObjects(objects: map<string, ImageFile>, user: Uuid, files: seq<ImageFile>, envs: seq<UploadEnv>): map<string, ImageFile>
    requires |envs| == |files|
    decreases |files|
  {
    if files == [] then objects
    else
      var n := |files| - 1;
      var before := StoredObjects(objects, user, files[..n], envs[..n]);
      if envs[n].succeeded then before[PathOf(user, files[n], envs[n]) := files[n]] else before
  }

  /** The paths the successful uploads write to. */
  function UploadedPaths(user: Uuid, files: seq<ImageFile>, envs: seq<UploadEnv>): set<string>
    requires |envs| == |files|
  {
    set k | 0 <= k < |files| && envs[k].succeeded :: PathOf(user, files[k], envs[k])
  }

  /** No later successful upload writes to the path of upload `k`. */
  ghost predicate LastWriteTo(user: Uuid, files: seq<ImageFile>, envs: seq<UploadEnv>, k: int)
    requires |envs| == |files| && 0 <= k < |files|
  {
    forall j :: k < j < |files| && envs[j].succeeded ==> PathOf(user, files[j], envs[j]) != PathOf(user, files[k], envs[k])
  }

  /** The last upload adds its path when it succeeds. */
  lemma UploadedPathsLast(user: Uuid, files: seq<ImageFile>, envs: seq<UploadEnv>)
    requires |envs| == |files| > 0
    ensures var n := |files| - 1;
      UploadedPaths(user, files, envs) == UploadedPaths(user, files[..n], envs[..n])
        + (if envs[n].succeeded then {PathOf(user, files[n], envs[n])} else {})
  {
    var n := |files| - 1;
    var f, e := files[..n], envs[..n];
    forall p | p in UploadedPaths(user, files, envs)
      ensures p in UploadedPaths(user, f, e) || (envs[n].succeeded && p == PathOf(user, files[n], envs[n]))
    {
      var k :| 0 <= k < |files| && envs[k].succeeded && p == PathOf(user, files[k], envs[k]);
      if k < n {
        assert f[k] == files[k] && e[k] == envs[k];
      }
    }
    forall p | p in UploadedPaths(user, f, e) ensures p in UploadedPaths(user, files, envs) {
      var k :| 0 <= k < n && e[k].succeeded && p == PathOf(user, f[k], e[k]);
      assert f[k] == files[k] && e[k] == envs[k];
    }
  }

  /** The bucket after the uploads holds the objects it held plus one object
      per successful upload's path, and no other. */
  lemma {:induction false} StoredObjectsKeys(objects: map<string, ImageFile>, user: Uuid,
                                             files: seq<ImageFile>, envs: seq<UploadEnv>)
    requires |envs| == |files|
    ensures StoredObjects(objects, user, files, envs).Keys == objects.Keys + UploadedPaths(user, files, envs)
    decreases |files|
  {
    if files != [] {
      var n := |files| - 1;
      StoredObjectsKeys(objects, user, files[..n], envs[..n]);
      UploadedPathsLast(user, files, envs);
    } else {
      assert UploadedPaths(user, files, envs) == {};
    }
  }

  /** A path no successful upload writes keeps the object it held. */
  lemma {:induction false} StoredObjectsUntouched(objects: map<string, ImageFile>, user: Uuid,
                                                  files: seq<ImageFile>, envs: seq<UploadEnv>, p: string)
    requires |envs| == |files|
    requires p in objects && p !in UploadedPaths(user, files, envs)
    ensures p in StoredObjects(objects, user, files, envs)
    ensures StoredObjects(objects, user, files, envs)[p] == objects[p]
    decreases |files|
  {
    if files != [] {
      var n := |files| - 1;
      UploadedPathsLast(user, files, envs);
      StoredObjectsUntouched(objects, user, files[..n], envs[..n], p);
    }
  }

  /** A successful upload's file is what its path holds, unless a later
      successful upload writes to the same path. */
  lemma {:induction false} StoredObjectsLastWrite(objects: map<string, ImageFile>, user: Uuid,
                                                  files: seq<ImageFile>, envs: seq<UploadEnv>, k: int)
    requires |envs| == |files| && 0 <= k < |files| && envs[k].succeeded && LastWriteTo(user, files, envs, k)
    ensures PathOf(user, files[k], envs[k]) in StoredObjects(objects, user, files, envs)
    ensures StoredObjects(objects, user, files, envs)[PathOf(user, files[k], envs[k])] == files[k]
    decreases |files|
  {
    var n := |files| - 1;
    if k < n {
      var f, e := files[..n], envs[..n];
      assert f[k] == files[k] && e[k] == envs[k];
      assert LastWriteTo(user, f, e, k) by {
        forall j | k < j < n && e[j].succeeded ensures PathOf(user, f[j], e[j]) != PathOf(user, f[k], e[k]) {
          assert f[j] == files[j] && e[j] == envs[j];
        }
      }
      StoredObjectsLastWrite(objects, user, f, e, k);
    }
  }

  /** How many of the uploads succeed. */
  function Successes(envs: seq<UploadEnv>): nat
    decreases |envs|
  {
    if envs == [] then 0 else Successes(envs[..|envs| - 1]) + (if envs[|envs| - 1].succeeded then 1 else 0)
  }

  /** The last file's URL comes after those of the files before it. */
  lemma KeptUrlsLast(user: Uuid, files: seq<ImageFile>, envs: seq<UploadEnv>, publicUrl: string -> string)
    requires |envs| == |files| > 0
    ensures var n := |files| - 1;
      KeptUrls(user, files, envs, publicUrl) == KeptUrls(user, files[..n], envs[..n], publicUrl)
        + (if envs[n].succeeded then [publicUrl(PathOf(user, files[n], envs[n]))] else [])
  {
  }

  /** Uploading two batches one after the other collects the first batch's URLs
      followed by the second's: order is kept and failures are skipped. */
  lemma {:induction false} KeptUrlsAppend(user: Uuid, f1: seq<ImageFile>, e1: seq<UploadEnv>,
                                          f2: seq<ImageFile>, e2: seq<UploadEnv>, publicUrl: string -> string)
    requires |e1| == |f1| && |e2| == |f2|
    ensures KeptUrls(user, f1 + f2, e1 + e2, publicUrl)
      == KeptUrls(user, f1, e1, publicUrl) + KeptUrls(user, f2, e2, publicUrl)
    decreases |f2|
  {
    if f2 == [] {
      assert f1 + f2 == f1 && e1 + e2 == e1;
    } else {
      var n := |f2| - 1;
      var f, e := f1 + f2, e1 + e2;
      assert f[..|f| - 1] == f1 + f2[..n] && f[|f| - 1] == f2[n];
      assert e[..|e| - 1] == e1 + e2[..n] && e[|e| - 1] == e2[n];
      KeptUrlsLast(user, f, e, publicUrl);
      KeptUrlsLast(user, f2, e2, publicUrl);
      KeptUrlsAppend(user, f1, e1, f2[..n], e2[..n], publicUrl);
      var a, b := KeptUrls(user, f1, e1, publicUrl), KeptUrls(user, f2[..n], e2[..n], publicUrl);
      var last := if e2[n].succeeded then [publicUrl(PathOf(user, f2[n], e2[n]))] else [];
      assert (a + b) + last == a + (b + last);
    }
  }

  /** One URL per successful upload: all succeed gives one per file, none gives none. */
  lemma {:induction false} KeptUrlsCount(user: Uuid, files: seq<ImageFile>, envs: seq<UploadEnv>, publicUrl: string -> string)
    requires |envs| == |files|
    ensures |KeptUrls(user, files, envs, publicUrl)| == Successes(envs) <= |files|
    ensures (forall k :: 0 <= k < |envs| ==> envs[k].succeeded) ==> Successes(envs) == |files|
    ensures (forall k :: 0 <= k < |envs| ==> !envs[k].succeeded) ==> Successes(envs) == 0
    decreases |files|
  {
    if files != [] {
      var n := |files| - 1;
      KeptUrlsCount(user, files[..n], envs[..n], publicUrl);
    }
  }

  /** When every upload succeeds, the k-th kept URL is the k-th file's. */
  lemma {:induction false} KeptUrlsAllSucceeded(user: Uuid, files: seq<ImageFile>, envs: seq<UploadEnv>, publicUrl: string -> string)
    requires |envs| == |files|
    requires forall k :: 0 <= k < |envs| ==> envs[k].succeeded
    ensures |KeptUrls(user, files, envs, publicUrl)| == |files|
    ensures forall k :: 0 <= k < |files| ==>
      KeptUrls(user, files, envs, publicUrl)[k] == publicUrl(PathOf(user, files[k], envs[k]))
    decreases |files|
  {
    if files != [] {
      var n := |files| - 1;
      KeptUrlsAllSucceeded(user, files[..n], envs[..n], publicUrl);
    }
  }

  /** Every kept URL is the public URL of a file whose upload succeeded. */
  lemma {:induction false} KeptUrlsFromSuccesses(user: Uuid, files: seq<ImageFile>, envs: seq<UploadEnv>, publicUrl: string -> string, url: string)
    requires |envs| == |files|
    requires url in KeptUrls(user, files, envs, publicUrl)
    ensures exists k :: 0 <= k < |files| && envs[k].succeeded && url == publicUrl(PathOf(user, files[k], envs[k]))
    decreases |files|
  {
    var n := |files| - 1;
    var before := KeptUrls(user, files[..n], envs[..n], publicUrl);
    if url in before {
      KeptUrlsFromSuccesses(user, files[..n], envs[..n], publicUrl, url);
      var k :| 0 <= k < n && envs[..n][k].succeeded && url == publicUrl(PathOf(user, files[..n][k], envs[..n][k]));
      assert files[..n][k] == files[k] && envs[..n][k] == envs[k];
    } else {
      assert envs[n].succeeded && url == publicUrl(PathOf(user, files[n], envs[n]));
    }
  }

  // ---------------------------------------------------------------- form

  /** The form's text fields as typed. */
  datatype Form = Form(title: string, description: string, price: string, category: string,
                       location: string, contact_number: string)

  /** Whether the browser lets the form be submitted: the `required`,
      `maxLength`, `min="0"` and `step="0.01"` constraints, and the submit
      button's `disabled={!form.category}`, whose select offers only
      `Categories`. `priceValue` is the number the price field holds. */
  predicate FormAcceptable(form: Form, priceValue: real) {
    && 1 <= |form.title| <= 100
    && |form.description| <= 1000
    && form.price != "" && priceValue >= 0.0 && (priceValue * 100.0).Floor as real == priceValue * 100.0
    && form.category in Categories
    && 1 <= |form.location| <= 50
    && 1 <= |form.contact_number| <= 15
  }

  /** The insert the workflow sends: trimmed text, the parsed price, the
      collected URLs; no status, so the column default applies. */
  function Payload(user: Uuid, form: Form, priceValue: real, urls: seq<string>): ListingInsert {
    ListingInsert(user, Trim(form.title), priceValue, form.category, None,
      Some(Trim(form.description)), Some(Trim(form.location)), Some(Trim(form.contact_number)),
      Some(urls), None, None, None)
  }

  /** The row a successful insert stores. */
  function NewListing(user: Uuid, form: Form, priceValue: real, urls: seq<string>, freshId: Uuid, now: nat): ListingRow {
    FromInsert(Payload(user, form, priceValue, urls), freshId, now)
  }

  /** A posted listing is an active listing of the poster with the collected
      URLs, and an acceptable form keeps every stored column within its limit. */
  lemma NewListingShape(user: Uuid, form: Form, priceValue: real, urls: seq<string>, freshId: Uuid, now: nat)
    ensures var row := NewListing(user, form, priceValue, urls, freshId, now);
      && row.status == Active && row.user_id == user && row.images == urls
      && row.id == freshId && row.created_at == now && row.category == form.category
    ensures FormAcceptable(form, priceValue) ==>
      var row := NewListing(user, form, priceValue, urls, freshId, now);
      && |row.title| <= 100 && |row.description| <= 1000 && |row.location| <= 50
      && |row.contact_number| <= 15 && row.category in Categories && row.price >= 0.0
  {
  }

  // ---------------------------------------------------------------- submit

  datatype SubmitResult =
    | Ignored        // no signed-in user or no cached profile
    | NoCredits      // the "No listing credits left" dialog
    | InsertFailed   // the error toast; nothing more happens
    | Posted         // the "Product listed!" toast and the move to My Listings

  /** The upload loop of `handleSubmit`: each picked file is uploaded under
      its own path, in order; a successful upload's public URL is kept, a
      failed one is skipped and the loop goes on. */
  method UploadImages(db: Backend, user: Uuid, images: seq<ImageFile>, uploads: seq<UploadEnv>,
                      publicUrl: string -> string)
    returns (imageUrls: seq<string>)
    requires |uploads| == |images|
    modifies db`objects
    ensures imageUrls == KeptUrls(user, images, uploads, publicUrl)
    ensures db.objects == StoredObjects(old(db.objects), user, images, uploads)
  {
    imageUrls := [];
    var i := 0;
    while i < |images|
      invariant 0 <= i <= |images|
      invariant imageUrls == KeptUrls(user, images[..i], uploads[..i], publicUrl)
      invariant db.objects == StoredObjects(old(db.objects), user, images[..i], uploads[..i])
    {
      var path := PathOf(user, images[i], uploads[i]);
      var ok := db.Upload(path, images[i], uploads[i].succeeded);
      if ok {
        imageUrls := imageUrls + [publicUrl(path)];
      }
      assert images[..i + 1][..i] == images[..i] && uploads[..i + 1][..i] == uploads[..i];
      i := i + 1;
    }
    assert images[..i] == images && uploads[..i] == uploads;
  }

  /** The part of `handleSubmit` past the credit check, on the backend alone:
      the uploads, then the insert, then (only after a successful insert) the
      write of `cached - 1`, whose outcome is not looked at. */
  method PostListing(db: Backend, user: Uuid, cached: int, form: Form, priceValue: real, images: seq<ImageFile>,
                     uploads: seq<UploadEnv>, publicUrl: string -> string,
                     insertOk: bool, freshId: Uuid, now: nat, debitOk: bool)
    returns (inserted: bool)
    requires |uploads| == |images|
    modifies db
    ensures inserted == insertOk
    ensures db.objects == StoredObjects(old(db.objects), user, images, uploads)
    ensures !insertOk ==> db.listings == old(db.listings) && db.profiles == old(db.profiles)
    ensures insertOk ==>
      && db.listings == old(db.listings) + [NewListing(user, form, priceValue, KeptUrls(user, images, uploads, publicUrl), freshId, now)]
      && db.profiles == (if debitOk then SetCredits(old(db.profiles), user, cached - 1) else old(db.profiles))
  {
    var imageUrls := UploadImages(db, user, images, uploads, publicUrl);
    inserted := db.InsertListing(Payload(user, form, priceValue, imageUrls), freshId, now, insertOk);
    if inserted {
      var _ := db.UpdateCredits(user, cached - 1, debitOk);
    }
  }

  /** `handleSubmit`. The uploads' clock readings, tokens and outcomes, the
      insert's and the debit's outcomes, and the id and time the database gives
      the new row are inputs; `publicUrl` is the bucket's `getPublicUrl`. */
  method Submit(db: Backend, session: Session, form: Form, priceValue: real, images: seq<ImageFile>,
                uploads: seq<UploadEnv>, publicUrl: string -> string,
                insertOk: bool, freshId: Uuid, now: nat, debitOk: bool)
    returns (r: SubmitResult)
    requires |uploads| == |images|
    modifies db, session`profile
    ensures session.user == old(session.user)
    ensures
      if old(session.user).None? || old(session.profile).None? then
        // No user or no profile: nothing at all happens.
        r == Ignored && unchanged(db) && unchanged(session)
      else if old(session.profile).value.listing_credits <= 0 then
        // The cached balance is spent: no upload, no insert, no balance change.
        r == NoCredits && unchanged(db) && unchanged(session)
      else
        var user := old(session.user).value;
        var cached := old(session.profile).value.listing_credits;
        // Every successful upload is stored, whatever follows.
        && db.objects == StoredObjects(old(db.objects), user, images, uploads)
        && if !insertOk then
          // A failed insert ends the workflow: no listing, no debit, no refresh.
          r == InsertFailed && db.listings == old(db.listings) && db.profiles == old(db.profiles)
          && session.profile == old(session.profile)
        else
          // A successful insert adds one active listing holding the kept URLs, then
          // writes cached balance - 1 over whatever is stored, unless that write fails.
          && r == Posted
          && db.listings == old(db.listings) + [NewListing(user, form, priceValue, KeptUrls(user, images, uploads, publicUrl), freshId, now)]
          && db.profiles == (if debitOk then SetCredits(old(db.profiles), user, cached - 1) else old(db.profiles))
          && session.profile == FindProfile(db.profiles, user)
  {
    if session.user.None? || session.profile.None? {
      return Ignored;
    }
    var user := session.user.value;
    var profile := session.profile.value;
    if profile.listing_credits <= 0 {
      return NoCredits;
    }
    var inserted := PostListing(db, user, profile.listing_credits, form, priceValue, images, uploads, publicUrl,
                                insertOk, freshId, now, debitOk);
    if !inserted {
      return InsertFailed;
    }
    session.RefreshProfile(db);
    return Posted;
  }
}
