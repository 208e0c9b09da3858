/** The public listing page: the listing fetched by its id, the seller's name,
    the image gallery, the display fallbacks for empty columns, and the call
    and WhatsApp links built from the digits of the contact number. */
module ListingDetail {
  import opened Wrappers
  import opened Types
  import opened Text
  import opened ListingViews

  // ---------------------------------------------------------------- single()

  /** The rows whose key is `want`, in table order. */
  function Matching<T(==,!new)>(rows: seq<T>, key: T -> Uuid, want: Uuid): (r: seq<T>)
    ensures |r| <= |rows|
    ensures forall x :: x in r <==> x in rows && key(x) == want
    ensures forall x :: multiset(r)[x] == if key(x) == want then multiset(rows)[x] else 0
  {
    if rows == [] then []
    else
      assert rows == [rows[0]] + rows[1..];
      if key(rows[0]) == want then [rows[0]] + Matching(rows[1..], key, want)
      else Matching(rows[1..], key, want)
  }

  /** `x` is the one row whose key is `want`, and it is stored once. */
  ghost predicate OnlyMatch<T>(rows: seq<T>, key: T -> Uuid, want: Uuid, x: T) {
    && x in rows && key(x) == want && multiset(rows)[x] == 1
    && forall y :: y in rows && key(y) == want ==> y == x
  }

  /** One match means one row with that key, stored once, and no other row
      with that key. */
  lemma ExactlyOneMatch<T(!new)>(rows: seq<T>, key: T -> Uuid, want: Uuid)
    ensures |Matching(rows, key, want)| == 1 <==> exists x :: OnlyMatch(rows, key, want, x)
  {
    var m := Matching(rows, key, want);
    if |m| == 1 {
      var x := m[0];
      assert m == [x];
      assert multiset(m)[x] == 1;
      assert x in m;
      assert OnlyMatch(rows, key, want, x);
    }
    if exists x :: OnlyMatch(rows, key, want, x) {
      var x :| OnlyMatch(rows, key, want, x);
      assert multiset(m) == multiset{x} by {
        forall z ensures multiset(m)[z] == multiset{x}[z] {
          if z != x && key(z) == want {
            assert z !in rows;
          }
        }
      }
      assert |m| == |multiset(m)| == 1;
    }
  }

  /** `select().eq(key, want).single()`: the row when exactly one row matches;
      with none or several the call answers an error and `data` is null. */
  function Single<T(==,!new)>(rows: seq<T>, key: T -> Uuid, want: Uuid): (r: Option<T>)
    ensures r.Some? <==> |Matching(rows, key, want)| == 1
    ensures r.Some? ==> r.value in rows && key(r.value) == want && multiset(rows)[r.value] == 1
    ensures r.Some? ==> forall x :: x in rows && key(x) == want ==> x == r.value
    ensures (forall x :: x in rows ==> key(x) != want) ==> r.None?
  {
    var m := Matching(rows, key, want);
    if |m| == 1 then
      assert m[0] in m;
      Some(m[0])
    else
      assert m != [] ==> m[0] in m;
      None
  }

  // ---------------------------------------------------------------- phone digits

  /** `contact_number.replace(/\D/g, "")`: the decimal digits, in order. */
  function Digits(s: string): (r: string)
    ensures |r| <= |s|
    ensures forall k :: 0 <= k < |r| ==> IsDigit(r[k])
  {
    if s == [] then []
    else if IsDigit(s[0]) then [s[0]] + Digits(s[1..])
    else Digits(s[1..])
  }

  /** Removing the non-digits of two pieces is removing those of the whole. */
  lemma {:induction false} DigitsAppend(a: string, b: string)
    ensures Digits(a + b) == Digits(a) + Digits(b)
  {
    if a == [] {
      assert a + b == b;
    } else {
      assert (a + b)[0] == a[0] && (a + b)[1..] == a[1..] + b;
      DigitsAppend(a[1..], b);
    }
  }

  /** A string of digits is kept whole, so the replacement is idempotent. */
  lemma {:induction false} DigitsOfDigits(s: string)
    requires forall k :: 0 <= k < |s| ==> IsDigit(s[k])
    ensures Digits(s) == s
  {
    if s != [] {
      DigitsOfDigits(s[1..]);
    }
  }

  lemma DigitsIdempotent(s: string)
    ensures Digits(Digits(s)) == Digits(s)
  {
    DigitsOfDigits(Digits(s));
  }

  /** Every digit of `s` is kept, at the place given by the digits before it:
      the derived phone number keeps the contact number's digits in order. */
  lemma DigitsKeepOrder(s: string, k: int)
    requires 0 <= k < |s| && IsDigit(s[k])
    ensures |Digits(s[..k])| < |Digits(s)|
    ensures Digits(s)[|Digits(s[..k])|] == s[k]
  {
    var rest := [s[k]] + s[k + 1..];
    assert s == s[..k] + rest;
    DigitsAppend(s[..k], rest);
    assert rest[0] == s[k] && rest[1..] == s[k + 1..];
    assert Digits(rest) == [s[k]] + Digits(s[k + 1..]);
  }

  /** The number has no digit exactly when no character of the text is one. */
  lemma {:induction false} DigitsEmpty(s: string)
    ensures Digits(s) == [] <==> forall k :: 0 <= k < |s| ==> !IsDigit(s[k])
  {
    if s != [] {
      DigitsEmpty(s[1..]);
      assert forall k :: 1 <= k < |s| ==> s[k] == s[1..][k - 1];
    }
  }

  // ---------------------------------------------------------------- links

  datatype ContactLinks = ContactLinks(call: string, whatsapp: string)

  const CallPrefix := "tel:+91"
  const ChatPrefix := "https://wa.me/91"

  /** The message the WhatsApp link pre-fills. */
  function ChatMessage(title: string): string {
    "Hi, I'm interested in your listing: " + title
  }

  /** `{phone && <>call, WhatsApp</>}`: both links only when the digits are
      non-empty; `encode` is `encodeURIComponent`. */
  function Links(l: ListingRow, encode: string -> string): (r: Option<ContactLinks>)
    ensures r.Some? <==> exists k :: 0 <= k < |l.contact_number| && IsDigit(l.contact_number[k])
    ensures r.Some? ==> r.value.call == CallPrefix + Digits(l.contact_number)
    ensures r.Some? ==> r.value.whatsapp == ChatPrefix + Digits(l.contact_number) + "?text=" + encode(ChatMessage(l.title))
  {
    DigitsEmpty(l.contact_number);
    var phone := Digits(l.contact_number);
    if phone != "" then
      Some(ContactLinks(CallPrefix + phone, ChatPrefix + phone + "?text=" + encode(ChatMessage(l.title))))
    else None
  }

  /** The call link dials country code 91 followed by exactly the contact
      number's digits: its own digits are those, and after the prefix it is
      nothing but digits. */
  lemma CallDialsContactDigits(l: ListingRow, encode: string -> string)
    requires Links(l, encode).Some?
    ensures Digits(Links(l, encode).value.call) == "91" + Digits(l.contact_number)
    ensures var c := Links(l, encode).value.call;
      |c| > |CallPrefix| && c[..|CallPrefix|] == CallPrefix
      && forall k :: |CallPrefix| <= k < |c| ==> IsDigit(c[k])
  {
    var phone := Digits(l.contact_number);
    DigitsAppend(CallPrefix, phone);
    DigitsOfDigits(phone);
    assert Digits(CallPrefix) == "91";
  }

  // ---------------------------------------------------------------- the page

  /** One picture of the gallery. */
  datatype GalleryImage = GalleryImage(src: string, alt: string)

  /** `images.length > 0 && images.map((img, i) => <img src=img alt="title i+1">)`:
      no gallery at all when there is no image. */
  function Gallery(l: ListingRow): (g: Option<seq<GalleryImage>>)
    ensures g.Some? <==> |l.images| > 0
    ensures g.Some? ==> |g.value| == |l.images|
    ensures g.Some? ==> forall i :: 0 <= i < |g.value| ==>
      g.value[i].src == l.images[i] && g.value[i].alt == l.title + " " + Decimal(i + 1)
  {
    if |l.images| > 0 then
      Some(seq(|l.images|, i requires 0 <= i < |l.images| => GalleryImage(l.images[i], l.title + " " + Decimal(i + 1))))
    else None
  }

  /** No two pictures of the gallery share an alt text. */
  lemma GalleryDistinctAlts(l: ListingRow, i: int, j: int)
    requires Gallery(l).Some? && 0 <= i < j < |Gallery(l).value|
    ensures Gallery(l).value[i].alt != Gallery(l).value[j].alt
  {
    var g := Gallery(l).value;
    if g[i].alt == g[j].alt {
      var n := |l.title| + 1;
      assert g[i].alt[n..] == Decimal(i + 1);
      assert g[j].alt[n..] == Decimal(j + 1);
      DecimalInjective(i + 1, j + 1);
    }
  }

  /** The columns the two `.eq` filters compare: a listing's id and a profile's owner. */
  function ListingKey(l: ListingRow): Uuid { l.id }
  function ProfileKey(p: ProfileRow): Uuid { p.user_id }

  /** What the page renders. */
  datatype Page =
    | NotFound
    | Detail(price: real, title: string, location: string, category: string,
             description: string, seller: string,
             gallery: Option<seq<GalleryImage>>, links: Option<ContactLinks>)

  /** The seller query: `select("name").eq("user_id", user_id).single()`, run
      only for a non-empty `user_id`; its `data` is the name or null. */
  function SellerName(profiles: seq<ProfileRow>, user_id: Uuid, succeeded: bool): Option<string> {
    if user_id == "" || !succeeded then None
    else match Single(profiles, ProfileKey, user_id)
      case Some(p) => Some(p.name)
      case None => None
  }

  /** `seller?.name || "Unknown"`. */
  function SellerLine(seller: Option<string>): (s: string)
    ensures s != ""
    ensures seller.Some? && seller.value != "" ==> s == seller.value
    ensures seller.None? || seller.value == "" ==> s == "Unknown"
  {
    OrElse(seller.GetOr(""), "Unknown")
  }

  /** The page for route parameter `id`: the listing query runs only for a
      non-empty id and yields the row or null; null shows "Listing not found".
      `listingOk` and `sellerOk` say whether the two requests succeed. */
  function DetailPage(listings: seq<ListingRow>, profiles: seq<ProfileRow>, id: Uuid,
                      listingOk: bool, sellerOk: bool, encode: string -> string): Page
  {
    var found := if id != "" && listingOk then Single(listings, ListingKey, id) else None;
    match found
    case None => NotFound
    case Some(l) =>
      Detail(l.price, l.title, OrElse(l.location, "N/A"), l.category,
             OrElse(l.description, "No description provided."),
             SellerLine(SellerName(profiles, l.user_id, sellerOk)),
             Gallery(l), Links(l, encode))
  }

  /** The page shows a listing exactly when the id is non-empty, the request
      succeeds and exactly one row, stored once, has that id; it then shows
      that row as `ShowsListing` says. */
  lemma DetailPageSpec(listings: seq<ListingRow>, profiles: seq<ProfileRow>, id: Uuid,
                       listingOk: bool, sellerOk: bool, encode: string -> string)
    ensures var page := DetailPage(listings, profiles, id, listingOk, sellerOk, encode);
      page.Detail? <==> id != "" && listingOk && |Matching(listings, ListingKey, id)| == 1
    ensures var page := DetailPage(listings, profiles, id, listingOk, sellerOk, encode);
      page.Detail? <==> (id != "" && listingOk && exists l :: OnlyMatch(listings, ListingKey, id, l))
    ensures var page := DetailPage(listings, profiles, id, listingOk, sellerOk, encode);
      page.Detail? ==>
        exists l :: ShowsListing(page, l, profiles, sellerOk, encode) && l in listings && l.id == id
  {
    ExactlyOneMatch(listings, ListingKey, id);
    var page := DetailPage(listings, profiles, id, listingOk, sellerOk, encode);
    if page.Detail? {
      var l := Single(listings, ListingKey, id).value;
      assert ShowsListing(page, l, profiles, sellerOk, encode);
    }
  }

  /** The page shows row `l`: its columns, "N/A" for an empty location,
      "No description provided." for an empty description, and for the seller
      the name of the owner's one profile, or "Unknown" when that name is empty,
      the seller request fails or is not run, or not exactly one profile matches;
      the row's images in stored order (no gallery without images) and the
      contact links of its number. */
  ghost predicate ShowsListing(page: Page, l: ListingRow, profiles: seq<ProfileRow>, sellerOk: bool,
                               encode: string -> string)
    requires page.Detail?
  {
    && page.title == l.title && page.price == l.price && page.category == l.category
    && page.location == (if l.location == "" then "N/A" else l.location)
    && page.description == (if l.description == "" then "No description provided." else l.description)
    && ((|| !sellerOk || l.user_id == ""
         || |Matching(profiles, ProfileKey, l.user_id)| != 1)
        ==> page.seller == "Unknown")
    && (forall p :: (&& sellerOk && l.user_id != "" && p in profiles && p.user_id == l.user_id
                     && |Matching(profiles, ProfileKey, l.user_id)| == 1)
                    ==> page.seller == (if p.name == "" then "Unknown" else p.name))
    && (page.gallery.Some? <==> |l.images| > 0)
    && (page.gallery.Some? ==> && |page.gallery.value| == |l.images|
                               && forall i :: 0 <= i < |l.images| ==>
                                    && page.gallery.value[i].src == l.images[i]
                                    && page.gallery.value[i].alt == l.title + " " + Decimal(i + 1))
    && page.links == Links(l, encode)
  }
}
