# listing-spark client core, modelled in Dafny

listing-spark is a classified-listings web client. Users see listing-credit
packs (buying one is still a placeholder that only shows a "coming soon"
notice), spend a credit to post products with up to five images, browse active listings, and contact
sellers by phone or WhatsApp. Admins moderate listings and grant credits. The
client leaves all storage to a hosted backend: the `listings` and `profiles`
tables, an object bucket for images, and the signed-in session with its
cached profile.

This project models the client's own logic over an in-memory stand-in for
that backend:

- the posting workflow: a credit pre-check on the cached balance, one upload
  per picked file that keeps the URLs of the successful uploads in file order,
  the listing insert, and an unchecked debit that writes the *cached* balance
  minus one;
- the image picker: append and cap at five, remove by index;
- the form's field limits;
- the status actions offered to owners and admins, and the status update
  they send;
- the admin credit grant: the `parseInt` of the amount field, the `n > 0`
  guard, and the write of the displayed balance plus `n`;
- the browse query: active only, `"All"` or one category, a case-insensitive
  title search, newest first;
- the listing page: the `single()` lookups, the display fallbacks, the gallery,
  and the call and WhatsApp links built from the digits of the contact number;
- the schema's enumerations and row shapes.

Modules, one per source file, plus shared ones:

| file | module | models |
|---|---|---|
| `wrappers.dfy` | `Wrappers` | `Option`, TypeScript's `??` |
| `types.dfy` | `Types` | `src/integrations/supabase/types.ts` |
| `text.dfy` | `Text` | JavaScript's `trim`, `\d`, ASCII `ilike` matching, `String(n)` |
| `listing_views.dfy` | `ListingViews` | `select` filters, `order("created_at", desc)`, thumbnails, `||` fallbacks |
| `store.dfy` | `Store` | the backend tables and bucket (class `Backend`), the session (class `Session`) |
| `add_product.dfy` | `AddProduct` | `src/pages/AddProduct.tsx` |
| `my_listings.dfy` | `MyListings` | `src/pages/MyListings.tsx` |
| `admin_listings.dfy` | `AdminListings` | `src/pages/admin/AdminListings.tsx` |
| `admin_users.dfy` | `AdminUsers` | `src/pages/admin/AdminUsers.tsx` |
| `browse_listings.dfy` | `BrowseListings` | `src/pages/BrowseListings.tsx` |
| `listing_detail.dfy` | `ListingDetail` | `src/pages/ListingDetail.tsx` |

State that the source changes in place is held in two classes.
`Store.Backend` has the `listings` and `profiles` tables as sequences of rows
and the image bucket as a map from path to file. `Store.Session` has the
signed-in user and the cached profile. Each remote call is one `Backend`
method with an outcome parameter: a failed call changes nothing. The posting
workflow `AddProduct.Submit` is a method over both objects. Its upload loop
`AddProduct.UploadImages` is a `while` loop proved against the functions
`KeptUrls` and `StoredObjects`. The backend work past the credit check
(uploads, insert, debit) is `AddProduct.PostListing`. The rest of the core (filters, guards,
fallbacks, link building) is pure, and is modelled as functions with lemmas.

Some inputs are decided outside the client: the clock, the random token, each
call's success, the id and time the database gives a new row, the
bucket's public URL, `parseFloat` of the price text, and `encodeURIComponent`.
These are parameters.

A hardened client would make the insert and the debit one atomic step, and
the balance changes atomic increments. The code does neither. It sends the
insert and then a separate write of the cached balance minus one, whose
result it ignores. The admin grant likewise writes the balance the table
showed plus `n`. The model follows the code.

## Model

| member | source | states |
|---|---|---|
| Types.StatusFromName | src/integrations/supabase/types.ts:203-206 | a text is a listing status exactly when it is one of `active`, `sold`, `removed`, and it reads back as that name |
| Types.RoleFromName | src/integrations/supabase/types.ts:203-206 | a text is an app role exactly when it is one of `admin`, `moderator`, `user`, and it reads back as that name |
| Types.PaymentStatusFromName | src/integrations/supabase/types.ts:203-206 | a text is a payment status exactly when it is one of `pending`, `success`, `failed`, and it reads back as that name |
| Types.ConstantsListEnums | src/integrations/supabase/types.ts:331-339 | each `Constants` list has three names, naming the enumeration's members one for one in declaration order |
| Types.EnumsAreListed | src/integrations/supabase/types.ts:203-206 | every member of each enumeration is in its list, and its name parses back to it |
| Types.InsertRoundTrip | src/integrations/supabase/types.ts:51-78 | an insert that gives every column stores exactly that row |
| Types.MinimalInsertDefaults | src/integrations/supabase/types.ts:65-78 | an insert of the four required columns stores an active listing with no images and empty text columns, keeping the four given columns |
| Types.PackOf | src/integrations/supabase/types.ts:162-170 | a transaction without `pack_id` has no pack; a pack found has the referenced id and is in the table; none is found only when no pack has that id |
| Text.Trim | src/pages/AddProduct.tsx:72-78 | the trimmed text is a contiguous part of the input, cut only at whitespace, and neither starts nor ends with whitespace |
| Text.TrimIdempotent | src/pages/AddProduct.tsx:72-78 | trimming a trimmed text changes nothing |
| Text.ContainsIgnoreCase | src/pages/BrowseListings.tsx:38 | true exactly when the needle occurs at some position of the title, ignoring ASCII case |
| Text.EmptyNeedleAlwaysMatches | src/pages/BrowseListings.tsx:38 | an empty search text occurs in every title |
| Text.Decimal | src/pages/AddProduct.tsx:57 | `String(n)` is a non-empty run of decimal digits with no leading zero unless `n` is 0 |
| Text.DecimalInjective | src/pages/ListingDetail.tsx:61 | different numbers are written differently |
| ListingViews.Filter | src/pages/BrowseListings.tsx:31-38 | the filtered rows are exactly the rows satisfying the condition, each as often as in the table |
| ListingViews.InsertKeepsOrder | src/pages/BrowseListings.tsx:35 | inserting a row by date into a newest-first list keeps it newest first |
| ListingViews.SortNewestFirst | src/pages/BrowseListings.tsx:35 | the ordered rows are newest first and a permutation of the input |
| ListingViews.SortedMembership | src/pages/BrowseListings.tsx:35 | ordering loses and adds no row |
| ListingViews.Query | src/pages/BrowseListings.tsx:31-41 | the result is newest first, holds a row exactly when the table does and the condition holds, each such row as often as stored |
| ListingViews.Thumbnail | src/pages/BrowseListings.tsx:87-98 | the first image is shown exactly when there is one and its URL is not empty; otherwise the placeholder |
| ListingViews.OrElse | src/pages/BrowseListings.tsx:105 | a non-empty value is shown as is, an empty one as the fallback |
| Store.SetStatus | src/pages/MyListings.tsx:30 | the update sets `status` on every row with that id and leaves every other row as it was; the table keeps its length |
| Store.SetStatusIdempotent | src/pages/admin/AdminListings.tsx:23 | applying the same status update twice is applying it once |
| Store.SetStatusKeepsOtherColumns | src/pages/MyListings.tsx:30 | a status update changes no column but `status`, and `status` only on rows of that id |
| Store.SetCredits | src/pages/admin/AdminUsers.tsx:25-28 | the update sets the balance on every profile of that user and leaves every other profile as it was |
| Store.FindProfileSpec | src/pages/AddProduct.tsx:93 | a profile found belongs to that user and is in the table; none is found only when the table has no profile of that user |
| Store.SetCreditsThenFind | src/pages/AddProduct.tsx:88-93 | after a balance write, the profile read back is the one read before, carrying the written balance |
| Store.Backend.Upload | src/pages/AddProduct.tsx:58-60 | a successful upload stores the file at its path; a failed one changes nothing |
| Store.Backend.InsertListing | src/pages/AddProduct.tsx:70-79 | a successful insert appends the row the insert denotes; a failed one changes nothing |
| Store.Backend.UpdateListingStatus | src/pages/MyListings.tsx:30 | a successful update applies `SetStatus`; a failed one changes nothing |
| Store.Backend.UpdateCredits | src/pages/AddProduct.tsx:88-91 | a successful update applies `SetCredits`; a failed one changes nothing |
| Store.Session.RefreshProfile | src/pages/AddProduct.tsx:93 | the cached profile becomes the signed-in user's stored profile |
| AddProduct.AddImages | src/pages/AddProduct.tsx:33-36 | the picker holds at most five files, a prefix of the old files followed by the new ones, and the old files stay a prefix |
| AddProduct.AddImagesTwice | src/pages/AddProduct.tsx:33-36 | picking files in two rounds gives the same list as picking them all at once |
| AddProduct.RemoveImageSpec | src/pages/AddProduct.tsx:38-40 | removing an index in range drops exactly that file and keeps the others in order; an index out of range removes nothing |
| AddProduct.ExtensionShape | src/pages/AddProduct.tsx:56 | the extension holds no dot, ends the name, and is the whole name when the name has no dot |
| AddProduct.UploadPath | src/pages/AddProduct.tsx:57 | every upload path starts with the user id and `/` and ends with `.` and the extension |
| AddProduct.KeptUrlsAppend | src/pages/AddProduct.tsx:54-67 | uploading two batches in turn keeps the first batch's URLs followed by the second's |
| AddProduct.KeptUrlsCount | src/pages/AddProduct.tsx:54-67 | there is one URL per successful upload: one per file when all succeed, none when all fail |
| AddProduct.KeptUrlsAllSucceeded | src/pages/AddProduct.tsx:54-67 | when every upload succeeds, the k-th URL is the k-th file's |
| AddProduct.KeptUrlsFromSuccesses | src/pages/AddProduct.tsx:61-66 | every kept URL is the public URL of a file whose upload succeeded |
| AddProduct.NewListingShape | src/pages/AddProduct.tsx:70-79 | a posted listing is the poster's active listing with the kept URLs, and an acceptable form keeps every stored column within its limit |
| AddProduct.UploadImages | src/pages/AddProduct.tsx:54-67 | the loop collects exactly the kept URLs and leaves the bucket as `StoredObjects`, which the three `StoredObjects*` lemmas characterise |
| AddProduct.StoredObjectsKeys | src/pages/AddProduct.tsx:54-63 | after the uploads the bucket holds the paths it held plus the path of each successful upload, and no other |
| AddProduct.StoredObjectsUntouched | src/pages/AddProduct.tsx:54-63 | a path no successful upload writes keeps its old object |
| AddProduct.StoredObjectsLastWrite | src/pages/AddProduct.tsx:54-63 | a successful upload's file is stored at its path unless a later successful upload writes the same path |
| AddProduct.PostListing | src/pages/AddProduct.tsx:52-90 | every successful upload is stored; the listing, holding the kept URLs, is appended exactly when the insert succeeds; cached balance − 1 is written only after a successful insert and only if that write succeeds |
| AddProduct.Submit | src/pages/AddProduct.tsx:42-97 | no user or profile, or a cached balance ≤ 0: nothing changes; otherwise the successful uploads are stored, and stay stored whether or not the insert then succeeds; a failed insert stops before the debit; a successful insert appends the new listing, writes cached balance − 1 unless that write fails, and re-reads the profile |
| MyListings.OfferedTargets | src/pages/MyListings.tsx:80-98 | "sold" is offered exactly while active, "removed" exactly while not removed; exactly the forward moves are offered, so a removed listing offers none |
| MyListings.UpdateStatus | src/pages/MyListings.tsx:28-37 | the result is `Updated` exactly on success, which applies the status update; a failure changes nothing |
| MyListings.OfferedUpdateMovesForward | src/pages/MyListings.tsx:80-98 | an offered action moves the listing forward, sets exactly its status, and a removed listing then offers nothing |
| MyListings.OwnerViewSpec | src/pages/MyListings.tsx:15-26 | a failed request shows no rows (`data ?? []`); otherwise exactly the user's listings in every status, each as often as stored, newest first |
| MyListings.StatusColor | src/pages/MyListings.tsx:76 | a status name has a non-empty colour class, any other text the empty one |
| MyListings.StatusColorsDistinct | src/pages/MyListings.tsx:39-43 | different statuses have different colours |
| MyListings.CardThumbnail | src/pages/MyListings.tsx:65-71 | the picture is `images[0]` when there is one and it is not empty, otherwise "No img" |
| AdminListings.AdminView | src/pages/admin/AdminListings.tsx:13-19 | a failed request shows no rows (`data ?? []`); otherwise all listings, whatever their status, newest first and a permutation of the table |
| AdminListings.DeleteListing | src/pages/admin/AdminListings.tsx:21-30 | the result is `Updated` exactly on success, which sets `removed` on the rows of that id; a failure changes nothing |
| AdminListings.RemovalNotReoffered | src/pages/admin/AdminListings.tsx:56-60 | after a removal no row of that id offers the button, and other rows keep theirs |
| AdminUsers.ParseUnsignedDecimal | src/pages/admin/AdminUsers.tsx:70 | the digits `String(n)` writes read back as `n` |
| AdminUsers.ParseIntOfUnsigned | src/pages/admin/AdminUsers.tsx:70 | a text that starts with a digit parses to the value of its leading digits |
| AdminUsers.ParseIntDecimal | src/pages/admin/AdminUsers.tsx:70 | `parseInt(String(n)) == n` |
| AdminUsers.ParseIntNegatedDecimal | src/pages/admin/AdminUsers.tsx:70 | `parseInt("-" + String(n)) == -n` |
| AdminUsers.NoDigitNoNumber | src/pages/admin/AdminUsers.tsx:70 | a text with no digit parses to `NaN` |
| AdminUsers.SetAmountText | src/pages/admin/AdminUsers.tsx:65 | typing into one user's field sets that user's entry and keeps every other entry |
| AdminUsers.GrantAmount | src/pages/admin/AdminUsers.tsx:70-71 | a grant is issued exactly when the field's text parses to a number > 0, and is that number; a user with no entry gets none |
| AdminUsers.TypedNumberIsGranted | src/pages/admin/AdminUsers.tsx:64-71 | typing a positive number makes that user's click grant it and leaves every other user's click as it was |
| AdminUsers.NoGrantWithoutPositive | src/pages/admin/AdminUsers.tsx:70-71 | a negative number or a text with no digit is never granted |
| AdminUsers.AddCredits | src/pages/admin/AdminUsers.tsx:23-30 | the result is `Updated` exactly on success, which writes `current + credits` to that user's profiles; a failure changes nothing |
| AdminUsers.Grant | src/pages/admin/AdminUsers.tsx:71 | no amount, no write and `NoGrant`; with an amount, a failed mutation changes nothing and a successful one writes the displayed balance plus that amount |
| AdminUsers.ClickAdd | src/pages/admin/AdminUsers.tsx:67-72 | no positive amount, no write; otherwise the displayed balance plus the amount, which is greater than the displayed balance, is written on success |
| BrowseListings.BrowseCategoriesExtendPosting | src/pages/BrowseListings.tsx:11-22 | the select offers "All" followed by exactly the posting form's categories, and "All" is not a category |
| BrowseListings.Fetch | src/pages/BrowseListings.tsx:30-42 | a failed request shows no rows; a successful one shows exactly the `Browse` result for the chosen category and search (which `BrowseSpec` characterises), newest first, and only active rows of the table |
| BrowseListings.BrowseSpec | src/pages/BrowseListings.tsx:31-38 | the result holds exactly the active rows of the chosen category (any for "All") whose title contains the search text ignoring case (any for an empty search), each as often as stored, newest first |
| BrowseListings.NoFilterShowsAllActive | src/pages/BrowseListings.tsx:37-38 | "All" with an empty search shows every active listing and nothing else |
| BrowseListings.FiltersOnlyNarrow | src/pages/BrowseListings.tsx:37-38 | choosing a category or typing a search only removes rows from the unfiltered list |
| BrowseListings.ClosedListingHidden | src/pages/BrowseListings.tsx:34 | once a listing is marked sold or removed, no browse shows it |
| BrowseListings.CardThumbnail | src/pages/BrowseListings.tsx:87-98 | the first image when there is one and it is not empty, otherwise "No image" |
| BrowseListings.CardLocation | src/pages/BrowseListings.tsx:105 | the location when it is not empty, otherwise "N/A" |
| ListingDetail.Matching | src/pages/ListingDetail.tsx:16 | the matching rows are exactly the rows whose key is the wanted value, each as often as it is stored |
| ListingDetail.Single | src/pages/ListingDetail.tsx:16 | a row is returned exactly when exactly one row matches; it matches, is stored once, and every matching row equals it; no match gives none |
| ListingDetail.ExactlyOneMatch | src/pages/ListingDetail.tsx:16 | one match exactly when some row has the key, is stored once, and no other row has the key |
| ListingDetail.Digits | src/pages/ListingDetail.tsx:47 | the phone number holds only decimal digits |
| ListingDetail.DigitsAppend | src/pages/ListingDetail.tsx:47 | the digits of a concatenation are the concatenated digits |
| ListingDetail.DigitsOfDigits | src/pages/ListingDetail.tsx:47 | a text of digits is kept whole |
| ListingDetail.DigitsIdempotent | src/pages/ListingDetail.tsx:47 | stripping non-digits twice is stripping them once |
| ListingDetail.DigitsKeepOrder | src/pages/ListingDetail.tsx:47 | every digit of the contact number is kept, at the place the digits before it give |
| ListingDetail.DigitsEmpty | src/pages/ListingDetail.tsx:47 | the phone number is empty exactly when the contact number has no digit |
| ListingDetail.Links | src/pages/ListingDetail.tsx:93-110 | the links are shown exactly when the contact number has a digit; the call link is `tel:+91` and the digits, the WhatsApp link `https://wa.me/91`, the digits and the encoded message |
| ListingDetail.CallDialsContactDigits | src/pages/ListingDetail.tsx:96 | the call link dials 91 followed by exactly the contact number's digits, and is all digits after `tel:+91` |
| ListingDetail.Gallery | src/pages/ListingDetail.tsx:55-64 | a gallery is shown exactly when there is an image; picture i is image i with alt text "title i+1" |
| ListingDetail.GalleryDistinctAlts | src/pages/ListingDetail.tsx:61 | no two pictures share an alt text |
| ListingDetail.SellerLine | src/pages/ListingDetail.tsx:90 | the seller's name when there is a non-empty one, otherwise "Unknown" |
| ListingDetail.DetailPageSpec | src/pages/ListingDetail.tsx:13-90 | the page shows a listing exactly when the id is non-empty, the request succeeds and exactly one row, stored once, has the id; it then shows that row's columns, "N/A" and "No description provided." for an empty location and description, and the seller's name, or "Unknown" when the seller request fails or is not run, not exactly one profile matches, or the name is empty; the gallery holds the row's images in stored order with alt texts "title 1", "title 2", …, and is absent when there are none; the contact links are those `Links` builds from the row's number |

## Left out

- The backend's internals (SQL, row-level security, storage, auth) are not modelled. Each call is a method with an outcome parameter.
- Rendering, hooks, loading spinners, toasts, dialogs, navigation and react-query cache invalidation are UI and not modelled. A failed mutation's thrown error is the `Error` result.
- `Date.now()` and `Math.random().toString(36).slice(2)` in upload paths are parameters (`UploadEnv`).
- `parseFloat(form.price)` is floating point: the submitted price is a parameter. The `step="0.01"` check is stated on that number.
- `encodeURIComponent` is a foreign call, and a parameter of `ListingDetail.Links`.
- `toLocaleString` and `toLocaleDateString` formatting is not modelled.
- `ilike` is modelled as an ASCII case-insensitive substring test. Postgres collation and the wildcard meaning of `%`, `_` and `*` (which PostgREST reads as `%`) inside the search text are left out.
- The `maxLength` limits count UTF-16 code units; the model counts characters.
- `AdminUsers.ParseInt` reads an exact integer. JavaScript's `parseInt` loses precision above 2^53, which is not modelled.
- Postgres returns rows with equal `created_at` in an unspecified order. The model fixes one order, and its lemmas state only the newest-first property and the multiset of rows.
- Timestamps are natural numbers, not ISO strings, and the `updated_at` trigger is not modelled.
- The column defaults (a fresh id, the current time, empty text, no images, status `active`) are not visible in the client and are assumed.
- `src/contexts/AuthContext.tsx` is not part of this model. Its `refreshProfile` is modelled as a re-read of the signed-in user's profile row.
- `MyListings.StatusColor`: `statusColors` is a plain object literal, so inherited keys such as `"constructor"` would also find a value. The model keys only the three statuses.
- The admin users list order (profiles by `created_at`, newest first) and the amount field's displayed text are not modelled. They are display only.
- BuyCredits, Dashboard, AdminPacks, AdminTransactions, AdminPanel, App.tsx's routes, TopNav, BottomNav, AppLayout, Terms and Privacy are out of scope. They are thin or presentational.
- Concurrent submissions and lost updates on the balance are not modelled. Each workflow runs alone.
- Hardened behaviour the code does not have is not modelled: no negative-balance floor, no atomic insert and debit, no role checks.
- The generic helper types at the end of `types.ts` and the Update shapes are not modelled. Only `listings` has an Insert shape in the model: the Insert shapes of `profiles`, `transactions` and `listing_packs` are not modelled, because no core page inserts into those tables.
