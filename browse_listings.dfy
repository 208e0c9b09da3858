/** The public "Browse Listings" page: the active listings, narrowed by a
    category select (where "All" means no narrowing) and a case-insensitive
    title search, newest first, each shown as a card with a thumbnail and a
    location. */
module BrowseListings {
  import opened Types
  import opened Text
  import opened Store
  import opened ListingViews
  import AddProduct

  /** The category select: "All" first, then the categories a listing can be posted in. */
  const BrowseCategories: seq<string> :=
    ["All", "Electronics", "Vehicles", "Property", "Furniture", "Fashion",
     "Books", "Sports", "Services", "Other"]

  /** The select offers "All" and exactly the posting form's categories, in the same order. */
  lemma BrowseCategoriesExtendPosting()
    ensures BrowseCategories == ["All"] + AddProduct.Categories
    ensures "All" !in AddProduct.Categories
  {
  }

  /** The query's conditions on one row: `eq("status", "active")`, then
      `eq("category", category)` unless the select says "All", then
      `ilike("title", "%search%")` unless the search box is empty. */
  predicate Shown(l: ListingRow, category: string, search: string) {
    && l.status == Active
    && (category != "All" ==> l.category == category)
    && (search != "" ==> ContainsIgnoreCase(l.title, search))
  }

  /** The page's query run on the table. */
  function Browse(rows: seq<ListingRow>, category: string, search: string): seq<ListingRow> {
    Query(rows, (l: ListingRow) => Shown(l, category, search))
  }

  /** The list the page renders: the query's rows, or `data ?? []` = no rows
      when the request fails. */
  function Fetch(rows: seq<ListingRow>, category: string, search: string, succeeded: bool): (r: seq<ListingRow>)
    ensures !succeeded ==> r == []
    ensures succeeded ==> r == Browse(rows, category, search)
    ensures succeeded ==> NewestFirst(r)
    ensures forall l :: l in r ==> l in rows && l.status == Active
  {
    if succeeded then Browse(rows, category, search) else []
  }

  /** The browse result holds exactly the active rows of the chosen category
      whose title contains the search text ignoring case, each as often as in
      the table, newest first. */
  lemma BrowseSpec(rows: seq<ListingRow>, category: string, search: string)
    ensures NewestFirst(Browse(rows, category, search))
    ensures forall l :: l in Browse(rows, category, search) <==>
      && l in rows
      && l.status == Active
      && (category != "All" ==> l.category == category)
      && (search != "" ==> exists i :: MatchAt(l.title, search, i))
    ensures forall l :: l in rows && Shown(l, category, search) ==>
      multiset(Browse(rows, category, search))[l] == multiset(rows)[l]
  {
  }

  /** "All" with an empty search box shows every active listing and nothing else. */
  lemma NoFilterShowsAllActive(rows: seq<ListingRow>)
    ensures forall l :: l in Browse(rows, "All", "") <==> l in rows && l.status == Active
  {
  }

  /** Choosing a category or typing a search only narrows the list. */
  lemma FiltersOnlyNarrow(rows: seq<ListingRow>, category: string, search: string)
    ensures multiset(Browse(rows, category, search)) <= multiset(Browse(rows, "All", ""))
  {
    var narrow := Browse(rows, category, search);
    var wide := Browse(rows, "All", "");
    forall l ensures multiset(narrow)[l] <= multiset(wide)[l] {
      if l in narrow {
        BrowseSpec(rows, category, search);
        BrowseSpec(rows, "All", "");
        assert l in rows && Shown(l, category, search) && Shown(l, "All", "");
        assert multiset(narrow)[l] == multiset(rows)[l] == multiset(wide)[l];
      }
    }
  }

  /** A listing its owner has marked sold or an admin has removed is no longer
      browsable, under any category and search. */
  lemma ClosedListingHidden(rows: seq<ListingRow>, id: Uuid, status: ListingStatus, category: string, search: string)
    requires status != Active
    ensures forall l :: l in Browse(SetStatus(rows, id, status), category, search) ==> l.id != id
  {
    var after := SetStatus(rows, id, status);
    forall l | l in Browse(after, category, search) ensures l.id != id {
      var k :| 0 <= k < |after| && after[k] == l;
    }
  }

  /** The card's image: the first stored URL, or the "No image" placeholder. */
  function CardThumbnail(l: ListingRow): (t: Thumb)
    ensures t.Picture? <==> |l.images| > 0 && l.images[0] != ""
    ensures t.Picture? ==> t.url == l.images[0]
    ensures t.Placeholder? ==> t.text == "No image"
  {
    Thumbnail(l.images, "No image")
  }

  /** The card's location line: `location || "N/A"`. */
  function CardLocation(l: ListingRow): (s: string)
    ensures s != ""
    ensures l.location != "" ==> s == l.location
    ensures l.location == "" ==> s == "N/A"
  {
    OrElse(l.location, "N/A")
  }
}
