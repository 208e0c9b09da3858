/** What the list pages share: a `select` with `eq`/`ilike` filters is a
    filter over the table's rows, `order("created_at", { ascending: false })`
    is an ordering newest first, and the card shows a thumbnail or a
    placeholder and falls back on display text for empty columns. */
module ListingViews {
  import opened Types

  // ---------------------------------------------------------------- filter

  /** The rows that satisfy `p`, in table order. */
  function Filter(rows: seq<ListingRow>, p: ListingRow -> bool): (r: seq<ListingRow>)
    ensures |r| <= |rows|
    ensures forall l :: l in r <==> l in rows && p(l)
    ensures multiset(r) <= multiset(rows)
    ensures forall l :: l in rows && p(l) ==> multiset(r)[l] == multiset(rows)[l]
  {
    if rows == [] then []
    else
      assert rows == [rows[0]] + rows[1..];
      if p(rows[0]) then [rows[0]] + Filter(rows[1..], p) else Filter(rows[1..], p)
  }

  // ---------------------------------------------------------------- order

  /** Ordered by `created_at`, newest first. */
  ghost predicate NewestFirst(s: seq<ListingRow>) {
    forall i, j :: 0 <= i < j < |s| ==> s[i].created_at >= s[j].created_at
  }

  /** Places `x` before the first row that is not newer than it. */
  function InsertByDate(x: ListingRow, s: seq<ListingRow>): (r: seq<ListingRow>)
    ensures multiset(r) == multiset(s) + multiset{x}
    ensures |r| == |s| + 1
    ensures r[0] == x || (s != [] && r[0] == s[0])
  {
    if s == [] || x.created_at >= s[0].created_at then [x] + s
    else
      assert s == [s[0]] + s[1..];
      [s[0]] + InsertByDate(x, s[1..])
  }

  /** A row at least as new as the head of a newest-first sequence can go in front. */
  lemma PrependKeepsOrder(x: ListingRow, s: seq<ListingRow>)
    requires NewestFirst(s)
    requires s == [] || x.created_at >= s[0].created_at
    ensures NewestFirst([x] + s)
  {
    var r := [x] + s;
    forall i, j | 0 <= i < j < |r| ensures r[i].created_at >= r[j].created_at {
      assert r[j] == s[j - 1];
      if i > 0 {
        assert r[i] == s[i - 1];
      } else {
        assert s[0].created_at >= s[j - 1].created_at;
      }
    }
  }

  /** Inserting into a newest-first sequence keeps it newest first. */
  lemma {:induction false} InsertKeepsOrder(x: ListingRow, s: seq<ListingRow>)
    requires NewestFirst(s)
    ensures NewestFirst(InsertByDate(x, s))
  {
    if s != [] && x.created_at < s[0].created_at {
      InsertKeepsOrder(x, s[1..]);
      var t := InsertByDate(x, s[1..]);
      assert NewestFirst(s[1..]) by {
        forall i, j | 0 <= i < j < |s[1..]| ensures s[1..][i].created_at >= s[1..][j].created_at {
          assert s[1..][i] == s[i + 1] && s[1..][j] == s[j + 1];
        }
      }
      assert t[0] == x || t[0] == s[1];
      PrependKeepsOrder(s[0], t);
    } else {
      PrependKeepsOrder(x, s);
    }
  }

  /** The query's order: a newest-first arrangement of exactly the given rows. */
  function SortNewestFirst(s: seq<ListingRow>): (r: seq<ListingRow>)
    ensures NewestFirst(r)
    ensures multiset(r) == multiset(s)
    ensures |r| == |s|
  {
    if s == [] then []
    else
      assert s == [s[0]] + s[1..];
      InsertKeepsOrder(s[0], SortNewestFirst(s[1..]));
      InsertByDate(s[0], SortNewestFirst(s[1..]))
  }

  /** A sorted result holds a row exactly when the table does. */
  lemma {:induction false} SortedMembership(s: seq<ListingRow>, l: ListingRow)
    ensures l in SortNewestFirst(s) <==> l in s
  {
    var r := SortNewestFirst(s);
    assert l in r <==> l in multiset(r);
    assert l in s <==> l in multiset(s);
  }

  /** The query result: the rows satisfying `p`, each as often as in the
      table, newest first. */
  function Query(rows: seq<ListingRow>, p: ListingRow -> bool): (r: seq<ListingRow>)
    ensures NewestFirst(r)
    ensures forall l :: l in r <==> l in rows && p(l)
    ensures forall l :: l in rows && p(l) ==> multiset(r)[l] == multiset(rows)[l]
    ensures multiset(r) <= multiset(rows)
  {
    var f := Filter(rows, p);
    var r := SortNewestFirst(f);
    assert forall l :: l in r <==> l in f by {
      forall l ensures l in r <==> l in f { SortedMembership(f, l); }
    }
    r
  }

  // ---------------------------------------------------------------- display

  datatype Thumb = Picture(url: string) | Placeholder(text: string)

  /** `images?.[0] ? <img src=images[0]> : placeholder`: the first image when
      there is one and its URL is not the empty (falsy) string. */
  function Thumbnail(images: seq<string>, placeholder: string): (t: Thumb)
    ensures t.Picture? <==> |images| > 0 && images[0] != ""
    ensures t.Picture? ==> t.url == images[0]
    ensures t.Placeholder? ==> t.text == placeholder
  {
    if |images| > 0 && images[0] != "" then Picture(images[0]) else Placeholder(placeholder)
  }

  /** `value || fallback` on a string: the empty string is falsy. */
  function OrElse(value: string, fallback: string): (r: string)
    ensures value != "" ==> r == value
    ensures value == "" ==> r == fallback
  {
    if value != "" then value else fallback
  }
}
