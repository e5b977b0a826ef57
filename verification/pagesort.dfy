/**
 * `dataset_list.sort(key=lambda x: (x['doc_name'], x['page_no']))`: a stable
 * sort of the pages by document name, then page number. The source calls
 * Python's built-in (stable) sort; the model is an insertion sort, and
 * `StableSortUnique` shows that every stable sort yields the same list.
 */
module PageSort {
  import opened Strings
  import opened Records

  /** The sort key `(doc_name, page_no)`. */
  datatype PageKey = PageKey(doc: string, pageNo: int)

  function Key(p: Page): PageKey {
    PageKey(p.docName, p.pageNo)
  }

  /** Python's `<=` on the tuple `(doc_name, page_no)`. */
  predicate KeyLe(a: PageKey, b: PageKey) {
    StrLt(a.doc, b.doc) || (a.doc == b.doc && a.pageNo <= b.pageNo)
  }

  lemma KeyLeTransitive(a: PageKey, b: PageKey, c: PageKey)
    requires KeyLe(a, b) && KeyLe(b, c)
    ensures KeyLe(a, c)
  {
    if StrLt(a.doc, b.doc) && StrLt(b.doc, c.doc) {
      StrLtTransitive(a.doc, b.doc, c.doc);
    }
  }

  lemma KeyLeTotal(a: PageKey, b: PageKey)
    ensures KeyLe(a, b) || KeyLe(b, a)
  {
    StrLtTotal(a.doc, b.doc);
  }

  lemma KeyLeAntisymmetric(a: PageKey, b: PageKey)
    requires KeyLe(a, b) && KeyLe(b, a)
    ensures a == b
  {
    if StrLt(a.doc, b.doc) {
      StrLtAsymmetric(a.doc, b.doc);
    } else if StrLt(b.doc, a.doc) {
      StrLtAsymmetric(b.doc, a.doc);
    }
  }

  ghost predicate Sorted(s: seq<Page>) {
    forall i, j :: 0 <= i < j < |s| ==> KeyLe(Key(s[i]), Key(s[j]))
  }

  /** The pages of `s` whose key is `k`, in their order in `s`. */
  function FilterKey(s: seq<Page>, k: PageKey): seq<Page> {
    if s == [] then []
    else (if Key(s[0]) == k then [s[0]] else []) + FilterKey(s[1..], k)
  }

  /** Stability: every group of equal keys keeps its relative order. */
  ghost predicate SameKeyOrder(a: seq<Page>, b: seq<Page>) {
    forall k :: FilterKey(a, k) == FilterKey(b, k)
  }

  /** Puts `p` in front of the first page whose key is not below its own. */
  function Insert(p: Page, s: seq<Page>): seq<Page> {
    if s == [] || KeyLe(Key(p), Key(s[0])) then [p] + s
    else [s[0]] + Insert(p, s[1..])
  }

  function SortPages(ps: seq<Page>): seq<Page> {
    if ps == [] then [] else Insert(ps[0], SortPages(ps[1..]))
  }

  lemma {:induction false} InsertPermutes(p: Page, s: seq<Page>)
    ensures multiset(Insert(p, s)) == multiset(s) + multiset{p}
  {
    if s == [] || KeyLe(Key(p), Key(s[0])) {
    } else {
      InsertPermutes(p, s[1..]);
      assert s == [s[0]] + s[1..];
    }
  }

  lemma {:induction false} InsertSorted(p: Page, s: seq<Page>)
    requires Sorted(s)
    ensures Sorted(Insert(p, s))
  {
    if s == [] || KeyLe(Key(p), Key(s[0])) {
      forall j | 0 <= j < |s|
        ensures KeyLe(Key(p), Key(s[j]))
      {
        if j > 0 {
          KeyLeTransitive(Key(p), Key(s[0]), Key(s[j]));
        }
      }
    } else {
      KeyLeTotal(Key(p), Key(s[0]));
      InsertSorted(p, s[1..]);
      InsertPermutes(p, s[1..]);
      var t := Insert(p, s[1..]);
      forall j | 0 <= j < |t|
        ensures KeyLe(Key(s[0]), Key(t[j]))
      {
        assert t[j] in multiset(t);
        if t[j] != p {
          assert t[j] in multiset(s[1..]);
          var m :| 0 <= m < |s[1..]| && s[1..][m] == t[j];
          assert s[m + 1] == t[j];
        }
      }
      var r := [s[0]] + t;
      forall i, j | 0 <= i < j < |r|
        ensures KeyLe(Key(r[i]), Key(r[j]))
      {
        if i > 0 {
          assert r[i] == t[i - 1] && r[j] == t[j - 1];
        }
      }
    }
  }

  lemma FilterKeyCons(x: Page, s: seq<Page>, k: PageKey)
    ensures FilterKey([x] + s, k) == (if Key(x) == k then [x] else []) + FilterKey(s, k)
  {
    assert ([x] + s)[1..] == s;
  }

  /** Inserting `p` skips only pages with a different key, so no key group is reordered. */
  lemma {:induction false} InsertKeepsKeyOrder(p: Page, s: seq<Page>, k: PageKey)
    ensures FilterKey(Insert(p, s), k) == FilterKey([p] + s, k)
  {
    if s == [] || KeyLe(Key(p), Key(s[0])) {
    } else {
      assert Key(s[0]) != Key(p);
      InsertKeepsKeyOrder(p, s[1..], k);
      FilterKeyCons(s[0], Insert(p, s[1..]), k);
      FilterKeyCons(p, s[1..], k);
      FilterKeyCons(p, s, k);
      assert s == [s[0]] + s[1..];
      FilterKeyCons(s[0], s[1..], k);
    }
  }

  /** The page list the converter iterates over is a sorted, stable permutation of its input. */
  lemma {:induction false} SortPagesIsStableSort(ps: seq<Page>)
    ensures Sorted(SortPages(ps))
    ensures multiset(SortPages(ps)) == multiset(ps)
    ensures SameKeyOrder(SortPages(ps), ps)
  {
    if ps != [] {
      var rest := SortPages(ps[1..]);
      SortPagesIsStableSort(ps[1..]);
      InsertSorted(ps[0], rest);
      InsertPermutes(ps[0], rest);
      assert ps == [ps[0]] + ps[1..];
      forall k
        ensures FilterKey(SortPages(ps), k) == FilterKey(ps, k)
      {
        InsertKeepsKeyOrder(ps[0], rest, k);
        FilterKeyCons(ps[0], rest, k);
      }
    }
  }

  lemma FilterKeyMember(s: seq<Page>, k: PageKey, x: Page)
    requires x in FilterKey(s, k)
    ensures x in s && Key(x) == k
  {
    if s != [] && x != s[0] {
      FilterKeyMember(s[1..], k, x);
    }
  }

  /** The first page of a sorted list has a key no greater than that of any of its pages. */
  lemma SortedHeadIsLeast(s: seq<Page>, x: Page)
    requires Sorted(s) && x in s
    ensures KeyLe(Key(s[0]), Key(x))
  {
    var m :| 0 <= m < |s| && s[m] == x;
  }

  /** Two sorted lists with the same key groups start with the same page. */
  lemma SameHead(a: seq<Page>, b: seq<Page>)
    requires Sorted(a) && Sorted(b) && SameKeyOrder(a, b)
    requires a != [] && b != []
    ensures a[0] == b[0]
  {
    assert FilterKey(a, Key(a[0]))[0] == a[0];
    assert FilterKey(b, Key(a[0])) == FilterKey(a, Key(a[0]));
    FilterKeyMember(b, Key(a[0]), a[0]);
    assert FilterKey(b, Key(b[0]))[0] == b[0];
    assert FilterKey(a, Key(b[0])) == FilterKey(b, Key(b[0]));
    FilterKeyMember(a, Key(b[0]), b[0]);
    SortedHeadIsLeast(b, a[0]);
    SortedHeadIsLeast(a, b[0]);
    KeyLeAntisymmetric(Key(a[0]), Key(b[0]));
    assert FilterKey(a, Key(a[0]))[0] == FilterKey(b, Key(a[0]))[0];
  }

  lemma SameKeyOrderTails(a: seq<Page>, b: seq<Page>)
    requires a != [] && b != [] && a[0] == b[0]
    requires SameKeyOrder(a, b)
    ensures SameKeyOrder(a[1..], b[1..])
  {
    forall k
      ensures FilterKey(a[1..], k) == FilterKey(b[1..], k)
    {
      assert FilterKey(a, k) == FilterKey(b, k);
      assert a == [a[0]] + a[1..] && b == [b[0]] + b[1..];
      FilterKeyCons(a[0], a[1..], k);
      FilterKeyCons(b[0], b[1..], k);
      var h := if Key(a[0]) == k then [a[0]] else [];
      assert FilterKey(a[1..], k) == (h + FilterKey(a[1..], k))[|h|..];
      assert FilterKey(b[1..], k) == (h + FilterKey(b[1..], k))[|h|..];
    }
  }

  lemma OwnGroupNonEmpty(s: seq<Page>)
    requires s != []
    ensures FilterKey(s, Key(s[0])) != []
  {
  }

  /**
   * A sorted list is determined by its key groups: two sorted lists with the
   * same pages in every key group are equal. Hence any stable sort of the
   * pages, Python's included, produces `SortPages`.
   */
  lemma {:induction false} StableSortUnique(a: seq<Page>, b: seq<Page>)
    requires Sorted(a) && Sorted(b)
    requires SameKeyOrder(a, b)
    ensures a == b
    decreases |a|
  {
    if a == [] && b == [] {
    } else if a == [] || b == [] {
      OwnGroupNonEmpty(if a != [] then a else b);
      assert false;
    } else {
      SameHead(a, b);
      SameKeyOrderTails(a, b);
      assert Sorted(a[1..]) && Sorted(b[1..]);
      StableSortUnique(a[1..], b[1..]);
      assert a == [a[0]] + a[1..] && b == [b[0]] + b[1..];
    }
  }

  lemma {:induction false} InsertKeepsObjectCounts(p: Page, s: seq<Page>, d: string)
    ensures TotalObjects(Insert(p, s)) == |p.objects| + TotalObjects(s)
    ensures DocObjects(Insert(p, s), d) == (if p.docName == d then |p.objects| else 0) + DocObjects(s, d)
  {
    if s == [] || KeyLe(Key(p), Key(s[0])) {
      assert ([p] + s)[1..] == s;
    } else {
      InsertKeepsObjectCounts(p, s[1..], d);
      assert ([s[0]] + Insert(p, s[1..]))[1..] == Insert(p, s[1..]);
    }
  }

  /** Sorting neither adds nor drops objects, overall or per document. */
  lemma {:induction false} SortKeepsObjectCounts(ps: seq<Page>, d: string)
    ensures TotalObjects(SortPages(ps)) == TotalObjects(ps)
    ensures DocObjects(SortPages(ps), d) == DocObjects(ps, d)
  {
    if ps != [] {
      SortKeepsObjectCounts(ps[1..], d);
      InsertKeepsObjectCounts(ps[0], SortPages(ps[1..]), d);
    }
  }
}
