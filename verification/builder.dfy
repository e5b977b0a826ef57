/**
 * The record builder of `convert_to_parquet`: walk the sorted pages, keep a
 * per-document block counter, and emit one row per object. The fold mirrors
 * the source loop; `Origins` is an independent description of which page and
 * object each row comes from. `Traced` ties the rows to that description,
 * `CounterTracks` ties the counter to the rows, and `Numbered` states the
 * block numbering the counter produces.
 */
module Builder {
  import opened Wrappers
  import opened Strings
  import opened Records
  import opened PageSort

  /**
   * The calls the converter makes into code outside the model: the wall clock
   * (read once per page, here indexed by the page's position in the walk),
   * the MD5 hex digest of a document name, and crop-then-PNG-encode.
   */
  datatype Env = Env(clock: nat -> string, md5: string -> string, render: (Bytes, CropBox) -> Bytes)

  /** The loop state: rows emitted so far and the per-document counter. */
  datatype Acc = Acc(rows: seq<Row>, counter: map<string, nat>)

  /** The row dict for object `obj` of `page`, given its block identifier and the page's clock reading. */
  function NewRow(page: Page, obj: PageObject, blockId: string, stamp: string, env: Env): Row {
    Row(
      entityId := page.docName,
      blockId := blockId,
      timestamp := stamp,
      extendedFields := ExtendedFieldsOf(page),
      text := obj.text,
      image := env.render(page.image, CropBoxOf(obj.bbox)),
      ocrText := obj.cells,
      audio := None,
      sttText := None,
      blockType := BlockTypeOf(obj.categoryId),
      fileMd5 := env.md5(page.docName),
      pageId := page.pageNo,
      bbox := obj.bbox,
      categoryId := obj.categoryId)
  }

  /** One pass of the inner loop body: bump the document's counter, then emit the row. */
  function AddObject(acc: Acc, page: Page, obj: PageObject, stamp: string, env: Env): (r: Acc)
    requires page.docName in acc.counter
    ensures page.docName in r.counter
  {
    var k := acc.counter[page.docName] + 1;
    Acc(acc.rows + [NewRow(page, obj, BlockId(page.docName, k), stamp, env)], acc.counter[page.docName := k])
  }

  /** The inner loop over the first `n` objects of `page`. */
  function AddObjects(acc: Acc, page: Page, n: nat, stamp: string, env: Env): (r: Acc)
    requires n <= |page.objects|
    requires page.docName in acc.counter
    ensures page.docName in r.counter
    ensures |r.rows| == |acc.rows| + n
    decreases n
  {
    if n == 0 then acc
    else AddObject(AddObjects(acc, page, n - 1, stamp, env), page, page.objects[n - 1], stamp, env)
  }

  /** One pass of the outer loop body: create the document's counter at 0 if new, then all objects. */
  function AddPage(acc: Acc, page: Page, stamp: string, env: Env): Acc {
    AddObjects(OpenDocument(acc, page), page, |page.objects|, stamp, env)
  }

  /** The outer loop over the first `n` pages, starting from no rows and an empty counter. */
  function Run(ps: seq<Page>, n: nat, env: Env): Acc
    requires n <= |ps|
  {
    if n == 0 then Acc([], map[])
    else AddPage(Run(ps, n - 1, env), ps[n - 1], env.clock(n - 1), env)
  }

  /**
   * The rows `convert_to_parquet` hands to the table writer: one per object of
   * the input, so a page without objects contributes none.
   */
  function Build(pages: seq<Page>, env: Env): (rows: seq<Row>)
    ensures |rows| == TotalObjects(pages)
  {
    var sorted := SortPages(pages);
    RunLength(sorted, |sorted|, env);
    SortKeepsObjectCounts(pages, "");
    assert sorted[..|sorted|] == sorted;
    Run(sorted, |sorted|, env).rows
  }

  /** After the first `n` pages, there is one row per object of those pages. */
  lemma {:induction false} RunLength(ps: seq<Page>, n: nat, env: Env)
    requires n <= |ps|
    ensures |Run(ps, n, env).rows| == TotalObjects(ps[..n])
  {
    if n > 0 {
      RunLength(ps, n - 1, env);
      assert ps[..n] == ps[..n - 1] + [ps[n - 1]];
      ObjectCountsAppend(ps[..n - 1], ps[n - 1], "");
      var prev := Run(ps, n - 1, env);
      assert Run(ps, n, env) == AddPage(prev, ps[n - 1], env.clock(n - 1), env);
    }
  }

  /**
   * One object step appends exactly one row, of the page's document, whose
   * identifier carries the incremented counter; the document's counter goes up
   * by one and every other document's counter is untouched.
   */
  lemma AddObjectStep(acc: Acc, page: Page, obj: PageObject, stamp: string, env: Env)
    requires page.docName in acc.counter
    ensures var r := AddObject(acc, page, obj, stamp, env);
            var k := acc.counter[page.docName] + 1;
            && |r.rows| == |acc.rows| + 1
            && r.rows[..|acc.rows|] == acc.rows
            && r.rows[|acc.rows|].entityId == page.docName
            && r.rows[|acc.rows|].blockId == BlockId(page.docName, k)
            && r.counter[page.docName] == k
            && r.counter.Keys == acc.counter.Keys
            && (forall d :: d in acc.counter && d != page.docName ==> r.counter[d] == acc.counter[d])
  {
    var r := AddObject(acc, page, obj, stamp, env);
    assert r.rows[..|acc.rows|] == acc.rows;
  }

  /** Where a row comes from: the index of its page in the walk and of its object on that page. */
  datatype Origin = Origin(page: nat, obj: nat)

  ghost predicate ValidOrigin(ps: seq<Page>, o: Origin) {
    o.page < |ps| && o.obj < |ps[o.page].objects|
  }

  /** Page-then-object order. */
  ghost predicate OriginBefore(o1: Origin, o2: Origin) {
    o1.page < o2.page || (o1.page == o2.page && o1.obj < o2.obj)
  }

  /** Objects `0 .. m-1` of the page at index `j`. */
  function PageOrigins(j: nat, m: nat): seq<Origin> {
    if m == 0 then [] else PageOrigins(j, m - 1) + [Origin(j, m - 1)]
  }

  /** Every object of the first `n` pages, page by page, each page's objects in order. */
  function Origins(ps: seq<Page>, n: nat): seq<Origin>
    requires n <= |ps|
  {
    if n == 0 then [] else Origins(ps, n - 1) + PageOrigins(n - 1, |ps[n - 1].objects|)
  }

  /**
   * `row` is the row dict the inner loop builds for the object at `o`, with the
   * page's clock reading and whatever block identifier the row carries.
   */
  ghost predicate Describes(row: Row, ps: seq<Page>, o: Origin, env: Env)
    requires ValidOrigin(ps, o)
  {
    row == NewRow(ps[o.page], ps[o.page].objects[o.obj], row.blockId, env.clock(o.page), env)
  }

  /** Number of rows of document `d`. */
  function CountDoc(rows: seq<Row>, d: string): nat {
    if rows == [] then 0
    else CountDoc(rows[..|rows| - 1], d) + (if rows[|rows| - 1].entityId == d then 1 else 0)
  }

  /** Row `i`'s block number is its position among its document's rows up to it, counting from 1. */
  ghost predicate NumberedAt(rows: seq<Row>, i: nat)
    requires i < |rows|
  {
    rows[i].blockId == BlockId(rows[i].entityId, CountDoc(rows[..i + 1], rows[i].entityId))
  }

  ghost predicate Numbered(rows: seq<Row>) {
    forall i: nat :: i < |rows| ==> NumberedAt(rows, i)
  }

  /** Row `i` comes from a real object, the one `os[i]` names, and is described by it. */
  ghost predicate TracedAt(ps: seq<Page>, os: seq<Origin>, rows: seq<Row>, env: Env, i: nat)
    requires i < |os| && i < |rows|
  {
    ValidOrigin(ps, os[i]) && Describes(rows[i], ps, os[i], env)
  }

  /** Rows and origins correspond one to one, each row described by its origin. */
  ghost predicate Traced(ps: seq<Page>, os: seq<Origin>, rows: seq<Row>, env: Env) {
    |rows| == |os| && forall i: nat :: i < |os| ==> TracedAt(ps, os, rows, env, i)
  }

  /** The counter entry of document `d` is its number of rows; a document without an entry has none. */
  ghost predicate Tracks(acc: Acc, d: string) {
    if d in acc.counter then acc.counter[d] == CountDoc(acc.rows, d) else CountDoc(acc.rows, d) == 0
  }

  ghost predicate CounterTracks(acc: Acc) {
    forall d :: Tracks(acc, d)
  }

  lemma CountDocAppend(rows: seq<Row>, r: Row, d: string)
    ensures CountDoc(rows + [r], d) == CountDoc(rows, d) + (if r.entityId == d then 1 else 0)
  {
    assert (rows + [r])[..|rows|] == rows;
  }

  lemma TracedAppend(ps: seq<Page>, os: seq<Origin>, rows: seq<Row>, o: Origin, r: Row, env: Env)
    requires Traced(ps, os, rows, env)
    requires ValidOrigin(ps, o) && Describes(r, ps, o, env)
    ensures Traced(ps, os + [o], rows + [r], env)
  {
    forall i: nat | i < |os| + 1
      ensures TracedAt(ps, os + [o], rows + [r], env, i)
    {
      if i < |os| {
        assert TracedAt(ps, os, rows, env, i);
        assert (os + [o])[i] == os[i] && (rows + [r])[i] == rows[i];
      }
    }
  }

  lemma NumberedAppend(rows: seq<Row>, r: Row)
    requires Numbered(rows)
    requires r.blockId == BlockId(r.entityId, CountDoc(rows, r.entityId) + 1)
    ensures Numbered(rows + [r])
  {
    var rows' := rows + [r];
    forall i: nat | i < |rows'|
      ensures NumberedAt(rows', i)
    {
      if i < |rows| {
        assert NumberedAt(rows, i);
        assert rows'[i] == rows[i];
        assert rows'[..i + 1] == rows[..i + 1];
      } else {
        CountDocAppend(rows, r, r.entityId);
        assert rows'[..i + 1] == rows';
      }
    }
  }

  lemma CounterTracksAppend(acc: Acc, r: Row)
    requires CounterTracks(acc) && r.entityId in acc.counter
    ensures CounterTracks(Acc(acc.rows + [r], acc.counter[r.entityId := acc.counter[r.entityId] + 1]))
  {
    var acc' := Acc(acc.rows + [r], acc.counter[r.entityId := acc.counter[r.entityId] + 1]);
    forall d
      ensures Tracks(acc', d)
    {
      assert Tracks(acc, d);
      CountDocAppend(acc.rows, r, d);
      if d != r.entityId {
        assert (d in acc'.counter) == (d in acc.counter);
        assert CountDoc(acc'.rows, d) == CountDoc(acc.rows, d);
      }
    }
  }

  lemma {:induction false} AddObjectsTraced(ps: seq<Page>, os: seq<Origin>, acc: Acc, j: nat, m: nat, env: Env)
    requires j < |ps| && m <= |ps[j].objects|
    requires ps[j].docName in acc.counter
    requires Traced(ps, os, acc.rows, env)
    ensures Traced(ps, os + PageOrigins(j, m), AddObjects(acc, ps[j], m, env.clock(j), env).rows, env)
    decreases m
  {
    if m == 0 {
      assert os + PageOrigins(j, m) == os;
    } else {
      var stamp := env.clock(j);
      AddObjectsTraced(ps, os, acc, j, m - 1, env);
      var mid := AddObjects(acc, ps[j], m - 1, stamp, env);
      var k := mid.counter[ps[j].docName] + 1;
      var r := NewRow(ps[j], ps[j].objects[m - 1], BlockId(ps[j].docName, k), stamp, env);
      TracedAppend(ps, os + PageOrigins(j, m - 1), mid.rows, Origin(j, m - 1), r, env);
      assert os + PageOrigins(j, m) == (os + PageOrigins(j, m - 1)) + [Origin(j, m - 1)];
    }
  }

  lemma {:induction false} AddObjectsCounts(acc: Acc, page: Page, m: nat, stamp: string, env: Env)
    requires m <= |page.objects|
    requires page.docName in acc.counter
    requires CounterTracks(acc)
    ensures CounterTracks(AddObjects(acc, page, m, stamp, env))
    decreases m
  {
    if m > 0 {
      AddObjectsCounts(acc, page, m - 1, stamp, env);
      var mid := AddObjects(acc, page, m - 1, stamp, env);
      var k := mid.counter[page.docName] + 1;
      CounterTracksAppend(mid, NewRow(page, page.objects[m - 1], BlockId(page.docName, k), stamp, env));
    }
  }

  lemma {:induction false} AddObjectsNumbered(acc: Acc, page: Page, m: nat, stamp: string, env: Env)
    requires m <= |page.objects|
    requires page.docName in acc.counter
    requires CounterTracks(acc) && Numbered(acc.rows)
    ensures Numbered(AddObjects(acc, page, m, stamp, env).rows)
    decreases m
  {
    if m > 0 {
      AddObjectsNumbered(acc, page, m - 1, stamp, env);
      AddObjectsCounts(acc, page, m - 1, stamp, env);
      var mid := AddObjects(acc, page, m - 1, stamp, env);
      var k := mid.counter[page.docName] + 1;
      assert Tracks(mid, page.docName);
      NumberedAppend(mid.rows, NewRow(page, page.objects[m - 1], BlockId(page.docName, k), stamp, env));
    }
  }

  lemma AddPageTraced(ps: seq<Page>, os: seq<Origin>, acc: Acc, j: nat, env: Env)
    requires j < |ps|
    requires Traced(ps, os, acc.rows, env)
    ensures Traced(ps, os + PageOrigins(j, |ps[j].objects|), AddPage(acc, ps[j], env.clock(j), env).rows, env)
  {
    AddObjectsTraced(ps, os, OpenDocument(acc, ps[j]), j, |ps[j].objects|, env);
  }

  /** After the first `n` pages, the rows are exactly those the reference walk describes. */
  lemma {:induction false} RunTraced(ps: seq<Page>, n: nat, env: Env)
    requires n <= |ps|
    ensures Traced(ps, Origins(ps, n), Run(ps, n, env).rows, env)
  {
    if n > 0 {
      RunTraced(ps, n - 1, env);
      RunStepTraced(ps, n, env);
    }
  }

  lemma RunStepTraced(ps: seq<Page>, n: nat, env: Env)
    requires 0 < n <= |ps|
    requires Traced(ps, Origins(ps, n - 1), Run(ps, n - 1, env).rows, env)
    ensures Traced(ps, Origins(ps, n), Run(ps, n, env).rows, env)
  {
    var acc := Run(ps, n - 1, env);
    assert Run(ps, n, env) == AddPage(acc, ps[n - 1], env.clock(n - 1), env);
    assert Origins(ps, n) == Origins(ps, n - 1) + PageOrigins(n - 1, |ps[n - 1].objects|);
    AddPageTraced(ps, Origins(ps, n - 1), acc, n - 1, env);
  }

  /** The page step: the document's counter starts at 0 if the document is new. */
  function OpenDocument(acc: Acc, page: Page): (r: Acc)
    ensures r.rows == acc.rows && page.docName in r.counter
  {
    if page.docName !in acc.counter then Acc(acc.rows, acc.counter[page.docName := 0]) else acc
  }

  lemma OpenDocumentCounts(acc: Acc, page: Page)
    requires CounterTracks(acc)
    ensures CounterTracks(OpenDocument(acc, page))
  {
    forall d
      ensures Tracks(OpenDocument(acc, page), d)
    {
      assert Tracks(acc, d);
    }
  }

  /** After the first `n` pages, the counter holds each document's number of rows. */
  lemma {:induction false} RunCounts(ps: seq<Page>, n: nat, env: Env)
    requires n <= |ps|
    ensures CounterTracks(Run(ps, n, env))
  {
    if n > 0 {
      RunCounts(ps, n - 1, env);
      var prev := Run(ps, n - 1, env);
      assert Run(ps, n, env) == AddPage(prev, ps[n - 1], env.clock(n - 1), env);
      AddPageCounts(prev, ps[n - 1], env.clock(n - 1), env);
    }
  }

  lemma AddPageCounts(acc: Acc, page: Page, stamp: string, env: Env)
    requires CounterTracks(acc)
    ensures CounterTracks(AddPage(acc, page, stamp, env))
  {
    OpenDocumentCounts(acc, page);
    AddObjectsCounts(OpenDocument(acc, page), page, |page.objects|, stamp, env);
  }

  /** After the first `n` pages, every row is numbered within its document. */
  lemma {:induction false} RunNumbered(ps: seq<Page>, n: nat, env: Env)
    requires n <= |ps|
    ensures CounterTracks(Run(ps, n, env)) && Numbered(Run(ps, n, env).rows)
  {
    if n > 0 {
      RunNumbered(ps, n - 1, env);
      var prev := Run(ps, n - 1, env);
      assert Run(ps, n, env) == AddPage(prev, ps[n - 1], env.clock(n - 1), env);
      AddPageCounts(prev, ps[n - 1], env.clock(n - 1), env);
      AddPageNumbered(prev, ps[n - 1], env.clock(n - 1), env);
    }
  }

  lemma AddPageNumbered(acc: Acc, page: Page, stamp: string, env: Env)
    requires CounterTracks(acc) && Numbered(acc.rows)
    ensures Numbered(AddPage(acc, page, stamp, env).rows)
  {
    OpenDocumentCounts(acc, page);
    AddObjectsNumbered(OpenDocument(acc, page), page, |page.objects|, stamp, env);
  }

  lemma {:induction false} PageOriginsShape(j: nat, m: nat)
    ensures |PageOrigins(j, m)| == m
    ensures forall i :: 0 <= i < m ==> PageOrigins(j, m)[i] == Origin(j, i)
  {
    if m > 0 {
      PageOriginsShape(j, m - 1);
    }
  }

  /**
   * The reference walk lists every object of the first `n` pages exactly once,
   * in strictly increasing page-then-object order.
   */
  lemma {:induction false} OriginsShape(ps: seq<Page>, n: nat)
    requires n <= |ps|
    ensures |Origins(ps, n)| == TotalObjects(ps[..n])
    ensures forall i :: 0 <= i < |Origins(ps, n)| ==> ValidOrigin(ps, Origins(ps, n)[i]) && Origins(ps, n)[i].page < n
    ensures forall i, i' :: 0 <= i < i' < |Origins(ps, n)| ==> OriginBefore(Origins(ps, n)[i], Origins(ps, n)[i'])
    ensures forall j, o :: 0 <= j < n && 0 <= o < |ps[j].objects| ==> Origin(j, o) in Origins(ps, n)
  {
    if n > 0 {
      OriginsShape(ps, n - 1);
      var prev, page := Origins(ps, n - 1), PageOrigins(n - 1, |ps[n - 1].objects|);
      PageOriginsShape(n - 1, |ps[n - 1].objects|);
      var os := prev + page;
      assert ps[..n] == ps[..n - 1] + [ps[n - 1]];
      ObjectCountsAppend(ps[..n - 1], ps[n - 1], "");
      forall i, i' | 0 <= i < i' < |os|
        ensures OriginBefore(os[i], os[i'])
      {
        if i' < |prev| {
          assert os[i] == prev[i] && os[i'] == prev[i'];
        } else if i < |prev| {
          assert os[i] == prev[i];
        }
      }
      forall j, o | 0 <= j < n && 0 <= o < |ps[j].objects|
        ensures Origin(j, o) in os
      {
        if j < n - 1 {
          assert Origin(j, o) in prev;
        } else {
          assert os[|prev| + o] == Origin(j, o);
        }
      }
    }
  }

  /** Per-document row counts of the walk equal per-document object counts of its pages. */
  lemma {:induction false} RunCountsDocs(ps: seq<Page>, n: nat, env: Env, d: string)
    requires n <= |ps|
    ensures CountDoc(Run(ps, n, env).rows, d) == DocObjects(ps[..n], d)
  {
    if n > 0 {
      RunCountsDocs(ps, n - 1, env, d);
      assert ps[..n] == ps[..n - 1] + [ps[n - 1]];
      ObjectCountsAppend(ps[..n - 1], ps[n - 1], d);
      var prev := Run(ps, n - 1, env);
      var acc := OpenDocument(prev, ps[n - 1]);
      var next := AddObjects(acc, ps[n - 1], |ps[n - 1].objects|, env.clock(n - 1), env);
      assert Run(ps, n, env) == next;
      AddObjectsRowsOfPage(acc, ps[n - 1], |ps[n - 1].objects|, env.clock(n - 1), env);
      AddObjectsKeepsRows(acc, ps[n - 1], |ps[n - 1].objects|, env.clock(n - 1), env);
      AddedRowsCount(prev.rows, next.rows, ps[n - 1].docName, d);
    }
  }

  /** The inner loop emits rows of the page's document only. */
  lemma {:induction false} AddObjectsRowsOfPage(acc: Acc, page: Page, n: nat, stamp: string, env: Env)
    requires n <= |page.objects|
    requires page.docName in acc.counter
    ensures forall i :: |acc.rows| <= i < |AddObjects(acc, page, n, stamp, env).rows| ==>
              AddObjects(acc, page, n, stamp, env).rows[i].entityId == page.docName
  {
    if n > 0 {
      AddObjectsRowsOfPage(acc, page, n - 1, stamp, env);
    }
  }

  /** Appending rows that all belong to document `doc` adds their number to `doc`'s count only. */
  lemma {:induction false} AddedRowsCount(before: seq<Row>, after: seq<Row>, doc: string, d: string)
    requires |before| <= |after| && after[..|before|] == before
    requires forall i :: |before| <= i < |after| ==> after[i].entityId == doc
    ensures CountDoc(after, d) == CountDoc(before, d) + (if doc == d then |after| - |before| else 0)
    decreases |after|
  {
    if |after| > |before| {
      var init := after[..|after| - 1];
      assert init[..|before|] == before;
      AddedRowsCount(before, init, doc, d);
    } else {
      assert after == before;
    }
  }

  /** The inner loop only appends: the rows before it are kept as they were. */
  lemma {:induction false} AddObjectsKeepsRows(acc: Acc, page: Page, n: nat, stamp: string, env: Env)
    requires n <= |page.objects|
    requires page.docName in acc.counter
    ensures AddObjects(acc, page, n, stamp, env).rows[..|acc.rows|] == acc.rows
  {
    if n > 0 {
      AddObjectsKeepsRows(acc, page, n - 1, stamp, env);
      var mid := AddObjects(acc, page, n - 1, stamp, env).rows;
      assert AddObjects(acc, page, n, stamp, env).rows[..|mid|] == mid;
    }
  }
}
