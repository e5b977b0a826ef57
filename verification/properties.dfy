/**
 * What `convert_to_parquet` promises about the rows it writes, proved of
 * `Builder.Build` for every input page list and every behaviour of the
 * clock, the hash and the image renderer.
 */
module BuildProperties {
  import opened Wrappers
  import opened Strings
  import opened Records
  import opened PageSort
  import opened Builder

  /** The `(entity_id, page_id)` pair of a row, compared like the page sort key. */
  function RowKey(r: Row): PageKey {
    PageKey(r.entityId, r.pageId)
  }

  /** The block numbers read back from the identifiers of document `d`'s rows, in row order. */
  function BlockNumbers(rows: seq<Row>, d: string): seq<Option<nat>> {
    if rows == [] then []
    else
      var last := rows[|rows| - 1];
      BlockNumbers(rows[..|rows| - 1], d) + (if last.entityId == d then [ParseBlockId(d, last.blockId)] else [])
  }

  /**
   * One row per object: the rows follow the reference walk of the sorted pages
   * (page by page, each page's objects in their stored order; see
   * `OriginsShape`), and every field but the block identifier comes from that
   * object and its page.
   */
  lemma BuildFollowsWalk(pages: seq<Page>, env: Env)
    ensures var sorted := SortPages(pages);
            Traced(sorted, Origins(sorted, |sorted|), Build(pages, env), env)
  {
    var sorted := SortPages(pages);
    RunTraced(sorted, |sorted|, env);
  }

  /** Rows whose keys are those of their pages, taken in page order from a sorted list, are ordered. */
  lemma KeysFollowSortedPages(sorted: seq<Page>, os: seq<Origin>, rows: seq<Row>)
    requires Sorted(sorted) && |rows| == |os|
    requires forall i :: 0 <= i < |os| ==> os[i].page < |sorted| && RowKey(rows[i]) == Key(sorted[os[i].page])
    requires forall i, i' :: 0 <= i < i' < |os| ==> os[i].page <= os[i'].page
    ensures forall i, j :: 0 <= i <= j < |rows| ==> KeyLe(RowKey(rows[i]), RowKey(rows[j]))
  {
    forall i, j | 0 <= i <= j < |rows|
      ensures KeyLe(RowKey(rows[i]), RowKey(rows[j]))
    {
      if i < j && os[i].page < os[j].page {
        assert KeyLe(Key(sorted[os[i].page]), Key(sorted[os[j].page]));
      }
    }
  }

  /** Rows come out in non-decreasing `(entity_id, page_id)` order. */
  lemma RowsOrdered(pages: seq<Page>, env: Env)
    ensures var rows := Build(pages, env);
            forall i, j :: 0 <= i <= j < |rows| ==> KeyLe(RowKey(rows[i]), RowKey(rows[j]))
  {
    var sorted := SortPages(pages);
    var os := Origins(sorted, |sorted|);
    var rows := Build(pages, env);
    assert |rows| == |os| && forall i :: 0 <= i < |os| ==> os[i].page < |sorted| && RowKey(rows[i]) == Key(sorted[os[i].page]) by {
      RunTraced(sorted, |sorted|, env);
      forall i | 0 <= i < |os|
        ensures os[i].page < |sorted| && RowKey(rows[i]) == Key(sorted[os[i].page])
      {
        assert TracedAt(sorted, os, rows, env, i);
      }
    }
    assert forall i, i' :: 0 <= i < i' < |os| ==> os[i].page <= os[i'].page by {
      OriginsShape(sorted, |sorted|);
    }
    SortPagesIsStableSort(pages);
    KeysFollowSortedPages(sorted, os, rows);
  }

  /** The rows of one document are contiguous. */
  lemma RowsGroupedByDocument(pages: seq<Page>, env: Env)
    ensures var rows := Build(pages, env);
            forall i, j, l :: 0 <= i < j < l < |rows| && rows[i].entityId == rows[l].entityId ==>
              rows[j].entityId == rows[i].entityId
  {
    var rows := Build(pages, env);
    RowsOrdered(pages, env);
    forall i, j, l | 0 <= i < j < l < |rows| && rows[i].entityId == rows[l].entityId
      ensures rows[j].entityId == rows[i].entityId
    {
      assert KeyLe(RowKey(rows[i]), RowKey(rows[j])) && KeyLe(RowKey(rows[j]), RowKey(rows[l]));
      if rows[j].entityId != rows[i].entityId {
        StrLtAsymmetric(rows[i].entityId, rows[j].entityId);
      }
    }
  }

  lemma CountDocPrefixMonotone(rows: seq<Row>, a: nat, b: nat, d: string)
    requires a <= b <= |rows|
    ensures CountDoc(rows[..a], d) <= CountDoc(rows[..b], d)
    decreases b - a
  {
    if a < b {
      CountDocPrefixMonotone(rows, a, b - 1, d);
      assert rows[..b][..b - 1] == rows[..b - 1];
    }
  }

  lemma {:induction false} NumberedPrefix(rows: seq<Row>, n: nat)
    requires Numbered(rows) && n <= |rows|
    ensures Numbered(rows[..n])
  {
    forall i: nat | i < n
      ensures NumberedAt(rows[..n], i)
    {
      assert NumberedAt(rows, i);
      assert rows[..n][..i + 1] == rows[..i + 1];
    }
  }

  /** In numbered rows, document `d`'s identifiers carry the numbers 1, 2, ... in row order. */
  lemma {:induction false} NumberedBlockNumbers(rows: seq<Row>, d: string)
    requires Numbered(rows)
    ensures BlockNumbers(rows, d) == seq(CountDoc(rows, d), i => Some(i + 1))
    decreases |rows|
  {
    if rows != [] {
      var n := |rows| - 1;
      NumberedPrefix(rows, n);
      NumberedBlockNumbers(rows[..n], d);
      if rows[n].entityId == d {
        assert NumberedAt(rows, n);
        assert rows[..n + 1] == rows;
        BlockIdRoundTrip(d, CountDoc(rows, d));
      }
    }
  }

  /**
   * For every document, the block numbers of its rows in output order are
   * exactly 1, 2, ..., n, where n is the number of objects on its pages.
   */
  lemma BlockNumbersCountFromOne(pages: seq<Page>, env: Env, d: string)
    ensures BlockNumbers(Build(pages, env), d) == seq(DocObjects(pages, d), i => Some(i + 1))
  {
    var sorted := SortPages(pages);
    RunNumbered(sorted, |sorted|, env);
    NumberedBlockNumbers(Build(pages, env), d);
    RunCountsDocs(sorted, |sorted|, env, d);
    assert sorted[..|sorted|] == sorted;
    SortKeepsObjectCounts(pages, d);
  }

  /** Every block identifier is `entity_id + "_" + k`, with k the row's position within its document. */
  lemma BlockIdFormat(pages: seq<Page>, env: Env)
    ensures var rows := Build(pages, env);
            forall i :: 0 <= i < |rows| ==>
              && CountDoc(rows[..i + 1], rows[i].entityId) >= 1
              && rows[i].blockId == BlockId(rows[i].entityId, CountDoc(rows[..i + 1], rows[i].entityId))
  {
    var rows := Build(pages, env);
    var sorted := SortPages(pages);
    RunNumbered(sorted, |sorted|, env);
    forall i | 0 <= i < |rows|
      ensures CountDoc(rows[..i + 1], rows[i].entityId) >= 1
      ensures rows[i].blockId == BlockId(rows[i].entityId, CountDoc(rows[..i + 1], rows[i].entityId))
    {
      assert NumberedAt(rows, i);
      assert rows[..i + 1][..i] == rows[..i];
    }
  }

  lemma NumberedDistinct(rows: seq<Row>, i: nat, j: nat)
    requires Numbered(rows) && i < j < |rows|
    ensures rows[i].blockId != rows[j].blockId
  {
    var di, dj := rows[i].entityId, rows[j].entityId;
    assert NumberedAt(rows, i) && NumberedAt(rows, j);
    var ki, kj := CountDoc(rows[..i + 1], di), CountDoc(rows[..j + 1], dj);
    if di == dj {
      CountDocPrefixMonotone(rows, i + 1, j, di);
      assert rows[..j + 1][..j] == rows[..j];
      assert ki < kj;
    }
    BlockIdInjective(di, ki, dj, kj);
  }

  /** No two rows share a block identifier, within a document or across documents. */
  lemma BlockIdsDistinct(pages: seq<Page>, env: Env)
    ensures var rows := Build(pages, env);
            forall i, j :: 0 <= i < j < |rows| ==> rows[i].blockId != rows[j].blockId
  {
    var rows := Build(pages, env);
    var sorted := SortPages(pages);
    RunNumbered(sorted, |sorted|, env);
    forall i, j | 0 <= i < j < |rows|
      ensures rows[i].blockId != rows[j].blockId
    {
      NumberedDistinct(rows, i, j);
    }
  }

  /** Row `i` of the output is described by the object it comes from. */
  lemma RowDescribed(pages: seq<Page>, env: Env, i: nat)
    requires i < |Build(pages, env)|
    ensures var sorted := SortPages(pages);
            var os := Origins(sorted, |sorted|);
            |os| == |Build(pages, env)| && ValidOrigin(sorted, os[i]) && Describes(Build(pages, env)[i], sorted, os[i], env)
  {
    var sorted := SortPages(pages);
    RunTraced(sorted, |sorted|, env);
    assert TracedAt(sorted, Origins(sorted, |sorted|), Build(pages, env), env, i);
  }

  /** A row is labelled 'image' exactly when its category is 6 and 'text' otherwise. */
  lemma BlockTypeByCategory(pages: seq<Page>, env: Env)
    ensures var rows := Build(pages, env);
            forall i :: 0 <= i < |rows| ==>
              && (rows[i].blockType == "image" <==> rows[i].categoryId == PictureCategory)
              && (rows[i].blockType == "text" <==> rows[i].categoryId != PictureCategory)
  {
    var sorted := SortPages(pages);
    RunTraced(sorted, |sorted|, env);
    forall i | 0 <= i < |Build(pages, env)| {
      RowDescribed(pages, env, i);
    }
  }

  /** Rows of one document carry one hash, the hash of the document's name. */
  lemma HashConsistent(pages: seq<Page>, env: Env)
    ensures var rows := Build(pages, env);
            && (forall i :: 0 <= i < |rows| ==> rows[i].fileMd5 == env.md5(rows[i].entityId))
            && (forall i, j :: 0 <= i < |rows| && 0 <= j < |rows| && rows[i].entityId == rows[j].entityId ==>
                  rows[i].fileMd5 == rows[j].fileMd5)
  {
    var sorted := SortPages(pages);
    RunTraced(sorted, |sorted|, env);
    forall i | 0 <= i < |Build(pages, env)| {
      RowDescribed(pages, env, i);
    }
  }

  /** The audio and speech-to-text columns are always null. */
  lemma PlaceholdersAreNull(pages: seq<Page>, env: Env)
    ensures var rows := Build(pages, env);
            forall i :: 0 <= i < |rows| ==> rows[i].audio == None && rows[i].sttText == None
  {
    var sorted := SortPages(pages);
    RunTraced(sorted, |sorted|, env);
    forall i | 0 <= i < |Build(pages, env)| {
      RowDescribed(pages, env, i);
    }
  }

  /** Rows of one page share the timestamp read for that page. */
  lemma TimestampPerPage(pages: seq<Page>, env: Env)
    ensures var sorted := SortPages(pages);
            var os := Origins(sorted, |sorted|);
            var rows := Build(pages, env);
            |rows| == |os| &&
            forall i, j :: 0 <= i < |rows| && 0 <= j < |rows| && os[i].page == os[j].page ==>
              rows[i].timestamp == rows[j].timestamp
  {
    var sorted := SortPages(pages);
    RunTraced(sorted, |sorted|, env);
    forall i | 0 <= i < |Build(pages, env)| {
      RowDescribed(pages, env, i);
    }
  }

  /** Each row names its page's document and page number, and copies its object's category. */
  lemma RowIdentity(pages: seq<Page>, env: Env)
    ensures var sorted := SortPages(pages);
            var os := Origins(sorted, |sorted|);
            var rows := Build(pages, env);
            |rows| == |os| &&
            forall i :: 0 <= i < |rows| ==>
              && os[i].page < |sorted| && os[i].obj < |sorted[os[i].page].objects|
              && rows[i].entityId == sorted[os[i].page].docName
              && rows[i].pageId == sorted[os[i].page].pageNo
              && rows[i].categoryId == sorted[os[i].page].objects[os[i].obj].categoryId
  {
    var sorted := SortPages(pages);
    RunTraced(sorted, |sorted|, env);
    forall i | 0 <= i < |Build(pages, env)| {
      RowDescribed(pages, env, i);
    }
  }
}
