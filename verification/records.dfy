/**
 * The records of the converter: the input page with its annotated objects,
 * the flat output row, and the three per-object derivations the row needs
 * (crop box, block type, block identifier), and the object counts of a page
 * list that the row counts are measured against.
 */
module Records {
  import opened Wrappers
  import opened Strings

  newtype byte = x: int | 0 <= x < 256
  type Bytes = seq<byte>

  /** A JSON-shaped value: the nested `cells` payload, carried through unchanged. */
  datatype Json =
    | JNull
    | JBool(b: bool)
    | JNumber(n: int)
    | JString(s: string)
    | JArray(items: seq<Json>)
    | JObject(members: seq<(string, Json)>)

  /** An object's bounding box as the dataset stores it: `(left, top, width, height)`. */
  datatype Box = Box(left: int, top: int, width: int, height: int)

  /** The box handed to the image library's crop: `(left, upper, right, lower)`. */
  datatype CropBox = CropBox(left: int, top: int, right: int, bottom: int)

  /** One annotated region of a page. */
  datatype PageObject = PageObject(bbox: Box, categoryId: int, text: Option<string>, cells: Json)

  /** One input page; `image` is the encoded page raster, opaque to the model. */
  datatype Page = Page(
    docName: string,
    pageNo: int,
    docCategory: string,
    collection: string,
    width: int,
    height: int,
    image: Bytes,
    objects: seq<PageObject>)

  /** The page-level metadata every row of the page carries (serialised to JSON in the source). */
  datatype ExtendedFields = ExtendedFields(docCategory: string, collection: string, pageNo: int, width: int, height: int)

  /** One output row, one per object. */
  datatype Row = Row(
    entityId: string,
    blockId: string,
    timestamp: string,
    extendedFields: ExtendedFields,
    text: Option<string>,
    image: Bytes,
    ocrText: Json,
    audio: Option<Bytes>,
    sttText: Option<string>,
    blockType: string,
    fileMd5: string,
    pageId: int,
    bbox: Box,
    categoryId: int)

  /** The category index the dataset uses for pictures. */
  const PictureCategory := 6

  /** Turns `(left, top, width, height)` into the library's `(left, top, right, bottom)`. */
  function CropBoxOf(b: Box): (c: CropBox)
    ensures c.left == b.left && c.top == b.top
    ensures c.right - c.left == b.width
    ensures c.bottom - c.top == b.height
  {
    CropBox(b.left, b.top, b.left + b.width, b.top + b.height)
  }

  /** Reads a crop box back as a bounding box. */
  function BoxOf(c: CropBox): Box {
    Box(c.left, c.top, c.right - c.left, c.bottom - c.top)
  }

  lemma CropBoxRoundTrip(b: Box, c: CropBox)
    ensures BoxOf(CropBoxOf(b)) == b
    ensures CropBoxOf(BoxOf(c)) == c
  {
  }

  /** The two-way block label: pictures are images, every other category is text. */
  function BlockTypeOf(categoryId: int): (t: string)
    ensures t == "image" <==> categoryId == PictureCategory
    ensures t == "text" <==> categoryId != PictureCategory
  {
    if categoryId == PictureCategory then "image" else "text"
  }

  function ExtendedFieldsOf(p: Page): ExtendedFields {
    ExtendedFields(p.docCategory, p.collection, p.pageNo, p.width, p.height)
  }

  /** The block identifier `f"{doc}_{k}"`. */
  function BlockId(doc: string, k: nat): string {
    doc + "_" + Dec(k)
  }

  /** Recovers the block number from an identifier of document `doc`, if it has that shape. */
  function ParseBlockId(doc: string, id: string): Option<nat> {
    if |id| > |doc| && id[..|doc|] == doc && id[|doc|] == '_' then ParseDec(id[|doc| + 1..]) else None
  }

  lemma BlockIdRoundTrip(doc: string, k: nat)
    ensures ParseBlockId(doc, BlockId(doc, k)) == Some(k)
  {
    var id := BlockId(doc, k);
    assert id[..|doc|] == doc;
    assert id[|doc| + 1..] == Dec(k);
    ParseDecOfDec(k);
  }

  /** Every position of `d + "_" + s` after the separator holds a digit of `s`. */
  lemma DigitsAfterSeparator(d: string, s: string)
    requires AllDigits(s)
    ensures forall i :: |d| < i < |d + "_" + s| ==> IsDigit((d + "_" + s)[i])
  {
    forall i | |d| < i < |d + "_" + s|
      ensures IsDigit((d + "_" + s)[i])
    {
      assert (d + "_" + s)[i] == s[i - |d| - 1];
    }
  }

  /**
   * A block identifier determines both its document and its number, even across
   * documents whose names contain '_': the number's digits hold no '_', so the
   * last '_' of the identifier is the separator.
   */
  lemma BlockIdInjective(d1: string, k1: nat, d2: string, k2: nat)
    ensures BlockId(d1, k1) == BlockId(d2, k2) ==> d1 == d2 && k1 == k2
  {
    if BlockId(d1, k1) == BlockId(d2, k2) {
      BlockIdSplits(d1, k1, d2, k2);
    }
  }

  lemma BlockIdSplits(d1: string, k1: nat, d2: string, k2: nat)
    requires BlockId(d1, k1) == BlockId(d2, k2)
    ensures d1 == d2 && k1 == k2
  {
    var id := BlockId(d1, k1);
    var s1, s2 := Dec(k1), Dec(k2);
    DigitsAfterSeparator(d1, s1);
    DigitsAfterSeparator(d2, s2);
    assert id[|d1|] == '_' && id[|d2|] == '_';
    assert |d1| == |d2|;
    assert d1 == id[..|d1|] == d2;
    assert s1 == id[|d1| + 1..] == s2;
    DecInjective(k1, k2);
  }

  /** Number of objects over all pages. */
  function TotalObjects(ps: seq<Page>): nat {
    if ps == [] then 0 else |ps[0].objects| + TotalObjects(ps[1..])
  }

  /** Number of objects over the pages of document `d`. */
  function DocObjects(ps: seq<Page>, d: string): nat {
    if ps == [] then 0
    else (if ps[0].docName == d then |ps[0].objects| else 0) + DocObjects(ps[1..], d)
  }

  lemma {:induction false} ObjectCountsAppend(ps: seq<Page>, p: Page, d: string)
    ensures TotalObjects(ps + [p]) == TotalObjects(ps) + |p.objects|
    ensures DocObjects(ps + [p], d) == DocObjects(ps, d) + (if p.docName == d then |p.objects| else 0)
  {
    if ps != [] {
      assert (ps + [p])[1..] == ps[1..] + [p];
      ObjectCountsAppend(ps[1..], p, d);
    }
  }
}
