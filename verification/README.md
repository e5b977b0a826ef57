# convert_to_parquet, modelled in Dafny

This project models the record builder of the MNBVC layout-dataset converter.
`convert_to_parquet` takes a list of annotated page records. Each page has a
document name, a page number, page metadata, a page image and a list of
objects. Each object has a bounding box, a category, optional text and OCR
cells. The builder turns them into flat rows, one per object:

- It sorts the pages stably by `(doc_name, page_no)`.
- It walks the sorted pages and keeps a per-document block counter. The counter
  is incremented before it is read, so blocks are numbered 1, 2, ... within each
  document.
- It names each block `doc_name + "_" + number`.
- It labels an object `'image'` when its category is 6 and `'text'` otherwise.
- It crops the page image to the object's box, where `(left, top, width, height)`
  becomes the crop box `(left, top, left + width, top + height)`.
- It fills the row's remaining fields from the page and the object.

Files and modules:

- `wrappers.dfy` (`Wrappers`): `Option`.
- `strings.dfy` (`Strings`): the two pieces of Python `str` behaviour the builder
  uses. One is ordering with `<` (the sort key). The other is the decimal
  rendering of an `int` inside an f-string (the block identifier), with a
  decoder for it.
- `records.dfy` (`Records`): pages, objects and rows. It also holds the three
  per-object derivations (crop box, block label and block identifier) and the
  object counts of a page list, overall and per document.
- `pagesort.dfy` (`PageSort`): the key order and a stable insertion sort on it.
  `StableSortUnique` proves that any two stable sorts of the same list agree.
  So the model gives the same page order as Python's `list.sort`, whatever
  algorithm sorts it.
- `builder.dfy` (`Builder`): the fold that mirrors the two nested loops.
  - `Run` walks the pages. `OpenDocument` creates a missing counter at 0.
    `AddObjects` and `AddObject` increment the counter and emit a row.
  - `Origins` is an independent reference: it lists which page and which object
    each row should come from.
  - Three invariants connect the fold to it. `Traced` ties each row to its
    origin: the row is the one `NewRow` builds from that object and page.
    `CounterTracks` ties the counter to the rows. `Numbered` states the
    resulting block numbering.
- `properties.dfy` (`BuildProperties`): theorems about `Build`, the whole
  builder, for every input and every behaviour of the outside calls.

The calls into other libraries are parameters of `Builder.Env`:

- `clock` stands for `datetime.now().strftime(...)`. The source reads it once
  per page, so it is indexed by the page's position in the walk.
- `md5` stands for `hashlib.md5(...).hexdigest()` of the document name.
- `render` stands for crop-then-PNG-encode of the page image.

Three details of the code shape the model:

- Blocks are numbered from 1: line 47 increments the counter before line 48
  reads it.
- The label is two-way (lines 54-57): `'image'` for category 6, `'text'` for
  every other category.
- The timestamp is read once per page (line 34), inside the page loop. So rows
  of one page share a timestamp, and rows of different pages need not.

## Model

| member | source | states |
|---|---|---|
| Records.CropBoxOf | src/convert2mnbvc.py:14-15 | the crop box keeps left and top; its right minus left is the box width and its bottom minus top is the box height |
| Records.CropBoxRoundTrip | src/convert2mnbvc.py:14-15 | `(left, top, width, height)` and the crop box `(left, top, right, bottom)` determine each other: converting there and back is the identity in both directions |
| Records.BlockTypeOf | src/convert2mnbvc.py:53-57 | the label is "image" exactly when the category is 6, and "text" exactly when it is not |
| Strings.StrLtIrreflexive | src/convert2mnbvc.py:24 | no document name sorts before itself |
| Strings.StrLtTransitive | src/convert2mnbvc.py:24 | string order on document names is transitive |
| Strings.StrLtAsymmetric | src/convert2mnbvc.py:24 | two names are never each before the other |
| Strings.StrLtTotal | src/convert2mnbvc.py:24 | any two different names are ordered one way or the other |
| Strings.DigitChar | src/convert2mnbvc.py:48 | the character for a digit 0-9 is a decimal digit whose value is that digit |
| Strings.StrLt | src/convert2mnbvc.py:24 | no contract of its own: Python's `<` on `str`, code points left to right and a proper prefix first; its order laws are `StrLtIrreflexive`, `StrLtTransitive`, `StrLtAsymmetric` and `StrLtTotal` |
| Strings.Dec | src/convert2mnbvc.py:48 | the f-string rendering of the counter is a non-empty run of decimal digits; that it has no leading zero is `DecNoLeadingZero` |
| Strings.DecNoLeadingZero | src/convert2mnbvc.py:48 | like `str(n)`, the rendering starts with '0' only for 0 |
| Strings.DigitsValueAtLeast | src/convert2mnbvc.py:48 | a numeral that does not start with '0' has a value of at least 1 |
| Strings.DecOfCanonical | src/convert2mnbvc.py:48 | every numeral without a leading zero is the rendering of its value, so with `ParseDecOfDec` the rendering and decimal reading are inverse on canonical numerals |
| Strings.ParseDecOfDec | src/convert2mnbvc.py:48 | reading the rendered counter back as decimal gives the counter |
| Strings.DecInjective | src/convert2mnbvc.py:48 | different counters render differently |
| Records.ExtendedFieldsOf | src/convert2mnbvc.py:36-42 | no contract of its own: the page metadata every row of the page carries (document category, collection, page number, width, height); `RowDescribed` states that each row carries its page's |
| Records.BlockId | src/convert2mnbvc.py:48 | no contract of its own: `doc_name + "_" + str(counter)`; its meaning is carried by `BlockIdRoundTrip` and `BlockIdInjective` |
| Records.BlockIdRoundTrip | src/convert2mnbvc.py:48 | the number can be read back from `doc_name + "_" + number` |
| Records.DigitsAfterSeparator | src/convert2mnbvc.py:48 | every character after the separator of a block identifier is a digit |
| Records.BlockIdInjective | src/convert2mnbvc.py:48 | a block identifier determines both its document and its number, even when document names contain '_' |
| Records.BlockIdSplits | src/convert2mnbvc.py:48 | two equal block identifiers have the same document and number |
| PageSort.Key | src/convert2mnbvc.py:24 | no contract of its own: the sort key `(doc_name, page_no)` of a page; its order is `KeyLe`, and `SortPagesIsStableSort` states that the pages are sorted by it |
| PageSort.KeyLe | src/convert2mnbvc.py:24 | no contract of its own: Python's `<=` on the tuple `(doc_name, page_no)`; its order laws are `KeyLeTransitive`, `KeyLeTotal` and `KeyLeAntisymmetric` |
| PageSort.KeyLeTransitive | src/convert2mnbvc.py:24 | the `(doc_name, page_no)` tuple order is transitive |
| PageSort.KeyLeTotal | src/convert2mnbvc.py:24 | any two keys are comparable |
| PageSort.KeyLeAntisymmetric | src/convert2mnbvc.py:24 | keys ordered both ways are equal |
| PageSort.Insert | src/convert2mnbvc.py:24 | no contract of its own: one step of the stable sort, placing a page before the first page whose key is not smaller; its meaning is carried by `InsertPermutes`, `InsertSorted` and `InsertKeepsKeyOrder` |
| PageSort.SortPages | src/convert2mnbvc.py:23-24 | no contract of its own: the sort of line 24; `SortPagesIsStableSort` and `StableSortUnique` state that it is the stable sort by key |
| PageSort.InsertPermutes | src/convert2mnbvc.py:23-24 | one insertion step adds exactly the inserted page: the multiset grows by that page |
| PageSort.InsertSorted | src/convert2mnbvc.py:24 | inserting into a sorted list keeps it sorted |
| PageSort.InsertKeepsKeyOrder | src/convert2mnbvc.py:24 | inserting keeps, for every key, the input order of the pages with that key |
| PageSort.SortPagesIsStableSort | src/convert2mnbvc.py:23-24 | the sorted pages are in non-decreasing key order, are a permutation of the input, and keep the input order within each key |
| PageSort.StableSortUnique | src/convert2mnbvc.py:23-24 | two lists that are sorted by key and keep the same order within every key are equal, so every stable sort yields the modelled order |
| PageSort.SortKeepsObjectCounts | src/convert2mnbvc.py:23-24 | sorting keeps the total object count and each document's object count |
| Builder.Build | src/convert2mnbvc.py:22-76 | `convert_to_parquet` up to the table write: the number of rows is the total number of objects over all pages, so a page without objects adds no rows; the other properties are the `BuildProperties` lemmas |
| Builder.Run | src/convert2mnbvc.py:26-76 | no contract of its own: the outer loop over the sorted pages from an empty row list and counter; its meaning is carried by `RunLength`, `RunTraced`, `RunCounts`, `RunNumbered` and `RunCountsDocs` |
| Builder.RunLength | src/convert2mnbvc.py:29-76 | after the first n pages, there is one row per object of those pages |
| Builder.AddPage | src/convert2mnbvc.py:30-76 | no contract of its own: one pass of the outer loop body; its meaning is carried by `AddPageTraced`, `AddPageCounts` and `AddPageNumbered` |
| Builder.NewRow | src/convert2mnbvc.py:59-74 | no contract of its own: the row dict; what the output rows contain is stated by `RowIdentity`, `BlockTypeByCategory`, `HashConsistent`, `PlaceholdersAreNull`, `TimestampPerPage` and `BlockIdFormat` |
| Builder.AddObject | src/convert2mnbvc.py:47-76 | one object step leaves the page's document in the counter |
| Builder.AddObjectStep | src/convert2mnbvc.py:47-76 | one object step appends exactly one row, of the page's document, whose identifier carries the counter incremented by one; the document's counter goes up by one and no other counter changes or appears |
| Builder.AddObjects | src/convert2mnbvc.py:46-76 | the inner loop over n objects adds exactly n rows, and the document stays in the counter |
| Builder.OpenDocument | src/convert2mnbvc.py:30-32 | opening a page leaves the rows unchanged and puts its document in the counter |
| Builder.AddObjectsKeepsRows | src/convert2mnbvc.py:46-76 | the inner loop only appends: the rows emitted before it are unchanged |
| Builder.AddObjectsRowsOfPage | src/convert2mnbvc.py:46-76 | every row the inner loop adds carries the page's document name |
| Builder.AddedRowsCount | src/convert2mnbvc.py:46-76 | appending rows of one document raises that document's row count by their number and leaves every other document's count unchanged |
| Builder.AddObjectsTraced | src/convert2mnbvc.py:46-76 | after the inner loop, the new rows are described by the page's objects, in object order |
| Builder.AddPageTraced | src/convert2mnbvc.py:29-76 | one page of the outer loop appends rows described by that page's objects |
| Builder.RunStepTraced | src/convert2mnbvc.py:29-76 | if the walk up to page n-1 matches the reference, the walk up to page n does too |
| Builder.RunTraced | src/convert2mnbvc.py:29-76 | after any number of pages, the rows correspond one to one to the reference walk of those pages' objects, each row described by its object |
| Builder.CounterTracksAppend | src/convert2mnbvc.py:47 | incrementing a document's counter while emitting one of its rows keeps every counter equal to its document's row count |
| Builder.OpenDocumentCounts | src/convert2mnbvc.py:30-32 | creating a missing counter at 0 keeps every counter equal to its document's row count |
| Builder.AddObjectsCounts | src/convert2mnbvc.py:46-76 | the inner loop keeps every counter equal to its document's row count |
| Builder.AddPageCounts | src/convert2mnbvc.py:29-76 | one page of the outer loop keeps every counter equal to its document's row count |
| Builder.RunCounts | src/convert2mnbvc.py:27-76 | throughout the walk, each document's counter equals its number of rows, and documents without a counter have no rows |
| Builder.NumberedAppend | src/convert2mnbvc.py:47-48 | a row numbered one past its document's count extends a correctly numbered list |
| Builder.AddObjectsNumbered | src/convert2mnbvc.py:46-76 | the inner loop gives each new row its position within its document |
| Builder.AddPageNumbered | src/convert2mnbvc.py:29-76 | one page of the outer loop keeps the rows correctly numbered |
| Builder.RunNumbered | src/convert2mnbvc.py:27-76 | throughout the walk, every row's identifier carries its position within its document, counting from 1, and each counter equals its document's row count |
| Builder.PageOriginsShape | src/convert2mnbvc.py:46 | the reference walk of one page lists its objects 0 .. m-1 in order |
| Builder.OriginsShape | src/convert2mnbvc.py:46 | the reference walk lists each object of the pages exactly once, in page-then-object order, and has as many entries as there are objects |
| Builder.RunCountsDocs | src/convert2mnbvc.py:27-76 | after the walk, each document has as many rows as its pages have objects |
| BuildProperties.BuildFollowsWalk | src/convert2mnbvc.py:23-76 | the output corresponds one to one to the reference walk of the sorted pages, whose order is given by `Builder.OriginsShape`; each row is described by its object and page |
| BuildProperties.KeysFollowSortedPages | src/convert2mnbvc.py:24 | rows taken in page order from sorted pages, each keyed by its page, are ordered by key |
| BuildProperties.RowsOrdered | src/convert2mnbvc.py:24 | rows are in non-decreasing `(entity_id, page_id)` order |
| BuildProperties.RowsGroupedByDocument | src/convert2mnbvc.py:24 | the rows of each document are contiguous |
| BuildProperties.CountDocPrefixMonotone | src/convert2mnbvc.py:47 | a document's row count never falls as the output grows |
| BuildProperties.NumberedPrefix | src/convert2mnbvc.py:47-48 | a prefix of correctly numbered rows is correctly numbered |
| BuildProperties.NumberedBlockNumbers | src/convert2mnbvc.py:31-48 | in correctly numbered rows, each document's identifiers read back as 1, 2, ..., n in row order |
| BuildProperties.BlockNumbersCountFromOne | src/convert2mnbvc.py:31-48 | for every document, the numbers in its block identifiers are exactly 1, 2, ..., n in output order, with n its total object count |
| BuildProperties.BlockIdFormat | src/convert2mnbvc.py:47-61 | every block identifier is `entity_id + "_" + k`, with k >= 1 the row's position within its document |
| BuildProperties.NumberedDistinct | src/convert2mnbvc.py:47-48 | two rows of a correctly numbered list have different identifiers |
| BuildProperties.BlockIdsDistinct | src/convert2mnbvc.py:47-61 | no two rows share a block identifier, within a document or across documents |
| BuildProperties.RowDescribed | src/convert2mnbvc.py:59-74 | each output row is the row dict built from the object and page the walk assigns to its position, with that page's clock reading |
| BuildProperties.RowIdentity | src/convert2mnbvc.py:60-73 | each row's `entity_id` and `page_id` are its page's `doc_name` and `page_no`, and its category is its object's |
| BuildProperties.BlockTypeByCategory | src/convert2mnbvc.py:53-73 | in the output, a row is labelled "image" exactly when its category is 6, and "text" otherwise |
| BuildProperties.HashConsistent | src/convert2mnbvc.py:70 | every row's `file_md5` is the hash of its `entity_id`, so rows of one document share it |
| BuildProperties.PlaceholdersAreNull | src/convert2mnbvc.py:67-68 | `audio` and `stt_text` are null in every row |
| BuildProperties.TimestampPerPage | src/convert2mnbvc.py:34-62 | rows that come from one page carry that page's single clock reading |

## Left out

- Image cropping and PNG encoding (src/convert2mnbvc.py:15-20) use the imaging library. They are the opaque parameter `Env.render` of the page image and the crop box. Pixel semantics are not modelled.
- A failing crop is not modelled. Recent versions of the imaging library refuse a crop box whose right is left of its left or whose bottom is above its top, that is, a negative width or height. In the source, that exception ends the whole run and no file is written. `Build` instead always returns rows, rendering such a box like any other.
- `hashlib.md5` (src/convert2mnbvc.py:70) is the opaque parameter `Env.md5`. Only consistency is stated, not the digest itself.
- `datetime.now().strftime("%Y%m%d")` (src/convert2mnbvc.py:34) is the opaque parameter `Env.clock`, indexed by the page's position in the walk. The format of the date string is not modelled.
- `json.dumps` of the extended fields, the cells and the box (src/convert2mnbvc.py:63, 66, 72) is left out. The row carries them as structured values (`ExtendedFields`, `Json`, `Box`), not as their JSON text.
- The DataFrame, Arrow table and Parquet write (src/convert2mnbvc.py:78-80), and loading the `datasets` input (src/convert2mnbvc.py:7, 23), are I/O. `Build` returns the row list handed to them.
- Missing keys in an input record raise KeyError in the source. The model's records always have every field, so that error path is not modelled.
- The sort key compares `page_no` values as integers. Keys of other types (`None`, strings) that Python would refuse to compare are not modelled.
- Bounding-box components are modelled as unbounded integers. Float boxes are not modelled.
- Python `str` can hold lone surrogate code points, but Dafny `char` cannot. Document names with lone surrogates are not modelled.
- Builder.AddObject: its contract states only that the document keeps its counter. The full step is stated by `Builder.AddObjectStep`, because postconditions on the loop functions are carried into every proof about the walk and make those proofs much more expensive.
- Builder.AddObjects: its contract states only the number of rows added and that the document keeps its counter. The rows themselves are covered by `AddObjectsKeepsRows`, `AddObjectsRowsOfPage`, `AddObjectsTraced`, `AddObjectsCounts` and `AddObjectsNumbered`, for the same reason.
- Builder.OpenDocument: its contract states only that the rows are unchanged and the document has a counter. That a new document starts at 0 and other counters are kept is what `OpenDocumentCounts` carries, as an invariant.
- Strings.Dec: its contract states only that the rendering is a non-empty run of digits. That it has no leading zero is the lemma `DecNoLeadingZero`, because as a postcondition the leading-digit fact is carried into every proof about block identifiers and makes the walk proofs too expensive.
- `list.sort` (Timsort) is modelled by an insertion sort. `PageSort.StableSortUnique` shows that both produce the same order.
