# Blob detection for MuSSE sprite sheets, modelled in Dafny

MuSSE cuts a sprite sheet into sprites. The user selects a rectangular area of
the sheet. Blob detection groups the foreground pixels of that area (every pixel
that differs from the sheet's background colour) into blobs. Two foreground
pixels belong to the same blob when a chain of foreground pixels joins them, each
step at most `halfEdge` rows and `halfEdge` columns long (8 by default). Each
blob is given a name, a bounding box and an anchor point, and an XML exporter
writes these out as `<sprite>` elements of a `<spritesheet>` document.

The detection is a two-pass connected-component labelling:

- **First pass.** Every foreground pixel, in row-major order, takes a label from
  the cells of its window that are already labelled. These are the cells at most
  `halfEdge` away that come before it. The first label found is taken. Any other
  label met is recorded as equivalent to it in the label equivalence table, a
  union-find structure whose representatives are class minima. With no labelled
  neighbour, a new label is minted.
- **Second pass.** Every labelled cell is reduced to its representative, and the
  pixels of each representative are gathered into one blob.

The model has these modules:

- `Labels` (`Label.dfy`): the label value, its id and its printable name.
- `LabelEqTables` (`LabelEqTable.dfy`): the equivalence table. It is a class
  with a parent map `eqMap` and a ghost map `reps` from every label to its
  representative. It comes with a specification of what the representatives are
  (`Find`, `Relabel`) and lemmas that every operation keeps `reps` equal to the
  roots of `eqMap`.
- `Blobs` (`Blob.dfy`): the blob class, holding a point set, a bounding box and
  an anchor. It includes the box arithmetic (`Grow`, `Tight`) and the
  `<sprite>` element with a parser that reads it back.
- `XmlExport` (`XmlExporter.dfy`): the exporter class, an append-only text
  buffer, and the `<spritesheet>` document with a parser that reads it back.
- `Components` (`Components.dfy`): the specification of both passes:
  - the label grid and the causal window;
  - the scan invariant `ScanOk` of one window;
  - the first-pass invariant `PassOneOk`;
  - the second-pass sets `PointsUpTo` and `RepsUpTo`;
  - the predicate `BlobPartition` that says what the blobs are.
- `BlobDetections` (`BlobDetection.dfy`): the detector class. Its methods
  follow the source's loops: the first pass, the window scan and the second
  pass. Each method is proved against the `Components` specification.
- `Scenarios` (`Scenarios.dfy`): a worked example. On a 5 by 5 sheet whose only
  foreground pixels are (1, 1) and (3, 3), the detector finds two one-pixel
  blobs with half-edge 1, and the two pixels form one blob with half-edge 2.
- `Wrappers`, `Decimal`, `XmlText`: `Option`, decimal rendering and parsing of
  integers, and the small text parsers the round-trip lemmas use.

The sheet is modelled as rows of integer pixel values plus the background value.
Pixel access is sequence indexing. The main results are in
`BlobDetections.BlobDetection.GetSpriteClips` and `FindClips`. The blobs they
return have these properties:

- their point sets are non-empty and pairwise disjoint;
- they contain only foreground points of the area;
- together they cover every foreground pixel;
- each is closed under the window relation: a blob holding a point holds every
  foreground point at most `halfEdge` rows and columns from it;
- each is one chain: any two of its points are joined by a path inside the
  blob whose steps are at most `halfEdge` rows and columns long;
- the bounding box of each is the tight box of its points;
- their names are `Label` followed by the id of their class representative,
  so they are distinct;
- the anchor is the first pixel in row-major order (`GetSpriteClips`), or the
  top-left corner of the box after `FindClips`.

## Model

| member | source | states |
|---|---|---|
| Labels.Label.ToString | MuSSEcs/blobdetection/Label.cs:17-20 | the name starts with "Label" and the rest reads back as the id; since only the unpadded decimal text reads back, the name is exactly "Label" followed by that text |
| Labels.NamesDistinct | MuSSEcs/blobdetection/Label.cs:17-20 | labels with different ids have different names |
| Decimal.IntToString | MuSSEcs/blobdetection/Label.cs:19 | the decimal text of an integer, as used in label names and XML attributes: non-empty, digits after an optional minus sign, and it parses back to the same integer |
| Decimal.ParseIntCanonical | MuSSEcs/blobdetection/Label.cs:19 | any text that parses as an integer is exactly that integer's rendering: no leading zeros, no plus sign, so every round trip through the parser pins the printed text |
| LabelEqTables.Find | MuSSEcs/blobdetection/LabelEqTable.cs:112-124 | following parent entries from a registered label ends at a self-mapped label whose id is no larger |
| LabelEqTables.RepsAreFind | MuSSEcs/blobdetection/LabelEqTable.cs:113-124 | in a consistent table the recorded representative of every label is the root its parent chain reaches |
| LabelEqTables.RepresentativeIsClassMinimum | MuSSEcs/blobdetection/LabelEqTable.cs:7-9 | the representative of a class has an id no larger than that of any label of the class |
| LabelEqTables.Min | MuSSEcs/blobdetection/LabelEqTable.cs:127-130 | the result is one of the two labels and its id is not above either |
| LabelEqTables.Max | MuSSEcs/blobdetection/LabelEqTable.cs:133-136 | the result is one of the two labels and its id is not below either |
| LabelEqTables.RegisterKeepsReps | MuSSEcs/blobdetection/LabelEqTable.cs:72-77 | registering a new label as its own parent keeps the table consistent and adds a singleton class |
| LabelEqTables.RedirectKeepsReps | MuSSEcs/blobdetection/LabelEqTable.cs:121-122 | pointing a label straight at its representative (path compression) keeps parents decreasing and every representative unchanged |
| LabelEqTables.LinkRelabels | MuSSEcs/blobdetection/LabelEqTable.cs:106-109 | linking the larger root under the smaller keeps the table consistent, and the new representatives are the old ones with the larger root's class moved to the smaller root |
| LabelEqTables.RelabelOnlyMerges | MuSSEcs/blobdetection/LabelEqTable.cs:106-109 | moving one class into another only merges classes: labels together before stay together |
| LabelEqTables.OnlyMergedKeepsTogether | MuSSEcs/blobdetection/LabelEqTable.cs:14-15 | labels with the same representative before a series of merges still share one after it |
| LabelEqTables.OnlyMergedTrans | MuSSEcs/blobdetection/LabelEqTable.cs:94-110 | two successive merge steps together only merge classes |
| LabelEqTables.AddEntry | MuSSEcs/blobdetection/LabelEqTable.cs:48-51 | the Dictionary.Add of the source: fails exactly when the key is already present, and otherwise adds the one entry |
| LabelEqTables.AddEntryFailsOnMerge | MuSSEcs/blobdetection/LabelEqTable.cs:106-109 | the Add of a merge always fails, because the larger representative is already a key |
| LabelEqTables.AddEntryFailsOnCompression | MuSSEcs/blobdetection/LabelEqTable.cs:121-122 | the Add of path compression fails on every label that is not its own parent |
| LabelEqTables.LabelEqTable.constructor | MuSSEcs/blobdetection/LabelEqTable.cs:42-45 | an empty, consistent table |
| LabelEqTables.LabelEqTable.SetChild | MuSSEcs/blobdetection/LabelEqTable.cs:48-51 | the parent entry of `parent` becomes `child` and no other entry changes |
| LabelEqTables.LabelEqTable.GetChild | MuSSEcs/blobdetection/LabelEqTable.cs:54-62 | the parent of a registered label is registered and has no larger id, and it is the label itself exactly when the label is the root of its class |
| LabelEqTables.LabelEqTable.AddLabel | MuSSEcs/blobdetection/LabelEqTable.cs:65-80 | returns true exactly when the label was new; a new label becomes its own parent and its own class, and otherwise nothing changes |
| LabelEqTables.LabelEqTable.GetRep | MuSSEcs/blobdetection/LabelEqTable.cs:113-124 | returns the root of the label's parent chain, which is its representative; the labels on the chain now point straight at it, other entries and all representatives are unchanged |
| LabelEqTables.LabelEqTable.SetComembers | MuSSEcs/blobdetection/LabelEqTable.cs:94-110 | the two classes become one whose representative is the smaller of the two representatives; the new representative map is exactly the old one with both classes moved to that label, every other class is unchanged, and the table stays consistent |
| LabelEqTables.ExampleLabels | MuSSEcs/blobdetection/LabelEqTable.cs:17-24 | six added labels are six singleton classes |
| LabelEqTables.ExampleMerged | MuSSEcs/blobdetection/LabelEqTable.cs:17-27 | after the example's merges, 1 and 6 have representative 1, and 2, 3, 4 and 5 have representative 2 |
| LabelEqTables.ReduceExample | MuSSEcs/blobdetection/LabelEqTable.cs:26-27 | GetRep on labels 1 to 6 gives ids 1, 2, 2, 2, 2, 1 |
| Blobs.Grow | MuSSEcs/blobdetection/Blob.cs:61 | the grown box holds the new point and the old box, is enclosed by every box holding both, and is the old box when it already held the point |
| Blobs.GrowCommutes | MuSSEcs/blobdetection/Blob.cs:31 | growing by two points gives the same box in either order |
| Blobs.GrowTight | MuSSEcs/blobdetection/Blob.cs:50-62 | growing the bounding box of a point set by a point gives the bounding box of the set with that point |
| Blobs.BoxAfterAsWritten | MuSSEcs/blobdetection/Blob.cs:54-61 | the box update as written: the first point gives the tight box of that one pixel, and every later point leaves the box as it was |
| Blobs.AsWrittenBoxMissesPoint | MuSSEcs/blobdetection/Blob.cs:61 | with the update as written, the point (5, 3) added after (0, 0) lies outside the box |
| Blobs.SpriteFieldsRoundTrip | MuSSEcs/blobdetection/Blob.cs:154-160 | the six integer elements of a sprite read back as the same six values |
| Blobs.SpriteRoundTrip | MuSSEcs/blobdetection/Blob.cs:150-162 | a `<sprite>` element whose name has no quote reads back as the same name, offsets, size and relative anchor |
| Blobs.Blob.constructor | MuSSEcs/blobdetection/Blob.cs:42-47 | a blob holding the one pixel, with a one-pixel box and that pixel as anchor |
| Blobs.TightOfSingle | MuSSEcs/blobdetection/Blob.cs:42-47 | the only tight bounding box of a single pixel is that pixel with width and height 1 |
| Blobs.Blob.AddLocation | MuSSEcs/blobdetection/Blob.cs:50-62 | the pixel joins the point set; the first pixel sets the box and the anchor, a later one grows the box to the tight box of all points and leaves the anchor |
| Blobs.Blob.GetX | MuSSEcs/blobdetection/Blob.cs:93-96 | the smallest column of the blob's pixels |
| Blobs.Blob.GetY | MuSSEcs/blobdetection/Blob.cs:98-101 | the smallest row of the blob's pixels |
| Blobs.Blob.GetWidth | MuSSEcs/blobdetection/Blob.cs:103-107 | the column span of the pixels plus two (the stored width plus one) |
| Blobs.Blob.GetHeight | MuSSEcs/blobdetection/Blob.cs:109-113 | the row span of the pixels plus two (the stored height plus one) |
| Blobs.Blob.ToXml | MuSSEcs/blobdetection/Blob.cs:150-162 | the element reads back as the blob's name, box and anchor relative to the box |
| Blobs.Blob.ToString | MuSSEcs/blobdetection/Blob.cs:125-143 | the dump starts with the name line and ends with the `GetWidth`/`GetHeight` line |
| XmlExport.AttributeRoundTrip | MuSSEcs/xml/XMLExporter.cs:40-42 | an integer attribute reads back as its value, leaving the text after it |
| XmlExport.ColorKeyRoundTrip | MuSSEcs/xml/XMLExporter.cs:42-43 | the three colour-key attributes and the end of the tag read back as the same colour |
| XmlExport.AttributesRoundTrip | MuSSEcs/xml/XMLExporter.cs:41-43 | width, height and colour key read back from the open tag |
| XmlExport.DocumentRoundTrip | MuSSEcs/xml/XMLExporter.cs:34-52 | a document whose sheet name has no quote reads back as its header fields and its exact body |
| XmlExport.XmlExporter.constructor | MuSSEcs/xml/XMLExporter.cs:19-23 | the buffer starts empty |
| XmlExport.XmlExporter.Clean | MuSSEcs/xml/XMLExporter.cs:25-29 | the buffer is empty again |
| XmlExport.XmlExporter.GetXml | MuSSEcs/xml/XMLExporter.cs:34-52 | the document reads back as the given sheet name, size and colour key with the buffer as body |
| XmlExport.XmlExporter.OpenAnimation | MuSSEcs/xml/XMLExporter.cs:63-66 | the buffer grows by exactly the `<animation name="…">` line |
| XmlExport.XmlExporter.CloseAnimation | MuSSEcs/xml/XMLExporter.cs:67-70 | the buffer grows by exactly the closing `</animation>` line, whatever the argument |
| XmlExport.XmlExporter.AddSprite | MuSSEcs/xml/XMLExporter.cs:76-79 | the buffer grows by exactly the given text |
| Components.Unlabelled | MuSSEcs/blobdetection/BlobDetection.cs:102 | a grid of the area's size with no label in any cell |
| Components.InWindowClipped | MuSSEcs/blobdetection/BlobDetection.cs:212-252 | a cell is in the causal window exactly when it lies within the clipped row and column bounds the scan computes and comes before the pixel in row-major order |
| Components.FirstFused | MuSSEcs/blobdetection/BlobDetection.cs:256-260 | taking the first labelled window cell joins no class: every label either keeps its class or already shared one with that cell |
| Components.MergeFused | MuSSEcs/blobdetection/BlobDetection.cs:263-270 | merging a window neighbour's class into the picked label's class keeps the record of joins: a label now in the picked class was in the class of some scanned window cell, and every other label keeps its class |
| Components.ScanStep | MuSSEcs/blobdetection/BlobDetection.cs:255-270 | one scanned window cell carries the scan invariant one cell further, whether the cell is empty, gives the first label, repeats the picked class or is merged into it |
| Components.ScanOutcome | MuSSEcs/blobdetection/BlobDetection.cs:236-282 | a finished window scan minted a label exactly when no causal window cell was labelled, and exactly when the label counter moved |
| Components.PassOneCell | MuSSEcs/blobdetection/BlobDetection.cs:109-126 | one cell of the first pass keeps the invariant: exactly the passed foreground cells are labelled, all labels are registered, near labelled cells share a class, and any two labelled cells of one class are joined by a path of labelled cells each near the next |
| Components.ConnectedMerged | MuSSEcs/blobdetection/BlobDetection.cs:269 | merging classes never separates near labelled cells that already shared a class |
| Components.PassOneLabel | MuSSEcs/blobdetection/BlobDetection.cs:118-121 | labelling a foreground cell with the label its window scan picked keeps the first-pass invariant, chains included |
| Components.WindowPaths | MuSSEcs/blobdetection/BlobDetection.cs:236-270 | after the scan, every labelled cell in the picked class is joined to the new cell, both ways, by a path of labelled cells each near the next |
| Components.ChainedLabel | MuSSEcs/blobdetection/BlobDetection.cs:118-121 | after labelling a cell, any two labelled cells of one class are joined by a path of labelled cells, whether the class was merged by the scan or not |
| Components.ClassChained | MuSSEcs/blobdetection/BlobDetection.cs:154-186 | two points of one collected class are joined by a path inside the class in steps of at most the half-edge |
| Components.ListedAreReps | MuSSEcs/blobdetection/BlobDetection.cs:161-167 | every class collected by the second pass is named after a label that is its own representative |
| Components.ClassesArePartition | MuSSEcs/blobdetection/BlobDetection.cs:148-186 | the classes of a finished first pass, listed once each, are non-empty, disjoint, foreground only, cover the foreground, are closed under nearness, and each is one chain: any two of its points are joined by a path inside it |
| Components.WiderBlob | MuSSEcs/blobdetection/BlobDetection.cs:35-39 | every blob found with a half-edge `k` lies inside one blob found with any larger half-edge |
| Components.WiderWindowMerges | MuSSEcs/blobdetection/BlobDetection.cs:35-39 | a higher threshold only merges blobs: each blob of the smaller half-edge lies inside some blob of the larger, and there are no more blobs with the larger |
| BlobDetections.BlobDetection.constructor | MuSSEcs/blobdetection/BlobDetection.cs:42-48 | an empty table, label counter 1, window half-edge 8, no clips |
| BlobDetections.BlobDetection.Clean | MuSSEcs/blobdetection/BlobDetection.cs:51-56 | no clips, a new empty table and the counter back at 1; the half-edge is kept |
| BlobDetections.BlobDetection.NextLabel | MuSSEcs/blobdetection/BlobDetection.cs:288-291 | a label with the counter's id, never registered before; the counter moves on by one |
| BlobDetections.BlobDetection.SetThreshold | MuSSEcs/blobdetection/BlobDetection.cs:302-305 | the half-edge becomes the given value |
| BlobDetections.BlobDetection.TakeNeighbor | MuSSEcs/blobdetection/BlobDetection.cs:255-270 | the first label met is taken; a different label met later has its class merged into the picked label's class, and the new representatives are exactly that merge of the old ones; no label is registered |
| BlobDetections.BlobDetection.ScanCell | MuSSEcs/blobdetection/BlobDetection.cs:254-270 | one window cell before the pixel carries the scan invariant, including the record of which classes were joined, one cell further |
| BlobDetections.BlobDetection.LabelAtPixel | MuSSEcs/blobdetection/BlobDetection.cs:241-252 | at the pixel the picked label is kept and the table is untouched, or a new label with the counter's id is minted and registered as its own parent and its own class with nothing else changed; the scan invariant holds for the finished row |
| BlobDetections.BlobDetection.ScanWindowRow | MuSSEcs/blobdetection/BlobDetection.cs:238-279 | one window row carries the scan invariant to the next row: the first labelled cell gives the label, every labelled cell scanned is in its class, only classes of scanned cells were joined to it, and a label is picked once the pixel's own row is done |
| BlobDetections.BlobDetection.LabelFromNeighborhood | MuSSEcs/blobdetection/BlobDetection.cs:204-283 | a label is returned exactly when the half-edge is non-negative; it is the label of the first labelled causal cell, every labelled causal cell is in its class, the classes joined to it are exactly classes of labelled causal cells while every other class is unchanged, and a label is minted only when no causal cell was labelled |
| BlobDetections.BlobDetection.LabelPixels | MuSSEcs/blobdetection/BlobDetection.cs:102-127 | after the first pass exactly the foreground cells are labelled (none when the half-edge is negative), all labels are registered, near labelled cells share a class, and the labelled cells of one class are joined by paths of near labelled cells |
| BlobDetections.BlobDetection.CollectCell | MuSSEcs/blobdetection/BlobDetection.cs:154-177 | one cell of the second pass keeps the collection invariant; representatives are unchanged |
| BlobDetections.FileCell | MuSSEcs/blobdetection/BlobDetection.cs:163-176 | a cell of a new representative starts a blob and a cell of a known one extends its blob; every blob collects exactly the passed points of its class |
| BlobDetections.StartBlob | MuSSEcs/blobdetection/BlobDetection.cs:164-169 | a new blob for a new representative is appended after the existing ones |
| BlobDetections.GrowBlob | MuSSEcs/blobdetection/BlobDetection.cs:171-176 | the representative's registered blob gains the cell and the other blobs are unchanged |
| BlobDetections.ExtendBlob | MuSSEcs/blobdetection/BlobDetection.cs:174-175 | the blob holds the class's points up to and including this cell, with the tight box and the first point as anchor |
| BlobDetections.CollectedListed | MuSSEcs/blobdetection/BlobDetection.cs:181-186 | once every cell is passed, the blobs are the classes of the grid listed once each, each with the tight box, its first pixel as anchor and its representative's name |
| BlobDetections.BlobDetection.CollectBlobs | MuSSEcs/blobdetection/BlobDetection.cs:148-186 | the blobs returned are exactly the classes of the labelled cells, one blob per representative with its name, tight box and first pixel as anchor; representatives are unchanged |
| BlobDetections.BlobDetection.GetSpriteClips | MuSSEcs/blobdetection/BlobDetection.cs:79-187 | new blobs anchored at their first pixel, each named after a distinct label that is its own class representative, whose point sets partition the foreground of the area into sets closed under nearness and each joined up by a chain of near pixels |
| BlobDetections.ResetAnchors | MuSSEcs/blobdetection/BlobDetection.cs:63-67 | every anchor moves to the top-left corner of its box; points, names and boxes are unchanged, so distinct names stay distinct |
| BlobDetections.BlobDetection.FindClips | MuSSEcs/blobdetection/BlobDetection.cs:59-68 | the kept clips are the blobs of `GetSpriteClips`, with distinct names and the same partition of the foreground, each anchored at the top-left corner of its box |
| Scenarios.TwoApart | MuSSEcs/blobdetection/BlobDetection.cs:79-187 | in an area whose only foreground pixels are two pixels farther apart than the half-edge, the blobs are exactly the two single pixels |
| Scenarios.TwoNear | MuSSEcs/blobdetection/BlobDetection.cs:79-187 | when those two pixels are within the half-edge of each other, there is exactly one blob holding both |
| Scenarios.TwoDotsNarrow | MuSSEcs/blobdetection/BlobDetection.cs:79-187 | on a 5 by 5 sheet with foreground pixels (1, 1) and (3, 3) and half-edge 1, the blobs are the two single pixels |
| Scenarios.TwoDotsWide | MuSSEcs/blobdetection/BlobDetection.cs:79-187 | on the same sheet with half-edge 2, the two pixels form one blob |
| Scenarios.DetectTwoDots | MuSSEcs/blobdetection/BlobDetection.cs:302-305 | a detector with threshold 1 run on that sheet returns two blobs, one per pixel, each with a 1 by 1 box |

## Left out

- The sprite sheet, `Bitmap` and `Color` types are not part of this model. A
  sheet is rows of integer pixel values plus the background value, and
  `GetPixel` is sequence indexing. `IsForeground` compares two integers, so the
  name-sensitive equality of `System.Drawing.Color` is not modelled.
- The detection methods require the area to lie inside the image, because
  `GetPixel` would throw otherwise.
- Labels are compared by reference in the source; the model compares them by
  id. Every label of one run is minted once from a strictly increasing counter,
  so the two agree within a run.
- Integers are unbounded. The 32-bit overflow of the label counter, of pixel
  coordinates and of the window bounds `colPixel ± _halfEdge` and
  `rowPixel ± _halfEdge` is not modelled. In the source, after `SetThreshold`
  with `int.MaxValue` those sums wrap to negative bounds for every pixel but
  the area's top-left one, the scan loops do not run, and those pixels get no
  label. In the model the window then covers the whole area.
- The order of the returned blobs is the order in which their representatives
  are first met. The source enumerates `Dictionary.Values`, which gives this
  order when nothing is removed, but .NET does not guarantee it.
- BlobDetections.BlobDetection.Clean: the source empties the clip list in place
  with `List.Clear`, so a list handed out earlier by `GetClips` is emptied too.
  The model assigns an empty sequence, and this aliasing is not captured.
- `GetClips`, `Blob.GetBoundingBox` and `Blob.GetName` only return a field.
  They carry no contract: the field itself is the model.
- `Label.GetId`, `LabelEqTable.HasLabel` and `Blob.GetAnchorPoint` only read a
  field or test for a key. Their contracts say just that, so they are not
  listed as results.
- `IsForeground` (one comparison with the background value) and `Near` (the
  row and column distances are at most `halfEdge`) are one-line predicates
  that are their own model; they carry no contract of their own.
- `Blob.SaveTo` is not implemented in the source (its body only builds a file
  name), and the parent image a blob keeps is only used there; both are left
  out.
- The commented-out debug output and exceptions are left out.
- The branch of `LabelFromNeighborhood` that registers an unregistered picked
  label cannot be taken: a picked label always came from the grid or was just
  registered. The model marks that branch as unreachable.
- Its `xImg` and `yImg` parameters are unused in the source and kept only as
  parameters.
- Several methods split the source's loops so each proof stays small:
  - `ScanCell`, `TakeNeighbor`, `LabelAtPixel` and `ScanWindowRow` split
    `LabelFromNeighborhood`;
  - `LabelPixels` and `CollectBlobs` are the two passes of `GetSpriteClips`;
  - `CollectCell`, `FileCell`, `StartBlob`, `GrowBlob` and `ExtendBlob` are
    the body of the second-pass loop;
  - `ResetAnchors` is the loop of `FindClips`.
- Blobs.Blob.ToString: the contract fixes the first line (the name) and the
  last line (the clip size) of the dump. It does not describe the box and
  anchor lines in between.
- Blobs.Blob.ToXml and XmlExport.XmlExporter.GetXml: the round trip is stated
  only for names without a double quote, since the source does not escape
  names. Blob names are always `Label` followed by digits.
- XmlExport.XmlExporter.GetXml: the colour key writes only the red, green and
  blue bytes. The alpha channel is not modelled.
- The source's `GetRep` recurses along the parent chain. The model keeps that
  recursion; no iterative variant is modelled.
- Blobs.Blob.GetX, GetY, GetWidth and GetHeight read the box as corrected in
  the third finding below. As written, the box never grows: it stays the
  first pixel's box, and these getters report that pixel's position and a size
  of 2.
- Blobs.Blob.AddLocation: it follows the corrected box growth, keeping the
  tightest box of the points. The as-written behaviour is
  `BoxAfterAsWritten`.
- `FindClips` resets every anchor to the top-left corner of the box, as the
  source does. Before that step each anchor is the first pixel in row-major
  order, and `GetSpriteClips` states that.

## Findings

| source | as written | input that shows it | evidently intended | confidence | as-written member | corrected member |
|---|---|---|---|---|---|---|
| MuSSEcs/blobdetection/LabelEqTable.cs:48-51 | `SetChild` uses `Dictionary.Add`, which throws when the key exists. `SetComembers` (line 109) calls it for the larger representative, which `AddLabel` already registered as its own parent. | AddLabel(Label1), AddLabel(Label2), then SetComembers(Label1, Label2): `Add(Label2, Label1)` finds key Label2 present and throws | the entry is overwritten (`_eqMap[parent] = child`), and the two classes merge under the smaller representative | not executed | LabelEqTables.AddEntryFailsOnMerge | LabelEqTables.LabelEqTable.SetComembers |
| MuSSEcs/blobdetection/LabelEqTable.cs:121-122 | Path compression in `GetRep` calls the same `Add` for a label that is already a key. | table {Label1→Label1, Label2→Label1}, then GetRep(Label2): `Add(Label2, Label1)` throws | the label's entry is redirected to its representative, and every representative is kept | not executed | LabelEqTables.AddEntryFailsOnCompression | LabelEqTables.LabelEqTable.GetRep |
| MuSSEcs/blobdetection/Blob.cs:61 | `Inflate` is called on the copy that `Nullable<Rectangle>.Value` returns, so the stored bounding box never changes after the first pixel. | new Blob at row 0, column 0, then AddLocation(3, 5): the box stays (0, 0, 1, 1) and leaves out the point (5, 3) | the box grows to the tightest box holding every added point | not executed | Blobs.AsWrittenBoxMissesPoint | Blobs.GrowTight |
