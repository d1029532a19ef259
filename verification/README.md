# A Dafny model of the rs-tiled map core

This project models the part of the rs-tiled library that turns a parsed
Tiled map into its document model and answers lookups on it:

- **GID resolution** (`Map::get_tileset_by_gid`): the tileset owning a global
  tile id is the one with the largest `first_gid` that is not above the id.
  The model keeps the loop's accumulators. These are a running maximum that
  starts at -1 and the comparison through `first_gid as i32`. It proves the
  scan equal to a declarative answer (`GidResolution.IsResolution`), which
  has three parts. A qualifying tileset has `first_gid < 2^31` and
  `first_gid <= gid`. The result has the largest `first_gid` among those.
  Among equal candidates the earliest in the vector wins.
- **Tile rectangles** (`Map::get_tile_rectangle_by_id`): the pixel rectangle
  of a tile in the first image of its tileset. Tiles are packed row-major
  from `margin` with `spacing` between them. The source's panics are
  outcomes of the model (`TileRects.RectOutcome.Panicked`). These are a
  division by zero when `spacing + tile_width` is 0 or wider than the image,
  and `u32` overflow as a debug build reports it.
- **Orientation** (`FromStr` / `Display`): a bijection between the four
  orientations and four lower-case tokens.
- **Map builder** (`Map::new`): the root attributes are validated first.
  Then the map's child elements are folded in document order. Tilesets are
  appended. Layers, image layers and object groups share one running
  `layer_index`. The last `properties` block wins. `infinite` holds only for
  the value `"1"`.
- **Frame decoder** (`Frame::new`): the required `tileid` and `duration`
  attributes are read as `u32` decimals. Rust's `u32` parsing is modelled
  exactly: one optional `+`, one or more ASCII digits, at most 2^32 - 1.

Attributes are `(name, value)` pairs. The extraction that the `get_attrs!`
macro performs is modelled by its effect: the last occurrence of a name
gives its value, and any missing or unconvertible required field fails the
extraction with the caller's `MalformedAttributes` message.

Files: `wrappers.dfy` (Option, Result), `errors.dfy` (`TiledError`),
`decimal.dfy` (`u32` and its decimal form), `attributes.dfy` (attribute
lookup), `orientation.dfy`, `maps.dfy` (the document records), `gid.dfy`,
`rect.dfy`, `builder.dfy` and `animation.dfy`.

The model states the code's behaviour in these edge cases:

- Equal `first_gid`s: the earliest tileset wins, because the update test at
  src/map.rs:110 is a strict `>`.
- Tilesets with `first_gid >= 2^31` are never returned, because of the
  `i32` cast.
- The rectangle is not bounds-checked. Only the column is bounded by the
  image width (`TileRects.SheetRectangleWithinWidth`). The row can be any
  value.
- A zero-width tile stride and an image narrower than one tile make the
  code panic. They are not reported as errors.

## Model

| member | source | states |
|---|---|---|
| Decimal.ParseU32 | src/animation.rs:17-18 | `parse::<u32>` rejects the empty string, a lone `+` and any leading `-`, and accepts only text that contains a digit |
| Decimal.ParseDecimalString | src/animation.rs:17-18 | every `u32` written in decimal parses back to itself |
| Decimal.ParsePlusDecimalString | src/animation.rs:17-18 | a leading `+` before the digits is accepted and gives the same value |
| Decimal.ParseRejectsOverflow | src/animation.rs:17-18 | a well-formed decimal above 2^32 - 1 is rejected, not wrapped |
| Decimal.ParseLeadingZero | src/animation.rs:17-18 | a leading zero before a run of digits does not change the value read, so `"007"` reads as 7 |
| Decimal.ParseRejectsNonDigit | src/animation.rs:17-18 | any non-digit after the optional sign makes the parse fail |
| Attributes.Lookup | src/map.rs:40-55 | an attribute is found exactly when some pair has that name, and the value is that of the last such pair |
| Orientations.OrientationName | src/map.rs:166-175 | every orientation prints as one of the four lower-case tokens |
| Orientations.ParseOrientation | src/map.rs:155-163 | parsing succeeds exactly on the four tokens and otherwise fails with `OrientationError` |
| Orientations.ParseOrientationName | src/map.rs:155-175 | printing then parsing returns the orientation |
| Orientations.OrientationNameOfParse | src/map.rs:155-175 | parsing then printing returns the text, so the accepted strings are exactly the printed ones |
| Orientations.OrientationNameInjective | src/map.rs:166-175 | different orientations print differently |
| Orientations.ParseOrientationIsCaseSensitive | src/map.rs:156-161 | capitalised tokens are rejected |
| GidResolution.AsI32 | src/map.rs:110-111 | the `u32`-to-`i32` cast lands in the `i32` range and keeps the value modulo 2^32 |
| GidResolution.ScanResolves | src/map.rs:107-115 | the loop's accumulators after each tileset are enough to make the scan's final answer the declarative one |
| GidResolution.TilesetIndexByGid | src/map.rs:106-116 | the returned position is the declarative answer: none when nothing qualifies, else the largest qualifying `first_gid`, earliest on ties |
| GidResolution.GetTilesetByGid | src/map.rs:106-116 | `None` exactly when no tileset qualifies; otherwise a member of `tilesets` with `first_gid <= gid` whose `first_gid` no other qualifying tileset exceeds, and it is the tileset at the one position the declarative answer names: `first_gid` below 2^31, earliest on ties |
| GidResolution.ResolutionIsUnique | src/map.rs:110-113 | at most one answer satisfies the declarative description, so the scan is fully determined by it |
| GidResolution.EarliestOfEqualFirstGids | src/map.rs:110-113 | a tileset whose `first_gid` equals that of an earlier one is never returned |
| GidResolution.HighFirstGidNeverChosen | src/map.rs:107-111 | a tileset with `first_gid >= 2^31` is never returned, for any gid |
| GidResolution.NoTilesetsNoResolution | src/map.rs:107-115 | with no tilesets every lookup returns `None` |
| GidResolution.ResolutionExample | src/map.rs:106-116 | with `first_gid`s 1, 50 and 100, gid 49 maps to the first tileset, 50 and 99 to the second, 100 to the third, and 0 to none |
| TileRects.SheetRectangle | src/map.rs:125-140 | panics on division by zero exactly when the stride is representable but 0 or wider than the image; with a usable stride, a rectangle is returned exactly when both pixel coordinates and the row stride fit in `u32`; on success the size is the tile size and one tile fits in the image width |
| TileRects.SheetRectangleSlot | src/map.rs:126-135 | a tile in column `col` and row `row` of the row-major packing starts at `margin + (tile_width + spacing) * col` across and `margin + (tile_height + spacing) * row` down |
| TileRects.SheetRectangleWithinWidth | src/map.rs:126-134 | a returned rectangle plus one spacing never extends past `margin + image width` |
| TileRects.SheetRectangleRecoversIndex | src/map.rs:125-135 | when rows have a height, the local tile index can be read back from the rectangle's corner |
| TileRects.SheetRectangleExample | src/map.rs:125-140 | 32-pixel tiles in a 256-pixel image with no margin or spacing: local tile 9 is at (32, 32) |
| TileRects.TileRectangle | src/map.rs:121-141 | no rectangle exactly when the id has no tileset or the tileset has no image; otherwise the owning tileset starts at or below the id and the result is the rectangle of local index `id - first_gid` in its first image |
| Animation.NewFrame | src/animation.rs:12-26 | succeeds exactly when both attributes are present and read as `u32`, with those values; otherwise fails with the frame's `MalformedAttributes` message |
| Animation.NewFrameOfFrameAttributes | src/animation.rs:13-25 | writing a frame's two attributes in decimal and decoding them gives back the frame |
| Animation.NewFrameOfPresentValues | src/animation.rs:13-25 | any attribute list whose `tileid` and `duration` are decimal `u32`s decodes to that frame, whatever else it holds |
| Animation.NewFrameMissingTileId | src/animation.rs:17-20 | without a `tileid` attribute decoding fails with `MalformedAttributes` |
| Animation.NewFrameMissingDuration | src/animation.rs:18-20 | without a `duration` attribute decoding fails with `MalformedAttributes` |
| Animation.NewFrameMalformedValue | src/animation.rs:17-20 | a present value that is not a decimal `u32` fails like a missing one |
| Animation.NewFrameNegativeDuration | src/animation.rs:18-20 | a negative duration is rejected |
| MapBuilder.ParseRootAttributes | src/map.rs:40-55 | succeeds exactly when version, a valid orientation and four `u32` dimensions are present; the fields are the decoded values; `infinite` holds exactly for `"1"`; the colour is the parsed attribute or none |
| MapBuilder.Step | src/map.rs:63-87 | one child fails exactly when its sub-builder fails on the current index; otherwise only the collection of its kind grows by one, `layer_index` grows only for layer-like children and only a properties child changes the properties |
| MapBuilder.BuildChildren | src/map.rs:57-87 | after the fold, `layer_index` is the number of layer-like children and each collection has one entry per child of its kind |
| MapBuilder.BuildChildrenSucceeds | src/map.rs:63-87 | the fold succeeds exactly when every child's sub-builder succeeds on the index of its position |
| MapBuilder.BuildChildrenFirstError | src/map.rs:63-87 | a failing fold reports the error of the first failing child, all earlier children having succeeded |
| MapBuilder.BuildChildrenTilesets | src/map.rs:64-67 | the k-th tileset child supplies the k-th tileset: tilesets keep document order |
| MapBuilder.BuildChildrenLayers | src/map.rs:68-72 | the k-th layer child is built with the map width, `infinite` and the number of layer-like children before it, and supplies the k-th layer |
| MapBuilder.BuildChildrenImageLayers | src/map.rs:73-77 | the k-th image layer child is built with the number of layer-like children before it and supplies the k-th image layer |
| MapBuilder.BuildChildrenObjectGroups | src/map.rs:82-86 | the k-th object group child is built with `Some` of the number of layer-like children before it and supplies the k-th object group |
| MapBuilder.BuildChildrenNoProperties | src/map.rs:60-81 | without a properties child the properties are empty |
| MapBuilder.BuildChildrenLastProperties | src/map.rs:78-81 | the last properties child decides the properties; earlier ones are overwritten |
| MapBuilder.LayerIndicesIncrease | src/map.rs:62-86 | layer-like children receive strictly increasing indices in document order, across all three kinds |
| MapBuilder.LayerIndicesCover | src/map.rs:62-86 | every index below the number of layer-like children is handed out, so the indices are exactly 0, 1, 2, ... |
| MapBuilder.NewMap | src/map.rs:35-103 | invalid root attributes fail with the map's `MalformedAttributes` message before any child is looked at; with valid root attributes the map is built exactly when every child's sub-builder succeeds at its own index, and otherwise the first failing child's error is returned; a built map carries the decoded root attributes and the fold's collections |
| MapBuilder.NewMapInfinite | src/map.rs:44 | `infinite` is true exactly when the attribute's value is `"1"`, and false when the attribute is absent (the `unwrap_or(false)` of line 101) |
| MapBuilder.NewMapWithoutChildren | src/map.rs:57-102 | a map with valid root attributes and no children parses, with no tilesets, no layers and empty properties |

## Left out

- The public entry points in `src/lib.rs` are not modelled. These are `parse`, `parse_file`, `parse_with_path`, `parse_with_file_loader`, `parse_tileset` and `default_file_loader`. They do file-system I/O and wrap `parse_impl`, which is not part of this model.
- The XML event stream and the `parse_tag!` dispatch are not modelled. The builder receives the map's children already dispatched by tag. Unknown tags, early end of document and XML decoding errors are not modelled.
- The sub-builders are not modelled: `Tileset::new`, `Layer::new`, `ImageLayer::new`, `ObjectGroup::new` and `parse_properties`. Each child carries the sub-builder's outcome, or a function from what the map hands it to that outcome. Layers, image layers and object groups are therefore opaque records.
- External tileset loading through the caller's loader closure is not modelled. It is a foreign, effectful call. A loaded tileset, or its error, reaches the model as a tileset child's result.
- Colour parsing is not modelled; it lives in `properties.rs`, which is not part of this model. `MapBuilder.ParseRootAttributes` takes the colour parser as a parameter. Floating-point property values are not modelled.
- `get_attrs!` lives in `util.rs`, which is not part of this model. The model assumes that the last occurrence of a duplicated attribute wins, and `Attributes.Lookup` proves that for the model. How the real macro handles duplicates is not modelled.
- MapBuilder.BuildChildren: `layer_index` is a `nat`. The `u32` wrap-around after 2^32 layer-like children is not modelled.
- TileRects.SheetRectangle: overflow follows debug-build semantics, where it panics. The wrap-around of a release build is not modelled.
- The image width comes from `image.rs`, which is not part of this model. It is modelled as a non-negative `u32`. The `as u32` cast of a negative `i32` width is not modelled.
