# A verified model of the vms2 tile database reader

The reader serves vector map data in the vms2 format from a read-only SQLite
tile database. A request names a tile `(x, y, z)`, an OpenStreetMap
key, an optional value and an optional geometry kind. `get_raw_data` first
rewrites alias keys and applies defaults. It then picks the detail zoom at
which that feature class is stored. Next it walks the storage zooms 0 to 16:
at each one it asks either for the single ancestor tile of the request or for
the range of its descendants. Every returned row is appended to a byte buffer
as a little-endian frame, and each level that returned rows adds its quadtree
area to a coverage weight. The walk stops once the weight covers the requested
tile. The answer is the frame count followed by the frames.

The model has these modules:

- `Ints`: u8/u32/u64 widths, powers of two and four, and the shift and wrapping
  arithmetic a release build performs.
- `DataTypes`: the geometry kind `DataType`, with case-insensitive parsing,
  the u8 code and the display name.
- `DetailZooms`: `get_detail_zoom`.
- `TileStore`: the `tiles` table as an abstract, read-only store. It holds rows
  in store order and the queries that fail. The two SQL statements become
  filters over the rows.
- `LittleEndian` and `FrameCodec`: the output format, plus the decoder a
  consumer of the buffer uses.
- `Sources`: the request normalisation and the per-level query parameters.
  It also holds the scan, written once as a specification function
  (`ScanFrom`) and once as the imperative loop of `get_raw_data`
  (`GetRawData` and its level loop `CollectLevels`). `GetRawData` is proved
  to compute exactly `RawData`, the encoded result of the scan. The scan's soundness, completeness, ordering,
  termination and error behaviour are proved about `ScanFrom`.

Integer widths follow a release build. `len() as u32` keeps the low 32 bits.
The frame count wraps modulo 2^32. Shifts and the descendant range end are
u32 operations that lose the bits pushed past bit 31. For a tile that lies
inside its zoom (`x, y < 2^z`), the model proves that neither the shifts nor
the range end wrap. The u64 coverage weight never overflows.

## Model

| member | source | states |
|---|---|---|
| DataTypes.Code | src/data_type/mod.rs:24-32 | the u8 code of a geometry kind is below 3 |
| DataTypes.FromStr | src/data_type/mod.rs:14-21 | an accepted input equals the display name of the kind it gives, ignoring letter case; a rejected input gets the message `'<input>' is not a valid DataType` |
| DataTypes.Name | src/data_type/mod.rs:34-42 | a display name is a capital letter followed by lower-case letters |
| DataTypes.CodeIsDiscriminant | src/data_type/mod.rs:4-32 | the code is the declaration-order discriminant (Points 0, Lines 1, Polygons 2), so `data_type as u32` and the u8 code agree, and distinct kinds have distinct codes |
| DataTypes.FromStrExactlyNames | src/data_type/mod.rs:14-21 | parsing gives kind d exactly when the input equals d's display name ignoring letter case |
| DataTypes.FromStrRejects | src/data_type/mod.rs:19 | any input that is no display name in any letter case is rejected, with the message `'<input>' is not a valid DataType` quoting the input as given |
| DataTypes.ParseDisplayRoundTrip | src/data_type/mod.rs:11-43 | parsing the display name of a kind gives that kind back |
| DataTypes.FromStrIgnoresCase | src/data_type/mod.rs:15 | two inputs equal up to letter case parse to the same result when either parses |
| DataTypes.ToLowercaseIdempotent | src/data_type/mod.rs:15 | lower-casing twice is lower-casing once |
| DataTypes.FromStrAcceptsTestSpellings | tests/data_type_tests.rs:5-23 | "points", "lines" and "polygons" parse to Points, Lines and Polygons |
| DataTypes.FromStrRejectsTestSpelling | tests/data_type_tests.rs:26-29 | "invalid" is rejected with its message |
| DetailZooms.DetailZoom | src/sources/mod.rs:30-51 | the detail zoom is even and at most 14; it is 14 for points; for other kinds it never exceeds the requested zoom |
| DetailZooms.TableFor | src/sources/mod.rs:31-41 | the table chosen by the value has an entry for every zoom 0 to 14, and its entry at 14 is the value's family cap |
| DetailZooms.TableBounds | src/sources/mod.rs:31-39 | each of the three tables has 15 entries, each even and at most its index |
| DetailZooms.DetailZoomClosedForm | src/sources/mod.rs:31-44 | for non-points, the table entry equals the requested zoom clamped to 14, rounded down to even and capped at 12 (terrain, depth), 10 (bathymetry, blue_marble, elevation) or 14 |
| DetailZooms.PointsAlwaysFullDetail | src/sources/mod.rs:46-48 | points get detail zoom 14 for every zoom and value |
| DetailZooms.DetailZoomClamped | src/sources/mod.rs:43-44 | any zoom above 14 gives the same detail zoom as zoom 14 |
| DetailZooms.FamilyCaps | src/sources/mod.rs:31-41 | terrain/depth from zoom 12 give 12, bathymetry/blue_marble/elevation from zoom 10 give 10, other values from zoom 14 give 14 |
| DetailZooms.DetailZoomMonotone | src/sources/mod.rs:30-51 | a deeper requested zoom never gives a coarser detail zoom |
| DetailZooms.TerrainAtFourteen | src/sources/mod.rs:33-35 | terrain polygons at zoom 14 are read at detail zoom 12 |
| Ints.TruncU32 | src/sources/mod.rs:204 | `as u32` leaves a length below 2^32 unchanged |
| Ints.WrappingAddTrunc | src/sources/mod.rs:196 | adding truncated row counts with wrap-around gives the truncated total, so the count is the number of rows modulo 2^32 |
| Ints.Shr | src/sources/mod.rs:161-162 | a right shift by k is the quotient by 2^k: r·2^k <= a < (r + 1)·2^k |
| Ints.Shl | src/sources/mod.rs:175-179 | for a shift amount below 32, as Rust requires, a left shift that keeps every bit is multiplication by 2^k |
| Ints.WrappingAdd | src/sources/mod.rs:196 | a u32 sum is the exact sum below 2^32 and the sum less 2^32 otherwise |
| LittleEndian.U32Le | src/sources/mod.rs:200-204 | a u32 is written as four bytes |
| LittleEndian.U32RoundTrip | src/sources/mod.rs:219 | reading back the four written bytes gives the u32 |
| LittleEndian.U32BytesRoundTrip | src/sources/mod.rs:219 | writing a read u32 gives the same four bytes |
| FrameCodec.EncodeFrame | src/sources/mod.rs:200-208 | a frame is 20 header bytes plus its data |
| FrameCodec.EncodeFrames | src/sources/mod.rs:199-209 | the frames take the sum of 20 + data length bytes |
| FrameCodec.Encode | src/sources/mod.rs:218-222 | the buffer is 4 + sum of (20 + data length) bytes, and its first four bytes read back as the frame count when the count fits a u32 |
| FrameCodec.EncodeFramesAppend | src/sources/mod.rs:199-209 | encoding frames one level after another is concatenating the levels' encodings |
| FrameCodec.EncodeFramesPush | src/sources/mod.rs:199-209 | appending one frame appends its encoding |
| FrameCodec.ReadFrame | src/sources/mod.rs:200-208 | the header of a written frame reads back as its fields, and its length field delimits the data and what follows |
| FrameCodec.DecodeEncodeFrames | src/sources/mod.rs:199-209 | decoding the encoded frames with their count gives the frames back |
| FrameCodec.DecodeEncode | src/sources/mod.rs:218-222 | decoding a buffer gives back exactly the frames written, in order, when the count and each data length fit a u32 |
| TileStore.ColumnBytes | src/sources/mod.rs:63-71 | a column that is neither text nor blob gives no bytes |
| TileStore.Select | src/sources/mod.rs:136-155 | a query returns no more fragments than the store has rows, each at the queried zoom |
| TileStore.SelectOne | src/sources/mod.rs:136-155 | a single row is returned once, as its fragment, when it matches the query, and not at all otherwise |
| TileStore.SelectAppend | src/sources/mod.rs:136-155 | rows split anywhere return the first part's results followed by the second part's; with `SelectOne`, results come in store order, once for each stored matching row |
| TileStore.Run | src/sources/mod.rs:53-82 | a query fails exactly when the store fails it; otherwise every returned fragment lies at the queried zoom |
| TileStore.SelectExact | src/sources/mod.rs:136-155 | a query returns exactly the fragments of the matching rows: each result comes from a matching row, and each matching row is returned |
| Sources.Normalize | src/sources/mod.rs:116-126 | the normalised key is never an alias; an alias key becomes `locr` with the alias as value and polygons as type; any other key is kept |
| Sources.NormalizeAliasesAndDefaults | src/sources/mod.rs:116-126 | an alias key becomes `locr` with the alias as value and polygons as type, whatever was passed; any other key keeps its value and type, defaulting to "" and polygons |
| Sources.NormalizeIdempotent | src/sources/mod.rs:116-126 | a normalised selector is no alias, and normalising it again changes nothing |
| Sources.LevelQuery | src/sources/mod.rs:164-191 | the query of a level asks for that storage zoom and the kind's code, which is below 3; it asks for a single tile exactly when the level is at most the requested zoom |
| Sources.LevelWeight | src/sources/mod.rs:197 | each level weighs at least 1, so a level with rows always adds weight |
| Sources.PlanLevel | src/sources/mod.rs:160-192 | levels up to z query one tile and deeper levels a range; at z itself the tile is the requested one |
| Sources.PlanLevelInRange | src/sources/mod.rs:160-179 | for a tile inside its zoom, the ancestor lies inside the coarser zoom, and the descendant ranges are 2^d wide, start at x·2^d and y·2^d and stay inside the finer zoom |
| Sources.AncestorInRange | src/sources/mod.rs:161-162 | shifting a coordinate of zoom z right by z - queryZ gives a coordinate of zoom queryZ |
| Sources.DescendantsInRange | src/sources/mod.rs:175-179 | for a coordinate inside its zoom, the shifts and the range end do not wrap, and the range ends inside the finer zoom |
| Sources.AncestorContainsTarget | src/sources/mod.rs:160-162 | the requested tile lies inside the queried ancestor's block of descendants |
| Sources.DescendantRangeExact | src/sources/mod.rs:175-179 | a coordinate lies in the descendant range exactly when shifting it right by d gives the requested coordinate |
| Sources.LevelQueryMatches | src/sources/mod.rs:136-192 | a row matches the query of a level exactly when it is selected by the request (key, value, type code, detail zoom, ancestor or descendant of the tile) and lies at that level |
| Sources.LevelFramesExact | src/sources/mod.rs:157-209 | the frames of one level are exactly the selected rows at that level |
| Sources.Answers | src/sources/mod.rs:157 | one query per storage zoom 0 to 16 |
| Sources.AnswerRows | src/sources/mod.rs:173-192 | a level's answer fails exactly when its query fails, with that error, and otherwise holds the matching rows |
| Sources.ScanFrom | src/sources/mod.rs:157-216 | a scan from storage zoom queryZ queries at least one and at most 17 - queryZ levels |
| Sources.ScanFromStep | src/sources/mod.rs:195-215 | one level adds its frames, adds its weight only when it has rows, and then ends the scan or goes on to the next level |
| Sources.ScanFromFailure | src/sources/mod.rs:173-192 | a failing query ends the scan with its error |
| Sources.ScanFromSound | src/sources/mod.rs:157-216 | every frame of a scan comes from a selected row of the store, at a storage zoom the scan queried |
| Sources.ScanFromComplete | src/sources/mod.rs:157-216 | every selected row at a queried storage zoom is among the frames |
| Sources.AscendingPrepend | src/sources/mod.rs:199-209 | one level's frames followed by ascending frames of deeper levels are ascending |
| Sources.LevelFramesAtZoom | src/sources/mod.rs:157-192 | the frames of one level all lie at that level's zoom |
| Sources.ScanFromOrdered | src/sources/mod.rs:157-209 | the frames come in ascending storage zoom, none coarser than where the scan started |
| Sources.ScanStopsAtFirstAncestorHit | src/sources/mod.rs:195-215 | after empty levels, the first ancestor level with rows ends the scan with exactly its frames |
| Sources.ScanSkipsEmptyLevel | src/sources/mod.rs:195-215 | an empty level, while the weight is short, only adds one to the level count |
| Sources.ScanFromHit | src/sources/mod.rs:195-215 | rows at a level up to z end a scan that had no weight yet |
| Sources.ScanFromEmptyLevel | src/sources/mod.rs:195-215 | an empty level adds no frames and no weight |
| Sources.ScanAllEmpty | src/sources/mod.rs:157-216 | when no level has rows the scan queries every remaining level and gathers nothing |
| Sources.ScanFailsOnlyOnFailedQuery | src/sources/mod.rs:173-192 | a failed scan carries the error of one of its level queries that failed |
| Sources.ScanSucceedsOnlyWithoutFailures | src/sources/mod.rs:173-192 | a successful scan asked no query that fails |
| Sources.ScanFromOkAnswers | src/sources/mod.rs:173-192 | every level a successful scan queried answered without an error |
| Sources.RawData | src/sources/mod.rs:105 | a successful result is at least 4 bytes long |
| Sources.GetRawData | src/sources/mod.rs:107-223 | the call returns exactly `RawData`: the store's error, or the count and the frames of the scan |
| Sources.RawDataOfAnswers | src/sources/mod.rs:107-157 | `RawData` is the scan over the answers of the normalised request's 17 level queries: their first error, or the encoding of the scan's frames |
| Sources.CollectLevels | src/sources/mod.rs:157-222 | the loop with its running count, weight, buffer and early break returns the error of the scan over the level answers, or the encoding of the scan's frames |
| Sources.AddLevel | src/sources/mod.rs:195-209 | a level with rows adds its weight, its row count modulo 2^32 and its frames to the buffer; an empty level changes nothing; the weight stays within the ceiling of the levels seen |
| Sources.WriteFrames | src/sources/mod.rs:199-209 | the inner loop appends to the buffer the encoding of one frame per row, in row order |
| Sources.WrittenStep | src/sources/mod.rs:195-209 | after a level, the buffer and the count still hold the frames gathered, the count modulo 2^32 |
| Sources.ScanStart | src/sources/mod.rs:134-157 | before storage zoom 0, with nothing counted, weighed or written, the loop invariant holds |
| Sources.LevelStep | src/sources/mod.rs:195-215 | after one level's bookkeeping, either the weight reaches the requested level's and the scan is finished with the count and buffer encoding its frames, or the loop invariant holds for the next level |
| Sources.ScanAbort | src/sources/mod.rs:173-192 | a failing level makes the whole scan fail with its error |
| Sources.ScanAdvance | src/sources/mod.rs:195-215 | after a level, either the scan ends with the frames so far, or the loop invariant holds for the next level with the new weight |
| Sources.ScanEnd | src/sources/mod.rs:157 | after storage zoom 16 the scan is finished: its frames are the ones gathered, and the count and buffer encode them |
| Sources.WeightStep | src/sources/mod.rs:197 | a level adds at most its own area to the weight's upper bound, and the sum stays below 2^64, so the u64 addition does not overflow |
| Sources.WeightCeilingMonotone | src/sources/mod.rs:197 | the weight ceiling grows with the number of levels counted |
| Sources.WeightCeilingClosedForm | src/sources/mod.rs:197 | the areas of the first queryZ levels sum to (4^17 - 4^(17 - queryZ)) / 3 |
| Sources.TileWeightFitsU64 | src/sources/mod.rs:134-197 | the weight of all 17 levels is below 2^64, so `tile_weight`, a u64 in the model as in the source, never overflows |
| Sources.WriteFrameStep | src/sources/mod.rs:199-209 | writing one more row's frame extends the buffer to the frames of one more row |
| Sources.RawDataDecodes | src/sources/mod.rs:218-222 | a successful result decodes to exactly the scan's frames, in scan order |
| Sources.RawDataLayout | src/sources/mod.rs:218-222 | a successful result is the u32 frame count, then the frames; its length is 4 + sum of (20 + data length) |
| Sources.RawDataFailsWithFirstLevel | src/sources/mod.rs:173 | storage zoom 0 is always queried, so its failure is the call's failure |
| Sources.RawDataAliasing | src/sources/mod.rs:116-126 | asking for an alias key is asking for `locr` with the alias as value and polygons as type |
| Sources.RawDataEmptyStore | src/sources/mod.rs:218-222 | a tile without data is no error: the result is a zero count and nothing else |

## Left out

- `SQLite::new` (src/sources/mod.rs:25-28) is file I/O; the model takes the opened, read-only database as a value `Store`.
- `query_data` (src/sources/mod.rs:53-82) prepares SQL and iterates rows through rusqlite. It becomes `TileStore.Select` over the store's rows, with its one data rule: text and blob columns give their bytes, any other column gives none. A failing query is a map from query to error. A row's x, y and z are taken to be of the widths the driver converts them to (u32, u32, u8). Conversion failures inside `get_unwrap` would panic and are not modelled.
- The `println!` trace (src/sources/mod.rs:212) is console output with no effect on the result.
- Write errors of the `Cursor` writes cannot happen on a growable vector and are not modelled.
- Unicode lower-casing in `from_str` is modelled as ASCII lower-casing. The two agree on whether an input is one of the three accepted spellings. The only non-ASCII character whose lower case is an ASCII letter is the Kelvin sign, which lowers to 'k', and no accepted spelling contains a 'k'.
- src/error/mod.rs and its tests are not part of this model; `get_raw_data` does not use that error type.
- Sources.GetRawData: requires z <= 16. For z > 16 a debug build panics, on the shift at src/sources/mod.rs:161 or on the subtraction at src/sources/mod.rs:213. A release build would mask the shift amount and wrap the subtraction and the power; that is not modelled.
- Sources.GetRawData: models the shifts as u32 shifts that drop the bits shifted out, which both builds do. The count `+=` at src/sources/mod.rs:196 and the range end `+` at src/sources/mod.rs:178-179 follow a release build and wrap modulo 2^32; a debug build panics instead. For tiles inside their zoom the range end does not wrap (`Sources.PlanLevelInRange`) and the weight does not overflow (`Sources.TileWeightFitsU64`). Only a count of 2^32 rows or more would wrap, and it wraps as shown by `Ints.WrappingAddTrunc`.
- Sources.ScanFromSound, Sources.ScanFromComplete, Sources.LevelQueryMatches: require x, y < 2^z. Outside that, the queried ancestor and ranges are still modelled exactly (`Sources.PlanLevel`), but they are not claimed to be the requested tile's ancestors and descendants.
- Sources.RawDataDecodes, FrameCodec.DecodeEncode: require fewer than 2^32 frames and data shorter than 2^32 bytes, since the u32 fields cannot express more.
