# ECUxPlot map pack records and log datasets in Dafny

This project models three classes of ECUxPlot.

**`org.nyet.mappack.Map`** is one map record of a binary map pack:
- It is decoded field by field from a `ByteBuffer`, together with its `Value`, its x and y `Axis`, and a z axis built from the map's own value.
- It is rendered as a CSV row, as an old-style XDF block (`%%TABLE%%` … `%%END%%`), or as a TunerPro XDF element built on an `XmlString`.
- A table wider than 256 columns swaps its x and y axes in place before rendering.
- Two maps, or a map and an id string, are compared by the stem of the id.

**The two `org.nyet.logfile.Dataset` classes** are CSV logs held as columns:
- Columns are looked up by an id that may be a `String` or a `Key`.
- The rows are cut into `Range`s: runs of consecutive rows that pass `dataValid`, kept when they pass `rangeValid`.
- The newer class (`src/org/nyet/logfile/Dataset.java`) builds its ranges once, when the dataset is constructed:
  - a run ends at the row before the first invalid row;
  - a run that reaches the last row ends one row before it.
- The older class (`org/nyet/logfile/Dataset.java`) builds fresh ranges on every `getRanges` call:
  - a run ends at the invalid row that follows it;
  - a run that is still going at the last row is dropped.

## Modules

The modules follow the classes:

| module | file | models |
|---|---|---|
| `Wrappers` | `wrappers.dfy` | `Option` and `Result`, with the Java exception kinds the code throws. |
| `JavaLang` | `javalang.dfy` | Java `int` arithmetic (wrap-around, `1 << n`, truncating division, saturating casts), signed bytes, `Integer.compareTo` and `String.compareTo`. |
| `Format` | `format.dfy` | The `String.format` conversions the renderers use (`%d`, `%x`, `%X`, `%06d`, `%-17s`, `%.Nf`), `Strings.join` and `split(..)[0]`. |
| `ByteCursor` | `bytecursor.dfy` | Pure readers over a byte cursor, and a `ByteBuffer` class whose methods advance a position. |
| `MapTypes` | `maptypes.dfy` | The enumerations (`Organization`, `ValueType`, `DataSource`), the value view of a `Value` and an `Axis`, `limitPrecision`, and the equation strings. |
| `MapDecode` | `mapdecode.dfy` | The constructors `Value(ByteBuffer)`, `Axis(ByteBuffer, …)` and `Map(ByteBuffer)` as pure parsers. |
| `Xml` | `xml.dfy` | `XmlString` as a class holding a list of indented lines. |
| `MapRender` | `maprender.dfy` | The renderers as pure functions over the value view of a map. |
| `MapObjects` | `mapobjects.dfy` | Classes `Dimension`, `Value`, `Axis` and `MapRecord` (Java's `Map`). Their methods read from a `ByteBuffer`, swap axes in place and append to an `XmlString`. Each is proved equal to the pure parser or renderer. |
| `LogRows` | `logrows.dfy` | What the two datasets share: `Range`, the `Object` argument of `equals`/`compareTo`, and runs of valid rows. |
| `SrcDataset` | `srcdataset.dfy` | `src/org/nyet/logfile/Dataset.java`. |
| `OrgDataset` | `orgdataset.dfy` | `org/nyet/logfile/Dataset.java`. |

Each imperative method is specified by a pure function of the state before the call:
- a reader method ends where the pure parser says, with the value it says;
- a renderer method appends exactly the lines the pure renderer gives;
- `buildRanges` and `getRanges` produce exactly the spans of the recursive definition `RangesFrom`.

The pure functions carry the properties the code promises, as lemmas.

Some code outside the model becomes parameters:
- **The decoder's `Primitives`:** the buffer's byte order, `Parse.string`, the `HexValue(ByteBuffer)` reader, the IEEE 754 meaning of eight bytes, and `(int)(Math.floor(Math.log10(x)) + 1)`.
- **The CSV renderer's `CellText` and `Overlay`:** how a cell prints a number or an address, and what `MapData` reports about an image.
- **`Files.filenameStem` in `SrcDataset.Key.ToString`:** it is the `stem` argument.
- **The datasets' `dataValid` and `rangeValid`:** each is a function fixed when the dataset is made.

## Model

| member | source | states |
|---|---|---|
| JavaLang.Wrap | org/nyet/mappack/Map.java:121 | The result is a Java `int` congruent to the argument modulo 2^32, and equals the argument when the argument already fits. |
| JavaLang.ShiftOne | org/nyet/mappack/Map.java:182 | `1 << n` is always a Java `int` (the shift distance is taken modulo 32). |
| JavaLang.Div | org/nyet/mappack/Map.java:241 | Integer division truncates toward zero, for negative dividends as well. |
| JavaLang.Saturate | org/nyet/mappack/Map.java:185 | A cast of a double to `int` gives an `int`, and leaves an in-range value unchanged. |
| JavaLang.SignedByte | org/nyet/mappack/Map.java:236-239 | A byte read from the buffer lies in -128..127 and is 1 exactly when its bits are 1, so the `==1` flag tests see only that pattern. |
| JavaLang.Unsigned32 | org/nyet/mappack/Map.java:319 | `%X` prints an int's 32-bit pattern: below 2^32, and equal to the value when the value is not negative. |
| JavaLang.IntCompare | org/nyet/mappack/Map.java:25-27 | `Integer.compareTo` is zero exactly on equal values and negative exactly when the first is smaller. |
| JavaLang.StrCompareZero | src/org/nyet/logfile/Dataset.java:145-147 | `String.compareTo` is zero exactly on equal strings. |
| JavaLang.StrCompareAntisymmetric | src/org/nyet/logfile/Dataset.java:145-147 | Swapping the strings negates `String.compareTo`. |
| JavaLang.StrCompareIsLex | src/org/nyet/logfile/Dataset.java:145-147 | `String.compareTo` is negative exactly when the first string is lexicographically smaller. |
| Format.Dec | org/nyet/mappack/Map.java:117 | Integer-to-string conversion is non-empty and starts with '-' exactly for negative numbers. |
| Format.HexLower | org/nyet/mappack/Map.java:533 | `%x` of an int prints one to eight hex digits. |
| Format.HexUpper | org/nyet/mappack/Map.java:319 | `%X` of an int prints one to eight hex digits. |
| Format.HexInt | org/nyet/mappack/Map.java:552 | `%X` of an int expression (such as `folderId+1`) prints one to eight hex digits. |
| Format.Hex02 | org/nyet/mappack/Map.java:318 | `"0x%02X"` starts with "0x" and is followed by at least two digits. |
| Format.ZeroPadded | org/nyet/mappack/Map.java:503 | `%06d` is at least six characters long. |
| Format.PadRight | org/nyet/mappack/Map.java:503 | `%-17s` keeps the text at the front and pads it to at least 17 characters. |
| Format.Fixed | org/nyet/mappack/Map.java:160-162 | `%.Nf` is non-empty, has '-' first exactly for negative values, and has a point when N > 0. |
| Format.Join | org/nyet/mappack/Map.java:545 | `Strings.join` of no parts is empty, and of one part is that part. |
| Format.JoinAppend | org/nyet/mappack/Map.java:545 | Joining one more part adds the separator and that part, or gives just the part when it is the first. |
| Format.Prefix | org/nyet/mappack/Map.java:486 | The prefix is the longest run of non-separators at the start of the string: the character after it, if any, is a separator. |
| Format.PrefixOfStem | org/nyet/mappack/Map.java:486 | A stem, followed by a separator and anything else, has that stem as its prefix. |
| Format.SplitHead | org/nyet/mappack/Map.java:486 | `split(r)[0]` throws exactly for a non-empty string made only of separators; otherwise it is the prefix before the first separator. |
| ByteCursor.BigEndianValue | org/nyet/mappack/Map.java:18 | The unsigned value of n bytes is below 2^(8n). |
| ByteCursor.SignedValue | org/nyet/mappack/Map.java:18 | The two's-complement value of n bytes, in either byte order, lies in -2^(8n-1)..2^(8n-1)-1. |
| ByteCursor.ReadByte | org/nyet/mappack/Map.java:426 | `get()` succeeds exactly when a byte is left. It advances one byte and gives a signed byte; otherwise it throws BufferUnderflow. |
| ByteCursor.ReadFixed | org/nyet/mappack/Map.java:429 | A 2- or 4-byte read succeeds exactly when that many bytes are left, and advances by that many; a 4-byte read gives an int. |
| ByteCursor.ReadShort | org/nyet/mappack/Map.java:454 | `getShort()` succeeds exactly when two bytes are left, and advances by two. |
| ByteCursor.ReadInt | org/nyet/mappack/Map.java:432 | `getInt()` succeeds exactly when four bytes are left, advances by four, and gives a Java int; otherwise it throws BufferUnderflow. |
| ByteCursor.ReadDouble | org/nyet/mappack/Map.java:142-143 | `getDouble()` succeeds exactly when eight bytes are left, and advances by eight. |
| ByteCursor.ReadString | org/nyet/mappack/Map.java:140-141 | `Parse.string` only moves forward within the buffer; its failure is a ParserException. |
| ByteCursor.ReadHex | org/nyet/mappack/Map.java:231 | `HexValue(ByteBuffer)` only moves forward within the buffer. |
| ByteCursor.ReadInts | org/nyet/mappack/Map.java:431 | `Parse.buffer` into an int[n] succeeds exactly when 4n bytes are left, gives n ints, and advances by 4n. |
| ByteCursor.ReadBytes | org/nyet/mappack/Map.java:461 | `get(byte[n])` succeeds exactly when n bytes are left, gives n bytes, and advances by n. |
| ByteCursor.ReadHexes | org/nyet/mappack/Map.java:437 | `Parse.buffer` into a HexValue[n] gives n values and only moves forward. |
| ByteCursor.ByteBuffer.Get | org/nyet/mappack/Map.java:426 | The method returns what ReadByte gives and moves to where it ends; on an exception the position stays. |
| ByteCursor.ByteBuffer.GetShort | org/nyet/mappack/Map.java:454 | The same, for ReadShort. |
| ByteCursor.ByteBuffer.GetInt | org/nyet/mappack/Map.java:429 | The same, for ReadInt. |
| ByteCursor.ByteBuffer.GetDouble | org/nyet/mappack/Map.java:142-143 | The same, for ReadDouble. |
| ByteCursor.ByteBuffer.GetString | org/nyet/mappack/Map.java:140-141 | The same, for ReadString. |
| ByteCursor.ByteBuffer.GetHex | org/nyet/mappack/Map.java:231 | The same, for ReadHex. |
| ByteCursor.ByteBuffer.GetInts | org/nyet/mappack/Map.java:431 | The same, for ReadInts. |
| ByteCursor.ByteBuffer.GetBytes | org/nyet/mappack/Map.java:461 | The same, for ReadBytes. |
| ByteCursor.ByteBuffer.GetHexes | org/nyet/mappack/Map.java:437 | The same, for ReadHexes. |
| MapTypes.EnmToString | org/nyet/mappack/Map.java:20-24 | An `Enm` without a legend throws. A code inside the legend gives its entry. A code outside gives the "(len n) x" fallback. |
| MapTypes.CompareCodes | org/nyet/mappack/Map.java:25-27 | `Enm.compareTo` orders by code: zero exactly on equal codes, negative exactly when the first is smaller. |
| MapTypes.ValueTypeWidths | org/nyet/mappack/Map.java:70-84 | The width is 1 for code 1, 2 for codes 2-3, 4 for codes 4-7 and 0 otherwise. A little-endian code among 0-7 is 2 or 4 bytes wide, and a 1-byte type is never little-endian. |
| MapTypes.EnumPredicates | org/nyet/mappack/Map.java:43-48 | `is1D` implies `isTable`, and `isTable` holds exactly for codes 3-5. No data source is both Eprom and ordinal. `isEeprom` holds exactly for codes 1-3. The default data source is Eprom. |
| MapTypes.EnmFallbackIsDistinct | org/nyet/mappack/Map.java:20-23 | When no legend entry starts with '(', the out-of-range fallback text differs from every legend entry. |
| MapTypes.LegendsHaveNoFallbackShape | org/nyet/mappack/Map.java:33-40 | No entry of the three legends starts with '(' (lines 59-68 and 88-94 hold the other two). |
| MapTypes.ZAxis | org/nyet/mappack/Map.java:252-260 | The z axis is named "z", has size 0, has the default data source, and takes the given address. |
| MapTypes.MaxRawByEncoding | org/nyet/mappack/Map.java:179-182 | `(1<<width)-1` is 255/127 for 1 byte and 65535/32767 for 2 bytes. For 4 bytes and for an unknown width it is 0 unsigned and Integer.MAX_VALUE signed, because of the shift's modulo-32 distance. |
| MapTypes.MaxRawSmall | org/nyet/mappack/Map.java:182 | `(1<<bits)-1` for 7, 8, 15 and 16 bits. |
| MapTypes.MaxRawWide | org/nyet/mappack/Map.java:182 | `(1<<32)-1` is 0 and `(1<<31)-1` is Integer.MAX_VALUE. |
| MapTypes.IntDigits | org/nyet/mappack/Map.java:185 | The integer digit count is a Java int. |
| MapTypes.LimitPrecision | org/nyet/mappack/Map.java:178-194 | limitPrecision changes only the precision, and sets it to the clamp of precision against maxDigits minus the integer digits. |
| MapTypes.ClampIdempotent | org/nyet/mappack/Map.java:188-191 | Limiting twice is limiting once. |
| MapTypes.ClampNeverRaises | org/nyet/mappack/Map.java:188-191 | Limiting never raises a non-negative precision and never makes it negative. |
| MapTypes.ClampWithinBudget | org/nyet/mappack/Map.java:188-191 | When the integer digits leave room, precision plus integer digits fits maxDigits afterwards. |
| MapTypes.ClampKeepsFittingPrecision | org/nyet/mappack/Map.java:190 | A precision that already fits is kept. |
| MapTypes.Label | org/nyet/mappack/Map.java:503 | An XDF_LBL prefix starts with a tab, ends with '=', and is at least 26 characters long. |
| MapTypes.EqXdf | org/nyet/mappack/Map.java:168-176 | The equation is "X" exactly when factor is 1 and offset is 0. |
| MapTypes.EqOldXdf | org/nyet/mappack/Map.java:157-166 | The old equation line is empty exactly for the identity, and otherwise ends with ",TH\|0\|0\|0\|0\|" and a newline. |
| MapTypes.EquationOffsetTerm | org/nyet/mappack/Map.java:168-176 | A non-identity equation starts with the factor and " * X". More text follows exactly when the offset is not 0. That text is "+ " and the offset, which starts with '-' exactly for a negative offset. |
| MapDecode.ValueHeadAt | org/nyet/mappack/Map.java:139-145 | `Value(ByteBuffer)` reads two strings and two doubles, so it moves forward at least 16 bytes. |
| MapDecode.CompleteValue | org/nyet/mappack/Map.java:147-153 | `Value(b, vt, s, p)` keeps the head, encoding and sign. Its result is what limitPrecision gives, and it is a fixed point of limitPrecision. |
| MapDecode.SameDigits | org/nyet/mappack/Map.java:179-185 | The integer digit count depends on factor, offset, encoding and sign only, not on the precision. |
| MapDecode.AxisHeadAt | org/nyet/mappack/Map.java:228-233 | The axis head (value head, data source, address, encoding) moves forward at least 24 bytes. |
| MapDecode.AxisFlagsAt | org/nyet/mappack/Map.java:234-240 | The flag block is exactly 19 bytes. Its precision is the signed byte at offset 10, and header3_size is an int. The reciprocal byte (offset 9) and the sign byte (offset 14) read as 1 exactly when those bytes are 1. |
| MapDecode.AxisTailAt | org/nyet/mappack/Map.java:241-244 | The reserved block holds header3_size/4 ints (truncating division). A negative count throws NegativeArraySize. |
| MapDecode.AxisAt | org/nyet/mappack/Map.java:227-250 | `Axis(b, n, s)` takes the given name and size. It keeps the address exactly when the data source is Eprom, reads a reserved block of header3_size/4 ints, ends with a limited precision, and reads at least 47 + 4·\|header3\| bytes. `reciprocal` and the value's `sign` are true exactly when their bytes, 9 and 14 bytes after the axis head, are 1. The axis Value is the head's value completed with the encoding, the sign byte and the signed precision byte (offset 10), then precision-limited. |
| MapDecode.MapIdentAt | org/nyet/mappack/Map.java:426-433 | The naming fields read int-valued folder id, organization and encoding codes, and move forward in the buffer. |
| MapDecode.MapRangeAt | org/nyet/mappack/Map.java:434-436 | header1, header1a and the four range ints take exactly 21 bytes, and fail exactly when fewer are left. |
| MapDecode.MapFlagsAt | org/nyet/mappack/Map.java:438-441 | The four flag bytes take exactly 4 bytes, and each flag is true exactly when its byte is 1. |
| MapDecode.MapSizesAt | org/nyet/mappack/Map.java:442-444 | The two sizes, header3 and the int precision take exactly 20 bytes. |
| MapDecode.MapShapeTailAt | org/nyet/mappack/Map.java:438-444 | The flags and sizes take exactly 24 bytes, keep the range already read, and each flag is set exactly when its byte is 1. |
| MapDecode.MapShapeAt | org/nyet/mappack/Map.java:434-444 | The shape fields read a range of four ints and an int precision. `reciprocal`, `sign`, `difference` and `percent` are true exactly when their bytes, 24 to 21 bytes before the end of the shape, are 1. |
| MapDecode.MapHeadAt | org/nyet/mappack/Map.java:426-444 | Every field before the map's Value, in order. |
| MapDecode.MapExtentAt | org/nyet/mappack/Map.java:446-450 | The fields after the value hold exactly two extent addresses. |
| MapDecode.MapTrailerIntsAt | org/nyet/mappack/Map.java:453-458 | The fixed part of the trailer is exactly 45 bytes. |
| MapDecode.MapTrailerAt | org/nyet/mappack/Map.java:453-461 | The whole trailer is at least 48 bytes. |
| MapDecode.MapFrontAt | org/nyet/mappack/Map.java:426-450 | Everything before the x axis, with a range of four ints and two extent addresses. |
| MapDecode.MapYAt | org/nyet/mappack/Map.java:452 | The y axis is named "y" and sized by the map's rows. |
| MapDecode.MapAxesAt | org/nyet/mappack/Map.java:451-461 | The x axis is named "x" and sized by the columns; the y axis is named "y" and sized by the rows; neither is a z axis. |
| MapDecode.MapAt | org/nyet/mappack/Map.java:425-464 | A decoded map is Consistent: its x/y axes carry its size, and its z axis shares its value, first extent and size. The read stays inside the buffer. |
| Xml.XmlString.constructor | org/nyet/mappack/Map.java:777 | A new XmlString has no lines and the given depth. |
| Xml.XmlString.Append | org/nyet/mappack/Map.java:198 | Append adds one line at the current depth. |
| Xml.XmlString.AppendIf | org/nyet/mappack/Map.java:301-302 | A guarded append adds the line only when the guard holds. |
| Xml.XmlString.Indent | org/nyet/mappack/Map.java:199 | indent deepens by one and adds nothing. |
| Xml.XmlString.Unindent | org/nyet/mappack/Map.java:201 | unindent goes up one level and adds nothing. |
| Xml.XmlString.Close | org/nyet/mappack/Map.java:364-365 | Unindent then append puts the closing tag one level up. |
| MapRender.SwapSettles | org/nyet/mappack/Map.java:608-620 | After the swap the map is never wide again, so a second swap changes nothing. |
| MapRender.SwapExchanges | org/nyet/mappack/Map.java:608-620 | A wide map exchanges sizes and axes. A narrow one is unchanged. Value, extent and id never change. |
| MapRender.SwapKeepsConsistent | org/nyet/mappack/Map.java:730-742 | The swap keeps a decoded map Consistent. |
| MapRender.EqOldXdfIsEqLines | org/nyet/mappack/Map.java:157-166 | The old equation text is the rendering of its XDF_LBL line. |
| MapRender.Title | org/nyet/mappack/Map.java:554-561 | The title is the name when the id is empty. Otherwise it is the id up to the first space, and an id of spaces only throws. |
| MapRender.OrdinalsCount | org/nyet/mappack/Map.java:542-546 | ordinalArray(n) holds n numbers, 1 to n in order. |
| MapRender.OrdinalTextSteps | org/nyet/mappack/Map.java:542-546 | ordinalArray is empty for 0 and "1" for 1, and each further entry adds "," and the next number. |
| MapRender.OldFlagsBits | org/nyet/mappack/Map.java:590-688 | The Flags value has bit 0 for a signed z, bit 1 for a little-endian z, bits 6/7 for signed x/y and bits 8/9 for little-endian x/y (tables only); no other bit is set. |
| MapRender.OldXdfFrame | org/nyet/mappack/Map.java:548-561 | The old XDF fails exactly when the id is spaces only. Otherwise it opens with %%TABLE%% or %%CONSTANT%% and closes with %%END%%. |
| MapRender.OldXdfNumbering | org/nyet/mappack/Map.java:552-721 | The first line is numbered 100, and every other line is numbered within off..off+750. |
| MapRender.AxisNumbering | org/nyet/mappack/Map.java:621-686 | The x and y axis lines are numbered within off..off+750. |
| MapRender.OldXdfColumnsFit | org/nyet/mappack/Map.java:607-627 | A table's Cols and Rows lines show the swapped sizes, so Cols exceeds 256 only when Rows does too. |
| MapRender.OldXdfDependsOnPriorSwap | org/nyet/mappack/Map.java:550 | "oneD" is decided before the swap: a 300x1 table ends with the YLabelType line, while its already-swapped form ends with Flags. |
| MapRender.OldXdfEndsWithTrailer | org/nyet/mappack/Map.java:688-721 | The last line before %%END%% is the last trailer line (Flags, or the one-dimensional label type). |
| MapRender.TypeFlagsAttribute | org/nyet/mappack/Map.java:315-319 | mmedtypeflags comes first exactly when the value is signed or little-endian, followed by mmedaddress. |
| MapRender.LabelsXdfMeaning | org/nyet/mappack/Map.java:369-382 | genLabelsXDF gives one LABEL per index, in order. It throws UnknownFormat exactly when there are labels, the size is not 1 and the precision is negative. |
| MapRender.LabelsXdfError | org/nyet/mappack/Map.java:380 | That exception is UnknownFormat. |
| MapRender.AxisXdfFails | org/nyet/mappack/Map.java:283-367 | Axis.toXDF fails exactly for an ordinal axis whose labels throw, or for a non-ordinal axis without an address. Otherwise it is framed by the XDFAXIS tags. |
| MapRender.ZAxisExtent | org/nyet/mappack/Map.java:322-326 | The z axis states its row count, its column count only when there is more than one column, and no major stride. |
| MapRender.MapXdfFrame | org/nyet/mappack/Map.java:773-804 | toStringXDF fails exactly when the title throws or a table axis fails. Otherwise it is framed by XDFTABLE or XDFCONSTANT. |
| MapRender.ConstantXdfTotal | org/nyet/mappack/Map.java:749-771 | A constant renders whenever its title does. |
| MapRender.MapXdfStableUnderSwap | org/nyet/mappack/Map.java:730-742 | Rendering an already-swapped table gives the same XDF. |
| MapRender.MapXdfOfParts | org/nyet/mappack/Map.java:773-804 | The XDF depends only on id, name, folder, organization and the rendered body. |
| MapRender.CsvHeaderColumns | org/nyet/mappack/Map.java:474-483 | The CSV header has 16 columns: ID, Name, Size and Units at positions 0, 2, 3 and 6. |
| MapRender.CsvRowShape | org/nyet/mappack/Map.java:515-540 | The CSV row has 16 cells with an image and 14 without (ending in two empty cells). Id, name, size and units are in place. An encoding without a legend throws. |
| MapObjects.Dimension.constructor | org/nyet/mappack/Map.java:115 | The fields are the given sizes. |
| MapObjects.Dimension.CompareTo | org/nyet/mappack/Map.java:118-120 | Dimensions are ordered by (wrapped) area. |
| MapObjects.DimensionCompareAntisymmetric | org/nyet/mappack/Map.java:118-120 | Swapping the operands negates the comparison. |
| MapObjects.DimensionAreaWraps | org/nyet/mappack/Map.java:121 | 65536x65536 has area 0 in int arithmetic, and so compares equal to 0x0. |
| MapObjects.Value.constructor | org/nyet/mappack/Map.java:139-145 | A fresh Value holds the head, encoding code 0, precision 0 and no sign. |
| MapObjects.Value.ReadHead | org/nyet/mappack/Map.java:139-145 | The method reads what ValueHeadAt reads, or throws what it throws. |
| MapObjects.Value.Read | org/nyet/mappack/Map.java:147-153 | The method reads the head and leaves the CompleteValue of it. |
| MapObjects.Value.LimitPrecision | org/nyet/mappack/Map.java:178-194 | The object's new state is the pure limitPrecision of the old one, and the method returns the new precision. |
| MapObjects.Value.DoMathXdf | org/nyet/mappack/Map.java:197-203 | Appends the MATH block and returns to the starting depth. |
| MapObjects.Axis.constructor | org/nyet/mappack/Map.java:227-250 | The axis holds exactly the fields given. |
| MapObjects.Axis.Z | org/nyet/mappack/Map.java:252-260 | The z axis is named "z", has size 0, has the default data source and the given address and size, and shares the given Value. |
| MapObjects.Axis.Read | org/nyet/mappack/Map.java:227-250 | The fresh axis is exactly what AxisAt decodes, or the method throws what AxisAt throws. |
| MapObjects.Axis.Build | org/nyet/mappack/Map.java:228-249 | The address is kept only for Eprom, and the value's precision is limited last. |
| MapObjects.Axis.GenLabelsXdf | org/nyet/mappack/Map.java:369-385 | The loop appends exactly the lines of LabelsXdf, or throws its exception. |
| MapObjects.Axis.AppendLabel | org/nyet/mappack/Map.java:372-381 | One LABEL for index i, or UnknownFormat. |
| MapObjects.Axis.OrdinalBodyXdf | org/nyet/mappack/Map.java:294-313 | The ordinal body is the EMBEDDEDDATA head followed by the labels. |
| MapObjects.Axis.AddressedBodyXdf | org/nyet/mappack/Map.java:314-363 | Appends exactly the addressed body. |
| MapObjects.Axis.ToXdf | org/nyet/mappack/Map.java:283-367 | The method returns AxisXdf, and the buffer gains exactly those lines. |
| MapObjects.MapRecord.constructor | org/nyet/mappack/Map.java:425-464 | The record holds the head's fields and the given objects. |
| MapObjects.MapRecord.Read | org/nyet/mappack/Map.java:425-464 | `Map(ByteBuffer)` gives a fresh, Valid record whose view is MapAt, or throws what MapAt throws. |
| MapObjects.MapRecord.Build | org/nyet/mappack/Map.java:462 | The z axis is built from the map's value, first extent and size. |
| MapObjects.MapRecord.SwapWideAxes | org/nyet/mappack/Map.java:608-620 | The in-place swap leaves SwapView of the old view, keeps Valid, and leaves the z axis seeing the same size object. |
| MapObjects.MapRecord.OrdinalArray | org/nyet/mappack/Map.java:542-546 | The loop fills 1..len and joins them. |
| MapObjects.MapRecord.ToStringOldXdf | org/nyet/mappack/Map.java:548-724 | Returns OldXdf of the state before the call. It leaves a table swapped (when the title does not throw) and keeps Valid. |
| MapObjects.MapRecord.ConstantToXdf | org/nyet/mappack/Map.java:749-771 | Appends exactly ConstantXdf. |
| MapObjects.MapRecord.TableToXdf | org/nyet/mappack/Map.java:726-747 | Swaps, then appends exactly TableXdf of the swapped map, or throws its exception. |
| MapObjects.MapRecord.BodyToXdf | org/nyet/mappack/Map.java:799-800 | A table or a constant body, as the organization says. |
| MapObjects.MapRecord.OpenXdf | org/nyet/mappack/Map.java:777-797 | The open tag, the title, the description and the category, on a fresh XmlString(1). |
| MapObjects.MapRecord.ToStringXdf | org/nyet/mappack/Map.java:773-804 | Returns MapXdf of the state before the call, and leaves a titled table swapped. |
| MapObjects.MapRecord.TitledXdf | org/nyet/mappack/Map.java:799-803 | Given the opened buffer, the result is MapXdf of the state before the call. |
| MapObjects.MapRecord.EqualsId | org/nyet/mappack/Map.java:491-494 | `equals(String)` throws exactly when both strings are non-empty and the id is separators only. Otherwise it is true exactly when both are non-empty and the argument is the id's stem. |
| MapObjects.MapRecord.Equals | org/nyet/mappack/Map.java:485-489 | `equals(Map)` throws or holds exactly as the two stems decide. |
| MapObjects.EqualsSymmetric | org/nyet/mappack/Map.java:485-494 | Without separator-only ids, equals never throws and is symmetric. |
| MapObjects.EqualsByStem | org/nyet/mappack/Map.java:485-494 | Two ids sharing a stem before a separator are equal. |
| MapObjects.EqualsThrowsOneWay | org/nyet/mappack/Map.java:486-493 | With ids "?" and "", a.equals(b) is false while b.equals(a) throws. |
| MapObjects.ReadValueHead | org/nyet/mappack/Map.java:139-145 | The method mirrors ValueHeadAt. |
| MapObjects.ReadAxisHead | org/nyet/mappack/Map.java:228-233 | The method mirrors AxisHeadAt. |
| MapObjects.ReadAxisFlags | org/nyet/mappack/Map.java:234-240 | The method mirrors AxisFlagsAt. |
| MapObjects.ReadAxisTail | org/nyet/mappack/Map.java:241-244 | The method mirrors AxisTailAt. |
| MapObjects.ReadMapIdent | org/nyet/mappack/Map.java:426-433 | The method mirrors MapIdentAt. |
| MapObjects.ReadMapShape | org/nyet/mappack/Map.java:434-444 | The method mirrors MapShapeAt. |
| MapObjects.ReadMapHead | org/nyet/mappack/Map.java:426-444 | The method mirrors MapHeadAt. |
| MapObjects.ReadMapExtent | org/nyet/mappack/Map.java:446-450 | The method mirrors MapExtentAt. |
| MapObjects.ReadMapFront | org/nyet/mappack/Map.java:426-450 | The method mirrors MapFrontAt, with a fresh Value. |
| MapObjects.ReadMapAxes | org/nyet/mappack/Map.java:451-461 | The method mirrors MapAxesAt, with two distinct fresh axes. |
| MapObjects.ReadMapY | org/nyet/mappack/Map.java:452-461 | The method mirrors MapYAt. |
| MapObjects.ReadMapTrailer | org/nyet/mappack/Map.java:453-461 | The method mirrors MapTrailerAt. |
| LogRows.Range.constructor | src/org/nyet/logfile/Dataset.java:24 | `Range(s)` is the one-row range s..s. |
| LogRows.Spans | src/org/nyet/logfile/Dataset.java:16 | The list of spans is as long as the list of ranges. |
| LogRows.RunLast | src/org/nyet/logfile/Dataset.java:232-242 | The run that starts at s ends at t: every row from s to t is valid, and t is the last row or is followed by an invalid row. |
| LogRows.RunLastUnique | src/org/nyet/logfile/Dataset.java:232-242 | Those facts fix the end of the run. |
| SrcDataset.RangesFromClosed | src/org/nyet/logfile/Dataset.java:229-257 | Every cached range starts a run and passes rangeValid. It ends one row before the invalid row that ends its run, or one row before the last row when the run reaches it. |
| SrcDataset.RangesFromOrdered | src/org/nyet/logfile/Dataset.java:229-257 | The cached ranges are in increasing order and do not overlap. |
| SrcDataset.RangesFromComplete | src/org/nyet/logfile/Dataset.java:229-257 | Every run whose range passes rangeValid is in the cache. |
| SrcDataset.RangeSizes | src/org/nyet/logfile/Dataset.java:26 | `size()` of a cached range is end-start+1 ≥ 0, and it is 0 exactly for a run that starts on the last row. |
| SrcDataset.AllRowsValid | src/org/nyet/logfile/Dataset.java:239-244 | With every row valid, the cache is the one range 0..rows-2. |
| SrcDataset.Flags.constructor | src/org/nyet/logfile/Dataset.java:110 | `new BitSet(2)` has no bit set. |
| SrcDataset.Key.constructor | src/org/nyet/logfile/Dataset.java:88-93 | The key holds the given fields, sharing the given BitSet. |
| SrcDataset.Key.Copy | src/org/nyet/logfile/Dataset.java:95-100 | The copy has the same fields and shares the BitSet. |
| SrcDataset.Key.WithRange | src/org/nyet/logfile/Dataset.java:102-107 | The copy has the new range and shares the BitSet. |
| SrcDataset.Key.Unflagged | src/org/nyet/logfile/Dataset.java:109-111 | The key gets a fresh, empty BitSet. |
| SrcDataset.Key.Named | src/org/nyet/logfile/Dataset.java:113-115 | The key gets range 0 and a fresh, empty BitSet. |
| SrcDataset.Key.HideFilename | src/org/nyet/logfile/Dataset.java:132 | Sets bit 0 of the shared BitSet. |
| SrcDataset.Key.ShowFilename | src/org/nyet/logfile/Dataset.java:133 | Clears bit 0. |
| SrcDataset.Key.HideRange | src/org/nyet/logfile/Dataset.java:134 | Sets bit 1. |
| SrcDataset.Key.ShowRange | src/org/nyet/logfile/Dataset.java:135 | Clears bit 1. |
| SrcDataset.Key.SetRange | src/org/nyet/logfile/Dataset.java:140 | The range becomes r. |
| SrcDataset.Key.ToString | src/org/nyet/logfile/Dataset.java:118-130 | With both bits set the text is s alone. Without bit 0 it starts with stem(fn) and ':'. With bit 1 it ends with s. Without bit 1 it ends with " " and range+1 (int arithmetic). |
| SrcDataset.Key.CompareTo | src/org/nyet/logfile/Dataset.java:142-155 | compareTo throws ClassCast exactly for an argument that is neither a Key nor a String. Against a String it compares s only. |
| SrcDataset.Key.Equals | src/org/nyet/logfile/Dataset.java:156-169 | equals is false for null, and throws ClassCast exactly for an argument that is neither a Key nor a String. |
| SrcDataset.CompareToIsLex | src/org/nyet/logfile/Dataset.java:142-150 | Between keys, compareTo never throws. It is zero exactly on equal (fn, s, range) and negative exactly in lexicographic order of (fn, s, range). |
| SrcDataset.CompareToAntisymmetric | src/org/nyet/logfile/Dataset.java:142-150 | Swapping the keys negates compareTo. |
| SrcDataset.EqualsMatchesCompareTo | src/org/nyet/logfile/Dataset.java:156-163 | equals between keys agrees with compareTo == 0. |
| SrcDataset.StringEqualsNotSymmetric | src/org/nyet/logfile/Dataset.java:164-167 | A key equals its own s, but that String does not equal the key. |
| SrcDataset.ObjEquals | src/org/nyet/logfile/Dataset.java:211 | `id.equals(c.id)` throws NullPointer for a null id, or ClassCast from a Key. A String equals only an equal String. |
| SrcDataset.Column.constructor | src/org/nyet/logfile/Dataset.java:40-44 | The column holds the given fields. |
| SrcDataset.Dataset.constructor | src/org/nyet/logfile/Dataset.java:172-190 | After construction the range cache holds exactly the spans of RangesFrom. |
| SrcDataset.Dataset.Get | src/org/nyet/logfile/Dataset.java:209-213 | get returns null exactly when no column matches. Otherwise it returns the first matching column, or the exception of the first equals that throws. |
| SrcDataset.Dataset.Exists | src/org/nyet/logfile/Dataset.java:215-220 | exists is true exactly when the first matching column has non-null, non-empty data. It throws what get throws. |
| SrcDataset.Dataset.BuildRanges | src/org/nyet/logfile/Dataset.java:229-257 | The cache becomes exactly RangesFrom in fresh Range objects. lastFilterReasons is reset once a valid row has been seen. Columns and rows are unchanged. |
| SrcDataset.Dataset.ScanRow | src/org/nyet/logfile/Dataset.java:233-255 | One loop turn keeps the scan invariant: cache plus the ranges still to come is the whole result. |
| SrcDataset.Dataset.CloseRange | src/org/nyet/logfile/Dataset.java:243-254 | The open range gets end i-1 and joins the cache if rangeValid accepts it, keeping the invariant. |
| SrcDataset.Dataset.Keep | src/org/nyet/logfile/Dataset.java:245-253 | The range is appended exactly when rangeValid accepts it. |
| SrcDataset.Dataset.CloseAt | src/org/nyet/logfile/Dataset.java:239-244 | Closing at row i is the run's CloseRow, and peels one step off RangesFrom. |
| OrgDataset.RangesFromClosed | org/nyet/logfile/Dataset.java:139-154 | Every range starts a run that ends before the last row, ends at the invalid row after that run, and passes rangeValid. |
| OrgDataset.RangesFromOrdered | org/nyet/logfile/Dataset.java:139-154 | The ranges are in increasing order and do not overlap. |
| OrgDataset.RangesFromComplete | org/nyet/logfile/Dataset.java:139-154 | Every run that an invalid row ends, and whose range passes rangeValid, is returned. |
| OrgDataset.RangeSizes | org/nyet/logfile/Dataset.java:22 | `size()` of a returned range is end-start+1 ≥ 2. The first size-1 rows are valid and the last is the invalid one. |
| OrgDataset.AllRowsValid | org/nyet/logfile/Dataset.java:142-152 | With every row valid, nothing is returned. |
| OrgDataset.Key.ToString | org/nyet/logfile/Dataset.java:68 | The text starts with s and a space, and ends with series+1 (int arithmetic). |
| OrgDataset.Key.CompareTo | org/nyet/logfile/Dataset.java:72-83 | compareTo throws ClassCast exactly for an argument that is neither a Key nor a String (null included). Against a String it compares s. |
| OrgDataset.Key.Equals | org/nyet/logfile/Dataset.java:84-94 | equals throws ClassCast exactly for null or a non-Key, non-String argument. |
| OrgDataset.MakeKey | org/nyet/logfile/Dataset.java:61-67 | The constructor succeeds exactly for a String, keeping it and the series; otherwise it throws ClassCast. |
| OrgDataset.ToStringSeries | org/nyet/logfile/Dataset.java:68 | The series is shown 1-based, and Integer.MAX_VALUE shows as Integer.MIN_VALUE. |
| OrgDataset.CompareToIsLex | org/nyet/logfile/Dataset.java:72-78 | Between keys, compareTo is zero exactly on equal keys and negative exactly in (s, series) order. |
| OrgDataset.CompareToAntisymmetric | org/nyet/logfile/Dataset.java:72-78 | Swapping the keys negates compareTo. |
| OrgDataset.EqualsMatchesCompareTo | org/nyet/logfile/Dataset.java:84-89 | equals between keys agrees with compareTo == 0. |
| OrgDataset.ObjEquals | org/nyet/logfile/Dataset.java:131 | `id.equals(c.id)` throws NullPointer for a null id, or ClassCast from a Key given null or another object. A String equals only an equal String. |
| OrgDataset.Column.constructor | org/nyet/logfile/Dataset.java:48-52 | The column holds the given fields. |
| OrgDataset.Dataset.constructor | org/nyet/logfile/Dataset.java:99-115 | The dataset holds the given columns, rows and tests. |
| OrgDataset.Dataset.Get | org/nyet/logfile/Dataset.java:125-134 | get returns null exactly when no column matches. Otherwise it returns the first matching column, or the exception of the first equals that throws. |
| OrgDataset.Dataset.GetRanges | org/nyet/logfile/Dataset.java:139-154 | The returned list holds exactly the spans of RangesFrom, in fresh Range objects. |
| OrgDataset.Dataset.ScanRow | org/nyet/logfile/Dataset.java:143-151 | One loop turn keeps the scan invariant. |
| OrgDataset.Dataset.CloseRange | org/nyet/logfile/Dataset.java:146-150 | The open range gets end i and joins the list if rangeValid accepts it. |
| OrgDataset.Dataset.CloseAt | org/nyet/logfile/Dataset.java:143-150 | Closing at the invalid row i peels one step off RangesFrom. |
| OrgDataset.Dataset.DroppedAtEnd | org/nyet/logfile/Dataset.java:152-153 | A range still open after the last row contributes nothing. |

## Left out

- **I/O is not modelled.** Reading the map pack file, reading the CSV log (`CSVReader`, `ParseHeaders`) and `Column.add`'s timestamp and number parsing are left out. A dataset is built from columns and a row count that are already read.
- **Doubles are exact reals, not IEEE 754.** The bytes of a double, and `Math.log10`, come in through `Primitives`. `%f` rounds half-up on the exact value.
- **MapData is a parameter.** `MapData` (the image's minimum and maximum) is the `Overlay` argument of the CSV row. The dead `if(false && …)` block of toStringOldXDF is not modelled, and neither is the `Map(Axis, int)` constructor that only that block calls.
- **The debugging `toString` methods are not modelled:** `Map.toString()`, `Axis.toString()` and `Value.toString()` (the FORMAT_DUMP output). The `toString(int format, …)` switch is not modelled either; its three other cases are the renderers.
- **`XDF_Pedantic` is false**, so its branches are not modelled.
- **`HexValue` is not part of this model.** It is read through `Primitives` and kept as an `int`.
- **`XmlString` and `Strings.join` are not part of this model.** They are modelled from their use: lines with a depth, and joining with a separator.
- **`Units.find` and `Files.filenameStem` are not part of this model.** The first becomes the constructor's `units` argument; the second is the `stem` argument of `SrcDataset.Key.ToString`.
- **`dataValid`, `rangeValid` and `lastFilterReasons`:** `dataValid` and `rangeValid` are pure functions of the row or range. Subclasses that record filter reasons in `lastFilterReasons` are not modelled. Only the reset in `buildRanges` is.
- **Null strings are not modelled.** A null `String` inside a `Key`, or a null map id or name, is not modelled; `ObjEquals` models a null argument only.
- **`units(…)` and `getData(…)` are not modelled.** Each is a lookup through the modelled `Get`, followed by a read of the column's units or of its data between the range's start and end. The difference between the two classes is in what a missing column does:
  - In src/org/nyet/logfile/Dataset.java both return null for a missing column. `getData(Key, Range)` looks the column up by the key's string part, `getString()`, alone.
  - In org/nyet/logfile/Dataset.java neither checks `get`'s result, so a missing column throws NullPointerException.
- **The plain getters are not modelled.** Methods such as `getFileId` only read a field.
- SrcDataset.Dataset.Exists: calls `Get` once, where the source calls `get` up to three times. The calls see the same state and give the same answer.
- SrcDataset.Dataset.BuildRanges: states that the cached `Range` objects are fresh, not that they are pairwise distinct.
- OrgDataset.Dataset.GetRanges: states that the returned `Range` objects are fresh, not that they are pairwise distinct.
- JavaLang.StrCompare: text is a sequence of Unicode code points, not of UTF-16 code units. Java's `compareTo`, `String.length()` and `%-17s` padding count UTF-16 units, so the model differs from Java for text outside the Basic Multilingual Plane. The comparison differs: `"\uFFFF"` sorts after U+10000 in Java, because U+10000 starts with the surrogate 0xD800, but before it here. The CompareTo lemmas of both datasets inherit this. The lengths differ too: U+1F600 is one element here but two units in Java. That affects the `DescSize` line of MapRender.DescLines (`desc.length()+1`) and the widths in MapTypes.Label and Format.PadRight.
- MapObjects.Dimension.CompareTo: takes a Dimension. Java's `compareTo(Object o)` casts its argument, so a null or non-Dimension argument throws NullPointerException or ClassCastException; that path is not modelled.
- MapObjects.EqualsSymmetric: needs both ids to be something other than separators only, because otherwise `equals` can throw one way and not the other (see MapObjects.EqualsThrowsOneWay).
