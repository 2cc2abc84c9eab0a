/**
 * The record decoder: Value(ByteBuffer), Axis(ByteBuffer, String, int) and
 * Map(ByteBuffer) as parsers over a byte cursor. Each reads its fields in
 * the record's one fixed order and fails where the Java constructor throws.
 */
module MapDecode {
  import opened Wrappers
  import JavaLang
  import opened ByteCursor
  import opened MapTypes

  /** What Value(ByteBuffer) reads: description, units, factor, offset. */
  datatype ValueHead = ValueHead(description: string, units: string, factor: real, offset: real)

  function ValueHeadAt(h: Primitives, c: Cursor): (r: Result<(ValueHead, Cursor)>)
    ensures r.Ok? ==> r.value.1.data == c.data && c.pos + 16 <= r.value.1.pos <= |c.data|
  {
    var d :- ReadString(h, c);
    var u :- ReadString(h, d.1);
    var f :- ReadDouble(h, u.1);
    var o :- ReadDouble(h, f.1);
    Ok((ValueHead(d.0, u.0, f.0, o.0), o.1))
  }

  /** A value whose precision limitPrecision leaves as it is. */
  ghost predicate PrecisionLimited(h: Primitives, v: ValueV)
  {
    ClampPrecision(v.precision, IntDigits(h, v), MaxDigits) == v.precision
  }

  /**
   * Value(b, vt, sign, precision): the head completed, then its precision
   * limited; the result is a fixed point of limitPrecision.
   */
  function CompleteValue(h: Primitives, head: ValueHead, vt: ValueType, sign: bool, precision: int): (v: ValueV)
    ensures v.description == head.description && v.units == head.units
    ensures v.factor == head.factor && v.offset == head.offset
    ensures v.vtype == vt && v.sign == sign
    ensures v == LimitPrecision(h, v.(precision := precision), MaxDigits)
    ensures JavaLang.IsInt(precision) ==> PrecisionLimited(h, v)
  {
    var raw := ValueV(head.description, head.units, head.factor, head.offset, vt, precision, sign);
    var v := LimitPrecision(h, raw, MaxDigits);
    SameDigits(h, raw, v);
    if JavaLang.IsInt(precision) then
      ClampIdempotent(precision, IntDigits(h, raw), MaxDigits);
      v
    else v
  }

  /** The digit count does not depend on the precision. */
  lemma SameDigits(h: Primitives, a: ValueV, b: ValueV)
    requires a.factor == b.factor && a.offset == b.offset && a.vtype == b.vtype && a.sign == b.sign
    ensures IntDigits(h, a) == IntDigits(h, b)
  {
    SameConvert(a, b, MaxRaw(BitWidth(a.vtype, a.sign)) as real);
  }

  /** Conversion reads only the factor and the offset. */
  lemma SameConvert(a: ValueV, b: ValueV, x: real)
    requires a.factor == b.factor && a.offset == b.offset
    ensures a.Convert(x) == b.Convert(x)
  {
  }

  /** CompleteValue is limitPrecision applied to the value as read. */
  lemma CompleteValueIsLimited(h: Primitives, head: ValueHead, vt: ValueType, sign: bool, precision: int)
    ensures CompleteValue(h, head, vt, sign, precision)
         == LimitPrecision(h, ValueV(head.description, head.units, head.factor, head.offset, vt, precision, sign), MaxDigits)
  {
  }

  /** The axis fields up to the encoding: value head, data source, address, encoding code. */
  datatype AxisHead = AxisHead(value: ValueHead, datasource: int, addr: int, valueType: int)

  function AxisHeadAt(h: Primitives, c: Cursor): (r: Result<(AxisHead, Cursor)>)
    ensures r.Ok? ==> r.value.1.data == c.data && c.pos + 24 <= r.value.1.pos <= |c.data|
  {
    var head :- ValueHeadAt(h, c);
    var ds :- ReadInt(h, head.1);
    // the address is read whatever the data source, to keep the fields after it aligned
    var addr :- ReadHex(h, ds.1);
    var vt :- ReadInt(h, addr.1);
    Ok((AxisHead(head.0, ds.0, addr.0, vt.0), vt.1))
  }

  /** The axis flag bytes and the size of its reserved block. */
  datatype AxisFlags = AxisFlags(reciprocal: int, precision: int, sign: int, header3Size: int)

  function AxisFlagsAt(h: Primitives, c: Cursor): (r: Result<(AxisFlags, Cursor)>)
    ensures r.Ok? ==> r.value.1 == Cursor(c.data, c.pos + 19)
    ensures r.Ok? ==> -128 <= r.value.0.precision < 128 && JavaLang.IsInt(r.value.0.header3Size)
    ensures r.Ok? ==> c.pos + 19 <= |c.data| && (r.value.0.reciprocal == 1 <==> c.data[c.pos + 9] == 1)
    ensures r.Ok? ==> c.pos + 19 <= |c.data| && (r.value.0.sign == 1 <==> c.data[c.pos + 14] == 1)
    ensures r.Ok? ==> c.pos + 19 <= |c.data| && r.value.0.precision == JavaLang.SignedByte(c.data[c.pos + 10])
  {
    var header1 :- ReadInts(h, c, 2);
    var header1a :- ReadByte(header1.1);
    var recip :- ReadByte(header1a.1);
    var prec :- ReadByte(recip.1);
    var header2 :- ReadBytes(prec.1, 3);
    var sign :- ReadByte(header2.1);
    var h3size :- ReadInt(h, sign.1);
    Ok((AxisFlags(recip.0, prec.0, sign.0, h3size.0), h3size.1))
  }

  /** The reserved block of header3_size / 4 ints, one reserved int and the signature. */
  function AxisTailAt(h: Primitives, c: Cursor, header3Size: int): (r: Result<(seq<int>, Cursor)>)
    ensures r.Ok? ==> |r.value.0| == JavaLang.Div(header3Size, 4)
    ensures r.Ok? ==> r.value.1.data == c.data && c.pos + 4 + 4 * |r.value.0| <= r.value.1.pos <= |c.data|
    ensures r.Err? && JavaLang.Div(header3Size, 4) < 0 ==> r.error == NegativeArraySize
  {
    var count := JavaLang.Div(header3Size, 4);
    if count < 0 then Err(NegativeArraySize)
    else
      var header3 :- ReadInts(h, c, count);
      var header4 :- ReadInt(h, header3.1);
      var signature :- ReadHex(h, header4.1);
      Ok((header3.0, signature.1))
  }

  /**
   * The flag block of an axis lies at p: reciprocal and sign are set exactly
   * by the byte value 1, and the Value is the head's value completed with the
   * encoding, the sign and the signed precision byte.
   */
  predicate AxisFlagBytes(h: Primitives, hd: AxisHead, p: Cursor, x: AxisV) {
    && p.pos + 19 <= |p.data|
    && (x.reciprocal <==> p.data[p.pos + 9] == 1)
    && (x.value.sign <==> p.data[p.pos + 14] == 1)
    && x.value == CompleteValue(h, hd.value, Decoded(hd.valueType), p.data[p.pos + 14] == 1,
                                JavaLang.SignedByte(p.data[p.pos + 10]))
  }

  /** The axis the decoded fields make: the address kept only for Eprom, the flags set only by 1. */
  function AxisOf(h: Primitives, name: string, size: int, a: AxisHead, f: AxisFlags, header3: seq<int>): (x: AxisV)
    requires -128 <= f.precision < 128
    ensures x.name == name && x.size == size && !x.IsZ() && x.header3 == header3 && x.header3Size == f.header3Size
    ensures x.addr.Some? <==> x.datasource.IsEeprom()
    ensures x.reciprocal <==> f.reciprocal == 1
    ensures x.value == CompleteValue(h, a.value, Decoded(a.valueType), f.sign == 1, f.precision)
    ensures x.value.vtype.Decoded? && (x.value.sign <==> f.sign == 1) && PrecisionLimited(h, x.value)
  {
    var source := DataSource(a.datasource);
    var value := CompleteValue(h, a.value, Decoded(a.valueType), f.sign == 1, f.precision);
    AxisV(name, size, None, value, source, if source.IsEeprom() then Some(a.addr) else None,
          f.reciprocal == 1, f.header3Size, header3)
  }

  /**
   * Axis(ByteBuffer, name, size). The address is always read, so the fields
   * after it are read from the same place whatever the data source; it is
   * kept only for an Eprom data source. The reciprocal and sign flags are
   * set only by the byte value 1. The reserved block holds header3_size / 4
   * ints (Java division), and a negative count throws. The precision is
   * limited once every field is read.
   */
  function AxisAt(h: Primitives, c: Cursor, name: string, size: int): (r: Result<(AxisV, Cursor)>)
    ensures r.Ok? ==> r.value.0.name == name && r.value.0.size == size && !r.value.0.IsZ()
    ensures r.Ok? ==> (r.value.0.addr.Some? <==> r.value.0.datasource.IsEeprom())
    ensures r.Ok? ==> |r.value.0.header3| == JavaLang.Div(r.value.0.header3Size, 4)
    ensures r.Ok? ==> r.value.0.value.vtype.Decoded? && PrecisionLimited(h, r.value.0.value)
    ensures r.Ok? ==> r.value.1.data == c.data
    ensures r.Ok? ==> c.pos + 47 + 4 * |r.value.0.header3| <= r.value.1.pos <= |c.data|
    ensures r.Ok? ==>
      && AxisHeadAt(h, c).Ok? && AxisHeadAt(h, c).value.1.data == c.data
      && AxisFlagBytes(h, AxisHeadAt(h, c).value.0, AxisHeadAt(h, c).value.1, r.value.0)
  {
    var head :- AxisHeadAt(h, c);
    var flags :- AxisFlagsAt(h, head.1);
    var tail :- AxisTailAt(h, flags.1, flags.0.header3Size);
    Ok((AxisOf(h, name, size, head.0, flags.0, tail.0), tail.1))
  }

  /** The map fields read before its Value: everything up to the precision. */
  datatype MapHead = MapHead(
    name: string,
    organization: int,
    valueType: int,
    folderId: int,
    id: string,
    range: seq<int>,
    reciprocal: bool,
    sign: bool,
    difference: bool,
    percent: bool,
    sizeX: int,
    sizeY: int,
    precision: int)

  /** The naming fields: header0 up to the id. */
  datatype MapIdent = MapIdent(name: string, organization: int, valueType: int, folderId: int, id: string)

  function MapIdentAt(h: Primitives, c: Cursor): (r: Result<(MapIdent, Cursor)>)
    ensures r.Ok? ==> r.value.1.data == c.data && c.pos <= r.value.1.pos <= |c.data|
    ensures r.Ok? ==> JavaLang.IsInt(r.value.0.folderId) && JavaLang.IsInt(r.value.0.organization)
    ensures r.Ok? ==> JavaLang.IsInt(r.value.0.valueType)
  {
    var header0 :- ReadByte(c);
    var name :- ReadString(h, header0.1);
    var org :- ReadInt(h, name.1);
    var header :- ReadInt(h, org.1);
    var vt :- ReadInt(h, header.1);
    var headera :- ReadInts(h, vt.1, 2);
    var folderId :- ReadInt(h, headera.1);
    var id :- ReadString(h, folderId.1);
    Ok((MapIdent(name.0, org.0, vt.0, folderId.0, id.0), id.1))
  }

  /** The shaping fields: header1 up to the precision. */
  datatype MapShape = MapShape(range: seq<int>, reciprocal: bool, sign: bool, difference: bool, percent: bool,
                               sizeX: int, sizeY: int, precision: int)

  /** header1, header1a and the four range ints: a fixed 21 bytes. */
  function MapRangeAt(h: Primitives, c: Cursor): (r: Result<(seq<int>, Cursor)>)
    ensures r.Ok? <==> c.pos + 21 <= |c.data|
    ensures r.Ok? ==> |r.value.0| == 4 && r.value.1 == Cursor(c.data, c.pos + 21)
  {
    var header1 :- ReadInt(h, c);
    var header1a :- ReadByte(header1.1);
    var range :- ReadInts(h, header1a.1, 4);
    Ok(range)
  }

  /** The four flag bytes: reciprocal, sign, difference, percent; each set only by the value 1. */
  datatype MapFlags = MapFlags(reciprocal: bool, sign: bool, difference: bool, percent: bool)

  function MapFlagsAt(c: Cursor): (r: Result<(MapFlags, Cursor)>)
    ensures r.Ok? <==> c.pos + 4 <= |c.data|
    ensures r.Ok? ==> r.value.1 == Cursor(c.data, c.pos + 4)
    ensures r.Ok? ==> (r.value.0.reciprocal <==> c.data[c.pos] == 1) && (r.value.0.sign <==> c.data[c.pos + 1] == 1)
    ensures r.Ok? ==> (r.value.0.difference <==> c.data[c.pos + 2] == 1) && (r.value.0.percent <==> c.data[c.pos + 3] == 1)
  {
    var recip :- ReadByte(c);
    var sign :- ReadByte(recip.1);
    var diff :- ReadByte(sign.1);
    var pct :- ReadByte(diff.1);
    Ok((MapFlags(recip.0 == 1, sign.0 == 1, diff.0 == 1, pct.0 == 1), pct.1))
  }

  /** The two sizes, the reserved header3 pair and the precision: a fixed 20 bytes. */
  function MapSizesAt(h: Primitives, c: Cursor): (r: Result<((int, int, int), Cursor)>)
    ensures r.Ok? <==> c.pos + 20 <= |c.data|
    ensures r.Ok? ==> r.value.1 == Cursor(c.data, c.pos + 20) && JavaLang.IsInt(r.value.0.2)
  {
    var size :- ReadInts(h, c, 2);
    var header3 :- ReadInts(h, size.1, 2);
    var precision :- ReadInt(h, header3.1);
    Ok(((size.0[0], size.0[1], precision.0), precision.1))
  }

  /** The number of hex fields in header2. */
  const Header2Count: nat := 8

  /** The four flag bytes of a map lie at q, and each flag is set exactly when its byte is 1. */
  predicate FlagBytes(d: Bytes, q: int, m: MapShape) {
    && 0 <= q && q + 4 <= |d|
    && (m.reciprocal <==> d[q] == 1) && (m.sign <==> d[q + 1] == 1)
    && (m.difference <==> d[q + 2] == 1) && (m.percent <==> d[q + 3] == 1)
  }

  /** The flags and sizes after header2, completing the shape with the range already read. */
  function MapShapeTailAt(h: Primitives, range: seq<int>, c: Cursor): (r: Result<(MapShape, Cursor)>)
    ensures r.Ok? ==> r.value.1 == Cursor(c.data, c.pos + 24) && r.value.0.range == range
    ensures r.Ok? ==> JavaLang.IsInt(r.value.0.precision)
    ensures r.Ok? ==> FlagBytes(c.data, c.pos, r.value.0)
  {
    var flags :- MapFlagsAt(c);
    var sizes :- MapSizesAt(h, flags.1);
    var f := flags.0;
    var (sizeX, sizeY, precision) := sizes.0;
    Ok((MapShape(range, f.reciprocal, f.sign, f.difference, f.percent, sizeX, sizeY, precision), sizes.1))
  }

  /**
   * The eight hex fields between the range and the flags take as many bytes
   * as the hex reader says, so the flag bytes are placed from the end: they
   * are followed by the fixed 20 bytes of MapSizesAt.
   */
  function MapShapeAt(h: Primitives, c: Cursor): (r: Result<(MapShape, Cursor)>)
    ensures r.Ok? ==> r.value.1.data == c.data && c.pos <= r.value.1.pos <= |c.data|
    ensures r.Ok? ==> |r.value.0.range| == 4 && JavaLang.IsInt(r.value.0.precision)
    ensures r.Ok? ==> c.pos + 45 <= r.value.1.pos && FlagBytes(r.value.1.data, r.value.1.pos - 24, r.value.0)
  {
    var range :- MapRangeAt(h, c);
    var header2 :- ReadHexes(h, range.1, Header2Count);
    MapShapeTailAt(h, range.0, header2.1)
  }


  function MapHeadAt(h: Primitives, c: Cursor): (r: Result<(MapHead, Cursor)>)
    ensures r.Ok? ==> r.value.1.data == c.data && c.pos <= r.value.1.pos <= |c.data|
    ensures r.Ok? ==> |r.value.0.range| == 4 && JavaLang.IsInt(r.value.0.precision)
    ensures r.Ok? ==> JavaLang.IsInt(r.value.0.folderId) && JavaLang.IsInt(r.value.0.organization)
    ensures r.Ok? ==> JavaLang.IsInt(r.value.0.valueType)
  {
    var ident :- MapIdentAt(h, c);
    var shape :- MapShapeAt(h, ident.1);
    var i := ident.0;
    var s := shape.0;
    Ok((MapHead(i.name, i.organization, i.valueType, i.folderId, i.id, s.range, s.reciprocal, s.sign,
                s.difference, s.percent, s.sizeX, s.sizeY, s.precision), shape.1))
  }

  /** The reserved fields between the value and the x axis, with the extent addresses among them. */
  function MapExtentAt(h: Primitives, c: Cursor): (r: Result<(seq<int>, Cursor)>)
    ensures r.Ok? ==> |r.value.0| == 2 && r.value.1.data == c.data && c.pos <= r.value.1.pos <= |c.data|
  {
    var extent :- ReadHexes(h, c, 2);
    var header4 :- ReadHexes(h, extent.1, 2);
    var header5 :- ReadInts(h, header4.1, 2);
    var header6 :- ReadHex(h, header5.1);
    var header7 :- ReadInt(h, header6.1);
    Ok((extent.0, header7.1))
  }

  /** The reserved trailer after the y axis: its fixed-size part ... */
  function MapTrailerIntsAt(h: Primitives, c: Cursor): (r: Result<Cursor>)
    ensures r.Ok? ==> r.value == Cursor(c.data, c.pos + 45)
  {
    var header8 :- ReadInt(h, c);
    var header8a :- ReadShort(h, header8.1);
    var header9 :- ReadInts(h, header8a.1, 8);
    var header9a :- ReadShort(h, header9.1);
    var header9b :- ReadInt(h, header9a.1);
    var header9c :- ReadByte(header9b.1);
    Ok(header9c.1)
  }

  /** ... then eight hex values and the three terminator bytes. */
  function MapTrailerAt(h: Primitives, c: Cursor): (r: Result<Cursor>)
    ensures r.Ok? ==> r.value.data == c.data && c.pos + 48 <= r.value.pos <= |c.data|
  {
    var ints :- MapTrailerIntsAt(h, c);
    var header10 :- ReadHexes(h, ints, 6);
    var header11 :- ReadHexes(h, header10.1, 2);
    var term2 :- ReadBytes(header11.1, 3);
    Ok(term2.1)
  }

  /** The map fields before its x axis: the head, the completed value and the extent addresses. */
  datatype MapFront = MapFront(head: MapHead, value: ValueV, extent: seq<int>)

  function MapFrontAt(h: Primitives, c: Cursor): (r: Result<(MapFront, Cursor)>)
    ensures r.Ok? ==> r.value.1.data == c.data && c.pos <= r.value.1.pos <= |c.data|
    ensures r.Ok? ==> |r.value.0.head.range| == 4 && |r.value.0.extent| == 2
  {
    var head :- MapHeadAt(h, c);
    var vhead :- ValueHeadAt(h, head.1);
    var value := CompleteValue(h, vhead.0, Decoded(head.0.valueType), head.0.sign, head.0.precision);
    var extent :- MapExtentAt(h, vhead.1);
    Ok((MapFront(head.0, value, extent.0), extent.1))
  }

  /** The y axis, sized by the map's rows, then the reserved trailer. */
  function MapYAt(h: Primitives, c: Cursor, sizeY: int): (r: Result<(AxisV, Cursor)>)
    ensures r.Ok? ==> r.value.1.data == c.data && c.pos <= r.value.1.pos <= |c.data|
    ensures r.Ok? ==> r.value.0.name == "y" && r.value.0.size == sizeY && !r.value.0.IsZ()
  {
    var y :- AxisAt(h, c, "y", sizeY);
    var end :- MapTrailerAt(h, y.1);
    Ok((y.0, end))
  }

  /** The x and y axes, sized by the map's columns and rows, then the reserved trailer. */
  function MapAxesAt(h: Primitives, c: Cursor, sizeX: int, sizeY: int): (r: Result<((AxisV, AxisV), Cursor)>)
    ensures r.Ok? ==> r.value.1.data == c.data && c.pos <= r.value.1.pos <= |c.data|
    ensures r.Ok? ==> r.value.0.0.name == "x" && r.value.0.0.size == sizeX && !r.value.0.0.IsZ()
    ensures r.Ok? ==> r.value.0.1.name == "y" && r.value.0.1.size == sizeY && !r.value.0.1.IsZ()
  {
    var x :- AxisAt(h, c, "x", sizeX);
    var y :- MapYAt(h, x.1, sizeY);
    Ok(((x.0, y.0), y.1))
  }

  /**
   * Map(ByteBuffer): the whole record. The x and y axes are read with the
   * size's columns and rows; the z axis shares the map's value and first
   * extent address and takes the size as its extent.
   */
  function MapAt(h: Primitives, c: Cursor): (r: Result<(MapV, Cursor)>)
    ensures r.Ok? ==> r.value.1.data == c.data && c.pos <= r.value.1.pos <= |c.data|
    ensures r.Ok? ==> Consistent(r.value.0)
  {
    var front :- MapFrontAt(h, c);
    var m := front.0.head;
    var axes :- MapAxesAt(h, front.1, m.sizeX, m.sizeY);
    var value := front.0.value;
    var extent := front.0.extent;
    Ok((MapV(m.name, Organization(m.organization), m.folderId, m.id, m.range, m.reciprocal,
             m.difference, m.percent, m.sizeX, m.sizeY, value, extent, axes.0.0, axes.0.1,
             ZAxis(value, extent[0], m.sizeX, m.sizeY)), axes.1))
  }
}
