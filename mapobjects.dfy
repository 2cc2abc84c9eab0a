/**
 * The map record as the objects the decoder builds and the serialisers
 * mutate: Dimension, Value, Axis and Map. The z axis of a map holds the
 * map's own Value and Dimension objects, so the axis swap before a table is
 * emitted changes what the z axis reports. Every method here is proved
 * against the pure parser (MapDecode) or serialiser (MapRender) functions.
 */
module MapObjects {
  import opened Wrappers
  import JavaLang
  import Format
  import opened ByteCursor
  import opened MapTypes
  import opened MapDecode
  import opened MapRender
  import opened Xml

  /** Map.Dimension: columns (x) and rows (y). */
  class Dimension {
    var x: int
    var y: int

    constructor (x: int, y: int)
      ensures this.x == x && this.y == y
    {
      this.x := x;
      this.y := y;
    }

    /** areaOf: x * y in Java int arithmetic. */
    function AreaOf(): int
      reads this
    {
      JavaLang.Wrap(x * y)
    }

    function ToString(): string
      reads this
    {
      SizeText(x, y)
    }

    /** compareTo: dimensions ordered by area. */
    function CompareTo(o: Dimension): (r: int)
      reads this, o
      ensures r == 0 <==> AreaOf() == o.AreaOf()
      ensures r < 0 <==> AreaOf() < o.AreaOf()
    {
      JavaLang.IntCompare(AreaOf(), o.AreaOf())
    }
  }

  /** The area ordering is antisymmetric. */
  lemma DimensionCompareAntisymmetric(a: Dimension, b: Dimension)
    ensures a.CompareTo(b) == -b.CompareTo(a)
  {
  }

  /** The area wraps: a 65536 x 65536 map has area 0 and compares equal to an empty one. */
  lemma DimensionAreaWraps(a: Dimension, b: Dimension)
    requires a.x == 0x1_0000 && a.y == 0x1_0000 && b.x == 0 && b.y == 0
    ensures a.AreaOf() == 0 && a.CompareTo(b) == 0
  {
    assert a.x * a.y == JavaLang.TwoTo32;
  }

  /** Map.Value: description, units, scale, offset, encoding, precision and sign. */
  class Value {
    var description: string
    var units: string
    var factor: real
    var offset: real
    var vtype: ValueType
    var precision: int
    var sign: bool

    /**
     * Value(ByteBuffer) once its four fields are read. The encoding starts
     * unset (null in the record); its readers always set it before use,
     * and Decoded(0) stands for it here.
     */
    constructor (head: ValueHead)
      ensures View() == ValueV(head.description, head.units, head.factor, head.offset, Decoded(0), 0, false)
    {
      description := head.description;
      units := head.units;
      factor := head.factor;
      offset := head.offset;
      vtype := Decoded(0);
      precision := 0;
      sign := false;
    }

    function View(): ValueV
      reads this
    {
      ValueV(description, units, factor, offset, vtype, precision, sign)
    }

    /** Value(ByteBuffer): description, units, factor, offset. */
    static method ReadHead(h: Primitives, b: ByteBuffer) returns (r: Result<Value>)
      modifies b
      ensures var spec := ValueHeadAt(h, old(b.Cur()));
        && (r.Ok? <==> spec.Ok?)
        && (r.Err? ==> r.error == spec.error)
        && (r.Ok? ==> fresh(r.value) && b.Cur() == spec.value.1)
        && (r.Ok? ==> r.value.View() == ValueV(spec.value.0.description, spec.value.0.units, spec.value.0.factor,
                                               spec.value.0.offset, Decoded(0), 0, false))
    {
      var head :- ReadValueHead(h, b);
      var v := new Value(head);
      r := Ok(v);
    }

    /** Value(ByteBuffer, vt, s, p): the head, then the encoding, sign and precision, then the limit. */
    static method Read(h: Primitives, b: ByteBuffer, vt: ValueType, s: bool, p: int) returns (r: Result<Value>)
      modifies b
      ensures var spec := ValueHeadAt(h, old(b.Cur()));
        && (r.Ok? <==> spec.Ok?)
        && (r.Err? ==> r.error == spec.error)
        && (r.Ok? ==> fresh(r.value) && b.Cur() == spec.value.1)
        && (r.Ok? ==> r.value.View() == CompleteValue(h, spec.value.0, vt, s, p))
    {
      var v :- ReadHead(h, b);
      v.vtype := vt;
      v.sign := s;
      v.precision := p;
      var limited := v.LimitPrecision(h, MaxDigits);
      r := Ok(v);
    }

    /**
     * limitPrecision(maxDigits): the precision is cut so that it and the
     * integer digits of the largest value fit the budget; all in Java int
     * arithmetic.
     */
    method LimitPrecision(h: Primitives, maxDigits: int) returns (p: int)
      modifies this
      ensures View() == MapTypes.LimitPrecision(h, old(View()), maxDigits)
      ensures p == precision
    {
      var width := BitWidth(vtype, sign);
      var max := View().Convert(MaxRaw(width) as real);
      var intdigits := JavaLang.Saturate(h.intDigits(max));
      var digits := JavaLang.Wrap(precision + intdigits);
      if digits > maxDigits {
        precision := if maxDigits > intdigits then JavaLang.Wrap(maxDigits - intdigits) else 0;
      }
      p := precision;
    }

    /** doMathXDF(xs, x): the MATH element for the equation x. */
    method DoMathXdf(xs: XmlString, x: string)
      modifies xs
      ensures xs.lines == old(xs.lines) + MathXdf(x, old(xs.depth)) && xs.depth == old(xs.depth)
    {
      xs.Append(Tag("MATH equation=\"" + x + "\""));
      xs.Indent();
      xs.Append(Tag("VAR id=\"X\" /"));
      xs.Unindent();
      xs.Append(Tag("/MATH"));
    }
  }

  /**
   * Map.Axis. An x or y axis has no extent of its own (zSize is null); the
   * z axis has the map's Dimension as its extent.
   */
  class Axis {
    var name: string
    const size: int
    const zSize: Dimension?
    const value: Value
    const datasource: DataSource
    const addr: Option<int>
    const reciprocal: bool
    const header3Size: int
    const header3: seq<int>

    /** The fields of an x or y axis once read. */
    constructor (name: string, size: int, value: Value, datasource: DataSource, addr: Option<int>,
                 reciprocal: bool, header3Size: int, header3: seq<int>)
      ensures this.name == name && this.size == size && zSize == null && this.value == value
      ensures this.datasource == datasource && this.addr == addr && this.reciprocal == reciprocal
      ensures this.header3Size == header3Size && this.header3 == header3
    {
      this.name := name;
      this.size := size;
      this.zSize := null;
      this.value := value;
      this.datasource := datasource;
      this.addr := addr;
      this.reciprocal := reciprocal;
      this.header3Size := header3Size;
      this.header3 := header3;
    }

    /** Axis(Value, HexValue, Dimension): the z axis, sharing the map's value and size. */
    constructor Z(v: Value, a: int, d: Dimension)
      ensures name == "z" && size == 0 && zSize == d && value == v
      ensures datasource == DefaultDataSource && addr == Some(a) && !reciprocal
      ensures header3Size == 0 && header3 == []
    {
      name := "z";
      size := 0;
      zSize := d;
      value := v;
      datasource := DefaultDataSource;
      addr := Some(a);
      reciprocal := false;
      header3Size := 0;
      header3 := [];
    }

    function View(): AxisV
      reads this, value, zSize
    {
      AxisV(name, size, if zSize == null then None else Some((zSize.x, zSize.y)), value.View(),
            datasource, addr, reciprocal, header3Size, header3)
    }

    /**
     * Axis(ByteBuffer, n, s): the fields in the record's order, the address
     * kept for an Eprom data source only, a reserved block of
     * header3_size / 4 ints, and the precision limited once all is read.
     */
    static method Read(h: Primitives, b: ByteBuffer, n: string, s: int) returns (r: Result<Axis>)
      modifies b
      ensures var spec := AxisAt(h, old(b.Cur()), n, s);
        && (r.Ok? <==> spec.Ok?)
        && (r.Err? ==> r.error == spec.error)
        && (r.Ok? ==> fresh(r.value) && fresh(r.value.value) && b.Cur() == spec.value.1)
        && (r.Ok? ==> r.value.View() == spec.value.0)
    {
      ghost var c0 := b.Cur();
      var head :- ReadAxisHead(h, b);
      ghost var c1 := b.Cur();
      var flags :- ReadAxisFlags(h, b);
      ghost var c2 := b.Cur();
      var header3 :- ReadAxisTail(h, b, flags.header3Size);
      assert AxisHeadAt(h, c0) == Ok((head, c1));
      assert AxisFlagsAt(h, c1) == Ok((flags, c2));
      assert AxisTailAt(h, c2, flags.header3Size) == Ok((header3, b.Cur()));
      var axis := Build(h, head, flags, header3, n, s);
      r := Ok(axis);
    }

    /**
     * The objects Axis(ByteBuffer, n, s) leaves once its fields are read:
     * the axis and its Value, whose precision is limited last.
     */
    static method Build(h: Primitives, head: AxisHead, flags: AxisFlags, header3: seq<int>, n: string, s: int)
      returns (axis: Axis)
      ensures fresh(axis) && fresh(axis.value)
      ensures var source := DataSource(head.datasource);
        axis.View() == AxisV(n, s, None, CompleteValue(h, head.value, Decoded(head.valueType), flags.sign == 1, flags.precision),
                             source, if source.IsEeprom() then Some(head.addr) else None,
                             flags.reciprocal == 1, flags.header3Size, header3)
    {
      var value := new Value(head.value);
      value.vtype := Decoded(head.valueType);
      value.precision := flags.precision;
      value.sign := flags.sign == 1;
      var limited := value.LimitPrecision(h, MaxDigits);
      CompleteValueIsLimited(h, head.value, Decoded(head.valueType), flags.sign == 1, flags.precision);
      var datasource := DataSource(head.datasource);
      // the address is always read, so the fields after it line up whatever the data source
      var addr := if datasource.IsEeprom() then Some(head.addr) else None;
      axis := new Axis(n, s, value, datasource, addr, flags.reciprocal == 1, flags.header3Size, header3);
    }

    /**
     * genLabelsXDF: one LABEL per index below the size, in order; a
     * negative precision on a multi-entry axis throws at the first label.
     */
    method GenLabelsXdf(xs: XmlString) returns (r: Result<()>)
      modifies xs
      ensures var spec := LabelsXdf(View(), old(xs.depth), LabelCount(size));
        && (r.Ok? <==> spec.Ok?)
        && (r.Err? ==> r.error == spec.error)
        && (r.Ok? ==> xs.lines == old(xs.lines) + spec.value && xs.depth == old(xs.depth))
    {
      ghost var a := View();
      ghost var d := xs.depth;
      var i: nat := 0;
      while i < size
        invariant i <= LabelCount(size)
        invariant xs.depth == d && View() == a
        invariant LabelsXdf(a, d, i).Ok?
        invariant xs.lines == old(xs.lines) + LabelsXdf(a, d, i).value
      {
        ghost var prev := LabelsXdf(a, d, i).value;
        var step := AppendLabel(xs, i);
        if step.Err? {
          LabelsXdfError(a, d, LabelCount(size));
          return step;
        }
        Xml.AppendOne(old(xs.lines), prev, LabelLine(d, i, LabelValue(a, i).value));
        i := i + 1;
      }
      r := Ok(());
    }

    /** One pass of the loop in genLabelsXDF: the LABEL for index i. */
    method AppendLabel(xs: XmlString, i: int) returns (r: Result<()>)
      modifies xs
      ensures var spec := LabelValue(View(), i);
        && (r.Ok? <==> spec.Ok?)
        && (r.Err? ==> r == Err(UnknownFormat))
        && (r.Ok? ==> xs.lines == old(xs.lines) + [LabelLine(old(xs.depth), i, spec.value)])
        && xs.depth == old(xs.depth)
    {
      var text: string;
      if size == 1 {
        text := value.units;
      } else if value.precision < 0 {
        return Err(UnknownFormat);
      } else {
        text := Format.Fixed(value.View().Convert(i as real), value.precision);
      }
      xs.Append(Attrs("LABEL", [("index", Format.Dec(i)), ("value", text)]));
      r := Ok(());
    }

    /** The body of an ordinal axis: its data description, then its labels. */
    method OrdinalBodyXdf(xs: XmlString) returns (r: Result<()>)
      modifies xs
      ensures var spec := LabelsXdf(View(), old(xs.depth), LabelCount(size));
        && (r.Ok? <==> spec.Ok?)
        && (r.Err? ==> r.error == spec.error)
        && (r.Ok? ==> xs.lines == old(xs.lines) + OrdinalHead(View(), old(xs.depth)) + spec.value)
        && (r.Ok? ==> xs.depth == old(xs.depth))
    {
      ghost var d := xs.depth;
      ghost var a := View();
      ghost var base := xs.lines;
      xs.Append(Attrs("EMBEDDEDDATA", [("mmedelementsizebits", "16"), ("mmedmajorstridebits", "-32")]));
      xs.Append(Elem("units", value.units));
      xs.Append(Elem("indexcount", Format.Dec(size)));
      ghost var acc := [Line(d, Attrs("EMBEDDEDDATA", [("mmedelementsizebits", "16"), ("mmedmajorstridebits", "-32")])),
                        Line(d, Elem("units", a.value.units)),
                        Line(d, Elem("indexcount", Format.Dec(a.size)))];
      assert xs.lines == base + acc;
      xs.AppendIf(value.precision != 2, Elem("decimalpl", Format.Dec(value.precision)));
      Xml.AppendMany(base, acc, DecimalPl(a.value, d));
      acc := acc + DecimalPl(a.value, d);
      xs.Append(Elem("outputtype", if value.precision == 0 then "2" else "1"));
      Xml.AppendMany(base, acc, [Line(d, Elem("outputtype", if a.value.precision == 0 then "2" else "1"))]);
      assert xs.lines == base + OrdinalHead(a, d);
      r := GenLabelsXdf(xs);
    }

    /** The body of an axis that points at its data at addr. */
    method AddressedBodyXdf(xs: XmlString, addr: int)
      modifies xs
      ensures xs.lines == old(xs.lines) + AddressedBody(View(), addr, old(xs.depth))
      ensures xs.depth == old(xs.depth)
    {
      ghost var d := xs.depth;
      ghost var a := View();
      ghost var base := xs.lines;
      xs.Append(Attrs("EMBEDDEDDATA", AddressedAttrs(View(), addr)));
      xs.Append(Elem("units", value.units));
      ghost var acc := [Line(d, Attrs("EMBEDDEDDATA", AddressedAttrs(a, addr))), Line(d, Elem("units", a.value.units))];
      assert xs.lines == base + acc;
      ghost var more := if a.size > 0 then [Line(d, Elem("indexcount", Format.Dec(a.size)))] else [];
      xs.AppendIf(size > 0, Elem("indexcount", Format.Dec(size)));
      Xml.AppendMany(base, acc, more);
      acc := acc + more;
      more := DecimalPl(a.value, d);
      xs.AppendIf(value.precision != 2, Elem("decimalpl", Format.Dec(value.precision)));
      Xml.AppendMany(base, acc, more);
      acc := acc + more;
      more := if a.value.precision == 0 then [Line(d, Elem("outputtype", "2"))] else [];
      xs.AppendIf(value.precision == 0, Elem("outputtype", "2"));
      Xml.AppendMany(base, acc, more);
      acc := acc + more;
      more := if !a.IsZ() then [Line(d, Tag("embedinfo type=\"1\" /"))] else [];
      xs.AppendIf(zSize == null, Tag("embedinfo type=\"1\" /"));
      Xml.AppendMany(base, acc, more);
      acc := acc + more;
      value.DoMathXdf(xs, EqXdf(value.View()));
      Xml.AppendMany(base, acc, MathXdf(EqXdf(a.value), d));
    }

    /**
     * toXDF: the XDFAXIS element. An ordinal axis lists its labels; any
     * other axis points at its data, and without an address it throws.
     * The result is the part of the buffer this call appended.
     */
    method ToXdf(xs: XmlString) returns (r: Result<seq<Line>>)
      modifies xs
      ensures r == AxisXdf(View(), old(xs.depth))
      ensures r.Ok? ==> xs.lines == old(xs.lines) + r.value && xs.depth == old(xs.depth)
    {
      ghost var d := xs.depth;
      ghost var a := View();
      ghost var base := xs.lines;
      var at := |xs.lines|;
      xs.Append(Tag(AxisOpenTag(View())));
      xs.Indent();
      ghost var start := xs.lines;
      ghost var body: seq<Line>;
      if datasource.IsOrdinal() {
        var labels := OrdinalBodyXdf(xs);
        assert View() == a;
        if labels.Err? {
          assert LabelsXdf(a, d + 1, LabelCount(a.size)).Err?;
          return Err(labels.error);
        }
        body := OrdinalHead(a, d + 1) + LabelsXdf(a, d + 1, LabelCount(a.size)).value;
        assert AxisXdf(a, d) == Ok([Line(d, Tag(AxisOpenTag(a)))] + body + [Line(d, Tag("/XDFAXIS"))]);
        Xml.AppendMany(start, OrdinalHead(a, d + 1), LabelsXdf(a, d + 1, LabelCount(a.size)).value);
      } else {
        if addr.None? {
          return Err(NullPointer);
        }
        AddressedBodyXdf(xs, addr.value);
        assert View() == a;
        body := AddressedBody(a, addr.value, d + 1);
        assert AxisXdf(a, d) == Ok([Line(d, Tag(AxisOpenTag(a)))] + body + [Line(d, Tag("/XDFAXIS"))]);
      }
      assert xs.lines == start + body;
      xs.Unindent();
      xs.Append(Tag("/XDFAXIS"));
      ghost var open := [Line(d, Tag(AxisOpenTag(a)))];
      ghost var close := [Line(d, Tag("/XDFAXIS"))];
      Xml.AppendMany(base, open, body);
      Xml.AppendMany(base, open + body, close);
      Xml.DropPrefix(base, open + body + close);
      r := Ok(xs.lines[at..]);
      assert View() == a;
    }
  }

  /** Map: the decoded record, its axes and the size its z axis shares. */
  class MapRecord {
    const name: string
    const organization: Organization
    const folderId: int
    const id: string
    const range: seq<int>
    const reciprocal: bool
    const difference: bool
    const percent: bool
    const size: Dimension
    const value: Value
    const extent: seq<int>
    var xAxis: Axis
    var yAxis: Axis
    const zAxis: Axis

    constructor (head: MapHead, size: Dimension, value: Value, extent: seq<int>, xAxis: Axis, yAxis: Axis, zAxis: Axis)
      ensures name == head.name && organization == Organization(head.organization) && folderId == head.folderId
      ensures id == head.id && range == head.range && reciprocal == head.reciprocal
      ensures difference == head.difference && percent == head.percent
      ensures this.size == size && this.value == value && this.extent == extent
      ensures this.xAxis == xAxis && this.yAxis == yAxis && this.zAxis == zAxis
    {
      name := head.name;
      organization := Organization(head.organization);
      folderId := head.folderId;
      id := head.id;
      range := head.range;
      reciprocal := head.reciprocal;
      difference := head.difference;
      percent := head.percent;
      this.size := size;
      this.value := value;
      this.extent := extent;
      this.xAxis := xAxis;
      this.yAxis := yAxis;
      this.zAxis := zAxis;
    }

    function View(): MapV
      reads this, size, value, xAxis, yAxis, zAxis, xAxis.value, yAxis.value, zAxis.value
      reads xAxis.zSize, yAxis.zSize, zAxis.zSize
    {
      MapV(name, organization, folderId, id, range, reciprocal, difference, percent, size.x, size.y,
           value.View(), extent, xAxis.View(), yAxis.View(), zAxis.View())
    }

    /**
     * The object graph decoding builds: three distinct axes, the x and y
     * axes without an extent, and the z axis holding the map's own Value
     * and Dimension objects; its view is consistent.
     */
    ghost predicate Valid()
      reads this, size, value, xAxis, yAxis, zAxis, xAxis.value, yAxis.value, zAxis.value
      reads xAxis.zSize, yAxis.zSize, zAxis.zSize
    {
      && xAxis != yAxis && xAxis != zAxis && yAxis != zAxis
      && xAxis.zSize == null && yAxis.zSize == null
      && zAxis.zSize == size && zAxis.value == value
      && Consistent(View())
    }

    /**
     * Map(ByteBuffer): the record's fields in order, its value, the x and y
     * axes sized by the map's columns and rows, the reserved trailer, and a
     * z axis sharing the value, the first extent address and the size.
     */
    static method Read(h: Primitives, b: ByteBuffer) returns (r: Result<MapRecord>)
      modifies b
      ensures var spec := MapAt(h, old(b.Cur()));
        && (r.Ok? <==> spec.Ok?)
        && (r.Err? ==> r.error == spec.error)
        && (r.Ok? ==> fresh(r.value) && r.value.Valid() && r.value.View() == spec.value.0 && b.Cur() == spec.value.1)
    {
      var front :- ReadMapFront(h, b);
      var (head, value, extent) := front;
      var size := new Dimension(head.sizeX, head.sizeY);
      var axes :- ReadMapAxes(h, b, size.x, size.y);
      var m := Build(head, size, value, extent, axes.0, axes.1);
      r := Ok(m);
    }

    /** The record Map(ByteBuffer) leaves: its fields, the two axes read, and the z axis it builds. */
    static method Build(head: MapHead, size: Dimension, value: Value, extent: seq<int>, x: Axis, y: Axis)
      returns (m: MapRecord)
      requires |head.range| == 4 && |extent| == 2
      requires size.x == head.sizeX && size.y == head.sizeY
      requires x != y && x.zSize == null && y.zSize == null
      requires x.View().name == "x" && x.View().size == size.x
      requires y.View().name == "y" && y.View().size == size.y
      ensures fresh(m) && fresh(m.zAxis) && m.Valid()
      ensures m.View() == MapV(head.name, Organization(head.organization), head.folderId, head.id, head.range,
                               head.reciprocal, head.difference, head.percent, head.sizeX, head.sizeY,
                               value.View(), extent, x.View(), y.View(),
                               ZAxis(value.View(), extent[0], head.sizeX, head.sizeY))
    {
      var z := new Axis.Z(value, extent[0], size);
      m := new MapRecord(head, size, value, extent, x, y, z);
    }

    /**
     * The swap before a table is emitted: with more than 256 columns and at
     * most 256 rows the x and y axis objects change places and are renamed,
     * and the size's fields are exchanged; the z axis holds the same size
     * object and so sees the exchange.
     */
    method SwapWideAxes()
      requires Valid()
      modifies this, size, xAxis, yAxis
      ensures Valid()
      ensures View() == SwapView(old(View()))
      ensures zAxis.zSize == size
    {
      if size.x > 0x100 && size.y <= 0x100 {
        var tmpa := yAxis;
        yAxis := xAxis;
        xAxis := tmpa;
        xAxis.name := "x";
        yAxis.name := "y";
        var tmp := size.y;
        size.y := size.x;
        size.x := tmp;
      }
    }

    /** ordinalArray(len): the numbers 1 .. len joined with commas. */
    static method OrdinalArray(len: nat) returns (s: string)
      ensures s == OrdinalText(len)
    {
      var out := new int[len];
      var i := 0;
      while i < len
        invariant 0 <= i <= len
        invariant out[..i] == Ordinals(i)
      {
        out[i] := i + 1;
        assert out[..i + 1] == out[..i] + [i + 1];
        i := i + 1;
      }
      assert out[..] == out[..len];
      s := Format.Join(",", DecAll(out[..]));
    }

    /**
     * toStringOldXDF: the value lines are written before the swap, the axis
     * lines after it, and "oneD" is decided on the size before it.
     */
    method ToStringOldXdf() returns (r: Result<string>)
      requires Valid()
      modifies this, size, xAxis, yAxis
      ensures Valid()
      ensures r == OldXdf(old(View()))
      ensures View() == if organization.IsTable() && r.Ok? then SwapView(old(View())) else old(View())
    {
      ghost var m := View();
      var table := organization.IsTable();
      var oneD := organization.Is1D() || size.y <= 1;
      var out := if table then "%%TABLE%%\n" else "%%CONSTANT%%\n";
      var off: nat := if table then 40000 else 20000;
      var title :- Title(View());
      var front := [OldLine(100, "Cat0ID", "0x" + Format.HexInt(folderId + 1))] + OldValueLines(View(), title, off, table);
      ghost var cat := [OldLine(100, "Cat0ID", "0x" + Format.HexInt(m.folderId + 1))];
      assert front == cat + OldValueLines(m, title, off, table);
      if table {
        SwapWideAxes();
      }
      ghost var s := View();
      assert s == if table then SwapView(m) else m;
      var back := OldTableLines(View(), off, table) + OldTrailerLines(View(), off, table, oneD);
      assert back == OldTableLines(s, off, table) + OldTrailerLines(s, off, table, oneD);
      var lines := front + back;
      OldXdfLinesSplit(m, title, off, table, oneD, s);
      OldXdfWithTitle(m, title);
      assert lines == OldXdfLines(m, title);
      r := Ok(out + RenderLines(lines) + "%%END%%\n");
    }

    /** constantToXDF: the data element, units, precision and equation of a constant. */
    method ConstantToXdf(xs: XmlString)
      requires |extent| == 2
      modifies xs
      ensures xs.lines == old(xs.lines) + ConstantXdf(View(), old(xs.depth)) && xs.depth == old(xs.depth)
    {
      ghost var v := value.View();
      ghost var d := xs.depth;
      ghost var base := xs.lines;
      xs.Append(Attrs("EMBEDDEDDATA", EmbeddedHead(value.View(), extent[0])));
      xs.Append(Elem("units", value.units));
      ghost var acc := [Line(d, Attrs("EMBEDDEDDATA", EmbeddedHead(v, extent[0]))), Line(d, Elem("units", v.units))];
      assert xs.lines == base + acc;
      xs.AppendIf(value.precision != 2, Elem("decimalpl", Format.Dec(value.precision)));
      Xml.AppendMany(base, acc, DecimalPl(v, d));
      acc := acc + DecimalPl(v, d);
      value.DoMathXdf(xs, EqXdf(value.View()));
      Xml.AppendMany(base, acc, MathXdf(EqXdf(v), d));
      assert View().value == v && View().extent == extent;
    }

    /** tableToXDF: the swap, then the x, y and z axis elements. */
    method TableToXdf(xs: XmlString) returns (r: Result<()>)
      requires Valid()
      modifies this, size, xAxis, yAxis, xs
      ensures Valid()
      ensures View() == SwapView(old(View()))
      ensures var spec := TableXdf(SwapView(old(View())), old(xs.depth));
        && (r.Ok? <==> spec.Ok?)
        && (r.Err? ==> r.error == spec.error)
        && (r.Ok? ==> xs.lines == old(xs.lines) + spec.value && xs.depth == old(xs.depth))
    {
      SwapWideAxes();
      ghost var v := View();
      ghost var d := xs.depth;
      ghost var base := xs.lines;
      var x :- xAxis.ToXdf(xs);
      assert View() == v;
      var y :- yAxis.ToXdf(xs);
      assert View() == v;
      Xml.AppendMany(base, x, y);
      // the z axis has no labels to format, so its element cannot fail
      var z := zAxis.ToXdf(xs);
      assert z.Ok? && View() == v;
      var zLines := z.value;
      Xml.AppendMany(base, x + y, zLines);
      r := Ok(());
    }

    /** The body toStringXDF writes: tableToXDF for a table, constantToXDF otherwise. */
    method BodyToXdf(xs: XmlString) returns (r: Result<()>)
      requires Valid()
      modifies this, size, xAxis, yAxis, xs
      ensures Valid()
      ensures View() == if organization.IsTable() then SwapView(old(View())) else old(View())
      ensures var spec := if organization.IsTable() then TableXdf(SwapView(old(View())), old(xs.depth))
                          else Ok(ConstantXdf(old(View()), old(xs.depth)));
        && (r.Ok? <==> spec.Ok?)
        && (r.Err? ==> r.error == spec.error)
        && (r.Ok? ==> xs.lines == old(xs.lines) + spec.value && xs.depth == old(xs.depth))
    {
      if organization.IsTable() {
        r := TableToXdf(xs);
      } else {
        ConstantToXdf(xs);
        r := Ok(());
      }
    }

    /** toStringXDF up to its body: the open tag on a fresh XmlString(1), then the title lines. */
    static method OpenXdf(table: bool, title: string, desc: string, folderId: int) returns (xs: XmlString)
      ensures fresh(xs) && xs.depth == 2
      ensures xs.lines == [Line(1, Tag(MapOpenTag(table))), Line(2, Elem("title", title)),
                           Line(2, Elem("description", desc)),
                           Line(2, Tag("CATEGORYMEM index=\"0\" category=\"" + Format.Dec(JavaLang.Wrap(folderId + 1)) + "\" /"))]
    {
      xs := new XmlString(1);
      xs.Append(Tag(MapOpenTag(table)));
      xs.Indent();
      xs.Append(Elem("title", title));
      xs.Append(Elem("description", desc));
      xs.Append(Tag("CATEGORYMEM index=\"0\" category=\"" + Format.Dec(JavaLang.Wrap(folderId + 1)) + "\" /"));
    }

    /**
     * toStringXDF: the table or constant element, built on a fresh
     * XmlString(1); a table is swapped once the title is known.
     */
    method ToStringXdf() returns (r: Result<seq<Line>>)
      requires Valid()
      modifies this, size, xAxis, yAxis
      ensures Valid()
      ensures r == MapXdf(old(View()))
      ensures View() == if organization.IsTable() && Title(old(View())).Ok? then SwapView(old(View())) else old(View())
    {
      var title :- Title(View());
      var xs := OpenXdf(organization.IsTable(), title, Desc(View()), folderId);
      r := TitledXdf(xs, title);
    }

    /** toStringXDF once the title lines are written: the body, then the close tag. */
    method TitledXdf(xs: XmlString, title: string) returns (r: Result<seq<Line>>)
      requires Valid() && Title(View()) == Ok(title)
      requires xs.lines == [Line(1, Tag(MapOpenTag(organization.IsTable())))] + MapHeadXdf(title, Desc(View()), folderId, 2)
      requires xs.depth == 2
      modifies this, size, xAxis, yAxis, xs
      ensures Valid()
      ensures r == MapXdf(old(View()))
      ensures View() == if organization.IsTable() then SwapView(old(View())) else old(View())
    {
      ghost var m := View();
      ghost var head := xs.lines;
      var done :- BodyToXdf(xs);
      ghost var body := xs.lines[|head|..];
      assert xs.lines == head + body;
      xs.Close(Tag(MapCloseTag(organization.IsTable())));
      Xml.AppendOne(head, body, Line(1, Tag(MapCloseTag(organization.IsTable()))));
      assert MapXdf(m) == Ok(head + body + [Line(1, Tag(MapCloseTag(organization.IsTable())))]);
      r := Ok(xs.lines);
    }

    /** equals(String): the id's stem before the first '?' or ' ' against a non-empty id. */
    function EqualsId(s: string): (r: Result<bool>)
      ensures r.Err? <==> |s| > 0 && |id| > 0 && AllSeparators(id)
      ensures r.Ok? ==> (r.value <==> |s| > 0 && |id| > 0 && s == Format.Prefix(id, IdSeparators))
    {
      if |s| == 0 || |id| == 0 then Ok(false)
      else
        var stem :- Format.SplitHead(id, IdSeparators);
        Ok(s == stem)
    }

    /** equals(Map): the other map's stem, when not empty, against this map's id. */
    function Equals(that: MapRecord): (r: Result<bool>)
      ensures r.Err? <==>
        AllSeparators(that.id) || (Format.Prefix(that.id, IdSeparators) != "" && AllSeparators(id))
      ensures r.Ok? ==> (r.value <==>
        Format.Prefix(that.id, IdSeparators) != "" && Format.Prefix(id, IdSeparators) == Format.Prefix(that.id, IdSeparators))
    {
      var stem :- Format.SplitHead(that.id, IdSeparators);
      if |stem| == 0 then Ok(false) else EqualsId(stem)
    }
  }

  /** The characters "[? ]" splits an id at. */
  const IdSeparators: set<char> := {'?', ' '}

  /** A non-empty id made of separators only, for which split returns no parts. */
  predicate AllSeparators(s: string) {
    |s| > 0 && forall i :: 0 <= i < |s| ==> s[i] in IdSeparators
  }

  /** Map equality is symmetric whenever neither id is made of separators only. */
  lemma EqualsSymmetric(a: MapRecord, b: MapRecord)
    requires !AllSeparators(a.id) && !AllSeparators(b.id)
    ensures a.Equals(b).Ok? && b.Equals(a).Ok?
    ensures a.Equals(b) == b.Equals(a)
  {
  }

  /**
   * Two maps whose ids share a non-empty stem are equal, whatever follows
   * the separator after the stem in either id.
   */
  lemma EqualsByStem(a: MapRecord, b: MapRecord, stem: string, ca: char, restA: string, cb: char, restB: string)
    requires |stem| > 0 && forall i :: 0 <= i < |stem| ==> stem[i] !in IdSeparators
    requires ca in IdSeparators && cb in IdSeparators
    requires a.id == stem + [ca] + restA && b.id == stem + [cb] + restB
    ensures a.Equals(b) == Ok(true)
  {
    Format.PrefixOfStem(stem, ca, restA, IdSeparators);
    Format.PrefixOfStem(stem, cb, restB, IdSeparators);
    assert !AllSeparators(a.id) && !AllSeparators(b.id) by {
      assert a.id[0] == stem[0] && b.id[0] == stem[0];
    }
  }

  /**
   * The throwing is not symmetric: a map whose id is "?" compared with one
   * whose id is empty answers false, while the other way round split
   * returns no parts and the comparison throws.
   */
  lemma EqualsThrowsOneWay(a: MapRecord, b: MapRecord)
    requires a.id == "?" && b.id == ""
    ensures a.Equals(b) == Ok(false)
    ensures b.Equals(a) == Err(ArrayIndexOutOfBounds)
  {
  }

  // ---------------------------------------------------------------------
  // The groups of fields Map(ByteBuffer) reads around its value and axes

  /** Value(ByteBuffer)'s four reads. */
  method ReadValueHead(h: Primitives, b: ByteBuffer) returns (r: Result<ValueHead>)
    modifies b
    ensures Mirrors(r, ValueHeadAt(h, old(b.Cur())), b.Cur())
  {
    var d :- b.GetString(h);
    var u :- b.GetString(h);
    var f :- b.GetDouble(h);
    var o :- b.GetDouble(h);
    r := Ok(ValueHead(d, u, f, o));
  }

  /** The axis fields up to its encoding. */
  method ReadAxisHead(h: Primitives, b: ByteBuffer) returns (r: Result<AxisHead>)
    modifies b
    ensures Mirrors(r, AxisHeadAt(h, old(b.Cur())), b.Cur())
  {
    var value :- ReadValueHead(h, b);
    var ds :- b.GetInt(h);
    var addr :- b.GetHex(h);
    var vt :- b.GetInt(h);
    r := Ok(AxisHead(value, ds, addr, vt));
  }

  /** The axis flag bytes and the size of its reserved block. */
  method ReadAxisFlags(h: Primitives, b: ByteBuffer) returns (r: Result<AxisFlags>)
    modifies b
    ensures Mirrors(r, AxisFlagsAt(h, old(b.Cur())), b.Cur())
  {
    var header1 :- b.GetInts(h, 2);
    var header1a :- b.Get();
    var recip :- b.Get();
    var prec :- b.Get();
    var header2 :- b.GetBytes(3);
    var sign :- b.Get();
    var h3size :- b.GetInt(h);
    r := Ok(AxisFlags(recip, prec, sign, h3size));
  }

  /** new int[header3_size / 4], filled, then the last reserved int and the signature. */
  method ReadAxisTail(h: Primitives, b: ByteBuffer, header3Size: int) returns (r: Result<seq<int>>)
    modifies b
    ensures Mirrors(r, AxisTailAt(h, old(b.Cur()), header3Size), b.Cur())
  {
    var count := JavaLang.Div(header3Size, 4);
    if count < 0 {
      return Err(NegativeArraySize);
    }
    var header3 :- b.GetInts(h, count);
    var header4 :- b.GetInt(h);
    var signature :- b.GetHex(h);
    r := Ok(header3);
  }

  /** header0 up to the id. */
  method ReadMapIdent(h: Primitives, b: ByteBuffer) returns (r: Result<MapIdent>)
    modifies b
    ensures Mirrors(r, MapIdentAt(h, old(b.Cur())), b.Cur())
  {
    var header0 :- b.Get();
    var name :- b.GetString(h);
    var org :- b.GetInt(h);
    var header :- b.GetInt(h);
    var vt :- b.GetInt(h);
    var headera :- b.GetInts(h, 2);
    var folderId :- b.GetInt(h);
    var id :- b.GetString(h);
    r := Ok(MapIdent(name, org, vt, folderId, id));
  }

  /** header1 up to the precision. */
  method ReadMapShape(h: Primitives, b: ByteBuffer) returns (r: Result<MapShape>)
    modifies b
    ensures Mirrors(r, MapShapeAt(h, old(b.Cur())), b.Cur())
  {
    var header1 :- b.GetInt(h);
    var header1a :- b.Get();
    var range :- b.GetInts(h, 4);
    var header2 :- b.GetHexes(h, 8);
    var recip :- b.Get();
    var sign :- b.Get();
    var diff :- b.Get();
    var pct :- b.Get();
    var size :- b.GetInts(h, 2);
    var header3 :- b.GetInts(h, 2);
    var precision :- b.GetInt(h);
    r := Ok(MapShape(range, recip == 1, sign == 1, diff == 1, pct == 1, size[0], size[1], precision));
  }

  /** header0 up to the precision. */
  method ReadMapHead(h: Primitives, b: ByteBuffer) returns (r: Result<MapHead>)
    modifies b
    ensures Mirrors(r, MapHeadAt(h, old(b.Cur())), b.Cur())
  {
    ghost var c0 := b.Cur();
    var i :- ReadMapIdent(h, b);
    ghost var c1 := b.Cur();
    var s :- ReadMapShape(h, b);
    assert MapIdentAt(h, c0) == Ok((i, c1));
    r := Ok(MapHead(i.name, i.organization, i.valueType, i.folderId, i.id, s.range, s.reciprocal, s.sign,
                    s.difference, s.percent, s.sizeX, s.sizeY, s.precision));
  }

  /** The extent addresses and the reserved fields up to the x axis. */
  method ReadMapExtent(h: Primitives, b: ByteBuffer) returns (r: Result<seq<int>>)
    modifies b
    ensures Mirrors(r, MapExtentAt(h, old(b.Cur())), b.Cur())
  {
    var extent :- b.GetHexes(h, 2);
    var header4 :- b.GetHexes(h, 2);
    var header5 :- b.GetInts(h, 2);
    var header6 :- b.GetHex(h);
    var header7 :- b.GetInt(h);
    r := Ok(extent);
  }

  /** Map(ByteBuffer) up to the x axis: the head, the map's Value and the extent addresses. */
  method ReadMapFront(h: Primitives, b: ByteBuffer) returns (r: Result<(MapHead, Value, seq<int>)>)
    modifies b
    ensures var spec := MapFrontAt(h, old(b.Cur()));
      && (r.Ok? <==> spec.Ok?)
      && (r.Err? ==> r.error == spec.error)
      && (r.Ok? ==> fresh(r.value.1) && b.Cur() == spec.value.1)
      && (r.Ok? ==> r.value.0 == spec.value.0.head && r.value.2 == spec.value.0.extent)
      && (r.Ok? ==> r.value.1.View() == spec.value.0.value)
  {
    ghost var c0 := b.Cur();
    var head :- ReadMapHead(h, b);
    ghost var c1 := b.Cur();
    var value :- Value.Read(h, b, Decoded(head.valueType), head.sign, head.precision);
    ghost var c2 := b.Cur();
    var extent :- ReadMapExtent(h, b);
    assert MapHeadAt(h, c0) == Ok((head, c1));
    assert MapExtentAt(h, c2) == Ok((extent, b.Cur()));
    r := Ok((head, value, extent));
  }

  /** Map(ByteBuffer) from the x axis on: both axes and the reserved trailer. */
  method ReadMapAxes(h: Primitives, b: ByteBuffer, sizeX: int, sizeY: int) returns (r: Result<(Axis, Axis)>)
    modifies b
    ensures var spec := MapAxesAt(h, old(b.Cur()), sizeX, sizeY);
      && (r.Ok? <==> spec.Ok?)
      && (r.Err? ==> r.error == spec.error)
      && (r.Ok? ==> fresh(r.value.0) && fresh(r.value.1) && b.Cur() == spec.value.1)
      && (r.Ok? ==> r.value.0 != r.value.1 && r.value.0.zSize == null && r.value.1.zSize == null)
      && (r.Ok? ==> r.value.0.View() == spec.value.0.0 && r.value.1.View() == spec.value.0.1)
  {
    ghost var c0 := b.Cur();
    var x :- Axis.Read(h, b, "x", sizeX);
    ghost var c1 := b.Cur();
    ghost var xv := x.View();
    assert AxisAt(h, c0, "x", sizeX) == Ok((xv, c1));
    var y :- ReadMapY(h, b, sizeY);
    assert x.View() == xv;
    r := Ok((x, y));
  }

  /** The y axis and the reserved trailer after it. */
  method ReadMapY(h: Primitives, b: ByteBuffer, sizeY: int) returns (r: Result<Axis>)
    modifies b
    ensures var spec := MapYAt(h, old(b.Cur()), sizeY);
      && (r.Ok? <==> spec.Ok?)
      && (r.Err? ==> r.error == spec.error)
      && (r.Ok? ==> fresh(r.value) && b.Cur() == spec.value.1 && r.value.View() == spec.value.0)
  {
    ghost var c0 := b.Cur();
    var y :- Axis.Read(h, b, "y", sizeY);
    ghost var c1 := b.Cur();
    ghost var yv := y.View();
    assert AxisAt(h, c0, "y", sizeY) == Ok((yv, c1));
    var end :- ReadMapTrailer(h, b);
    assert y.View() == yv;
    r := Ok(y);
  }

  /** The reserved trailer after the y axis. */
  method ReadMapTrailer(h: Primitives, b: ByteBuffer) returns (r: Result<Cursor>)
    modifies b
    ensures match MapTrailerAt(h, old(b.Cur()))
      case Ok(c) => r.Ok? && b.Cur() == c
      case Err(e) => r == Err(e)
  {
    var header8 :- b.GetInt(h);
    var header8a :- b.GetShort(h);
    var header9 :- b.GetInts(h, 8);
    var header9a :- b.GetShort(h);
    var header9b :- b.GetInt(h);
    var header9c :- b.Get();
    var header10 :- b.GetHexes(h, 6);
    var header11 :- b.GetHexes(h, 2);
    var term2 :- b.GetBytes(3);
    r := Ok(b.Cur());
  }
}
