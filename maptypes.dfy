/**
 * The closed-code fields of a calibration map record (organization, value
 * encoding, data source), the value descriptor with its precision-limiting
 * rule, and the scale/offset equation strings the definition formats use.
 */
module MapTypes {
  import opened Wrappers
  import JavaLang
  import Format
  import ByteCursor

  /** XDF_MaxDigits: the definition formats accept at most six significant digits. */
  const MaxDigits: int := 6

  const OrganizationLegend: seq<string> :=
    ["??", "??", "Single value", "Onedimensional", "Twodimensional", "2d Inverse"]

  const ValueTypeLegend: seq<string> :=
    ["??", "8 Bit", "16 Bit (HiLo)", "16 Bit (LoHi)", "32 Bit (HiLoHilo)", "32 Bit (LoHiLoHi)",
     "32 BitFloat (HiLoHiLo)", "32 BitFloat (LoHiLoHi)"]

  const DataSourceLegend: seq<string> :=
    ["1,2,3", "Eprom", "Eprom, add", "Eprom, subtract", "Free editable"]

  /**
   * Enm.toString: the legend entry of a known code; for a code outside the
   * legend the text "(len N) x" with N the legend length and x the code in
   * hex. It never fails on an unknown code, only on a missing legend.
   */
  function EnmToString(legend: Option<seq<string>>, enm: int): (r: Result<string>)
    requires JavaLang.IsInt(enm)
    ensures r.Err? <==> legend.None?
    ensures legend.Some? && 0 <= enm < |legend.value| ==> r == Ok(legend.value[enm])
    ensures legend.Some? && !(0 <= enm < |legend.value|) ==>
              r.Ok? && |r.value| > 5 && r.value[..5] == "(len "
  {
    match legend
    case None => Err(NullPointer)
    case Some(l) =>
      if enm < 0 || enm > |l| - 1 then
        Ok("(len " + Format.Dec(|l|) + ") " + Format.HexLower(enm))
      else Ok(l[enm])
  }

  /** Enm.compareTo: codes ordered as integers. */
  function CompareCodes(a: int, b: int): (r: int)
    ensures r == 0 <==> a == b
    ensures r < 0 <==> a < b
  {
    JavaLang.IntCompare(a, b)
  }

  datatype Organization = Organization(code: int) {
    /** Onedimensional, Twodimensional and 2d Inverse are tables. */
    predicate IsTable() {
      2 < code < 6
    }

    predicate Is1D() {
      code == 3
    }

    function ToString(): Result<string>
      requires JavaLang.IsInt(code)
    {
      EnmToString(Some(OrganizationLegend), code)
    }
  }

  /**
   * ValueType: either decoded from the record, with its width derived from
   * the code and the legend above, or built with an explicit width and no
   * legend (the ValueType(int width, int enm) constructor).
   */
  datatype ValueType = Decoded(code: int) | Sized(width: int, code: int) {
    function Width(): int {
      match this
      case Decoded(c) =>
        if c == 1 then 1
        else if c == 2 || c == 3 then 2
        else if 4 <= c <= 7 then 4
        else 0
      case Sized(w, _) => w
    }

    /** The odd codes above 1 are the LoHi (little-endian) encodings. */
    predicate IsLE() {
      code > 1 && code % 2 == 1
    }

    function ToString(): Result<string>
      requires JavaLang.IsInt(code)
    {
      EnmToString(if Decoded? then Some(ValueTypeLegend) else None, code)
    }
  }

  datatype DataSource = DataSource(code: int) {
    /** Eprom, Eprom add and Eprom subtract: the values live at an address in the image. */
    predicate IsEeprom() {
      0 < code < 4
    }

    /** 1,2,3: the labels are the indices. */
    predicate IsOrdinal() {
      code == 0
    }

    function ToString(): Result<string>
      requires JavaLang.IsInt(code)
    {
      EnmToString(Some(DataSourceLegend), code)
    }
  }

  /** DataSource(): the Eprom data source, used for axes with no bytes of their own. */
  const DefaultDataSource: DataSource := DataSource(1)

  lemma ValueTypeWidths(vt: ValueType)
    requires vt.Decoded?
    ensures vt.Width() in {0, 1, 2, 4}
    ensures vt.Width() == 1 <==> vt.code == 1
    ensures vt.Width() == 2 <==> vt.code in {2, 3}
    ensures vt.Width() == 4 <==> 4 <= vt.code <= 7
    ensures vt.IsLE() && vt.code <= 7 ==> vt.Width() in {2, 4}
    ensures vt.Width() == 1 ==> !vt.IsLE()
  {
  }

  lemma EnumPredicates(o: Organization, ds: DataSource)
    ensures o.Is1D() ==> o.IsTable()
    ensures o.IsTable() <==> o.code in {3, 4, 5}
    ensures !(ds.IsEeprom() && ds.IsOrdinal())
    ensures ds.IsEeprom() <==> ds.code in {1, 2, 3}
    ensures DefaultDataSource.IsEeprom() && !DefaultDataSource.IsOrdinal()
  {
  }

  /** A code inside the legend renders as its entry, and no unknown code renders as a legend entry. */
  lemma EnmFallbackIsDistinct(legend: seq<string>, enm: int, k: nat)
    requires JavaLang.IsInt(enm)
    requires k < |legend| && !(0 <= enm < |legend|)
    requires forall i :: 0 <= i < |legend| ==> |legend[i]| == 0 || legend[i][0] != '('
    ensures EnmToString(Some(legend), enm).value != legend[k]
  {
    var r := EnmToString(Some(legend), enm).value;
    assert r[0] == '(';
  }

  /** The legends of the three enumerations start with letters, digits or '?'. */
  lemma LegendsHaveNoFallbackShape()
    ensures forall i :: 0 <= i < |OrganizationLegend| ==> OrganizationLegend[i][0] != '('
    ensures forall i :: 0 <= i < |ValueTypeLegend| ==> ValueTypeLegend[i][0] != '('
    ensures forall i :: 0 <= i < |DataSourceLegend| ==> DataSourceLegend[i][0] != '('
  {
  }

  /** The decoded part of a Value: description, units, linear scale and offset, encoding, sign, precision. */
  datatype ValueV = ValueV(
    description: string,
    units: string,
    factor: real,
    offset: real,
    vtype: ValueType,
    precision: int,
    sign: bool)
  {
    /** convert: raw value to physical value. */
    function Convert(x: real): real {
      x * factor + offset
    }

    predicate IsIdentity() {
      factor == 1.0 && offset == 0.0
    }
  }

  /**
   * One axis of a map: x and y are read from the record; z is built from the
   * map's own value, first extent address and size (zSize), and has no size.
   */
  datatype AxisV = AxisV(
    name: string,
    size: int,
    zSize: Option<(int, int)>,
    value: ValueV,
    datasource: DataSource,
    addr: Option<int>,
    reciprocal: bool,
    header3Size: int,
    header3: seq<int>)
  {
    predicate IsZ() {
      zSize.Some?
    }
  }

  /** A decoded map record, the fields the serialisers use. */
  datatype MapV = MapV(
    name: string,
    organization: Organization,
    folderId: int,
    id: string,
    range: seq<int>,
    reciprocal: bool,
    difference: bool,
    percent: bool,
    sizeX: int,
    sizeY: int,
    value: ValueV,
    extent: seq<int>,
    xAxis: AxisV,
    yAxis: AxisV,
    zAxis: AxisV)

  /** Axis(Value, HexValue, Dimension): the z axis of a map. */
  function ZAxis(value: ValueV, addr: int, sizeX: int, sizeY: int): (z: AxisV)
    ensures z.IsZ() && z.name == "z" && z.size == 0
    ensures z.datasource == DefaultDataSource && z.addr == Some(addr)
  {
    AxisV("z", 0, Some((sizeX, sizeY)), value, DefaultDataSource, Some(addr), false, 0, [])
  }

  /**
   * What decoding establishes between a map's parts: four range words, two
   * extent addresses, x and y axes named and sized after the map's size, and
   * a z axis built from the map's own value, first extent address and size.
   */
  predicate Consistent(m: MapV) {
    && |m.range| == 4 && |m.extent| == 2
    && m.xAxis.name == "x" && m.xAxis.size == m.sizeX && !m.xAxis.IsZ()
    && m.yAxis.name == "y" && m.yAxis.size == m.sizeY && !m.yAxis.IsZ()
    && m.zAxis == ZAxis(m.value, m.extent[0], m.sizeX, m.sizeY)
  }

  /** The bits a raw value of this encoding has for its magnitude. */
  function BitWidth(vt: ValueType, sign: bool): int {
    if sign then vt.Width() * 8 - 1 else vt.Width() * 8
  }

  /** (1 << width) - 1 evaluated in Java int arithmetic. */
  function MaxRaw(width: int): int {
    JavaLang.Wrap(JavaLang.ShiftOne(width) - 1)
  }

  /**
   * The largest raw value limitPrecision assumes for each encoding. For the
   * 8- and 16-bit encodings it is 2^bits - 1; for the signed 32-bit ones
   * 2^31 - 1 through int wrap-around; for the unsigned 32-bit ones the
   * shift distance 32 is taken modulo 32 and the value is 0.
   */
  lemma MaxRawByEncoding(vt: ValueType)
    requires vt.Decoded?
    ensures vt.Width() == 1 ==> MaxRaw(BitWidth(vt, false)) == 255 && MaxRaw(BitWidth(vt, true)) == 127
    ensures vt.Width() == 2 ==> MaxRaw(BitWidth(vt, false)) == 65535 && MaxRaw(BitWidth(vt, true)) == 32767
    ensures vt.Width() == 4 ==> MaxRaw(BitWidth(vt, false)) == 0 && MaxRaw(BitWidth(vt, true)) == JavaLang.IntMax
    ensures vt.Width() == 0 ==> MaxRaw(BitWidth(vt, false)) == 0 && MaxRaw(BitWidth(vt, true)) == JavaLang.IntMax
  {
    var w := vt.Width();
    assert w in {0, 1, 2, 4};
    if w == 1 {
      MaxRawSmall(8);
      MaxRawSmall(7);
    } else if w == 2 {
      MaxRawSmall(16);
      MaxRawSmall(15);
    } else {
      MaxRawWide(w);
    }
  }

  lemma MaxRawSmall(bits: int)
    requires bits in {7, 8, 15, 16}
    ensures bits == 7 ==> MaxRaw(bits) == 127
    ensures bits == 8 ==> MaxRaw(bits) == 255
    ensures bits == 15 ==> MaxRaw(bits) == 32767
    ensures bits == 16 ==> MaxRaw(bits) == 65535
  {
    JavaLang.Pow2Values();
    assert bits % 32 == bits;
    assert JavaLang.ShiftOne(bits) == JavaLang.Pow2(bits);
  }

  lemma MaxRawWide(w: int)
    requires w == 0 || w == 4
    ensures MaxRaw(w * 8) == 0
    ensures MaxRaw(w * 8 - 1) == JavaLang.IntMax
  {
    JavaLang.Pow2Values();
    assert (w * 8) % 32 == 0;
    assert (w * 8 - 1) % 32 == 31;
    assert JavaLang.ShiftOne(w * 8) == 1;
    assert JavaLang.ShiftOne(w * 8 - 1) == JavaLang.IntMin;
  }

  /**
   * The precision rule of limitPrecision, in Java int arithmetic: with d
   * integer digits, a precision p whose p + d exceeds the budget M becomes
   * M - d when M > d and 0 otherwise.
   */
  function ClampPrecision(p: int, d: int, maxDigits: int): int
  {
    if JavaLang.Wrap(p + d) > maxDigits then
      (if maxDigits > d then JavaLang.Wrap(maxDigits - d) else 0)
    else p
  }

  /** The integer digit count of the largest displayed value, as the cast to int produces it. */
  function IntDigits(h: ByteCursor.Primitives, v: ValueV): (d: int)
    ensures JavaLang.IsInt(d)
  {
    JavaLang.Saturate(h.intDigits(v.Convert(MaxRaw(BitWidth(v.vtype, v.sign)) as real)))
  }

  /** limitPrecision(maxDigits): the value with its precision limited. */
  function LimitPrecision(h: ByteCursor.Primitives, v: ValueV, maxDigits: int): (r: ValueV)
    ensures r == v.(precision := r.precision)
    ensures r.precision == ClampPrecision(v.precision, IntDigits(h, v), maxDigits)
  {
    v.(precision := ClampPrecision(v.precision, IntDigits(h, v), maxDigits))
  }

  /** Limiting twice changes nothing more than limiting once. */
  lemma ClampIdempotent(p: int, d: int, m: int)
    requires JavaLang.IsInt(p) && JavaLang.IsInt(d) && JavaLang.IsInt(m)
    ensures ClampPrecision(ClampPrecision(p, d, m), d, m) == ClampPrecision(p, d, m)
  {
    var p1 := ClampPrecision(p, d, m);
    if JavaLang.Wrap(p + d) > m && m > d {
      assert (p1 + d - m) % JavaLang.TwoTo32 == 0;
      assert JavaLang.Wrap(p1 + d) == m;
    }
  }

  /** A non-negative precision is never raised and never made negative. */
  lemma ClampNeverRaises(p: int, d: int, m: int)
    requires JavaLang.IsInt(p) && JavaLang.IsInt(d) && 0 <= m <= 100
    requires 0 <= p
    ensures 0 <= ClampPrecision(p, d, m) <= p
  {
  }

  /**
   * When the digit count is below the budget and p + d fits an int, the
   * limited precision keeps p + d within the budget.
   */
  lemma ClampWithinBudget(p: int, d: int, m: int)
    requires JavaLang.IsInt(p) && JavaLang.IsInt(d) && JavaLang.IsInt(p + d) && 0 <= m <= 100
    requires d < m
    ensures ClampPrecision(p, d, m) + d <= m
  {
  }

  /** A precision that already fits the budget is left alone. */
  lemma ClampKeepsFittingPrecision(p: int, d: int, m: int)
    requires JavaLang.IsInt(p + d)
    requires p + d <= m
    ensures ClampPrecision(p, d, m) == p
  {
  }

  /** The label prefix XDF_LBL "\t%06d %-17s=". */
  function Label(num: nat, tag: string): (s: string)
    ensures |s| >= 26 && s[0] == '\t' && s[|s| - 1] == '='
  {
    "\t" + Format.ZeroPadded(num, 6) + " " + Format.PadRight(tag, 17) + "="
  }

  /** The equation text "%f * X" with "+ %f" when the offset is not zero. */
  function EquationText(v: ValueV): string
  {
    Format.Fixed(v.factor, 6) + " * X" + (if v.offset != 0.0 then "+ " + Format.Fixed(v.offset, 6) else "")
  }

  /** eqXDF: "X" for the identity transform, the equation text otherwise. */
  function EqXdf(v: ValueV): (s: string)
    ensures s == "X" <==> v.IsIdentity()
  {
    if v.factor != 1.0 || v.offset != 0.0 then
      var s := EquationText(v);
      assert s[|Format.Fixed(v.factor, 6)|] == ' ';
      s
    else "X"
  }

  /** eqOldXDF: nothing for the identity transform, else one labelled equation line. */
  function EqOldXdf(v: ValueV, off: nat, tag: string): (s: string)
    ensures s == "" <==> v.IsIdentity()
    ensures s != "" ==> |s| > 13 && s[|s| - 13..] == ",TH|0|0|0|0|\n"
  {
    if v.factor != 1.0 || v.offset != 0.0 then Label(off, tag) + EquationText(v) + ",TH|0|0|0|0|\n"
    else ""
  }

  /**
   * A non-identity equation starts with the factor and " * X"; text follows
   * exactly when the offset is not zero, and then it is "+ " and the offset,
   * whose text starts with '-' exactly for a negative offset.
   */
  lemma EquationOffsetTerm(v: ValueV)
    ensures !v.IsIdentity() ==>
      var f, s := Format.Fixed(v.factor, 6), EqXdf(v);
      && f + " * X" <= s
      && (|s| > |f| + 4 <==> v.offset != 0.0)
      && (v.offset != 0.0 ==> |s| > |f| + 6 && s[|f| + 4..|f| + 6] == "+ " && (s[|f| + 6] == '-' <==> v.offset < 0.0))
  {
    if !v.IsIdentity() {
      var f, s := Format.Fixed(v.factor, 6), EqXdf(v);
      assert s == EquationText(v);
      if v.offset != 0.0 {
        var o := Format.Fixed(v.offset, 6);
        assert s == (f + " * X") + ("+ " + o);
        assert s[|f| + 6] == o[0];
      }
    }
  }
}
