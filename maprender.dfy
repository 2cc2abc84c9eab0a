/**
 * The serialisers of a map record, as functions of the record's fields:
 * the axis swap done before a table is emitted, the legacy XDF text
 * (toStringOldXDF), the XML XDF elements (toStringXDF, tableToXDF,
 * constantToXDF, Axis.toXDF, genLabelsXDF) and the CSV digest row.
 */
module MapRender {
  import opened Wrappers
  import JavaLang
  import Format
  import opened MapTypes
  import opened Xml

  // ---------------------------------------------------------------------
  // The axis swap

  /** More columns than the XDF editor accepts (256) while the rows still fit. */
  predicate IsWide(m: MapV) {
    m.sizeX > 0x100 && m.sizeY <= 0x100
  }

  /**
   * The record after the swap: the axis objects change places and are
   * renamed, the size's fields are exchanged, and the z axis, which holds
   * the same size object, sees the exchanged extent.
   */
  function SwapView(m: MapV): MapV
  {
    if IsWide(m) then
      m.(xAxis := m.yAxis.(name := "x"), yAxis := m.xAxis.(name := "y"),
         sizeX := m.sizeY, sizeY := m.sizeX,
         zAxis := m.zAxis.(zSize := Some((m.sizeY, m.sizeX))))
    else m
  }

  /** After the swap the record is no longer wide, so swapping again changes nothing. */
  lemma SwapSettles(m: MapV)
    ensures !IsWide(SwapView(m))
    ensures SwapView(m).sizeX <= 0x100 || SwapView(m).sizeY > 0x100
    ensures SwapView(SwapView(m)) == SwapView(m)
  {
  }

  /** The swap fires only on a wide record and then exchanges the sizes. */
  lemma SwapExchanges(m: MapV)
    ensures IsWide(m) ==> SwapView(m).sizeX == m.sizeY && SwapView(m).sizeY == m.sizeX
    ensures IsWide(m) ==> SwapView(m).xAxis.size == m.yAxis.size && SwapView(m).yAxis.size == m.xAxis.size
    ensures !IsWide(m) ==> SwapView(m) == m
    ensures SwapView(m).value == m.value && SwapView(m).extent == m.extent && SwapView(m).id == m.id
  {
  }

  /** The swap keeps a decoded record's axes named, sized and aliased as decoding left them. */
  lemma SwapKeepsConsistent(m: MapV)
    requires Consistent(m)
    ensures Consistent(SwapView(m))
  {
  }

  // ---------------------------------------------------------------------
  // Legacy XDF text

  /** One "\t%06d %-17s=" labelled line of the legacy format. */
  datatype OldLine = OldLine(num: nat, tag: string, text: string)

  function RenderLine(l: OldLine): string {
    Label(l.num, l.tag) + l.text + "\n"
  }

  function RenderLines(ls: seq<OldLine>): string
    decreases |ls|
  {
    if |ls| == 0 then "" else RenderLine(ls[0]) + RenderLines(ls[1..])
  }

  lemma {:induction false} RenderLinesAppend(a: seq<OldLine>, b: seq<OldLine>)
    ensures RenderLines(a + b) == RenderLines(a) + RenderLines(b)
    decreases |a|
  {
    if |a| == 0 {
      assert a + b == b;
    } else {
      assert (a + b)[0] == a[0];
      assert (a + b)[1..] == a[1..] + b;
      RenderLinesAppend(a[1..], b);
    }
  }

  /** eqOldXDF as lines: none for the identity transform. */
  function EqLines(v: ValueV, off: nat, tag: string): seq<OldLine>
  {
    if v.IsIdentity() then [] else [OldLine(off, tag, EquationText(v) + ",TH|0|0|0|0|")]
  }

  lemma EqOldXdfIsEqLines(v: ValueV, off: nat, tag: string)
    ensures EqOldXdf(v, off, tag) == RenderLines(EqLines(v, off, tag))
  {
    if !v.IsIdentity() {
      var l := OldLine(off, tag, EquationText(v) + ",TH|0|0|0|0|");
      assert RenderLines([l]) == RenderLine(l) + RenderLines([]);
    }
  }

  /** The title: the id up to its first space, or the name when there is no id. */
  function Title(m: MapV): (r: Result<string>)
    ensures r.Err? <==> |m.id| > 0 && forall i :: 0 <= i < |m.id| ==> m.id[i] == ' '
    ensures |m.id| == 0 ==> r == Ok(m.name)
    ensures r.Ok? && |m.id| > 0 ==> r.value == Format.Prefix(m.id, {' '})
  {
    if |m.id| > 0 then Format.SplitHead(m.id, {' '}) else Ok(m.name)
  }

  /** The description: the name when the id gave the title, else nothing. */
  function Desc(m: MapV): string {
    if |m.id| > 0 then m.name else ""
  }

  /** The numbers and tags of the lines describing one table axis. */
  datatype AxisTags = AxisTags(
    letter: string,
    countTag: string,
    countNum: nat,
    unitsNum: nat,
    labelTypeNum: nat,
    labelsNum: nat,
    eqNum: nat,
    sourceNum: nat,
    addrNum: nat)

  const XTags: AxisTags := AxisTags("X", "Cols", 305, 320, 352, 350, 354, 505, 600)
  const YTags: AxisTags := AxisTags("Y", "Rows", 300, 325, 362, 360, 364, 515, 700)

  /** 1, 2, ..., n: the entries ordinalArray fills in. */
  function Ordinals(n: nat): seq<int>
    decreases n
  {
    if n == 0 then [] else Ordinals(n - 1) + [n]
  }

  lemma {:induction false} OrdinalsCount(n: nat)
    ensures |Ordinals(n)| == n
    ensures forall i :: 0 <= i < n ==> Ordinals(n)[i] == i + 1
    decreases n
  {
    if n > 0 {
      OrdinalsCount(n - 1);
    }
  }

  function DecAll(s: seq<int>): (r: seq<string>)
    ensures |r| == |s|
  {
    seq(|s|, i requires 0 <= i < |s| => Format.Dec(s[i]))
  }

  /** ordinalArray(len): "1,2,...,len". */
  function OrdinalText(n: nat): string {
    Format.Join(",", DecAll(Ordinals(n)))
  }

  /** The ordinal text starts at "1" and each further entry adds "," and the next number. */
  lemma {:induction false} OrdinalTextSteps(n: nat)
    ensures OrdinalText(0) == ""
    ensures OrdinalText(1) == "1"
    ensures n >= 1 ==> OrdinalText(n + 1) == OrdinalText(n) + "," + Format.Dec(n + 1)
  {
    assert DecAll(Ordinals(1)) == [Format.Dec(1)];
    assert Format.Dec(1) == "1";
    if n >= 1 {
      var init := DecAll(Ordinals(n));
      OrdinalsCount(n);
      assert DecAll(Ordinals(n + 1)) == init + [Format.Dec(n + 1)];
      Format.JoinAppend(",", init, Format.Dec(n + 1));
    }
  }

  /** The lines of one table axis, after the swap. */
  function AxisLines(a: AxisV, n: int, off: nat, t: AxisTags): seq<OldLine>
  {
    var v := a.value;
    var w := v.vtype.Width();
    [OldLine(off + t.countNum, t.countTag, "0x" + Format.HexInt(n)),
     OldLine(off + t.unitsNum, t.letter + "Units", Format.Quote(v.units)),
     OldLine(off + t.labelTypeNum, t.letter + "LabelType", if v.precision == 0 then "0x2" else "0x1")]
    + (if a.datasource.IsOrdinal() && n > 1 then
         [OldLine(off + t.labelsNum, t.letter + "Labels", OrdinalText(n)),
          OldLine(off + t.labelTypeNum, t.letter + "LabelType", "0x2")]
       else if a.addr.Some? then
         EqLines(v, off + t.eqNum, t.letter + "Eq")
         + [OldLine(off + t.sourceNum, t.letter + "LabelSource", "0x1"),
            OldLine(off + t.addrNum, t.letter + "Address", "0x" + Format.HexInt(a.addr.value)),
            OldLine(off + t.addrNum + 10, t.letter + "DataSize", Format.Dec(w)),
            OldLine(off + t.addrNum + 20, t.letter + "AddrStep", Format.Dec(w))]
         + (if v.precision != 2 then
              [OldLine(off + t.addrNum + 50, t.letter + "OutputDig", "0x" + Format.HexInt(v.precision))]
            else [])
       else [])
  }

  /** The sign and byte-order bits of one value, shifted to the given place. */
  function SignLeBits(v: ValueV, signBit: int, leBit: int): int {
    (if v.sign then signBit else 0) + (if v.vtype.IsLE() then leBit else 0)
  }

  /**
   * The "Flags" word: 0x1 and 0x2 for the map value's sign and byte order,
   * and for a table 0x40 / 0x100 for the x axis and 0x80 / 0x200 for the y
   * axis, taken after the swap.
   */
  function OldFlags(s: MapV, table: bool): int {
    SignLeBits(s.value, 0x1, 0x2)
    + (if table then SignLeBits(s.xAxis.value, 0x40, 0x100) + SignLeBits(s.yAxis.value, 0x80, 0x200) else 0)
  }

  /** Each flag bit is set exactly when its condition holds; a constant uses only the low two bits. */
  lemma OldFlagsBits(s: MapV, table: bool)
    ensures var f := OldFlags(s, table);
      && 0 <= f < 0x400
      && (f % 2 == 1 <==> s.value.sign)
      && ((f / 2) % 2 == 1 <==> s.value.vtype.IsLE())
      && (f / 4) % 16 == 0
      && ((f / 0x40) % 2 == 1 <==> table && s.xAxis.value.sign)
      && ((f / 0x80) % 2 == 1 <==> table && s.yAxis.value.sign)
      && ((f / 0x100) % 2 == 1 <==> table && s.xAxis.value.vtype.IsLE())
      && ((f / 0x200) % 2 == 1 <==> table && s.yAxis.value.vtype.IsLE())
      && (!table ==> f < 4)
  {
    var b0 := if s.value.sign then 1 else 0;
    var b1 := if s.value.vtype.IsLE() then 1 else 0;
    var b6 := if table && s.xAxis.value.sign then 1 else 0;
    var b7 := if table && s.yAxis.value.sign then 1 else 0;
    var b8 := if table && s.xAxis.value.vtype.IsLE() then 1 else 0;
    var b9 := if table && s.yAxis.value.vtype.IsLE() then 1 else 0;
    assert OldFlags(s, table) == b0 + 2 * b1 + 0x40 * b6 + 0x80 * b7 + 0x100 * b8 + 0x200 * b9;
    SixBits(b0, b1, b6, b7, b8, b9);
  }

  /** Reading back the six bits of a word assembled from them. */
  lemma SixBits(b0: int, b1: int, b6: int, b7: int, b8: int, b9: int)
    requires 0 <= b0 <= 1 && 0 <= b1 <= 1 && 0 <= b6 <= 1 && 0 <= b7 <= 1 && 0 <= b8 <= 1 && 0 <= b9 <= 1
    ensures var f := b0 + 2 * b1 + 0x40 * b6 + 0x80 * b7 + 0x100 * b8 + 0x200 * b9;
      && 0 <= f < 0x400
      && f % 2 == b0 && (f / 2) % 2 == b1 && (f / 4) % 16 == 0
      && (f / 0x40) % 2 == b6 && (f / 0x80) % 2 == b7
      && (f / 0x100) % 2 == b8 && (f / 0x200) % 2 == b9
      && (b6 + b7 + b8 + b9 == 0 ==> f < 4)
  {
    var hi := b6 + 2 * b7 + 4 * b8 + 8 * b9;
    var f := b0 + 2 * b1 + 0x40 * hi;
    assert f / 0x40 == hi;
    assert f / 2 == b1 + 0x20 * hi;
    assert f / 4 == 0x10 * hi;
    assert f / 0x80 == hi / 2;
    assert f / 0x100 == hi / 4;
    assert f / 0x200 == hi / 8;
    assert hi / 2 == b7 + 2 * b8 + 4 * b9 && hi % 2 == b6;
    assert hi / 4 == b8 + 2 * b9;
    assert hi / 8 == b9;
    assert (b7 + 2 * b8 + 4 * b9) % 2 == b7 && (b8 + 2 * b9) % 2 == b8;
    assert (b1 + 0x20 * hi) % 2 == b1 && (0x10 * hi) % 16 == 0;
  }

  /**
   * The labelled lines of toStringOldXDF for a record m whose title is
   * already known. The table lines and the Flags word describe the record
   * after the swap, while "oneD" is decided on the size before it.
   */
  function OldXdfLines(m: MapV, title: string): seq<OldLine>
    requires |m.extent| == 2
  {
    [OldLine(100, "Cat0ID", "0x" + Format.HexInt(m.folderId + 1))] + OldBodyLines(m, title)
  }

  /** The lines after the category line, numbered from the block base. */
  function OldBodyLines(m: MapV, title: string): seq<OldLine>
    requires |m.extent| == 2
  {
    var table := m.organization.IsTable();
    var oneD := m.organization.Is1D() || m.sizeY <= 1;
    var off: nat := if table then 40000 else 20000;
    var s := if table then SwapView(m) else m;
    OldValueLines(m, title, off, table)
    + OldTableLines(s, off, table)
    + OldTrailerLines(s, off, table, oneD)
  }

  /** The legacy lines in two parts: those from the map as read, then those from the swapped map. */
  lemma OldXdfLinesSplit(m: MapV, title: string, off: nat, table: bool, oneD: bool, s: MapV)
    requires |m.extent| == 2
    requires table == m.organization.IsTable() && off == (if table then 40000 else 20000)
    requires oneD == (m.organization.Is1D() || m.sizeY <= 1) && s == (if table then SwapView(m) else m)
    ensures OldXdfLines(m, title)
         == ([OldLine(100, "Cat0ID", "0x" + Format.HexInt(m.folderId + 1))] + OldValueLines(m, title, off, table))
            + (OldTableLines(s, off, table) + OldTrailerLines(s, off, table, oneD))
  {
    var cat := [OldLine(100, "Cat0ID", "0x" + Format.HexInt(m.folderId + 1))];
    var v := OldValueLines(m, title, off, table);
    var t := OldTableLines(s, off, table);
    var tr := OldTrailerLines(s, off, table, oneD);
    assert OldXdfLines(m, title) == cat + (v + t + tr);
    SplitAfterSecond(cat, v, t, tr);
  }

  /** A four-part concatenation, split after its second part. */
  lemma SplitAfterSecond<T>(a: seq<T>, b: seq<T>, c: seq<T>, d: seq<T>)
    ensures a + (b + c + d) == (a + b) + (c + d)
  {
  }

  /** For a table, the x (columns) then the y (rows) axis lines. */
  function OldTableLines(s: MapV, off: nat, table: bool): seq<OldLine> {
    if table then AxisLines(s.xAxis, s.sizeX, off, XTags) + AxisLines(s.yAxis, s.sizeY, off, YTags) else []
  }

  /** The title, description, units, encoding, address and equation lines. */
  function OldValueLines(m: MapV, title: string, off: nat, table: bool): seq<OldLine>
    requires |m.extent| == 2
  {
    [OldLine(off + 5, "Title", Format.Quote(title))]
    + DescLines(Desc(m), off)
    + UnitsLines(m.value, off, table)
    + EncodingLines(m.value, off)
    + [OldLine(off + 100, "Address", "0x" + Format.HexInt(m.extent[0]))]
    + EqLines(m.value, off + 200, if table then "ZEq" else "Equation")
  }

  function DescLines(desc: string, off: nat): seq<OldLine> {
    if |desc| > 0 then
      [OldLine(off + 10, "Desc", Format.Quote(desc)),
       OldLine(off + 11, "DescSize", "0x" + Format.HexInt(|desc| + 1))]
    else []
  }

  function UnitsLines(v: ValueV, off: nat, table: bool): seq<OldLine> {
    if |v.units| == 0 then []
    else if table then [OldLine(off + 330, "ZUnits", Format.Quote(v.units))]
    else [OldLine(off + 20, "Units", Format.Quote(v.units))]
  }

  /** The element size when wider than a byte, and the precision unless it is 2. */
  function EncodingLines(v: ValueV, off: nat): seq<OldLine> {
    (if v.vtype.Width() > 1 then [OldLine(off + 50, "SizeInBits", "0x" + Format.HexInt(v.vtype.Width() * 8))] else [])
    + (if v.precision != 2 then [OldLine(off + 210, "DecimalPl", "0x" + Format.HexInt(v.precision))] else [])
  }

  /** The Flags line and, for a one-dimensional map, the y label lines. */
  function OldTrailerLines(s: MapV, off: nat, table: bool, oneD: bool): seq<OldLine>
  {
    [OldLine(off + 150, "Flags", "0x" + Format.HexInt(OldFlags(s, table)))]
    + (if oneD then
         [OldLine(off + 360, "YLabels", s.yAxis.value.units), OldLine(off + 362, "YLabelType", "0x4")]
       else [])
  }

  /** toStringOldXDF: the block marker, the labelled lines and "%%END%%". */
  function OldXdf(m: MapV): Result<string>
    requires |m.extent| == 2
  {
    var title :- Title(m);
    Ok((if m.organization.IsTable() then "%%TABLE%%\n" else "%%CONSTANT%%\n")
       + RenderLines(OldXdfLines(m, title)) + "%%END%%\n")
  }

  /** OldXdf once the title is known. */
  lemma OldXdfWithTitle(m: MapV, title: string)
    requires |m.extent| == 2 && Title(m) == Ok(title)
    ensures OldXdf(m) == Ok((if m.organization.IsTable() then "%%TABLE%%\n" else "%%CONSTANT%%\n")
                            + RenderLines(OldXdfLines(m, title)) + "%%END%%\n")
  {
  }

  /**
   * The legacy text opens with %%TABLE%% for the three table organisations
   * and %%CONSTANT%% otherwise, closes with %%END%%, and fails only when
   * the id is made of spaces alone.
   */
  lemma OldXdfFrame(m: MapV)
    requires |m.extent| == 2
    ensures OldXdf(m).Err? <==> |m.id| > 0 && forall i :: 0 <= i < |m.id| ==> m.id[i] == ' '
    ensures OldXdf(m).Ok? && m.organization.IsTable() ==> OldXdf(m).value[..10] == "%%TABLE%%\n"
    ensures OldXdf(m).Ok? && !m.organization.IsTable() ==> OldXdf(m).value[..13] == "%%CONSTANT%%\n"
    ensures OldXdf(m).Ok? ==> var t := OldXdf(m).value; |t| >= 8 && t[|t| - 8..] == "%%END%%\n"
  {
    match Title(m)
    case Ok(title) =>
      OldXdfWithTitle(m, title);
      var marker := if m.organization.IsTable() then "%%TABLE%%\n" else "%%CONSTANT%%\n";
      Framed(marker, RenderLines(OldXdfLines(m, title)), "%%END%%\n");
    case Err(_) =>
  }

  /** A text between a head and a tail begins with the head and ends with the tail. */
  lemma Framed(head: string, body: string, tail: string)
    ensures (head + body + tail)[..|head|] == head
    ensures (head + body + tail)[|head + body + tail| - |tail|..] == tail
  {
    assert (head + body + tail)[..|head|] == head;
    assert (head + body + tail)[|head + body|..] == tail;
  }

  /**
   * The lines use the 40000 block for a table and the 20000 block for a
   * constant; apart from the category line every line number lies in it.
   */
  lemma OldXdfNumbering(m: MapV, title: string)
    requires |m.extent| == 2
    ensures OldXdfLines(m, title)[0].num == 100
    ensures var off := if m.organization.IsTable() then 40000 else 20000;
      InBlock(OldBodyLines(m, title), off, off + 750)
  {
    var table := m.organization.IsTable();
    var off: nat := if table then 40000 else 20000;
    var s := if table then SwapView(m) else m;
    var head := OldValueLines(m, title, off, table);
    var axes := OldTableLines(s, off, table);
    var tail := OldTrailerLines(s, off, table, m.organization.Is1D() || m.sizeY <= 1);
    ValueLinesNumbering(m, title, off, table);
    if table {
      AxisNumbering(s.xAxis, s.sizeX, off, XTags);
      AxisNumbering(s.yAxis, s.sizeY, off, YTags);
      InBlockConcat(AxisLines(s.xAxis, s.sizeX, off, XTags), AxisLines(s.yAxis, s.sizeY, off, YTags), off, off + 750);
    }
    assert InBlock(tail, off, off + 750);
    InBlockConcat(head, axes, off, off + 750);
    InBlockConcat(head + axes, tail, off, off + 750);
  }

  /** Every line number of the sequence lies between lo and hi. */
  ghost predicate InBlock(ls: seq<OldLine>, lo: int, hi: int) {
    forall i :: 0 <= i < |ls| ==> lo <= ls[i].num <= hi
  }

  lemma InBlockConcat(a: seq<OldLine>, b: seq<OldLine>, lo: int, hi: int)
    requires InBlock(a, lo, hi) && InBlock(b, lo, hi)
    ensures InBlock(a + b, lo, hi)
  {
    forall i | 0 <= i < |a + b|
      ensures lo <= (a + b)[i].num <= hi
    {
      if i >= |a| {
        assert (a + b)[i] == b[i - |a|];
      }
    }
  }

  lemma ValueLinesNumbering(m: MapV, title: string, off: nat, table: bool)
    requires |m.extent| == 2
    ensures InBlock(OldValueLines(m, title, off, table), off, off + 750)
  {
    var p1 := [OldLine(off + 5, "Title", Format.Quote(title))];
    var p2 := DescLines(Desc(m), off);
    var p3 := UnitsLines(m.value, off, table);
    var p4 := EncodingLines(m.value, off);
    var p5 := [OldLine(off + 100, "Address", "0x" + Format.HexInt(m.extent[0]))];
    var p6 := EqLines(m.value, off + 200, if table then "ZEq" else "Equation");
    assert InBlock(p1, off, off + 750) && InBlock(p2, off, off + 750) && InBlock(p3, off, off + 750);
    assert InBlock(p4, off, off + 750) && InBlock(p5, off, off + 750) && InBlock(p6, off, off + 750);
    var q1 := p1 + p2;
    InBlockConcat(p1, p2, off, off + 750);
    var q2 := q1 + p3;
    InBlockConcat(q1, p3, off, off + 750);
    var q3 := q2 + p4;
    InBlockConcat(q2, p4, off, off + 750);
    var q4 := q3 + p5;
    InBlockConcat(q3, p5, off, off + 750);
    InBlockConcat(q4, p6, off, off + 750);
  }

  /** The offsets of a tag set, the largest being the output-digits line 50 past the address. */
  predicate TagsFit(t: AxisTags) {
    t.countNum <= 750 && t.unitsNum <= 750 && t.labelTypeNum <= 750 && t.labelsNum <= 750
    && t.eqNum <= 750 && t.sourceNum <= 750 && t.addrNum + 50 <= 750
  }

  lemma AxisNumbering(a: AxisV, n: int, off: nat, t: AxisTags)
    requires t == XTags || t == YTags
    ensures InBlock(AxisLines(a, n, off, t), off, off + 750)
  {
    assert TagsFit(t);
  }

  /**
   * For a table the "Cols" and "Rows" lines give the sizes after the swap,
   * so the columns exceed 256 only when the rows do too.
   */
  lemma OldXdfColumnsFit(m: MapV, title: string)
    requires |m.extent| == 2 && m.organization.IsTable()
    ensures var s := SwapView(m);
      && OldLine(40305, "Cols", "0x" + Format.HexInt(s.sizeX)) in OldXdfLines(m, title)
      && OldLine(40300, "Rows", "0x" + Format.HexInt(s.sizeY)) in OldXdfLines(m, title)
      && (s.sizeX <= 0x100 || s.sizeY > 0x100)
  {
    var s := SwapView(m);
    var xl := AxisLines(s.xAxis, s.sizeX, 40000, XTags);
    var yl := AxisLines(s.yAxis, s.sizeY, 40000, YTags);
    assert xl[0] == OldLine(40305, "Cols", "0x" + Format.HexInt(s.sizeX));
    assert yl[0] == OldLine(40300, "Rows", "0x" + Format.HexInt(s.sizeY));
    var ls := OldXdfLines(m, title);
    assert xl[0] in xl + yl && yl[0] in xl + yl;
  }

  /**
   * The legacy text is not stable under a second rendering: a two-axis
   * table of 300 x 1 is one-dimensional before its swap and gets a
   * "YLabels" line; once swapped to 1 x 300 it no longer does.
   */
  lemma OldXdfDependsOnPriorSwap(m: MapV, title: string)
    requires |m.extent| == 2 && m.organization == Organization(4) && m.sizeX == 300 && m.sizeY == 1
    ensures var ls := OldXdfLines(m, title); ls[|ls| - 1].tag == "YLabelType"
    ensures var ls := OldXdfLines(SwapView(m), title); ls[|ls| - 1].tag == "Flags"
  {
    OldXdfEndsWithTrailer(m, title);
    OldXdfEndsWithTrailer(SwapView(m), title);
    SwapSettles(m);
  }

  /** The last legacy line is the last line of the trailer, taken from the swapped map. */
  lemma OldXdfEndsWithTrailer(m: MapV, title: string)
    requires |m.extent| == 2
    ensures var table := m.organization.IsTable();
      var off: nat := if table then 40000 else 20000;
      var t := OldTrailerLines(if table then SwapView(m) else m, off, table, m.organization.Is1D() || m.sizeY <= 1);
      var ls := OldXdfLines(m, title);
      |t| > 0 && ls[|ls| - 1] == t[|t| - 1]
  {
  }

  // ---------------------------------------------------------------------
  // XML XDF

  /** doMathXDF(xs, x): the MATH element with its one variable. */
  function MathXdf(eq: string, d: int): seq<Line> {
    [Line(d, Tag("MATH equation=\"" + eq + "\"")), Line(d + 1, Tag("VAR id=\"X\" /")), Line(d, Tag("/MATH"))]
  }

  /** The sign (0x1) and little-endian (0x2) type flags of one value. */
  function TypeFlags(v: ValueV): int {
    SignLeBits(v, 1, 2)
  }

  /** The EMBEDDEDDATA attributes every addressed element starts with. */
  function EmbeddedHead(v: ValueV, addr: int): seq<(string, string)>
  {
    (if TypeFlags(v) != 0 then [("mmedtypeflags", Format.Hex02(TypeFlags(v)))] else [])
    + [("mmedaddress", "0x" + Format.HexInt(addr)),
       ("mmedelementsizebits", Format.Dec(JavaLang.Wrap(v.vtype.Width() * 8)))]
  }

  /** The type flags attribute is present exactly for a signed or little-endian value. */
  lemma TypeFlagsAttribute(v: ValueV, addr: int)
    ensures var e := EmbeddedHead(v, addr);
      && (e[0].0 == "mmedtypeflags" <==> v.sign || v.vtype.IsLE())
      && (v.sign || v.vtype.IsLE() ==> |e| == 3 && e[1] == ("mmedaddress", "0x" + Format.HexInt(addr)))
      && (!v.sign && !v.vtype.IsLE() ==> |e| == 2 && e[0] == ("mmedaddress", "0x" + Format.HexInt(addr)))
  {
  }

  /** "decimalpl", present unless the precision is the default 2. */
  function DecimalPl(v: ValueV, d: int): seq<Line> {
    if v.precision != 2 then [Line(d, Elem("decimalpl", Format.Dec(v.precision)))] else []
  }

  /**
   * The value of label i: the units for a one-entry axis, otherwise the
   * converted index with the value's precision; "%.Nf" with a negative N is
   * not a valid format and throws.
   */
  function LabelValue(a: AxisV, i: int): Result<string> {
    if a.size == 1 then Ok(a.value.units)
    else if a.value.precision < 0 then Err(UnknownFormat)
    else Ok(Format.Fixed(a.value.Convert(i as real), a.value.precision))
  }

  function LabelLine(d: int, i: int, value: string): Line {
    Line(d, Attrs("LABEL", [("index", Format.Dec(i)), ("value", value)]))
  }

  /** The LABEL elements for the indices 0 .. n - 1, in order. */
  function LabelsXdf(a: AxisV, d: int, n: nat): Result<seq<Line>>
    decreases n
  {
    if n == 0 then Ok([])
    else
      var prev :- LabelsXdf(a, d, n - 1);
      var v :- LabelValue(a, n - 1);
      Ok(prev + [LabelLine(d, n - 1, v)])
  }

  /** How many labels genLabelsXDF emits: the size, or none for a size below 1. */
  function LabelCount(size: int): nat {
    if size > 0 then size else 0
  }

  /**
   * The labels fail exactly when a multi-entry axis has a negative
   * precision; otherwise label i carries index i and the units (one entry)
   * or the converted index.
   */
  lemma {:induction false} LabelsXdfMeaning(a: AxisV, d: int, n: nat)
    ensures LabelsXdf(a, d, n).Err? <==> n > 0 && a.size != 1 && a.value.precision < 0
    ensures LabelsXdf(a, d, n).Err? ==> LabelsXdf(a, d, n).error == UnknownFormat
    ensures LabelsXdf(a, d, n).Ok? ==> |LabelsXdf(a, d, n).value| == n
    ensures LabelsXdf(a, d, n).Ok? ==> forall i :: 0 <= i < n ==>
      LabelValue(a, i).Ok? && LabelsXdf(a, d, n).value[i] == LabelLine(d, i, LabelValue(a, i).value)
    decreases n
  {
    if n > 0 {
      LabelsXdfMeaning(a, d, n - 1);
      var prev := LabelsXdf(a, d, n - 1);
      var v := LabelValue(a, n - 1);
      if prev.Ok? && v.Ok? {
        var r := prev.value + [LabelLine(d, n - 1, v.value)];
        assert LabelsXdf(a, d, n) == Ok(r);
        forall i | 0 <= i < n
          ensures LabelValue(a, i).Ok? && r[i] == LabelLine(d, i, LabelValue(a, i).value)
        {
          if i < n - 1 {
            assert r[i] == prev.value[i];
          }
        }
      }
    }
  }

  /** With a negative precision on a multi-entry axis, any non-empty run of labels throws UnknownFormat. */
  lemma {:induction false} LabelsXdfError(a: AxisV, d: int, n: nat)
    requires n > 0 && a.size != 1 && a.value.precision < 0
    ensures LabelsXdf(a, d, n) == Err(UnknownFormat)
    decreases n
  {
    if n > 1 {
      LabelsXdfError(a, d, n - 1);
    }
  }

  /** The element a non-ordinal axis starts its body with. */
  function AddressedAttrs(a: AxisV, addr: int): seq<(string, string)>
  {
    var bits := Format.Dec(JavaLang.Wrap(a.value.vtype.Width() * 8));
    EmbeddedHead(a.value, addr)
    + match a.zSize
      case Some((zx, zy)) =>
        [("mmedrowcount", Format.Dec(zy))] + (if zx > 1 then [("mmedcolcount", Format.Dec(zx))] else [])
      case None => [("mmedmajorstridebits", bits)]
  }

  /** The lines of an ordinal axis before its labels. */
  function OrdinalHead(a: AxisV, d: int): seq<Line>
  {
    [Line(d, Attrs("EMBEDDEDDATA", [("mmedelementsizebits", "16"), ("mmedmajorstridebits", "-32")])),
     Line(d, Elem("units", a.value.units)),
     Line(d, Elem("indexcount", Format.Dec(a.size)))]
    + DecimalPl(a.value, d)
    + [Line(d, Elem("outputtype", if a.value.precision == 0 then "2" else "1"))]
  }

  /** The lines of an addressed (non-ordinal) axis. */
  function AddressedBody(a: AxisV, addr: int, d: int): seq<Line>
  {
    [Line(d, Attrs("EMBEDDEDDATA", AddressedAttrs(a, addr))), Line(d, Elem("units", a.value.units))]
    + (if a.size > 0 then [Line(d, Elem("indexcount", Format.Dec(a.size)))] else [])
    + DecimalPl(a.value, d)
    + (if a.value.precision == 0 then [Line(d, Elem("outputtype", "2"))] else [])
    + (if !a.IsZ() then [Line(d, Tag("embedinfo type=\"1\" /"))] else [])
    + MathXdf(EqXdf(a.value), d)
  }

  function AxisOpenTag(a: AxisV): string {
    if a.IsZ() then "XDFAXIS id=\"" + a.name + "\"" else "XDFAXIS id=\"" + a.name + "\" uniqueid=\"0x0\""
  }

  /**
   * Axis.toXDF at indentation d: an ordinal axis lists its labels, any
   * other axis points at its data, and one without an address throws.
   */
  function AxisXdf(a: AxisV, d: int): Result<seq<Line>>
  {
    var body :-
      if a.datasource.IsOrdinal() then
        var labels :- LabelsXdf(a, d + 1, LabelCount(a.size));
        Ok(OrdinalHead(a, d + 1) + labels)
      else if a.addr.None? then Err(NullPointer)
      else Ok(AddressedBody(a, a.addr.value, d + 1));
    Ok([Line(d, Tag(AxisOpenTag(a)))] + body + [Line(d, Tag("/XDFAXIS"))])
  }

  /** An axis element fails exactly for labels with a negative precision or a missing address. */
  lemma AxisXdfFails(a: AxisV, d: int)
    ensures AxisXdf(a, d).Err? <==>
      if a.datasource.IsOrdinal() then a.size > 1 && a.value.precision < 0 else a.addr.None?
    ensures AxisXdf(a, d).Ok? ==>
      AxisXdf(a, d).value[0] == Line(d, Tag(AxisOpenTag(a))) && Last(AxisXdf(a, d).value) == Line(d, Tag("/XDFAXIS"))
  {
    LabelsXdfMeaning(a, d + 1, LabelCount(a.size));
  }

  function Last<T>(s: seq<T>): T
    requires |s| > 0
  {
    s[|s| - 1]
  }

  /**
   * The z axis points at the map data and gives the rows of its extent,
   * and the columns only when there is more than one.
   */
  lemma ZAxisExtent(a: AxisV, zx: int, zy: int)
    requires a.zSize == Some((zx, zy)) && !a.datasource.IsOrdinal() && a.addr.Some?
    ensures AxisXdf(a, 0).Ok?
    ensures var e := AddressedAttrs(a, a.addr.value);
      && AxisXdf(a, 0).value[1] == Line(1, Attrs("EMBEDDEDDATA", e))
      && ("mmedrowcount", Format.Dec(zy)) in e
      && (("mmedcolcount", Format.Dec(zx)) in e <==> zx > 1)
      && forall p :: p in e ==> p.0 != "mmedmajorstridebits"
  {
    var body := AddressedBody(a, a.addr.value, 1);
    assert AxisXdf(a, 0) == Ok([Line(0, Tag(AxisOpenTag(a)))] + body + [Line(0, Tag("/XDFAXIS"))]);
    ZAttrs(a, a.addr.value, zx, zy);
  }

  /** A z axis names its rows, its columns only when above one, and no major stride. */
  lemma ZAttrs(a: AxisV, addr: int, zx: int, zy: int)
    requires a.zSize == Some((zx, zy))
    ensures var e := AddressedAttrs(a, addr);
      && ("mmedrowcount", Format.Dec(zy)) in e
      && (("mmedcolcount", Format.Dec(zx)) in e <==> zx > 1)
      && forall p :: p in e ==> p.0 != "mmedmajorstridebits"
  {
    var e := AddressedAttrs(a, addr);
    var head := EmbeddedHead(a.value, addr);
    assert e == head + [("mmedrowcount", Format.Dec(zy))] + (if zx > 1 then [("mmedcolcount", Format.Dec(zx))] else []);
    assert e[|head|] == ("mmedrowcount", Format.Dec(zy));
    if zx > 1 {
      assert e[|head| + 1] == ("mmedcolcount", Format.Dec(zx));
    } else {
      assert forall p :: p in e ==> p in head || p == ("mmedrowcount", Format.Dec(zy));
    }
  }

  /** constantToXDF at indentation d. */
  function ConstantXdf(m: MapV, d: int): seq<Line>
    requires |m.extent| == 2
  {
    [Line(d, Attrs("EMBEDDEDDATA", EmbeddedHead(m.value, m.extent[0]))), Line(d, Elem("units", m.value.units))]
    + DecimalPl(m.value, d)
    + MathXdf(EqXdf(m.value), d)
  }

  /** tableToXDF after the swap: the x, y and z axis elements. */
  function TableXdf(s: MapV, d: int): Result<seq<Line>>
  {
    var x :- AxisXdf(s.xAxis, d);
    var y :- AxisXdf(s.yAxis, d);
    var z :- AxisXdf(s.zAxis, d);
    Ok(x + y + z)
  }

  function MapOpenTag(table: bool): string {
    if table then "XDFTABLE uniqueid=\"0x0\" flags=\"0x0\"" else "XDFCONSTANT uniqueid=\"0x0\""
  }

  function MapCloseTag(table: bool): string {
    if table then "/XDFTABLE" else "/XDFCONSTANT"
  }

  /** The title, description and category lines. */
  function MapHeadXdf(title: string, desc: string, folderId: int, d: int): seq<Line> {
    [Line(d, Elem("title", title)),
     Line(d, Elem("description", desc)),
     Line(d, Tag("CATEGORYMEM index=\"0\" category=\"" + Format.Dec(JavaLang.Wrap(folderId + 1)) + "\" /"))]
  }

  /** The body of the element: the swapped axes of a table, or the data of a constant. */
  function BodyXdf(m: MapV, d: int): Result<seq<Line>>
    requires |m.extent| == 2
  {
    if m.organization.IsTable() then TableXdf(SwapView(m), d) else Ok(ConstantXdf(m, d))
  }

  /**
   * toStringXDF on a fresh XmlString(1): the table or constant element
   * around the title lines and the body; a table is swapped first.
   */
  function MapXdf(m: MapV): Result<seq<Line>>
    requires |m.extent| == 2
  {
    MapElement(m.organization.IsTable(), Title(m), Desc(m), m.folderId, BodyXdf(m, 2))
  }

  /** The element around its parts, failing with the first part that failed. */
  function MapElement(table: bool, title: Result<string>, desc: string, folderId: int, body: Result<seq<Line>>): Result<seq<Line>>
  {
    var t :- title;
    var b :- body;
    Ok([Line(1, Tag(MapOpenTag(table)))] + MapHeadXdf(t, desc, folderId, 2) + b + [Line(1, Tag(MapCloseTag(table)))])
  }

  /**
   * The XDF element opens and closes with the table or constant tag; it
   * fails when the title does, or for a table when one of its axes does.
   */
  lemma MapXdfFrame(m: MapV)
    requires |m.extent| == 2
    ensures MapXdf(m).Err? <==>
      Title(m).Err? || (m.organization.IsTable() && TableXdf(SwapView(m), 2).Err?)
    ensures MapXdf(m).Ok? ==>
      && MapXdf(m).value[0] == Line(1, Tag(MapOpenTag(m.organization.IsTable())))
      && Last(MapXdf(m).value) == Line(1, Tag(MapCloseTag(m.organization.IsTable())))
  {
  }

  /** A constant's element cannot fail once it has a title. */
  lemma ConstantXdfTotal(m: MapV)
    requires |m.extent| == 2 && !m.organization.IsTable()
    ensures MapXdf(m).Ok? <==> Title(m).Ok?
  {
  }

  /** Rendering a table again after its swap gives the same XDF element. */
  lemma MapXdfStableUnderSwap(m: MapV)
    requires |m.extent| == 2 && m.organization.IsTable()
    ensures MapXdf(SwapView(m)) == MapXdf(m)
  {
    var s := SwapView(m);
    SwapSettles(m);
    assert BodyXdf(s, 2) == BodyXdf(m, 2);
    MapXdfOfParts(s, m);
  }

  /** Two records with the same title, head fields and body give the same element. */
  lemma MapXdfOfParts(m: MapV, n: MapV)
    requires |m.extent| == 2 && |n.extent| == 2
    requires m.id == n.id && m.name == n.name && m.folderId == n.folderId && m.organization == n.organization
    requires BodyXdf(m, 2) == BodyXdf(n, 2)
    ensures MapXdf(m) == MapXdf(n)
  {
    assert Title(m) == Title(n) && Desc(m) == Desc(n);
  }

  // ---------------------------------------------------------------------
  // CSV

  /** CSVHeader: the sixteen column names. */
  const CsvHeaderCells: seq<string> := [
    "ID", "Address", "Name", "Size", "Organization", "Description",
    "Units", "X Units", "Y Units",
    "Scale", "X Scale", "Y Scale",
    "Value min", "Value max", "Value min*1", "Value max*1"]

  /** The texts CSVRow gives a HexValue and a double; neither is part of this model. */
  datatype CellText = CellText(hex: int -> string, number: real -> string)

  /** What MapData reports about the image: the extreme values and raw words. */
  datatype Overlay = Overlay(minValue: real, maxValue: real, minRaw: int, maxRaw: int)

  /** Dimension.toString: "x" between the two sizes. */
  function SizeText(x: int, y: int): string {
    Format.Dec(x) + "x" + Format.Dec(y)
  }

  /**
   * toStringCSV: twelve cells describing the map, then the four image cells
   * when an image is given, or two empty cells. The "Organization" column
   * holds the value's encoding, and an encoding without a legend throws.
   */
  function CsvRow(m: MapV, t: CellText, overlay: Option<Overlay>): Result<seq<string>>
    requires |m.extent| == 2 && JavaLang.IsInt(m.value.vtype.code)
  {
    var encoding :- m.value.vtype.ToString();
    var cells := [m.id, t.hex(m.extent[0]), m.name, SizeText(m.sizeX, m.sizeY), encoding,
                  m.value.description, m.value.units, m.xAxis.value.units, m.yAxis.value.units,
                  t.number(m.value.factor), t.number(m.xAxis.value.factor), t.number(m.yAxis.value.factor)];
    match overlay
    case Some(o) =>
      Ok(cells + [t.number(o.minValue), t.number(o.maxValue),
                  "0x" + Format.HexLower(JavaLang.Wrap(o.minRaw)), "0x" + Format.HexLower(JavaLang.Wrap(o.maxRaw))])
    case None => Ok(cells + ["", ""])
  }

  /** The header has sixteen columns, the identifying ones first. */
  lemma CsvHeaderColumns()
    ensures |CsvHeaderCells| == 16
    ensures CsvHeaderCells[0] == "ID" && CsvHeaderCells[2] == "Name"
    ensures CsvHeaderCells[3] == "Size" && CsvHeaderCells[6] == "Units"
  {
  }

  /**
   * A row has as many cells as the header with an image and two fewer
   * without one; the identifying cells line up with the header's columns;
   * the row fails exactly for an encoding built without a legend.
   */
  lemma CsvRowShape(m: MapV, t: CellText, overlay: Option<Overlay>)
    requires |m.extent| == 2 && JavaLang.IsInt(m.value.vtype.code)
    ensures CsvRow(m, t, overlay).Err? <==> m.value.vtype.Sized?
    ensures CsvRow(m, t, overlay).Ok? ==> var r := CsvRow(m, t, overlay).value;
      && |r| == (if overlay.Some? then 16 else 14)
      && r[0] == m.id && r[2] == m.name && r[3] == SizeText(m.sizeX, m.sizeY) && r[6] == m.value.units
      && (overlay.None? ==> r[12] == "" && r[13] == "")
  {
  }
}
