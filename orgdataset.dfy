/**
 * The log Dataset of org/nyet/logfile, the older of the two: columns
 * looked up by id, Keys naming a column of one series, and getRanges,
 * which cuts the rows into ranges afresh on every call. dataValid and
 * rangeValid are the tests a subclass overrides, fixed when the dataset
 * is made; both default to accepting everything.
 */
module OrgDataset {
  import opened Wrappers
  import JavaLang
  import Format
  import opened LogRows

  // ---------------------------------------------------------------------
  // Ranges

  /**
   * The ranges getRanges finds in rows s..n-1, run by run, for an s that
   * is not inside a run: a run of valid rows followed by an invalid row
   * becomes a range ending at that invalid row, kept if rangeValid accepts
   * it; a run still going at the last row is dropped.
   */
  function RangesFrom(valid: int -> bool, rangeValid: Span -> bool, n: int, s: int): seq<Span>
    requires 0 <= s
    decreases n - s
  {
    if s >= n then []
    else if !valid(s) then RangesFrom(valid, rangeValid, n, s + 1)
    else
      var t := RunLast(valid, n, s);
      if t == n - 1 then []
      else
        var sp := Span(s, t + 1);
        (if rangeValid(sp) then [sp] else []) + RangesFrom(valid, rangeValid, n, t + 2)
  }

  /**
   * What each range getRanges returns is: it starts a run that ends
   * before the last row, ends at the invalid row after the run, and passes
   * rangeValid.
   */
  ghost predicate Closed(valid: int -> bool, rangeValid: Span -> bool, n: int, s: int, sp: Span) {
    && 0 <= s <= sp.start < n && RunStart(valid, s, sp.start)
    && RunLast(valid, n, sp.start) < n - 1
    && sp.end == RunLast(valid, n, sp.start) + 1
    && sp.start < sp.end < n && !valid(sp.end)
    && AllValid(valid, sp.start, sp.end - 1)
    && rangeValid(sp)
  }

  /** Every range is Closed. */
  lemma {:induction false} RangesFromClosed(valid: int -> bool, rangeValid: Span -> bool, n: int, s: int)
    requires 0 <= s
    ensures forall sp :: sp in RangesFrom(valid, rangeValid, n, s) ==> Closed(valid, rangeValid, n, s, sp)
    decreases n - s
  {
    if s < n {
      if !valid(s) {
        RangesFromClosed(valid, rangeValid, n, s + 1);
        forall q | q in RangesFrom(valid, rangeValid, n, s + 1)
          ensures Closed(valid, rangeValid, n, s, q)
        {
          assert Closed(valid, rangeValid, n, s + 1, q);
        }
      } else {
        var t := RunLast(valid, n, s);
        if t < n - 1 {
          RangesFromClosed(valid, rangeValid, n, t + 2);
          var rest := RangesFrom(valid, rangeValid, n, t + 2);
          var sp := Span(s, t + 1);
          assert RangesFrom(valid, rangeValid, n, s) == (if rangeValid(sp) then [sp] else []) + rest;
          forall q | q in rest
            ensures Closed(valid, rangeValid, n, s, q)
          {
            assert Closed(valid, rangeValid, n, t + 2, q);
          }
        }
      }
    }
  }

  /** No range starts before the row the scan starts at. */
  lemma RangesFromAfter(valid: int -> bool, rangeValid: Span -> bool, n: int, s: int)
    requires 0 <= s
    ensures forall sp :: sp in RangesFrom(valid, rangeValid, n, s) ==> s <= sp.start
  {
    RangesFromClosed(valid, rangeValid, n, s);
  }

  /** The ranges come in increasing order without overlapping. */
  lemma {:induction false} RangesFromOrdered(valid: int -> bool, rangeValid: Span -> bool, n: int, s: int)
    requires 0 <= s
    ensures Ordered(RangesFrom(valid, rangeValid, n, s))
    decreases n - s
  {
    if s < n {
      if !valid(s) {
        RangesFromOrdered(valid, rangeValid, n, s + 1);
      } else {
        var t := RunLast(valid, n, s);
        if t < n - 1 {
          RangesFromOrdered(valid, rangeValid, n, t + 2);
          RangesFromAfter(valid, rangeValid, n, t + 2);
          var rest := RangesFrom(valid, rangeValid, n, t + 2);
          var sp := Span(s, t + 1);
          assert forall q :: q in rest ==> sp.end < q.start;
          if rangeValid(sp) {
            OrderedCons(sp, rest);
          }
          assert RangesFrom(valid, rangeValid, n, s) == (if rangeValid(sp) then [sp] else []) + rest;
        }
      }
    }
  }

  /** Every run start whose run ends before the last row, and whose range passes rangeValid, gets its range. */
  lemma {:induction false} RangesFromComplete(valid: int -> bool, rangeValid: Span -> bool, n: int, s: int, j: int)
    requires 0 <= s <= j < n && RunStart(valid, s, j)
    requires RunLast(valid, n, j) < n - 1
    requires rangeValid(Span(j, RunLast(valid, n, j) + 1))
    ensures Span(j, RunLast(valid, n, j) + 1) in RangesFrom(valid, rangeValid, n, s)
    decreases j - s
  {
    if j > s {
      if !valid(s) {
        RangesFromComplete(valid, rangeValid, n, s + 1, j);
      } else {
        var t := RunLast(valid, n, s);
        assert s <= j - 1 <= t ==> valid(j - 1);
        assert t + 1 < n && !valid(t + 1);
        RangesFromComplete(valid, rangeValid, n, t + 2, j);
      }
    }
  }

  /** Range.size of a returned range is the length of its run plus the invalid row that ends it. */
  lemma RangeSizes(valid: int -> bool, rangeValid: Span -> bool, n: int)
    requires 0 <= n <= JavaLang.IntMax
    ensures forall sp :: sp in RangesFrom(valid, rangeValid, n, 0) ==>
        && sp.Size() == sp.end - sp.start + 1 >= 2
        && AllValid(valid, sp.start, sp.start + sp.Size() - 2)
        && !valid(sp.start + sp.Size() - 1)
  {
    RangesFromClosed(valid, rangeValid, n, 0);
  }

  /** With every row valid, the one run reaches the last row and nothing is returned. */
  lemma AllRowsValid(rangeValid: Span -> bool, n: int)
    ensures RangesFrom(_ => true, rangeValid, n, 0) == []
  {
    if n > 0 {
      RunLastUnique(_ => true, n, 0, n - 1);
    }
  }

  // ---------------------------------------------------------------------
  // Keys

  /** Dataset.Key: a column name s and a series number. */
  datatype Key = Key(s: string, series: int) {
    /** toString: the column name and the 1-based series number, in int arithmetic. */
    function ToString(): (r: string)
      ensures s + " " <= r
      ensures Format.EndsWith(r, Format.Dec(JavaLang.Wrap(series + 1)))
    {
      s + " " + Format.Dec(JavaLang.Wrap(series + 1))
    }

    /**
     * compareTo: another Key by column name, then series; a String against
     * the column name only; anything else (null included) throws
     * ClassCastException.
     */
    function CompareTo(o: Obj<Key>): (r: Result<int>)
      ensures r.Err? <==> !(o.KeyObj? || o.Str?)
      ensures r.Err? ==> r.error == ClassCast
      ensures o.Str? ==> r == Ok(JavaLang.StrCompare(s, o.s))
    {
      match o
      case KeyObj(k) =>
        var byName := JavaLang.StrCompare(s, k.s);
        if byName != 0 then Ok(byName) else Ok(JavaLang.IntCompare(series, k.series))
      case Str(t) => Ok(JavaLang.StrCompare(s, t))
      case _ => Err(ClassCast)
    }

    /**
     * equals: a Key by column name and series, a String by the column
     * name; anything else, null included, throws ClassCastException.
     */
    function Equals(o: Obj<Key>): (r: Result<bool>)
      ensures r.Err? <==> o.Null? || o.Other?
      ensures r.Err? ==> r.error == ClassCast
    {
      match o
      case KeyObj(k) => Ok(s == k.s && series == k.series)
      case Str(t) => Ok(s == t)
      case _ => Err(ClassCast)
    }
  }

  /** Key(Comparable c, int series): only a String names a column; anything else throws. */
  function MakeKey(c: Obj<Key>, series: int): (r: Result<Key>)
    ensures r.Ok? <==> c.Str?
    ensures r.Err? ==> r.error == ClassCast
    ensures r.Ok? ==> r.value.s == c.s && r.value.series == series
  {
    if c.Str? then Ok(Key(c.s, series)) else Err(ClassCast)
  }

  /** The series number in toString counts from one, and wraps at the top of int. */
  lemma ToStringSeries(k: Key)
    ensures 0 <= k.series < JavaLang.IntMax ==> k.ToString() == k.s + " " + Format.Dec(k.series + 1)
    ensures k.series == JavaLang.IntMax ==> k.ToString() == k.s + " " + Format.Dec(JavaLang.IntMin)
  {
  }

  /** Key order: lexicographic on (column name, series). */
  ghost predicate KeyLess(a: Key, b: Key) {
    JavaLang.LexLess(a.s, b.s) || (a.s == b.s && a.series < b.series)
  }

  /** compareTo between Keys is zero exactly on equal Keys, and negative exactly in key order. */
  lemma CompareToIsLex(a: Key, b: Key)
    ensures a.CompareTo(KeyObj(b)).Ok?
    ensures a.CompareTo(KeyObj(b)).value == 0 <==> a == b
    ensures a.CompareTo(KeyObj(b)).value < 0 <==> KeyLess(a, b)
  {
    JavaLang.StrCompareZero(a.s, b.s);
    JavaLang.StrCompareIsLex(a.s, b.s);
  }

  /** Swapping the two Keys negates compareTo. */
  lemma CompareToAntisymmetric(a: Key, b: Key)
    ensures a.CompareTo(KeyObj(b)).Ok? && b.CompareTo(KeyObj(a)).Ok?
    ensures a.CompareTo(KeyObj(b)).value == -b.CompareTo(KeyObj(a)).value
  {
    JavaLang.StrCompareAntisymmetric(a.s, b.s);
  }

  /** equals between Keys agrees with compareTo. */
  lemma EqualsMatchesCompareTo(a: Key, b: Key)
    ensures a.Equals(KeyObj(b)) == Ok(a.CompareTo(KeyObj(b)).value == 0)
  {
    CompareToIsLex(a, b);
  }

  /**
   * id.equals(other) as Java dispatches it on the receiver: null throws
   * NullPointerException, a String equals only an equal String, a Key
   * uses Key.equals, and any other object equals only itself.
   */
  function ObjEquals(id: Obj<Key>, other: Obj<Key>): (r: Result<bool>)
    ensures r.Err? <==> id.Null? || (id.KeyObj? && (other.Null? || other.Other?))
    ensures id.Str? ==> (r == Ok(true) <==> other == Str(id.s))
  {
    match id
    case Null => Err(NullPointer)
    case Str(t) => Ok(other == Str(t))
    case KeyObj(k) => k.Equals(other)
    case Other(n) => Ok(other == Other(n))
  }

  // ---------------------------------------------------------------------
  // The dataset

  /** Dataset.Column: an id, its units and its data. */
  class Column {
    const id: Obj<Key>
    var units: string
    var data: seq<real>

    constructor (id: Obj<Key>, units: string, data: seq<real>)
      ensures this.id == id && this.units == units && this.data == data
    {
      this.id := id;
      this.units := units;
      this.data := data;
    }
  }

  class Dataset {
    var columns: seq<Column>
    var rows: nat
    const dataValid: int -> bool
    const rangeValid: Span -> bool

    /** The dataset as the CSV reader leaves it; the reading itself is not part of this model. */
    constructor (columns: seq<Column>, rows: nat, dataValid: int -> bool, rangeValid: Span -> bool)
      ensures this.columns == columns && this.rows == rows
      ensures this.dataValid == dataValid && this.rangeValid == rangeValid
    {
      this.columns := columns;
      this.rows := rows;
      this.dataValid := dataValid;
      this.rangeValid := rangeValid;
    }

    /** No column before k equals id. */
    ghost predicate NoMatchBefore(id: Obj<Key>, k: int)
      reads this
    {
      forall j :: 0 <= j < k && j < |columns| ==> ObjEquals(id, columns[j].id) == Ok(false)
    }

    /**
     * get(Comparable): the first column, in list order, whose id the
     * argument equals, or null; an exception from equals propagates.
     */
    method Get(id: Obj<Key>) returns (r: Result<Option<Column>>)
      ensures r == Ok(None) <==> NoMatchBefore(id, |columns|)
      ensures r.Ok? && r.value.Some? ==>
        exists k :: 0 <= k < |columns| && NoMatchBefore(id, k)
          && ObjEquals(id, columns[k].id) == Ok(true) && r.value.value == columns[k]
      ensures r.Err? ==>
        exists k :: 0 <= k < |columns| && NoMatchBefore(id, k)
          && ObjEquals(id, columns[k].id) == Err(r.error)
    {
      var k := 0;
      while k < |columns|
        invariant 0 <= k <= |columns|
        invariant NoMatchBefore(id, k)
      {
        var c := columns[k];
        var e := ObjEquals(id, c.id);
        if e.Err? {
          return Err(e.error);
        }
        if e.value {
          return Ok(Some(c));
        }
        k := k + 1;
      }
      return Ok(None);
    }

    /**
     * getRanges: a new list holding, in row order, one fresh range per run
     * of valid rows that an invalid row ends, if rangeValid accepts it.
     */
    method GetRanges() returns (out: seq<Range>)
      ensures Spans(out) == RangesFrom(dataValid, rangeValid, rows, 0)
      ensures forall x :: x in out ==> fresh(x)
    {
      ghost var total := RangesFrom(dataValid, rangeValid, rows, 0);
      var r: Range? := null;
      out := [];
      for i := 0 to rows
        invariant Scanned(i, r, out, total)
        invariant r != null ==> fresh(r)
        invariant forall x :: x in out ==> fresh(x)
      {
        r, out := ScanRow(i, r, out, total);
      }
      if r != null {
        DroppedAtEnd(r.start);
      }
    }

    /**
     * The state of getRanges before row i: with no open range, the list
     * and the ranges from row i on make up all the ranges; with r open, r
     * started a run that is still going, and the list and the ranges from
     * r's start on make them up.
     */
    ghost predicate Scanned(i: int, r: Range?, out: seq<Range>, total: seq<Span>)
      reads this, r, out
    {
      && 0 <= i <= rows
      && (r == null ==> Spans(out) + RangesFrom(dataValid, rangeValid, rows, i) == total)
      && (r != null ==>
            && r !in out && 0 <= r.start < i
            && AllValid(dataValid, r.start, i - 1)
            && Spans(out) + RangesFrom(dataValid, rangeValid, rows, r.start) == total)
    }

    /**
     * One turn of getRanges' loop: a valid row opens a range if none is
     * open; an invalid row closes the open range at itself.
     */
    method ScanRow(i: int, r: Range?, out: seq<Range>, ghost total: seq<Span>)
      returns (next: Range?, out': seq<Range>)
      requires i < rows && Scanned(i, r, out, total)
      modifies r
      ensures Scanned(i + 1, next, out', total)
      ensures next == null || next == r || fresh(next)
      ensures forall x :: x in out' ==> x in out || x == r
    {
      next := r;
      out' := out;
      if dataValid(i) {
        if next == null {
          next := new Range(i);
        } else {
          assert AllValid(dataValid, next.start, i);
        }
      } else {
        if next != null {
          out' := CloseRange(next, i, out, total);
          next := null;
        } else {
          assert RangesFrom(dataValid, rangeValid, rows, i) == RangesFrom(dataValid, rangeValid, rows, i + 1);
        }
      }
    }

    /** r gets the invalid row i as its end and joins the list if rangeValid accepts it. */
    method CloseRange(r: Range, i: int, out: seq<Range>, ghost total: seq<Span>) returns (out': seq<Range>)
      requires r !in out && 0 <= r.start < i < rows
      requires AllValid(dataValid, r.start, i - 1) && !dataValid(i)
      requires Spans(out) + RangesFrom(dataValid, rangeValid, rows, r.start) == total
      modifies r
      ensures r.View() == Span(old(r.start), i)
      ensures out' == out || out' == out + [r]
      ensures Spans(out') + RangesFrom(dataValid, rangeValid, rows, i + 1) == total
    {
      CloseAt(r.start, i);
      ghost var before := Spans(out);
      r.end := i;
      assert Spans(out) == before;
      ghost var rest := RangesFrom(dataValid, rangeValid, rows, i + 1);
      if rangeValid(r.View()) {
        AppendSpan(out, r);
        out' := out + [r];
        Regroup(before, [r.View()], rest);
      } else {
        out' := out;
        assert total == before + ([] + rest);
      }
    }

    /** Closing the range opened at s at the invalid row i moves past its run. */
    lemma CloseAt(s: int, i: int)
      requires 0 <= s < i < rows && AllValid(dataValid, s, i - 1) && !dataValid(i)
      ensures RunLast(dataValid, rows, s) == i - 1
      ensures RangesFrom(dataValid, rangeValid, rows, s)
        == (if rangeValid(Span(s, i)) then [Span(s, i)] else []) + RangesFrom(dataValid, rangeValid, rows, i + 1)
    {
      RunLastUnique(dataValid, rows, s, i - 1);
    }

    /** A range still open after the last row adds nothing. */
    lemma DroppedAtEnd(s: int)
      requires 0 <= s < rows && AllValid(dataValid, s, rows - 1)
      ensures RangesFrom(dataValid, rangeValid, rows, s) == []
    {
      RunLastUnique(dataValid, rows, s, rows - 1);
    }
  }
}
