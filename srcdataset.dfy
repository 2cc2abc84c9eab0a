/**
 * The log Dataset of src/org/nyet/logfile: columns looked up by id, Keys
 * naming a column of one range of one file, and buildRanges, which cuts
 * the rows into ranges of valid rows and caches them. The dataValid and
 * rangeValid tests a subclass overrides are functions fixed when the
 * dataset is made; both default to accepting everything.
 */
module SrcDataset {
  import opened Wrappers
  import JavaLang
  import Format
  import opened LogRows

  // ---------------------------------------------------------------------
  // Ranges

  /**
   * The row buildRanges gives as the end of a range opened at the run
   * start s: the last valid row of the run, except that a run reaching
   * the last row ends one row early, at rows - 2.
   */
  function CloseRow(valid: int -> bool, n: int, s: int): int
    requires 0 <= s < n && valid(s)
  {
    var t := RunLast(valid, n, s);
    if t == n - 1 then n - 2 else t
  }

  /**
   * The ranges of rows s..n-1, run by run, for an s that is not inside a
   * run: one range per run of valid rows that passes rangeValid.
   */
  function RangesFrom(valid: int -> bool, rangeValid: Span -> bool, n: int, s: int): seq<Span>
    requires 0 <= s
    decreases n - s
  {
    if s >= n then []
    else if !valid(s) then RangesFrom(valid, rangeValid, n, s + 1)
    else
      var sp := Span(s, CloseRow(valid, n, s));
      (if rangeValid(sp) then [sp] else []) + RangesFrom(valid, rangeValid, n, RunLast(valid, n, s) + 1)
  }

  /**
   * What each range of a list built from row s on is: it starts a run,
   * ends where buildRanges closes it, passes rangeValid, never reaches the
   * last row and covers only valid rows.
   */
  ghost predicate Closed(valid: int -> bool, rangeValid: Span -> bool, n: int, s: int, sp: Span) {
    && 0 <= s <= sp.start < n && RunStart(valid, s, sp.start)
    && sp.end == CloseRow(valid, n, sp.start)
    && sp.start - 1 <= sp.end <= n - 2
    && AllValid(valid, sp.start, sp.end)
    && rangeValid(sp)
  }

  /** Every range is Closed. */
  lemma {:induction false} RangesFromClosed(valid: int -> bool, rangeValid: Span -> bool, n: int, s: int)
    requires 0 <= s
    ensures forall sp :: sp in RangesFrom(valid, rangeValid, n, s) ==> Closed(valid, rangeValid, n, s, sp)
    decreases n - s
  {
    if s < n {
      if !valid(s) {
        RangesFromClosed(valid, rangeValid, n, s + 1);
        forall q | q in RangesFrom(valid, rangeValid, n, s + 1)
          ensures Closed(valid, rangeValid, n, s, q)
        {
          assert Closed(valid, rangeValid, n, s + 1, q);
        }
      } else {
        var t := RunLast(valid, n, s);
        RangesFromClosed(valid, rangeValid, n, t + 1);
        var rest := RangesFrom(valid, rangeValid, n, t + 1);
        var sp := Span(s, CloseRow(valid, n, s));
        assert RangesFrom(valid, rangeValid, n, s) == (if rangeValid(sp) then [sp] else []) + rest;
        forall q | q in rest
          ensures Closed(valid, rangeValid, n, s, q)
        {
          assert Closed(valid, rangeValid, n, t + 1, q);
          assert valid(q.start) && q.start < n;
          assert t == n - 1 || !valid(t + 1);
        }
      }
    }
  }

  /** No range starts before the row the scan starts at. */
  lemma RangesFromAfter(valid: int -> bool, rangeValid: Span -> bool, n: int, s: int)
    requires 0 <= s
    ensures forall sp :: sp in RangesFrom(valid, rangeValid, n, s) ==> s <= sp.start
  {
    RangesFromClosed(valid, rangeValid, n, s);
  }

  /** The ranges come in increasing order without overlapping. */
  lemma {:induction false} RangesFromOrdered(valid: int -> bool, rangeValid: Span -> bool, n: int, s: int)
    requires 0 <= s
    ensures Ordered(RangesFrom(valid, rangeValid, n, s))
    decreases n - s
  {
    if s < n {
      if !valid(s) {
        RangesFromOrdered(valid, rangeValid, n, s + 1);
      } else {
        var t := RunLast(valid, n, s);
        RangesFromOrdered(valid, rangeValid, n, t + 1);
        RangesFromAfter(valid, rangeValid, n, t + 1);
        var rest := RangesFrom(valid, rangeValid, n, t + 1);
        var sp := Span(s, CloseRow(valid, n, s));
        assert forall q :: q in rest ==> sp.end < q.start;
        if rangeValid(sp) {
          OrderedCons(sp, rest);
        }
        assert RangesFrom(valid, rangeValid, n, s) == (if rangeValid(sp) then [sp] else []) + rest;
      }
    }
  }

  /** Every run start whose range passes rangeValid gets its range. */
  lemma {:induction false} RangesFromComplete(valid: int -> bool, rangeValid: Span -> bool, n: int, s: int, j: int)
    requires 0 <= s <= j < n && RunStart(valid, s, j)
    requires rangeValid(Span(j, CloseRow(valid, n, j)))
    ensures Span(j, CloseRow(valid, n, j)) in RangesFrom(valid, rangeValid, n, s)
    decreases j - s
  {
    if j > s {
      if !valid(s) {
        RangesFromComplete(valid, rangeValid, n, s + 1, j);
      } else {
        var t := RunLast(valid, n, s);
        assert s <= j - 1 <= t ==> valid(j - 1);
        RangesFromComplete(valid, rangeValid, n, t + 1, j);
      }
    }
  }

  /**
   * Range.size of a built range counts its rows; it is zero exactly for a
   * run of one row at the very end of the data.
   */
  lemma RangeSizes(valid: int -> bool, rangeValid: Span -> bool, n: int)
    requires 0 <= n <= JavaLang.IntMax
    ensures forall sp :: sp in RangesFrom(valid, rangeValid, n, 0) ==>
        && sp.Size() == sp.end - sp.start + 1 >= 0
        && (sp.Size() == 0 <==> sp.start == n - 1)
  {
    RangesFromClosed(valid, rangeValid, n, 0);
  }

  /** With every row valid, the single range leaves out the last row. */
  lemma AllRowsValid(rangeValid: Span -> bool, n: int)
    requires n > 0 && rangeValid(Span(0, n - 2))
    ensures RangesFrom(_ => true, rangeValid, n, 0) == [Span(0, n - 2)]
  {
    var valid: int -> bool := _ => true;
    RunLastUnique(valid, n, 0, n - 1);
    assert RangesFrom(valid, rangeValid, n, n) == [];
  }

  // ---------------------------------------------------------------------
  // Keys

  /** The BitSet of a Key: bit 0 hides the file name, bit 1 the range number. */
  class Flags {
    var bits: set<nat>

    /** new BitSet(2): no bit set. */
    constructor ()
      ensures bits == {}
    {
      bits := {};
    }
  }

  /** The Keys an argument holds, for reads clauses. */
  function KeyOf(o: Obj<Key>): set<Key> {
    if o.KeyObj? then {o.key} else {}
  }

  /**
   * Dataset.Key: a column name s of file fn and range number range. Copies
   * share the original's flags object, so hiding a part on a copy hides
   * it on the original too.
   */
  class Key {
    const fn: string
    const s: string
    var range: int
    const flags: Flags

    /** Key(fn, s, range, flags): uses the given flags object. */
    constructor (fn: string, s: string, range: int, flags: Flags)
      ensures this.fn == fn && this.s == s && this.range == range && this.flags == flags
    {
      this.fn := fn;
      this.s := s;
      this.range := range;
      this.flags := flags;
    }

    /** Key(Key k): the same fields and the same flags object. */
    constructor Copy(k: Key)
      ensures fn == k.fn && s == k.s && range == k.range && flags == k.flags
    {
      fn := k.fn;
      s := k.s;
      range := k.range;
      flags := k.flags;
    }

    /** Key(Key k, int range): another range number, the same flags object. */
    constructor WithRange(k: Key, range: int)
      ensures fn == k.fn && s == k.s && this.range == range && flags == k.flags
    {
      fn := k.fn;
      s := k.s;
      this.range := range;
      flags := k.flags;
    }

    /** Key(fn, s, range): a fresh, empty flags object. */
    constructor Unflagged(fn: string, s: string, range: int)
      ensures this.fn == fn && this.s == s && this.range == range
      ensures fresh(flags) && flags.bits == {}
    {
      this.fn := fn;
      this.s := s;
      this.range := range;
      flags := new Flags();
    }

    /** Key(fn, s): range 0 and a fresh, empty flags object. */
    constructor Named(fn: string, s: string)
      ensures this.fn == fn && this.s == s && range == 0
      ensures fresh(flags) && flags.bits == {}
    {
      this.fn := fn;
      this.s := s;
      range := 0;
      flags := new Flags();
    }

    method HideFilename()
      modifies flags
      ensures flags.bits == old(flags.bits) + {0}
    {
      flags.bits := flags.bits + {0};
    }

    method ShowFilename()
      modifies flags
      ensures flags.bits == old(flags.bits) - {0}
    {
      flags.bits := flags.bits - {0};
    }

    method HideRange()
      modifies flags
      ensures flags.bits == old(flags.bits) + {1}
    {
      flags.bits := flags.bits + {1};
    }

    method ShowRange()
      modifies flags
      ensures flags.bits == old(flags.bits) - {1}
    {
      flags.bits := flags.bits - {1};
    }

    method SetRange(r: int)
      modifies this
      ensures range == r
    {
      range := r;
    }

    /**
     * toString: the column name, preceded by the file's stem and ':'
     * unless bit 0 is set, and followed by the 1-based range number unless
     * bit 1 is set. The stem function is not part of this model.
     */
    function ToString(stem: string -> string): (r: string)
      reads this, flags
      ensures 0 in flags.bits && 1 in flags.bits ==> r == s
      ensures 0 !in flags.bits ==> stem(fn) + ":" <= r
      ensures 1 in flags.bits ==> Format.EndsWith(r, s)
      ensures 1 !in flags.bits ==> Format.EndsWith(r, " " + Format.Dec(JavaLang.Wrap(range + 1)))
    {
      var named := if 0 in flags.bits then s else stem(fn) + ":" + s;
      if 1 in flags.bits then named else named + " " + Format.Dec(JavaLang.Wrap(range + 1))
    }

    /**
     * compareTo: another Key by file name, then column name, then range
     * number; a String against the column name only; anything else
     * (null included) throws ClassCastException.
     */
    function CompareTo(o: Obj<Key>): (r: Result<int>)
      reads this, KeyOf(o)
      ensures r.Err? <==> !(o.KeyObj? || o.Str?)
      ensures r.Err? ==> r.error == ClassCast
      ensures o.Str? ==> r == Ok(JavaLang.StrCompare(s, o.s))
    {
      match o
      case KeyObj(k) =>
        var byFile := JavaLang.StrCompare(fn, k.fn);
        if byFile != 0 then Ok(byFile)
        else
          var byName := JavaLang.StrCompare(s, k.s);
          if byName != 0 then Ok(byName) else Ok(JavaLang.IntCompare(range, k.range))
      case Str(t) => Ok(JavaLang.StrCompare(s, t))
      case _ => Err(ClassCast)
    }

    /**
     * equals: false for null; a Key by file name, column name and range
     * number, whatever the flags; a String by the column name; anything
     * else throws ClassCastException.
     */
    function Equals(o: Obj<Key>): (r: Result<bool>)
      reads this, KeyOf(o)
      ensures r.Err? <==> o.Other?
      ensures r.Err? ==> r.error == ClassCast
      ensures o.Null? ==> r == Ok(false)
    {
      match o
      case Null => Ok(false)
      case KeyObj(k) => Ok(fn == k.fn && s == k.s && range == k.range)
      case Str(t) => Ok(s == t)
      case Other(_) => Err(ClassCast)
    }
  }

  /** Key order: lexicographic on (file name, column name, range number). */
  ghost predicate KeyLess(a: Key, b: Key)
    reads a, b
  {
    || JavaLang.LexLess(a.fn, b.fn)
    || (a.fn == b.fn && JavaLang.LexLess(a.s, b.s))
    || (a.fn == b.fn && a.s == b.s && a.range < b.range)
  }

  /** compareTo between Keys is zero exactly on equal triples, and negative exactly in key order. */
  lemma CompareToIsLex(a: Key, b: Key)
    ensures a.CompareTo(KeyObj(b)).Ok?
    ensures a.CompareTo(KeyObj(b)).value == 0 <==> a.fn == b.fn && a.s == b.s && a.range == b.range
    ensures a.CompareTo(KeyObj(b)).value < 0 <==> KeyLess(a, b)
  {
    JavaLang.StrCompareZero(a.fn, b.fn);
    JavaLang.StrCompareZero(a.s, b.s);
    JavaLang.StrCompareIsLex(a.fn, b.fn);
    JavaLang.StrCompareIsLex(a.s, b.s);
  }

  /** Swapping the two Keys negates compareTo. */
  lemma CompareToAntisymmetric(a: Key, b: Key)
    ensures a.CompareTo(KeyObj(b)).Ok? && b.CompareTo(KeyObj(a)).Ok?
    ensures a.CompareTo(KeyObj(b)).value == -b.CompareTo(KeyObj(a)).value
  {
    JavaLang.StrCompareAntisymmetric(a.fn, b.fn);
    JavaLang.StrCompareAntisymmetric(a.s, b.s);
  }

  /** equals between Keys agrees with compareTo, and ignores the flags. */
  lemma EqualsMatchesCompareTo(a: Key, b: Key)
    ensures a.Equals(KeyObj(b)) == Ok(a.CompareTo(KeyObj(b)).value == 0)
  {
    CompareToIsLex(a, b);
  }

  /** A Key equals the String of its column name, but that String does not equal the Key. */
  lemma StringEqualsNotSymmetric(k: Key)
    ensures k.Equals(Str(k.s)) == Ok(true)
    ensures ObjEquals(Str(k.s), KeyObj(k)) == Ok(false)
  {
  }

  /**
   * id.equals(other) as Java dispatches it on the receiver: null throws
   * NullPointerException, a String equals only an equal String, a Key
   * uses Key.equals, and any other object equals only itself.
   */
  function ObjEquals(id: Obj<Key>, other: Obj<Key>): (r: Result<bool>)
    reads KeyOf(id), KeyOf(other)
    ensures r.Err? <==> id.Null? || (id.KeyObj? && other.Other?)
    ensures id.Str? ==> (r == Ok(true) <==> other == Str(id.s))
  {
    match id
    case Null => Err(NullPointer)
    case Str(t) => Ok(other == Str(t))
    case KeyObj(k) => k.Equals(other)
    case Other(n) => Ok(other == Other(n))
  }

  // ---------------------------------------------------------------------
  // The dataset

  /** Dataset.Column: an id, its units and its data, a list of doubles or null. */
  class Column {
    const id: Obj<Key>
    var units: string
    var data: Option<seq<real>>

    constructor (id: Obj<Key>, units: string, data: Option<seq<real>>)
      ensures this.id == id && this.units == units && this.data == data
    {
      this.id := id;
      this.units := units;
      this.data := data;
    }
  }

  class Dataset {
    var columns: seq<Column>
    var rows: nat
    var rangeCache: seq<Range>
    var lastFilterReasons: seq<string>
    const dataValid: int -> bool
    const rangeValid: Span -> bool

    /**
     * The dataset as the CSV reader leaves it, with its ranges built. The
     * reading itself is not part of this model.
     */
    constructor (columns: seq<Column>, rows: nat, dataValid: int -> bool, rangeValid: Span -> bool)
      ensures this.columns == columns && this.rows == rows
      ensures this.dataValid == dataValid && this.rangeValid == rangeValid
      ensures Spans(rangeCache) == RangesFrom(dataValid, rangeValid, rows, 0)
    {
      this.columns := columns;
      this.rows := rows;
      rangeCache := [];
      lastFilterReasons := [];
      this.dataValid := dataValid;
      this.rangeValid := rangeValid;
      new;
      BuildRanges();
    }

    /** The Keys the column ids hold, for reads clauses. */
    function ColumnKeys(): set<Key>
      reads this
    {
      set j | 0 <= j < |columns| && columns[j].id.KeyObj? :: columns[j].id.key
    }

    /** No column before k equals id. */
    ghost predicate NoMatchBefore(id: Obj<Key>, k: int)
      reads this, KeyOf(id), ColumnKeys()
    {
      forall j :: 0 <= j < k && j < |columns| ==> ObjEquals(id, columns[j].id) == Ok(false)
    }

    /**
     * get(Comparable): the first column, in list order, whose id the
     * argument equals, or null; an exception from equals propagates.
     */
    method Get(id: Obj<Key>) returns (r: Result<Option<Column>>)
      ensures r == Ok(None) <==> NoMatchBefore(id, |columns|)
      ensures r.Ok? && r.value.Some? ==>
        exists k :: 0 <= k < |columns| && NoMatchBefore(id, k)
          && ObjEquals(id, columns[k].id) == Ok(true) && r.value.value == columns[k]
      ensures r.Err? ==>
        exists k :: 0 <= k < |columns| && NoMatchBefore(id, k)
          && ObjEquals(id, columns[k].id) == Err(r.error)
    {
      var k := 0;
      while k < |columns|
        invariant 0 <= k <= |columns|
        invariant NoMatchBefore(id, k)
      {
        var e := ObjEquals(id, columns[k].id);
        if e.Err? {
          return Err(e.error);
        }
        if e.value {
          return Ok(Some(columns[k]));
        }
        k := k + 1;
      }
      return Ok(None);
    }

    /** exists: the column get finds is there and holds at least one value. */
    method Exists(id: Obj<Key>) returns (r: Result<bool>)
      ensures r.Err? <==>
        exists k :: 0 <= k < |columns| && NoMatchBefore(id, k) && ObjEquals(id, columns[k].id).Err?
      ensures r.Ok? ==> (r.value <==>
        exists k :: 0 <= k < |columns| && NoMatchBefore(id, k) && ObjEquals(id, columns[k].id) == Ok(true)
          && columns[k].data.Some? && |columns[k].data.value| > 0)
    {
      var c :- Get(id);
      if c.None? {
        return Ok(false);
      }
      if c.value.data.None? {
        return Ok(false);
      }
      if |c.value.data.value| == 0 {
        return Ok(false);
      }
      return Ok(true);
    }

    /**
     * buildRanges: a new cache holding, in row order, one fresh range per
     * run of valid rows that passes rangeValid. Opening a range clears the
     * filter reasons.
     */
    method BuildRanges()
      modifies this
      ensures columns == old(columns) && rows == old(rows)
      ensures Spans(rangeCache) == RangesFrom(dataValid, rangeValid, rows, 0)
      ensures lastFilterReasons == if SeenValid(rows) then [] else old(lastFilterReasons)
      ensures forall x :: x in rangeCache ==> fresh(x)
    {
      ghost var total := RangesFrom(dataValid, rangeValid, rows, 0);
      rangeCache := [];
      var r: Range? := null;
      for i := 0 to rows
        invariant columns == old(columns) && rows == old(rows)
        invariant Scanned(i, r, total)
        invariant r != null ==> fresh(r)
        invariant forall x :: x in rangeCache ==> fresh(x)
        invariant lastFilterReasons == if SeenValid(i) then [] else old(lastFilterReasons)
      {
        r := ScanRow(i, r, total, old(lastFilterReasons));
      }
    }

    /** Some row before i is valid. */
    ghost predicate SeenValid(i: int)
      reads this
    {
      exists j :: 0 <= j < i && dataValid(j)
    }

    /**
     * The state of buildRanges before row i: with no open range, the cache
     * and the ranges from row i on make up all the ranges; with r open,
     * r started a run that is still going, and the cache and the ranges
     * from r's start on make them up.
     */
    ghost predicate Scanned(i: int, r: Range?, total: seq<Span>)
      reads this, r, rangeCache
    {
      && 0 <= i <= rows
      && (r == null ==> Spans(rangeCache) + RangesFrom(dataValid, rangeValid, rows, i) == total)
      && (r != null ==>
            && r !in rangeCache && 0 <= r.start < i < rows
            && AllValid(dataValid, r.start, i - 1)
            && Spans(rangeCache) + RangesFrom(dataValid, rangeValid, rows, r.start) == total)
    }

    /**
     * One turn of buildRanges' loop: a valid row opens a range if none is
     * open, and an invalid row or the last row closes the open range.
     */
    method ScanRow(i: int, r: Range?, ghost total: seq<Span>, ghost reasons: seq<string>)
      returns (next: Range?)
      requires i < rows && Scanned(i, r, total)
      requires lastFilterReasons == if SeenValid(i) then [] else reasons
      modifies this, r
      ensures columns == old(columns) && rows == old(rows)
      ensures Scanned(i + 1, next, total)
      ensures lastFilterReasons == if SeenValid(i + 1) then [] else reasons
      ensures next == null || next == r || fresh(next)
      ensures forall x :: x in rangeCache ==> x in old(rangeCache) || x == r || fresh(x)
    {
      next := r;
      var end := false;
      if dataValid(i) {
        if next == null {
          next := new Range(i);
          lastFilterReasons := [];
        } else {
          assert dataValid(next.start);
        }
        if i == rows - 1 {
          end := true;
        }
      } else {
        end := true;
      }
      if next != null && end {
        CloseRange(next, i, total);
        next := null;
      } else if next == null {
        assert RangesFrom(dataValid, rangeValid, rows, i) == RangesFrom(dataValid, rangeValid, rows, i + 1);
      } else {
        assert AllValid(dataValid, next.start, i);
      }
    }

    /** The end of buildRanges' loop body: r gets its end and joins the cache if rangeValid accepts it. */
    method CloseRange(r: Range, i: int, ghost total: seq<Span>)
      requires r !in rangeCache && 0 <= r.start <= i < rows
      requires AllValid(dataValid, r.start, i - 1)
      requires !dataValid(i) || i == rows - 1
      requires r.start < i || dataValid(i)
      requires Spans(rangeCache) + RangesFrom(dataValid, rangeValid, rows, r.start) == total
      modifies this, r
      ensures columns == old(columns) && rows == old(rows) && lastFilterReasons == old(lastFilterReasons)
      ensures r.View() == Span(old(r.start), i - 1)
      ensures rangeCache == old(rangeCache) || rangeCache == old(rangeCache) + [r]
      ensures Spans(rangeCache) + RangesFrom(dataValid, rangeValid, rows, i + 1) == total
    {
      CloseAt(r.start, i);
      ghost var before := Spans(rangeCache);
      r.end := i - 1;
      assert Spans(rangeCache) == before;
      Keep(r, i, total);
    }

    /** Adding the closed range r to the cache if rangeValid accepts it. */
    method Keep(r: Range, i: int, ghost total: seq<Span>)
      requires 0 <= i < rows && r !in rangeCache
      requires Spans(rangeCache) + ((if rangeValid(r.View()) then [r.View()] else [])
        + RangesFrom(dataValid, rangeValid, rows, i + 1)) == total
      modifies this
      ensures columns == old(columns) && rows == old(rows) && lastFilterReasons == old(lastFilterReasons)
      ensures rangeValid(r.View()) ==> rangeCache == old(rangeCache) + [r]
      ensures !rangeValid(r.View()) ==> rangeCache == old(rangeCache)
      ensures Spans(rangeCache) + RangesFrom(dataValid, rangeValid, rows, i + 1) == total
    {
      ghost var before := Spans(rangeCache);
      ghost var rest := RangesFrom(dataValid, rangeValid, rows, i + 1);
      if rangeValid(r.View()) {
        AppendSpan(rangeCache, r);
        rangeCache := rangeCache + [r];
        assert Spans(rangeCache) == before + [r.View()];
        Regroup(before, [r.View()], rest);
      } else {
        assert total == before + ([] + rest);
      }
    }

    /** Closing the range opened at s at row i gives it its end and moves past its run. */
    lemma CloseAt(s: int, i: int)
      requires 0 <= s <= i < rows && AllValid(dataValid, s, i - 1)
      requires !dataValid(i) || i == rows - 1
      requires s < i || dataValid(i)
      ensures dataValid(s)
      ensures CloseRow(dataValid, rows, s) == i - 1
      ensures RangesFrom(dataValid, rangeValid, rows, s)
        == (if rangeValid(Span(s, i - 1)) then [Span(s, i - 1)] else []) + RangesFrom(dataValid, rangeValid, rows, i + 1)
    {
      if dataValid(i) {
        RunLastUnique(dataValid, rows, s, i);
      } else {
        RunLastUnique(dataValid, rows, s, i - 1);
        assert RangesFrom(dataValid, rangeValid, rows, i) == RangesFrom(dataValid, rangeValid, rows, i + 1);
      }
    }
  }
}
