/**
 * What the two versions of org.nyet.logfile.Dataset share: the Range
 * object, the Object argument their Key and lookup code dispatch on, and
 * the runs of consecutive valid rows both range builders walk over.
 */
module LogRows {
  import JavaLang

  /** The start and end rows of a Range, as a value. */
  datatype Span = Span(start: int, end: int) {
    /** Range.size: end - start + 1 in Java int arithmetic. */
    function Size(): int {
      JavaLang.Wrap(end - start + 1)
    }
  }

  /** Dataset.Range: a row range whose end the builders set after creating it. */
  class Range {
    var start: int
    var end: int

    /** Range(s): a range of the one row s. */
    constructor (s: int)
      ensures start == s && end == s
    {
      start := s;
      end := s;
    }

    function View(): Span
      reads this
    {
      Span(start, end)
    }
  }

  /** The spans of a list of ranges. */
  function Spans(rs: seq<Range>): (r: seq<Span>)
    reads set x | x in rs
    ensures |r| == |rs|
  {
    if |rs| == 0 then [] else Spans(rs[..|rs| - 1]) + [rs[|rs| - 1].View()]
  }

  /**
   * A java.lang.Object argument, as far as equals and compareTo tell it
   * apart: null, a String, a Key, or any other object, whose equals is the
   * identity of Object.
   */
  datatype Obj<K> = Null | Str(s: string) | KeyObj(key: K) | Other(id: nat)

  /** Every row from i to j inclusive is valid. */
  ghost predicate AllValid(valid: int -> bool, i: int, j: int) {
    forall k :: i <= k <= j ==> valid(k)
  }

  /** Row j starts a run of valid rows at or after s. */
  ghost predicate RunStart(valid: int -> bool, s: int, j: int) {
    valid(j) && (j == s || !valid(j - 1))
  }

  /** Each range ends before the next one starts. */
  ghost predicate Ordered(r: seq<Span>) {
    forall k, l :: 0 <= k < l < |r| ==> r[k].end < r[l].start
  }

  /** A range that ends before every range of an ordered list can go in front of it. */
  lemma OrderedCons(sp: Span, rest: seq<Span>)
    requires Ordered(rest)
    requires forall q :: q in rest ==> sp.end < q.start
    ensures Ordered([sp] + rest)
  {
    forall k, l | 0 <= k < l < |[sp] + rest|
      ensures ([sp] + rest)[k].end < ([sp] + rest)[l].start
    {
      if k > 0 {
        assert ([sp] + rest)[k] == rest[k - 1];
      }
      assert ([sp] + rest)[l] == rest[l - 1];
    }
  }

  /**
   * The last row of the run of valid rows that starts at s: every row from
   * s to it is valid, and it is the last row or the next one is invalid.
   */
  function RunLast(valid: int -> bool, n: int, s: int): (t: int)
    requires 0 <= s < n && valid(s)
    ensures s <= t < n
    ensures AllValid(valid, s, t)
    ensures t == n - 1 || !valid(t + 1)
    decreases n - s
  {
    if s == n - 1 || !valid(s + 1) then s else RunLast(valid, n, s + 1)
  }

  /** Those three facts fix the end of the run. */
  lemma RunLastUnique(valid: int -> bool, n: int, s: int, t: int)
    requires 0 <= s <= t < n && AllValid(valid, s, t)
    requires t == n - 1 || !valid(t + 1)
    ensures RunLast(valid, n, s) == t
  {
    var u := RunLast(valid, n, s);
    assert u < t ==> valid(u + 1);
    assert u > t ==> valid(t + 1);
  }

  /** Moving a sequence from the right part of a concatenation to the left. */
  lemma Regroup<T>(a: seq<T>, b: seq<T>, c: seq<T>)
    ensures a + (b + c) == (a + b) + c
  {
  }

  /** Appending a range appends its span. */
  lemma AppendSpan(rs: seq<Range>, r: Range)
    ensures Spans(rs + [r]) == Spans(rs) + [r.View()]
  {
    assert (rs + [r])[..|rs|] == rs;
  }
}
