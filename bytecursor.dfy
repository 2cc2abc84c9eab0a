/**
 * The byte cursor the decoders consume: a java.nio.ByteBuffer over the bytes
 * of one map record, read forward from its position.
 */
module ByteCursor {
  import opened Wrappers
  import JavaLang

  type Bytes = seq<bv8>

  /**
   * What the decoder borrows from code outside the model: the buffer's byte
   * order, Parse.string, the HexValue(ByteBuffer) reader, the IEEE 754
   * meaning of eight bytes, and the digit count
   * (int)(Math.floor(Math.log10(x)) + 1) of a double.
   */
  datatype Primitives = Primitives(
    bigEndian: bool,
    readString: (Bytes, nat) -> Option<(string, nat)>,
    readHex: (Bytes, nat) -> Option<(int, nat)>,
    doubleOf: Bytes -> real,
    intDigits: real -> int)

  datatype Cursor = Cursor(data: Bytes, pos: nat)

  /** The bytes read most significant first. */
  function BigEndianValue(b: Bytes): (u: nat)
    ensures u < JavaLang.Pow2(8 * |b|)
  {
    if |b| == 0 then 0
    else
      var hi := BigEndianValue(b[..|b| - 1]);
      JavaLang.Pow2Add(8 * (|b| - 1), 8);
      JavaLang.Pow2Values();
      hi * 256 + b[|b| - 1] as nat
  }

  function Reverse(b: Bytes): (r: Bytes)
    ensures |r| == |b|
  {
    if |b| == 0 then [] else Reverse(b[1..]) + [b[0]]
  }

  /** A two's-complement number of |b| bytes in the given byte order. */
  function SignedValue(b: Bytes, bigEndian: bool): (x: int)
    requires 1 <= |b|
    ensures 0 <= x + JavaLang.Pow2(8 * |b| - 1) && x < JavaLang.Pow2(8 * |b| - 1)
  {
    var u := BigEndianValue(if bigEndian then b else Reverse(b));
    JavaLang.Pow2Add(8 * |b| - 1, 1);
    if u >= JavaLang.Pow2(8 * |b| - 1) then u - JavaLang.Pow2(8 * |b|) else u
  }

  /** ByteBuffer.get(): one signed byte. */
  function ReadByte(c: Cursor): (r: Result<(int, Cursor)>)
    ensures r.Ok? <==> c.pos + 1 <= |c.data|
    ensures r.Ok? ==> r.value.1 == Cursor(c.data, c.pos + 1) && -128 <= r.value.0 < 128
    ensures r.Err? ==> r.error == BufferUnderflow
  {
    if c.pos + 1 <= |c.data| then Ok((JavaLang.SignedByte(c.data[c.pos]), Cursor(c.data, c.pos + 1)))
    else Err(BufferUnderflow)
  }

  /** getShort() / getInt(): n bytes in the buffer's order. */
  function ReadFixed(h: Primitives, c: Cursor, n: nat): (r: Result<(int, Cursor)>)
    requires n == 2 || n == 4
    ensures r.Ok? <==> c.pos + n <= |c.data|
    ensures r.Ok? ==> r.value.1 == Cursor(c.data, c.pos + n)
    ensures r.Ok? && n == 4 ==> JavaLang.IsInt(r.value.0)
    ensures r.Err? ==> r.error == BufferUnderflow
  {
    if c.pos + n <= |c.data| then
      JavaLang.Pow2Values();
      Ok((SignedValue(c.data[c.pos..c.pos + n], h.bigEndian), Cursor(c.data, c.pos + n)))
    else Err(BufferUnderflow)
  }

  function ReadShort(h: Primitives, c: Cursor): (r: Result<(int, Cursor)>)
    ensures r.Ok? <==> c.pos + 2 <= |c.data|
    ensures r.Ok? ==> r.value.1 == Cursor(c.data, c.pos + 2)
  {
    ReadFixed(h, c, 2)
  }

  function ReadInt(h: Primitives, c: Cursor): (r: Result<(int, Cursor)>)
    ensures r.Ok? <==> c.pos + 4 <= |c.data|
    ensures r.Ok? ==> r.value.1 == Cursor(c.data, c.pos + 4) && JavaLang.IsInt(r.value.0)
    ensures r.Err? ==> r.error == BufferUnderflow
  {
    ReadFixed(h, c, 4)
  }

  /** getDouble(): eight bytes given their IEEE 754 meaning. */
  function ReadDouble(h: Primitives, c: Cursor): (r: Result<(real, Cursor)>)
    ensures r.Ok? <==> c.pos + 8 <= |c.data|
    ensures r.Ok? ==> r.value.1 == Cursor(c.data, c.pos + 8)
  {
    if c.pos + 8 <= |c.data| then
      var bytes := c.data[c.pos..c.pos + 8];
      Ok((h.doubleOf(if h.bigEndian then bytes else Reverse(bytes)), Cursor(c.data, c.pos + 8)))
    else Err(BufferUnderflow)
  }

  /**
   * Parse.string(b). The reader either fails or leaves the position between
   * where it started and the end of the bytes; a reader answer outside that
   * range counts as a failure.
   */
  function ReadString(h: Primitives, c: Cursor): (r: Result<(string, Cursor)>)
    ensures r.Ok? ==> r.value.1.data == c.data && c.pos <= r.value.1.pos <= |c.data|
    ensures r.Err? ==> r.error == ParserFailure
  {
    match h.readString(c.data, c.pos)
    case Some((s, q)) => if c.pos <= q <= |c.data| then Ok((s, Cursor(c.data, q))) else Err(ParserFailure)
    case None => Err(ParserFailure)
  }

  /** new HexValue(b): the value it holds, under the same rule as ReadString. */
  function ReadHex(h: Primitives, c: Cursor): (r: Result<(int, Cursor)>)
    ensures r.Ok? ==> r.value.1.data == c.data && c.pos <= r.value.1.pos <= |c.data|
    ensures r.Err? ==> r.error == BufferUnderflow
  {
    match h.readHex(c.data, c.pos)
    case Some((v, q)) => if c.pos <= q <= |c.data| then Ok((v, Cursor(c.data, q))) else Err(BufferUnderflow)
    case None => Err(BufferUnderflow)
  }

  /** Parse.buffer(b, new int[n]): n ints in a row. */
  function ReadInts(h: Primitives, c: Cursor, n: nat): (r: Result<(seq<int>, Cursor)>)
    ensures r.Ok? <==> n == 0 || c.pos + 4 * n <= |c.data|
    ensures r.Ok? ==> |r.value.0| == n && r.value.1 == Cursor(c.data, c.pos + 4 * n)
    ensures r.Err? ==> r.error == BufferUnderflow
    decreases n
  {
    if n == 0 then Ok(([], c))
    else
      var first :- ReadInt(h, c);
      var rest :- ReadInts(h, first.1, n - 1);
      Ok(([first.0] + rest.0, rest.1))
  }

  /** Parse.buffer(b, new byte[n]) and b.get(new byte[n]): n signed bytes. */
  function ReadBytes(c: Cursor, n: nat): (r: Result<(seq<int>, Cursor)>)
    ensures r.Ok? <==> n == 0 || c.pos + n <= |c.data|
    ensures r.Ok? ==> |r.value.0| == n && r.value.1 == Cursor(c.data, c.pos + n)
    ensures r.Err? ==> r.error == BufferUnderflow
    decreases n
  {
    if n == 0 then Ok(([], c))
    else
      var first :- ReadByte(c);
      var rest :- ReadBytes(first.1, n - 1);
      Ok(([first.0] + rest.0, rest.1))
  }

  /** Parse.buffer(b, new HexValue[n]): n hex values in a row. */
  function ReadHexes(h: Primitives, c: Cursor, n: nat): (r: Result<(seq<int>, Cursor)>)
    ensures r.Ok? ==> |r.value.0| == n && r.value.1.data == c.data
    ensures r.Ok? ==> c.pos <= r.value.1.pos && (n > 0 ==> r.value.1.pos <= |c.data|)
    ensures r.Err? ==> r.error == BufferUnderflow
    decreases n
  {
    if n == 0 then Ok(([], c))
    else
      var first :- ReadHex(h, c);
      var rest :- ReadHexes(h, first.1, n - 1);
      Ok(([first.0] + rest.0, rest.1))
  }

  /**
   * How a cursor method ended: with the value and the position the pure
   * reader gives, or with its exception and the position left where it was.
   */
  ghost predicate Took<T>(r: Result<T>, spec: Result<(T, Cursor)>, before: Cursor, after: Cursor)
  {
    match spec
    case Ok(p) => r == Ok(p.0) && after == p.1
    case Err(e) => r == Err(e) && after == before
  }

  /**
   * How a method reading several fields ended: with the value and position
   * the pure parser gives, or with the parser's exception (the position is
   * then wherever the failing read left it).
   */
  ghost predicate Mirrors<T>(r: Result<T>, spec: Result<(T, Cursor)>, after: Cursor)
  {
    match spec
    case Ok(p) => r == Ok(p.0) && after == p.1
    case Err(e) => r == Err(e)
  }

  /** The java.nio.ByteBuffer a decoder is handed: fixed bytes and a moving position. */
  class ByteBuffer {
    const data: Bytes
    var pos: nat

    constructor (data: Bytes)
      ensures this.data == data && pos == 0
    {
      this.data := data;
      pos := 0;
    }

    function Cur(): Cursor
      reads this
    {
      Cursor(data, pos)
    }

    method Get() returns (r: Result<int>)
      modifies this
      ensures Took(r, ReadByte(old(Cur())), old(Cur()), Cur())
    {
      var s := ReadByte(Cur());
      if s.Ok? { pos := s.value.1.pos; r := Ok(s.value.0); } else { r := Err(s.error); }
    }

    method GetShort(h: Primitives) returns (r: Result<int>)
      modifies this
      ensures Took(r, ReadShort(h, old(Cur())), old(Cur()), Cur())
    {
      var s := ReadShort(h, Cur());
      if s.Ok? { pos := s.value.1.pos; r := Ok(s.value.0); } else { r := Err(s.error); }
    }

    method GetInt(h: Primitives) returns (r: Result<int>)
      modifies this
      ensures Took(r, ReadInt(h, old(Cur())), old(Cur()), Cur())
    {
      var s := ReadInt(h, Cur());
      if s.Ok? { pos := s.value.1.pos; r := Ok(s.value.0); } else { r := Err(s.error); }
    }

    method GetDouble(h: Primitives) returns (r: Result<real>)
      modifies this
      ensures Took(r, ReadDouble(h, old(Cur())), old(Cur()), Cur())
    {
      var s := ReadDouble(h, Cur());
      if s.Ok? { pos := s.value.1.pos; r := Ok(s.value.0); } else { r := Err(s.error); }
    }

    method GetString(h: Primitives) returns (r: Result<string>)
      modifies this
      ensures Took(r, ReadString(h, old(Cur())), old(Cur()), Cur())
    {
      var s := ReadString(h, Cur());
      if s.Ok? { pos := s.value.1.pos; r := Ok(s.value.0); } else { r := Err(s.error); }
    }

    method GetHex(h: Primitives) returns (r: Result<int>)
      modifies this
      ensures Took(r, ReadHex(h, old(Cur())), old(Cur()), Cur())
    {
      var s := ReadHex(h, Cur());
      if s.Ok? { pos := s.value.1.pos; r := Ok(s.value.0); } else { r := Err(s.error); }
    }

    method GetInts(h: Primitives, n: nat) returns (r: Result<seq<int>>)
      modifies this
      ensures Took(r, ReadInts(h, old(Cur()), n), old(Cur()), Cur())
    {
      var s := ReadInts(h, Cur(), n);
      if s.Ok? { pos := s.value.1.pos; r := Ok(s.value.0); } else { r := Err(s.error); }
    }

    method GetBytes(n: nat) returns (r: Result<seq<int>>)
      modifies this
      ensures Took(r, ReadBytes(old(Cur()), n), old(Cur()), Cur())
    {
      var s := ReadBytes(Cur(), n);
      if s.Ok? { pos := s.value.1.pos; r := Ok(s.value.0); } else { r := Err(s.error); }
    }

    method GetHexes(h: Primitives, n: nat) returns (r: Result<seq<int>>)
      modifies this
      ensures Took(r, ReadHexes(h, old(Cur()), n), old(Cur()), Cur())
    {
      var s := ReadHexes(h, Cur(), n);
      if s.Ok? { pos := s.value.1.pos; r := Ok(s.value.0); } else { r := Err(s.error); }
    }
  }
}
