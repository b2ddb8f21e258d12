/**
 * The bundle-protocol CBOR encoder: every operation appends the bytes of a CBOR
 * head or item (section 3 of RFC 8949) to a ByteBuffer and lets a
 * BufferOverflowException escape when the buffer is full.
 *
 * The functions give the bytes each operation means to write; the methods of
 * `Encoder` are proved to write exactly those bytes when they fit, and a prefix
 * of them otherwise. `DecodeHead` reads a head back as section 3 of RFC 8949
 * lays it out, and the lemmas relate the two.
 */
module CborEncoder {
  import opened JavaInts
  import opened ByteBuffers
  import opened Wrappers

  // Major types, already shifted into the top three bits of the initial byte.
  const UNSIGNED_INTEGER_TYPE: int := 0x00
  const NEGATIVE_INTEGER_TYPE: int := 0x20
  const BYTE_STRING_TYPE: int := 0x40
  const TEXT_STRING_TYPE: int := 0x60
  const ARRAY_TYPE: int := 0x80
  const MAP_TYPE: int := 0xa0
  const TAG_TYPE: int := 0xc0
  const SIMPLE_TYPE: int := 0xe0

  // Additional information in the low five bits of the initial byte.
  const VALUE_8BIT: Byte := 24
  const VALUE_16BIT: Byte := 25
  const VALUE_32BIT: Byte := 26
  const VALUE_64BIT: Byte := 27
  const INDEFINITE_LENGTH: int := 31
  const BREAK_BYTE: Byte := 0xff

  // Simple values (section 3.3 of RFC 8949).
  const FALSE_VALUE: int := 20
  const TRUE_VALUE: int := 21
  const NULL_VALUE: int := 22
  const HALF_PRECISION_FLOAT: int := 25
  const BREAK: int := 31

  predicate IsShiftedMajorType(mt: int)
  {
    0 <= mt < 256 && mt % 32 == 0
  }

  function BitOr(a: int, b: int, d: int): int
    requires d > 0
  {
    if (a / d) % 2 == 1 || (b / d) % 2 == 1 then d else 0
  }

  /** Bitwise or of two three-bit numbers. */
  function Or3(a: int, b: int): int
  {
    BitOr(a, b, 1) + BitOr(a, b, 2) + BitOr(a, b, 4)
  }

  /**
   * `(byte)(mt | x)` for a shifted major type: an `x` below 32 only fills the low
   * five bits; otherwise the top three bits of both are or-ed and the low five
   * bits are those of `x`.
   */
  function OrMajor(mt: int, x: Byte): Byte
    requires IsShiftedMajorType(mt)
  {
    if x < 32 then (mt + x as int) as Byte
    else (32 * Or3(mt / 32, x as int / 32) + x as int % 32) as Byte
  }

  /**
   * The bytes encode_number writes for the shifted major type `mt` and the
   * Java long `ui`; the comparisons are signed, as in Java.
   */
  function NumberBytes(mt: int, ui: int): seq<Byte>
    requires IsShiftedMajorType(mt)
  {
    if ui < VALUE_8BIT as int then [OrMajor(mt, LowByte(ui))]
    else if ui < 0x100 then [OrMajor(mt, VALUE_8BIT), LowByte(ui)]
    else if ui < 0x1_0000 then [OrMajor(mt, VALUE_16BIT)] + BigEndian(ui, 2)
    else if ui < 0x1_0000_0000 then [OrMajor(mt, VALUE_32BIT)] + BigEndian(ui, 4)
    else [OrMajor(mt, VALUE_64BIT)] + BigEndian(ui, 8)
  }

  /** The argument of a head: a number, or the indefinite-length marker. */
  datatype Argument = Definite(n: nat) | Indefinite

  datatype Head = Head(major: nat, arg: Argument)

  /** Bytes of argument that follow an initial byte with additional information 24..27. */
  function ArgumentWidth(ai: int): nat
  {
    if ai == 24 then 1 else if ai == 25 then 2 else if ai == 26 then 4 else 8
  }

  /**
   * Reads one head off the front of `s` as section 3 of RFC 8949 lays it out:
   * None when `s` is empty, too short, or uses a reserved additional information.
   */
  function DecodeHead(s: seq<Byte>): Option<(Head, seq<Byte>)>
  {
    if s == [] then None
    else
      var major, ai := s[0] as int / 32, s[0] as int % 32;
      if ai < 24 then Some((Head(major, Definite(ai)), s[1..]))
      else if ai <= 27 then
        var w := ArgumentWidth(ai);
        if |s| < 1 + w then None
        else Some((Head(major, Definite(FromBigEndian(s[1..1 + w]))), s[1 + w..]))
      else if ai == INDEFINITE_LENGTH then Some((Head(major, Indefinite), s[1..]))
      else None
  }

  /**
   * Preferred serialization (section 4.2.1 of RFC 8949): an argument given 1, 2, 4
   * or 8 bytes would not have fitted in fewer.
   */
  predicate Shortest(s: seq<Byte>)
  {
    |s| > 0 &&
    var ai := s[0] as int % 32;
    (24 <= ai <= 27 && |s| >= 1 + ArgumentWidth(ai) ==>
      FromBigEndian(s[1..1 + ArgumentWidth(ai)]) >= (if ai == 24 then 24 else Pow256(ArgumentWidth(ai) / 2)))
  }

  /** The initial byte `mt | ai` carries the major type in its top bits and `ai` in its low five. */
  lemma InitialByte(mt: int, ai: Byte)
    requires IsShiftedMajorType(mt) && ai < 32
    ensures OrMajor(mt, ai) as int / 32 == mt / 32 && OrMajor(mt, ai) as int % 32 == ai as int
  {
  }

  lemma HeadWithArgument(mt: int, ai: Byte, arg: seq<Byte>, rest: seq<Byte>)
    requires IsShiftedMajorType(mt) && 24 <= ai <= 27 && |arg| == ArgumentWidth(ai as int)
    ensures DecodeHead([OrMajor(mt, ai)] + arg + rest) == Some((Head(mt / 32, Definite(FromBigEndian(arg))), rest))
  {
    var b := OrMajor(mt, ai);
    InitialByte(mt, ai);
    var s := [b] + arg + rest;
    assert s[0] == b;
    assert s[1..1 + |arg|] == arg && s[1 + |arg|..] == rest;
  }

  /** A wide head is in the shortest form when its argument would not fit in fewer bytes. */
  lemma WideHeadShortest(mt: int, ai: Byte, ui: int)
    requires IsShiftedMajorType(mt) && 24 <= ai <= 27
    requires (if ai == 24 then 24 else Pow256(ArgumentWidth(ai as int) / 2)) <= ui < Pow256(ArgumentWidth(ai as int))
    ensures Shortest([OrMajor(mt, ai)] + BigEndian(ui, ArgumentWidth(ai as int)))
  {
    var w := ArgumentWidth(ai as int);
    var arg := BigEndian(ui, w);
    BigEndianRoundTrip(ui, w);
    InitialByte(mt, ai);
    var s := [OrMajor(mt, ai)] + arg;
    assert s[0] as int % 32 == ai as int;
    assert s[1..1 + w] == arg;
  }

  /** A head whose argument takes `w` big-endian bytes after additional information `ai`. */
  lemma WideHeadRoundTrip(mt: int, ai: Byte, ui: int, rest: seq<Byte>)
    requires IsShiftedMajorType(mt) && 24 <= ai <= 27
    requires (if ai == 24 then 24 else Pow256(ArgumentWidth(ai as int) / 2)) <= ui < Pow256(ArgumentWidth(ai as int))
    ensures var s := [OrMajor(mt, ai)] + BigEndian(ui, ArgumentWidth(ai as int));
      DecodeHead(s + rest) == Some((Head(mt / 32, Definite(ui)), rest)) && Shortest(s)
  {
    var w := ArgumentWidth(ai as int);
    var arg := BigEndian(ui, w);
    BigEndianRoundTrip(ui, w);
    HeadWithArgument(mt, ai, arg, rest);
    WideHeadShortest(mt, ai, ui);
  }

  /** For an argument of 24 or more, which additional information and width encode_number picks. */
  lemma WideShape(mt: int, ui: int) returns (ai: Byte)
    requires IsShiftedMajorType(mt) && 24 <= ui <= LONG_MAX
    ensures 24 <= ai <= 27
    ensures (if ai == 24 then 24 else Pow256(ArgumentWidth(ai as int) / 2)) <= ui < Pow256(ArgumentWidth(ai as int))
    ensures NumberBytes(mt, ui) == [OrMajor(mt, ai)] + BigEndian(ui, ArgumentWidth(ai as int))
    ensures ai == (if ui < 0x100 then 24 else if ui < 0x1_0000 then 25 else if ui < 0x1_0000_0000 then 26 else 27)
  {
    if ui < 0x100 {
      ai := VALUE_8BIT;
      assert BigEndian(ui, 1) == [LowByte(ui)];
    } else if ui < 0x1_0000 {
      ai := VALUE_16BIT;
      assert Pow256(2) == 0x1_0000;
    } else if ui < 0x1_0000_0000 {
      ai := VALUE_32BIT;
      assert Pow256(2) == 0x1_0000 && Pow256(4) == 0x1_0000_0000;
    } else {
      ai := VALUE_64BIT;
      assert Pow256(4) == 0x1_0000_0000 && Pow256(8) == 0x1_0000_0000_0000_0000;
    }
  }

  /**
   * A non-negative long argument is read back unchanged, with the major type, and
   * in the shortest form: below 24 in the initial byte itself, then in 1, 2, 4 or 8
   * big-endian bytes after additional information 24, 25, 26 or 27.
   */
  lemma NumberBytesRoundTrip(mt: int, ui: int, rest: seq<Byte>)
    requires IsShiftedMajorType(mt) && 0 <= ui <= LONG_MAX
    ensures DecodeHead(NumberBytes(mt, ui) + rest) == Some((Head(mt / 32, Definite(ui)), rest))
    ensures Shortest(NumberBytes(mt, ui))
    ensures |NumberBytes(mt, ui)| == 1 + (if ui < 24 then 0 else if ui < 0x100 then 1
                                         else if ui < 0x1_0000 then 2 else if ui < 0x1_0000_0000 then 4 else 8)
  {
    if ui < 24 {
      InitialByte(mt, LowByte(ui));
      assert NumberBytes(mt, ui) == [OrMajor(mt, LowByte(ui))];
      assert ([OrMajor(mt, LowByte(ui))] + rest)[1..] == rest;
    } else {
      var ai := WideShape(mt, ui);
      WideHeadRoundTrip(mt, ai, ui, rest);
    }
  }

  /** What cbor_encode_int writes: major type 0 with `value`, or major type 1 with -1 - value. */
  function IntBytes(value: Long): seq<Byte>
  {
    if value < 0 then NumberBytes(NEGATIVE_INTEGER_TYPE, -1 - value)
    else NumberBytes(UNSIGNED_INTEGER_TYPE, value)
  }

  /** Reads an integer item: major type 0 is the argument, major type 1 is -1 minus it. */
  function DecodeInt(s: seq<Byte>): Option<(int, seq<Byte>)>
  {
    match DecodeHead(s)
    case Some((Head(0, Definite(n)), rest)) => Some((n, rest))
    case Some((Head(1, Definite(n)), rest)) => Some((-1 - n, rest))
    case _ => None
  }

  /** Every long written by cbor_encode_int reads back as itself. */
  lemma IntRoundTrip(value: Long, rest: seq<Byte>)
    ensures DecodeInt(IntBytes(value) + rest) == Some((value, rest))
  {
    if value < 0 {
      NumberBytesRoundTrip(NEGATIVE_INTEGER_TYPE, -1 - value, rest);
    } else {
      NumberBytesRoundTrip(UNSIGNED_INTEGER_TYPE, value, rest);
    }
  }

  /** What cbor_encode_negative_uint writes: major type 1 with the long `a - 1`. */
  function NegativeUintBytes(a: Long): seq<Byte>
  {
    NumberBytes(NEGATIVE_INTEGER_TYPE, WrapLong(a - 1))
  }

  /** For a positive absolute value `a`, cbor_encode_negative_uint writes the integer -a. */
  lemma NegativeUintRoundTrip(a: Long, rest: seq<Byte>)
    requires a >= 1
    ensures DecodeInt(NegativeUintBytes(a) + rest) == Some((-a, rest))
  {
    NumberBytesRoundTrip(NEGATIVE_INTEGER_TYPE, a - 1, rest);
  }

  /** What encode_string writes: the length head, then exactly the bytes. */
  function StringBytes(mt: int, bytes: seq<Byte>): seq<Byte>
    requires IsShiftedMajorType(mt)
  {
    NumberBytes(mt, |bytes|) + bytes
  }

  /** A string reads back as a head carrying its length followed by exactly its bytes. */
  lemma StringRoundTrip(mt: int, bytes: seq<Byte>, rest: seq<Byte>)
    requires IsShiftedMajorType(mt) && |bytes| <= LONG_MAX
    ensures DecodeHead(StringBytes(mt, bytes) + rest) == Some((Head(mt / 32, Definite(|bytes|)), bytes + rest))
  {
    NumberBytesRoundTrip(mt, |bytes|, bytes + rest);
    assert StringBytes(mt, bytes) + rest == NumberBytes(mt, |bytes|) + (bytes + rest);
  }

  /**
   * The head cbor_start_array, cbor_start_map, cbor_start_byte_string and
   * cbor_start_text_string write: a negative length is replaced by IndefiniteLength
   * and then goes through encode_number like any other length.
   */
  function ContainerHead(mt: int, length: int): seq<Byte>
    requires IsShiftedMajorType(mt)
  {
    if length < 0 then NumberBytes(mt, INDEFINITE_LENGTH) else NumberBytes(mt, length)
  }

  /** A non-negative length gives a definite-length head carrying it. */
  lemma ContainerHeadDefinite(mt: int, length: int, rest: seq<Byte>)
    requires IsShiftedMajorType(mt) && 0 <= length <= LONG_MAX
    ensures DecodeHead(ContainerHead(mt, length) + rest) == Some((Head(mt / 32, Definite(length)), rest))
  {
    NumberBytesRoundTrip(mt, length, rest);
  }

  /**
   * As written, a negative length does not give the indefinite-length head: 31 is
   * not below 24, so it is written as a one-byte argument, and an "indefinite" array
   * reads back as a definite array of 31 items.
   */
  lemma ContainerHeadIndefiniteAsWritten(rest: seq<Byte>)
    ensures ContainerHead(ARRAY_TYPE, -1) == [0x98, 0x1f]
    ensures DecodeHead(ContainerHead(ARRAY_TYPE, -1) + rest) == Some((Head(4, Definite(31)), rest))
  {
    NumberBytesRoundTrip(ARRAY_TYPE, INDEFINITE_LENGTH, rest);
  }

  /** The head section 3.2.1 of RFC 8949 asks for: one byte with additional information 31. */
  function ContainerHeadIntended(mt: int, length: int): seq<Byte>
    requires IsShiftedMajorType(mt)
  {
    if length < 0 then [OrMajor(mt, INDEFINITE_LENGTH as Byte)] else NumberBytes(mt, length)
  }

  /** The corrected head reads back as indefinite for a negative length and as the length otherwise. */
  lemma ContainerHeadIntendedRoundTrip(mt: int, length: int, rest: seq<Byte>)
    requires IsShiftedMajorType(mt) && length <= LONG_MAX
    ensures DecodeHead(ContainerHeadIntended(mt, length) + rest)
         == Some((Head(mt / 32, if length < 0 then Indefinite else Definite(length)), rest))
  {
    if length < 0 {
      assert (ContainerHeadIntended(mt, length) + rest)[1..] == rest;
    } else {
      NumberBytesRoundTrip(mt, length, rest);
    }
  }

  /**
   * What cbor_encode_simple_value writes for a Java byte: None for the values the
   * guard rejects (HalfPrecisionFloat..Break, compared as a signed byte), otherwise
   * encode_number on the byte sign-extended to a long.
   */
  function SimpleValueBytes(value: Byte): Option<seq<Byte>>
  {
    var v := Signed(value);
    if HALF_PRECISION_FLOAT <= v <= BREAK then None else Some(NumberBytes(SIMPLE_TYPE, v))
  }

  /** The guard rejects exactly the simple values 25..31. */
  lemma SimpleValueRejected(value: Byte)
    ensures SimpleValueBytes(value).None? <==> 25 <= value <= 31
  {
  }

  /**
   * As written, simple value 200 is written as the one byte 0xe8 (simple value 8):
   * the byte -56 takes the "below 24" branch and its low bits are or-ed in.
   */
  lemma SimpleValueAsWritten(rest: seq<Byte>)
    ensures SimpleValueBytes(200) == Some([0xe8])
    ensures DecodeHead([0xe8] + rest) == Some((Head(7, Definite(8)), rest))
  {
    SimpleValue200();
    assert ([0xe8 as Byte] + rest)[1..] == rest;
  }

  lemma SimpleValue200()
    ensures SimpleValueBytes(200) == Some([0xe8])
  {
    assert Or3(7, 6) == 7;
  }

  /**
   * The simple value read as the unsigned byte, as section 3.3 of RFC 8949 numbers
   * them; 24 is refused along with 25..31, since a simple value below 32 written in
   * the extra byte is not well-formed there.
   */
  function SimpleValueBytesIntended(value: Byte): Option<seq<Byte>>
  {
    if VALUE_8BIT as int <= value as int <= BREAK then None else Some(NumberBytes(SIMPLE_TYPE, value as int))
  }

  /**
   * Every accepted simple value reads back as major type 7 carrying that value,
   * in one byte below 24 and in the extra byte from 32 up.
   */
  lemma SimpleValueIntendedRoundTrip(value: Byte, rest: seq<Byte>)
    ensures SimpleValueBytesIntended(value).None? <==> 24 <= value <= 31
    ensures SimpleValueBytesIntended(value).Some? ==>
      DecodeHead(SimpleValueBytesIntended(value).value + rest) == Some((Head(7, Definite(value as nat)), rest))
    ensures SimpleValueBytesIntended(value).Some? ==> |SimpleValueBytesIntended(value).value| == if value < 24 then 1 else 2
  {
    if !(24 <= value <= 31) {
      NumberBytesRoundTrip(SIMPLE_TYPE, value as int, rest);
    }
  }

  /**
   * As written, a long argument at or above 2^63 (negative in Java) is written as a
   * single byte: cbor_encode_uint(-1), meant as 2^64 - 1, writes 0xff, the break code.
   */
  lemma UintAsWritten(rest: seq<Byte>)
    ensures NumberBytes(UNSIGNED_INTEGER_TYPE, -1) == [0xff]
    ensures DecodeHead([0xff] + rest) == Some((Head(7, Indefinite), rest))
  {
    assert LowByte(-1) == 0xff;
    assert Or3(0, 7) == 7 by {
      assert BitOr(0, 7, 1) == 1 && BitOr(0, 7, 2) == 2 && BitOr(0, 7, 4) == 4;
    }
    assert OrMajor(0, 0xff) == 0xff;
    var s := [0xff as Byte] + rest;
    assert s[0] == 0xff && s[1..] == rest;
  }

  /** encode_number with the long read as an unsigned 64-bit number. */
  function NumberBytesUnsigned(mt: int, ui: Long): seq<Byte>
    requires IsShiftedMajorType(mt)
  {
    if ui < 0 then [OrMajor(mt, VALUE_64BIT)] + BigEndian(ui, 8) else NumberBytes(mt, ui)
  }

  /** Every long reads back as its unsigned value. */
  lemma NumberBytesUnsignedRoundTrip(mt: int, ui: Long, rest: seq<Byte>)
    requires IsShiftedMajorType(mt)
    ensures DecodeHead(NumberBytesUnsigned(mt, ui) + rest)
         == Some((Head(mt / 32, Definite(ui % 0x1_0000_0000_0000_0000)), rest))
  {
    if ui < 0 {
      NegativeHeadRoundTrip(mt, ui, rest);
    } else {
      NonNegativeUnsignedRoundTrip(mt, ui, rest);
    }
  }

  lemma NonNegativeUnsignedRoundTrip(mt: int, ui: Long, rest: seq<Byte>)
    requires IsShiftedMajorType(mt) && ui >= 0
    ensures DecodeHead(NumberBytesUnsigned(mt, ui) + rest)
         == Some((Head(mt / 32, Definite(ui % 0x1_0000_0000_0000_0000)), rest))
  {
    assert ui % 0x1_0000_0000_0000_0000 == ui by {
      assert 0 <= ui < 0x1_0000_0000_0000_0000;
    }
    assert NumberBytesUnsigned(mt, ui) == NumberBytes(mt, ui);
    NumberBytesRoundTrip(mt, ui, rest);
  }

  /** A negative long after additional information 27 reads back as its unsigned value. */
  lemma NegativeHeadRoundTrip(mt: int, ui: Long, rest: seq<Byte>)
    requires IsShiftedMajorType(mt) && ui < 0
    ensures DecodeHead(NumberBytesUnsigned(mt, ui) + rest)
         == Some((Head(mt / 32, Definite(ui % 0x1_0000_0000_0000_0000)), rest))
  {
    var u := NegativeAsUnsigned(ui);
    assert ArgumentWidth(VALUE_64BIT as int) == 8 && ArgumentWidth(VALUE_64BIT as int) / 2 == 4;
    assert Pow256(ArgumentWidth(VALUE_64BIT as int) / 2) <= u < Pow256(ArgumentWidth(VALUE_64BIT as int));
    WideHeadRoundTrip(mt, VALUE_64BIT, u, rest);
    assert NumberBytesUnsigned(mt, ui) == [OrMajor(mt, VALUE_64BIT)] + BigEndian(u, 8);
  }

  /** Eight big-endian bytes of a negative long are those of its unsigned reading. */
  lemma NegativeAsUnsigned(ui: int) returns (u: int)
    requires LONG_MIN <= ui < 0
    ensures u == ui % 0x1_0000_0000_0000_0000 == ui + 0x1_0000_0000_0000_0000
    ensures Pow256(4) <= u < Pow256(8)
    ensures BigEndian(ui, 8) == BigEndian(u, 8)
  {
    u := ui + 0x1_0000_0000_0000_0000;
    DivUnique(ui, 0x1_0000_0000_0000_0000, -1, u);
    Pow256Wide();
    BigEndianShift(ui, 8);
  }

  lemma Pow256Wide()
    ensures Pow256(4) == 0x1_0000_0000 && Pow256(8) == 0x1_0000_0000_0000_0000
  {
  }

  /** Big-endian bytes depend only on the value modulo 256^w. */
  lemma {:induction false} BigEndianShift(n: int, w: nat)
    ensures BigEndian(n, w) == BigEndian(n % Pow256(w), w)
    decreases w
  {
    if w > 0 {
      var m := n % Pow256(w);
      DivMod256(n, Pow256(w - 1));
      BigEndianShift(n / 256, w - 1);
      BigEndianShift(m / 256, w - 1);
    }
  }

  lemma MulAtLeast(k: int, d: int)
    requires k >= 1 && d > 0
    ensures k * d >= d
  {
  }

  lemma DivUnique(n: int, d: int, q: int, r: int)
    requires d > 0 && 0 <= r < d && n == q * d + r
    ensures n / d == q && n % d == r
  {
    var q0, r0 := n / d, n % d;
    var k := q - q0;
    assert k * d == q * d - q0 * d;
    assert k * d == r0 - r;
    if k >= 1 {
      MulAtLeast(k, d);
      assert false;
    } else if k <= -1 {
      MulAtLeast(-k, d);
      assert false;
    }
  }

  lemma DivMod256(n: int, p: nat)
    requires p >= 1
    ensures n / 256 % p == (n % (256 * p)) / 256
    ensures n % 256 == (n % (256 * p)) % 256
  {
    var q, m := n / (256 * p), n % (256 * p);
    var a, b := m / 256, m % 256;
    assert m == a * 256 + b;
    assert 0 <= a < p;
    assert n == q * (256 * p) + m;
    assert q * (256 * p) == (q * p) * 256;
    assert n == (q * p + a) * 256 + b;
    DivUnique(n, 256, q * p + a, b);
    DivUnique(q * p + a, p, q, a);
  }

  /** A value the encoder accepts, by the class cbor_encode_object dispatches on. */
  datatype Value =
    | Number(n: Long)                  // Long, Integer, Short or Byte, by its longValue()
    | Text(bytes: seq<Byte>)           // a String, by the bytes getBytes() gives
    | Bool(b: bool)
    | MapOf(entries: seq<Entry>)       // a Map, in the order of its key set
    | CollectionOf(items: seq<Value>)  // a Collection, in iteration order
    | ArrayOf(items: seq<Value>)       // an array
    | Null
    | Other                            // an object of any other class

  datatype Entry = Entry(key: Value, val: Value)

  /** The outcome of an encoder call: normal return, or the exception it throws. */
  datatype Status = Done | Overflow | UnknownType | IllegalSimpleType

  /**
   * What a call means to write, and whether it gets to its end (`complete` is false
   * when it stops at an object of an unsupported class after writing `bytes`).
   */
  datatype Emission = Emission(bytes: seq<Byte>, complete: bool)

  function Complete(bytes: seq<Byte>): Emission
  {
    Emission(bytes, true)
  }

  /** One call after another: the second only runs if the first got to its end. */
  function Then(a: Emission, b: Emission): Emission
  {
    if a.complete then Emission(a.bytes + b.bytes, b.complete) else a
  }

  lemma ThenComplete(a: Emission, b: Emission)
    ensures Then(a, b).complete == (a.complete && b.complete)
  {
  }

  lemma ThenAssoc(a: Emission, b: Emission, c: Emission)
    ensures Then(Then(a, b), c) == Then(a, Then(b, c))
  {
    if a.complete && b.complete {
      assert a.bytes + b.bytes + c.bytes == a.bytes + (b.bytes + c.bytes);
    }
  }

  /**
   * How a call that means to emit `e` with `room` bytes free leaves the written
   * bytes: all of them and the matching status when they fit, otherwise
   * BufferOverflowException after a proper prefix of them.
   */
  ghost predicate Wrote(before: seq<Byte>, after: seq<Byte>, e: Emission, room: int, r: Status)
  {
    if |e.bytes| <= room then after == before + e.bytes && r == (if e.complete then Done else UnknownType)
    else r == Overflow && before <= after && after < before + e.bytes
  }

  /** Two calls in sequence, the second made only when the first returned normally. */
  lemma WroteThen(a: seq<Byte>, b: seq<Byte>, c: seq<Byte>, e1: Emission, e2: Emission, room: int, r1: Status, r2: Status)
    requires Wrote(a, b, e1, room, r1)
    requires r1 == Done ==> Wrote(b, c, e2, room - |e1.bytes|, r2)
    requires r1 != Done ==> c == b && r2 == r1
    ensures Wrote(a, c, Then(e1, e2), room, r2)
  {
    if r1 == Done {
      if |e2.bytes| > room - |e1.bytes| {
        assert a + e1.bytes <= c;
        assert c < a + e1.bytes + e2.bytes;
        assert a + e1.bytes + e2.bytes == a + (e1.bytes + e2.bytes);
      } else {
        assert c == a + (e1.bytes + e2.bytes);
      }
    } else if r1 == Overflow && e1.complete {
      assert a + e1.bytes <= a + (e1.bytes + e2.bytes);
    }
  }

  /** The bytes cbor_encode_object means to write for `v`. */
  function Emit(v: Value): Emission
    decreases v, 1
  {
    match v
    case Number(n) => Complete(IntBytes(n))
    case Text(bytes) => Complete(StringBytes(TEXT_STRING_TYPE, bytes))
    case Bool(b) => Complete(NumberBytes(SIMPLE_TYPE, if b then TRUE_VALUE else FALSE_VALUE))
    case MapOf(es) => Then(Complete(ContainerHead(MAP_TYPE, |es|)), EmitEntries(es, |es|))
    case CollectionOf(xs) => Then(Complete(ContainerHead(ARRAY_TYPE, |xs|)), EmitItems(xs, |xs|))
    case ArrayOf(xs) => Then(Complete(ContainerHead(ARRAY_TYPE, |xs|)), EmitItems(xs, |xs|))
    case Null => Complete(NumberBytes(SIMPLE_TYPE, NULL_VALUE))
    case Other => Emission([], false)
  }

  /** The first `n` items, one after another. */
  function EmitItems(xs: seq<Value>, n: nat): Emission
    requires n <= |xs|
    decreases xs, 0, n
  {
    if n == 0 then Complete([]) else Then(EmitItems(xs, n - 1), Emit(xs[n - 1]))
  }

  /** The first `n` entries, each key followed by its value. */
  function EmitEntries(es: seq<Entry>, n: nat): Emission
    requires n <= |es|
    decreases MapOf(es), 0, n
  {
    if n == 0 then Complete([])
    else Then(EmitEntries(es, n - 1), Then(Emit(es[n - 1].key), Emit(es[n - 1].val)))
  }

  /** A value with no object of an unsupported class anywhere inside. */
  predicate Encodable(v: Value)
    decreases v
  {
    match v
    case Other => false
    case MapOf(es) => forall i :: 0 <= i < |es| ==> Encodable(es[i].key) && Encodable(es[i].val)
    case CollectionOf(xs) => forall i :: 0 <= i < |xs| ==> Encodable(xs[i])
    case ArrayOf(xs) => forall i :: 0 <= i < |xs| ==> Encodable(xs[i])
    case _ => true
  }

  /** cbor_encode_object gets to its end exactly when the value holds nothing unsupported. */
  lemma {:induction false} EmitCompleteIff(v: Value)
    ensures Emit(v).complete <==> Encodable(v)
    decreases v, 2
  {
    match v
    case MapOf(es) => EntriesCompleteIff(es, |es|);
    case CollectionOf(xs) => ItemsCompleteIff(xs, |xs|);
    case ArrayOf(xs) => ItemsCompleteIff(xs, |xs|);
    case _ =>
  }

  lemma {:induction false} ItemsCompleteIff(xs: seq<Value>, n: nat)
    requires n <= |xs|
    ensures EmitItems(xs, n).complete <==> forall i :: 0 <= i < n ==> Encodable(xs[i])
    decreases xs, 0, n
  {
    if n > 0 {
      ItemsCompleteIff(xs, n - 1);
      EmitCompleteIff(xs[n - 1]);
      ItemsEncodableSplit(xs, n);
    }
  }

  lemma ItemsEncodableSplit(xs: seq<Value>, n: nat)
    requires 0 < n <= |xs|
    ensures (forall i :: 0 <= i < n ==> Encodable(xs[i]))
         == ((forall i :: 0 <= i < n - 1 ==> Encodable(xs[i])) && Encodable(xs[n - 1]))
  {
  }

  lemma {:induction false} EntriesCompleteIff(es: seq<Entry>, n: nat)
    requires n <= |es|
    ensures EmitEntries(es, n).complete <==> EntriesEncodable(es, n)
    decreases MapOf(es), 1, n
  {
    if n > 0 {
      EntriesCompleteIff(es, n - 1);
      EntryStepEncodable(es, n);
    }
  }

  /** One more entry keeps the equivalence: it completes exactly when its key and value are encodable. */
  lemma {:induction false} EntryStepEncodable(es: seq<Entry>, n: nat)
    requires 0 < n <= |es|
    requires EmitEntries(es, n - 1).complete == EntriesEncodable(es, n - 1)
    ensures EmitEntries(es, n).complete == EntriesEncodable(es, n)
    decreases MapOf(es), 0, n
  {
    EntryStepComplete(es, n);
    EmitCompleteIff(es[n - 1].key);
    EmitCompleteIff(es[n - 1].val);
    EntriesEncodableSplit(es, n);
  }

  lemma EntryStepComplete(es: seq<Entry>, n: nat)
    requires 0 < n <= |es|
    ensures EmitEntries(es, n).complete
         == (EmitEntries(es, n - 1).complete && Emit(es[n - 1].key).complete && Emit(es[n - 1].val).complete)
  {
    ThenComplete(Emit(es[n - 1].key), Emit(es[n - 1].val));
  }

  /** The first `n` entries have encodable keys and values. */
  predicate EntriesEncodable(es: seq<Entry>, n: nat)
    requires n <= |es|
  {
    forall i :: 0 <= i < n ==> Encodable(es[i].key) && Encodable(es[i].val)
  }

  lemma EntriesEncodableSplit(es: seq<Entry>, n: nat)
    requires 0 < n <= |es|
    ensures EntriesEncodable(es, n)
         == (EntriesEncodable(es, n - 1) && Encodable(es[n - 1].key) && Encodable(es[n - 1].val))
  {
  }

  /** The head that describes a value: its major type and its argument. */
  function HeadOf(v: Value): Head
  {
    match v
    case Number(n) => if n < 0 then Head(1, Definite(-1 - n)) else Head(0, Definite(n))
    case Text(bytes) => Head(3, Definite(|bytes|))
    case Bool(b) => Head(7, Definite(if b then TRUE_VALUE else FALSE_VALUE))
    case MapOf(es) => Head(5, Definite(|es|))
    case CollectionOf(xs) => Head(4, Definite(|xs|))
    case ArrayOf(xs) => Head(4, Definite(|xs|))
    case Null => Head(7, Definite(NULL_VALUE))
    case Other => Head(0, Indefinite)
  }

  /** The size of the value's own string or container fits a long, as every Java size does. */
  predicate SizeFits(v: Value)
  {
    match v
    case Text(bytes) => |bytes| <= LONG_MAX
    case MapOf(es) => |es| <= LONG_MAX
    case CollectionOf(xs) => |xs| <= LONG_MAX
    case ArrayOf(xs) => |xs| <= LONG_MAX
    case _ => true
  }

  /**
   * The encoding of any supported value starts with the head that describes it:
   * integers with their sign and magnitude, strings and containers with their size,
   * and booleans and null as simple values 20, 21 and 22.
   */
  lemma EmitStartsWithHead(v: Value)
    requires v != Other && SizeFits(v)
    ensures DecodeHead(Emit(v).bytes).Some? && DecodeHead(Emit(v).bytes).value.0 == HeadOf(v)
  {
    var mt, n, tail := HeadParts(v);
    NumberBytesRoundTrip(mt, n, tail);
  }

  /** Splits the encoding of a supported value into its head and what follows it. */
  lemma HeadParts(v: Value) returns (mt: int, n: int, tail: seq<Byte>)
    requires v != Other && SizeFits(v)
    ensures IsShiftedMajorType(mt) && 0 <= n <= LONG_MAX
    ensures Emit(v).bytes == NumberBytes(mt, n) + tail
    ensures HeadOf(v) == Head(mt / 32, Definite(n))
  {
    match v
    case Number(x) =>
      if x < 0 {
        mt, n := NEGATIVE_INTEGER_TYPE, -1 - x;
      } else {
        mt, n := UNSIGNED_INTEGER_TYPE, x;
      }
      tail := [];
      assert Emit(v).bytes == NumberBytes(mt, n) + tail;
    case Text(b) =>
      mt, n, tail := TEXT_STRING_TYPE, |b|, b;
    case Bool(b) =>
      mt, n, tail := SIMPLE_TYPE, if b then TRUE_VALUE else FALSE_VALUE, [];
      assert Emit(v).bytes == NumberBytes(mt, n) + tail;
    case MapOf(es) =>
      mt, n, tail := MAP_TYPE, |es|, EmitEntries(es, |es|).bytes;
    case CollectionOf(xs) =>
      mt, n, tail := ARRAY_TYPE, |xs|, EmitItems(xs, |xs|).bytes;
    case ArrayOf(xs) =>
      mt, n, tail := ARRAY_TYPE, |xs|, EmitItems(xs, |xs|).bytes;
    case Null =>
      mt, n, tail := SIMPLE_TYPE, NULL_VALUE, [];
      assert Emit(v).bytes == NumberBytes(mt, n) + tail;
  }

  class Encoder {
    const out: ByteBuffer

    ghost predicate Valid()
      reads this, out
    {
      out.Valid()
    }

    constructor (buffer: ByteBuffer)
      requires buffer.Valid()
      ensures out == buffer && Valid()
    {
      out := buffer;
    }

    /** cbor_encode_object: dispatch on the class of the object. */
    method EncodeObject(v: Value) returns (r: Status)
      requires Valid()
      modifies out, out.hb
      ensures Valid() && out.hb == old(out.hb) && out.limit == old(out.limit)
      ensures Wrote(old(out.Written()), out.Written(), Emit(v), old(out.Remaining()), r)
      decreases v, 1
    {
      match v
      case Number(n) =>
        r := EncodeInt(n);
      case Text(bytes) =>
        r := EncodeTextString(bytes);
      case Bool(b) =>
        r := EncodeNumber(SIMPLE_TYPE, if b then TRUE_VALUE else FALSE_VALUE);
      case MapOf(es) =>
        r := EncodeMap(es);
      case CollectionOf(xs) =>
        r := EncodeCollection(xs);
      case ArrayOf(xs) =>
        // the array branch writes the head and the elements as the collection branch does
        r := EncodeCollection(xs);
      case Null =>
        r := EncodeNumber(SIMPLE_TYPE, NULL_VALUE);
      case Other =>
        r := UnknownType;
    }

    /** cbor_encode_collection: an array head for the size, then every item. */
    method EncodeCollection(xs: seq<Value>) returns (r: Status)
      requires Valid()
      modifies out, out.hb
      ensures Valid() && out.hb == old(out.hb) && out.limit == old(out.limit)
      ensures Wrote(old(out.Written()), out.Written(), Emit(CollectionOf(xs)), old(out.Remaining()), r)
      decreases xs
    {
      ghost var w0, room := out.Written(), out.Remaining();
      r := StartArray(|xs|);
      ghost var head := Complete(ContainerHead(ARRAY_TYPE, |xs|));
      if r != Done {
        WroteThen(w0, out.Written(), out.Written(), head, EmitItems(xs, |xs|), room, r, r);
        CollectionWrote(w0, out.Written(), xs, room, r);
        return;
      }
      var i := 0;
      while i < |xs|
        invariant 0 <= i <= |xs|
        invariant Valid() && out.hb == old(out.hb) && out.limit == old(out.limit)
        invariant r == Done && Wrote(w0, out.Written(), Then(head, EmitItems(xs, i)), room, Done)
      {
        ghost var w1 := out.Written();
        r := EncodeObject(xs[i]);
        ItemStep(w0, w1, out.Written(), head, xs, i, room, r);
        i := i + 1;
        if r != Done {
          ItemsStop(w0, out.Written(), head, xs, i, room, r);
          CollectionWrote(w0, out.Written(), xs, room, r);
          return;
        }
      }
      CollectionWrote(w0, out.Written(), xs, room, r);
    }

    /** cbor_encode_map: a map head for the size, then each key followed by its value. */
    method EncodeMap(es: seq<Entry>) returns (r: Status)
      requires Valid()
      modifies out, out.hb
      ensures Valid() && out.hb == old(out.hb) && out.limit == old(out.limit)
      ensures Wrote(old(out.Written()), out.Written(), Emit(MapOf(es)), old(out.Remaining()), r)
      decreases MapOf(es), 0
    {
      ghost var w0, room := out.Written(), out.Remaining();
      r := StartMap(|es|);
      ghost var head := Complete(ContainerHead(MAP_TYPE, |es|));
      if r != Done {
        WroteThen(w0, out.Written(), out.Written(), head, EmitEntries(es, |es|), room, r, r);
        return;
      }
      var i := 0;
      while i < |es|
        invariant 0 <= i <= |es|
        invariant Valid() && out.hb == old(out.hb) && out.limit == old(out.limit)
        invariant r == Done && Wrote(w0, out.Written(), Then(head, EmitEntries(es, i)), room, Done)
      {
        ghost var w1 := out.Written();
        r := EncodeEntry(es[i]);
        WroteThen(w0, w1, out.Written(), Then(head, EmitEntries(es, i)), Then(Emit(es[i].key), Emit(es[i].val)), room, Done, r);
        ThenAssoc(head, EmitEntries(es, i), Then(Emit(es[i].key), Emit(es[i].val)));
        i := i + 1;
        if r != Done {
          EntriesStop(w0, out.Written(), head, es, i, room, r);
          return;
        }
      }
    }

    /** One pass of cbor_encode_map's loop: the key, then the value it maps to. */
    method EncodeEntry(e: Entry) returns (r: Status)
      requires Valid()
      modifies out, out.hb
      ensures Valid() && out.hb == old(out.hb) && out.limit == old(out.limit)
      ensures Wrote(old(out.Written()), out.Written(), Then(Emit(e.key), Emit(e.val)), old(out.Remaining()), r)
      decreases e, 2
    {
      ghost var w0, room := out.Written(), out.Remaining();
      r := EncodeObject(e.key);
      ghost var w1 := out.Written();
      if r != Done {
        WroteThen(w0, w1, w1, Emit(e.key), Emit(e.val), room, r, r);
        return;
      }
      r := EncodeObject(e.val);
      WroteThen(w0, w1, out.Written(), Emit(e.key), Emit(e.val), room, Done, r);
    }

    /** cbor_start_array: a negative length stands for an indefinite-length array. */
    method StartArray(length: int) returns (r: Status)
      requires Valid()
      modifies out, out.hb
      ensures Valid() && out.hb == old(out.hb) && out.limit == old(out.limit)
      ensures Wrote(old(out.Written()), out.Written(), Complete(ContainerHead(ARRAY_TYPE, length)), old(out.Remaining()), r)
    {
      if length < 0 {
        r := EncodeNumber(ARRAY_TYPE, INDEFINITE_LENGTH);
      } else {
        r := EncodeNumber(ARRAY_TYPE, length);
      }
    }

    /** cbor_stop_array, cbor_stop_map, cbor_stop_byte_string and cbor_stop_text_string. */
    method StopContainer() returns (r: Status)
      requires Valid()
      modifies out, out.hb
      ensures Valid() && out.hb == old(out.hb) && out.limit == old(out.limit)
      ensures Wrote(old(out.Written()), out.Written(), Complete([BREAK_BYTE]), old(out.Remaining()), r)
    {
      var ok := out.Put(BREAK_BYTE);
      r := if ok then Done else Overflow;
    }

    /** cbor_start_map: a negative length stands for an indefinite-length map. */
    method StartMap(length: int) returns (r: Status)
      requires Valid()
      modifies out, out.hb
      ensures Valid() && out.hb == old(out.hb) && out.limit == old(out.limit)
      ensures Wrote(old(out.Written()), out.Written(), Complete(ContainerHead(MAP_TYPE, length)), old(out.Remaining()), r)
    {
      if length < 0 {
        r := EncodeNumber(MAP_TYPE, INDEFINITE_LENGTH);
      } else {
        r := EncodeNumber(MAP_TYPE, length);
      }
    }

    /** cbor_start_byte_string: a negative length stands for an indefinite-length string. */
    method StartByteString(length: int) returns (r: Status)
      requires Valid()
      modifies out, out.hb
      ensures Valid() && out.hb == old(out.hb) && out.limit == old(out.limit)
      ensures Wrote(old(out.Written()), out.Written(), Complete(ContainerHead(BYTE_STRING_TYPE, length)), old(out.Remaining()), r)
    {
      if length < 0 {
        r := EncodeNumber(BYTE_STRING_TYPE, INDEFINITE_LENGTH);
      } else {
        r := EncodeNumber(BYTE_STRING_TYPE, length);
      }
    }

    /** cbor_start_text_string: a negative length stands for an indefinite-length string. */
    method StartTextString(length: int) returns (r: Status)
      requires Valid()
      modifies out, out.hb
      ensures Valid() && out.hb == old(out.hb) && out.limit == old(out.limit)
      ensures Wrote(old(out.Written()), out.Written(), Complete(ContainerHead(TEXT_STRING_TYPE, length)), old(out.Remaining()), r)
    {
      if length < 0 {
        r := EncodeNumber(TEXT_STRING_TYPE, INDEFINITE_LENGTH);
      } else {
        r := EncodeNumber(TEXT_STRING_TYPE, length);
      }
    }

    /** cbor_put_byte_string_chunk: a chunk is a definite-length byte string. */
    method PutByteStringChunk(chunk: seq<Byte>) returns (r: Status)
      requires Valid()
      modifies out, out.hb
      ensures Valid() && out.hb == old(out.hb) && out.limit == old(out.limit)
      ensures Wrote(old(out.Written()), out.Written(), Complete(StringBytes(BYTE_STRING_TYPE, chunk)), old(out.Remaining()), r)
    {
      r := EncodeByteString(chunk);
    }

    /** cbor_put_text_string_chunk: a chunk is a definite-length text string. */
    method PutTextStringChunk(chunk: seq<Byte>) returns (r: Status)
      requires Valid()
      modifies out, out.hb
      ensures Valid() && out.hb == old(out.hb) && out.limit == old(out.limit)
      ensures Wrote(old(out.Written()), out.Written(), Complete(StringBytes(TEXT_STRING_TYPE, chunk)), old(out.Remaining()), r)
    {
      r := EncodeTextString(chunk);
    }

    /** cbor_encode_byte_string. */
    method EncodeByteString(bytes: seq<Byte>) returns (r: Status)
      requires Valid()
      modifies out, out.hb
      ensures Valid() && out.hb == old(out.hb) && out.limit == old(out.limit)
      ensures Wrote(old(out.Written()), out.Written(), Complete(StringBytes(BYTE_STRING_TYPE, bytes)), old(out.Remaining()), r)
    {
      r := EncodeString(BYTE_STRING_TYPE, bytes);
    }

    /** cbor_encode_text_string, given the bytes of the string. */
    method EncodeTextString(str: seq<Byte>) returns (r: Status)
      requires Valid()
      modifies out, out.hb
      ensures Valid() && out.hb == old(out.hb) && out.limit == old(out.limit)
      ensures Wrote(old(out.Written()), out.Written(), Complete(StringBytes(TEXT_STRING_TYPE, str)), old(out.Remaining()), r)
    {
      r := EncodeString(TEXT_STRING_TYPE, str);
    }

    /** cbor_encode_tag. */
    method EncodeTag(tag: Long) returns (r: Status)
      requires Valid()
      modifies out, out.hb
      ensures Valid() && out.hb == old(out.hb) && out.limit == old(out.limit)
      ensures Wrote(old(out.Written()), out.Written(), Complete(NumberBytes(TAG_TYPE, tag)), old(out.Remaining()), r)
    {
      r := EncodeNumber(TAG_TYPE, tag);
    }

    /** cbor_encode_simple_value: the reserved values are rejected before anything is written. */
    method EncodeSimpleValue(value: Byte) returns (r: Status)
      requires Valid()
      modifies out, out.hb
      ensures Valid() && out.hb == old(out.hb) && out.limit == old(out.limit)
      ensures SimpleValueBytes(value).None? ==>
        r == IllegalSimpleType && out.position == old(out.position) && out.hb[..] == old(out.hb[..])
      ensures SimpleValueBytes(value).Some? ==>
        Wrote(old(out.Written()), out.Written(), Complete(SimpleValueBytes(value).value), old(out.Remaining()), r)
    {
      var v := Signed(value);
      if HALF_PRECISION_FLOAT <= v && v <= BREAK {
        r := IllegalSimpleType;
        return;
      }
      r := EncodeNumber(SIMPLE_TYPE, v);
    }

    /** cbor_encode_int: the sign selects the major type, and a negative value is complemented. */
    method EncodeInt(value: Long) returns (r: Status)
      requires Valid()
      modifies out, out.hb
      ensures Valid() && out.hb == old(out.hb) && out.limit == old(out.limit)
      ensures Wrote(old(out.Written()), out.Written(), Complete(IntBytes(value)), old(out.Remaining()), r)
    {
      var sign := if value < 0 then -1 else 0;                                       // value >> 63
      var majorType := if sign == -1 then NEGATIVE_INTEGER_TYPE else UNSIGNED_INTEGER_TYPE;  // sign & 0x20
      var ui := if sign == -1 then -1 - value else value;                            // sign ^ value
      r := EncodeNumber(majorType, ui);
    }

    /** cbor_encode_uint. */
    method EncodeUint(ui: Long) returns (r: Status)
      requires Valid()
      modifies out, out.hb
      ensures Valid() && out.hb == old(out.hb) && out.limit == old(out.limit)
      ensures Wrote(old(out.Written()), out.Written(), Complete(NumberBytes(UNSIGNED_INTEGER_TYPE, ui)), old(out.Remaining()), r)
    {
      r := EncodeNumber(UNSIGNED_INTEGER_TYPE, ui);
    }

    /** cbor_encode_negative_uint: the argument is the absolute value minus one, in long arithmetic. */
    method EncodeNegativeUint(absoluteValue: Long) returns (r: Status)
      requires Valid()
      modifies out, out.hb
      ensures Valid() && out.hb == old(out.hb) && out.limit == old(out.limit)
      ensures Wrote(old(out.Written()), out.Written(), Complete(NegativeUintBytes(absoluteValue)), old(out.Remaining()), r)
    {
      r := EncodeNumber(NEGATIVE_INTEGER_TYPE, WrapLong(absoluteValue - 1));
    }

    /** encode_number: the argument width is chosen by signed comparisons of the long. */
    method EncodeNumber(mt: int, ui: int) returns (r: Status)
      requires Valid() && IsShiftedMajorType(mt)
      modifies out, out.hb
      ensures Valid() && out.hb == old(out.hb) && out.limit == old(out.limit)
      ensures Wrote(old(out.Written()), out.Written(), Complete(NumberBytes(mt, ui)), old(out.Remaining()), r)
    {
      if ui < VALUE_8BIT as int {
        var ok := out.Put(OrMajor(mt, LowByte(ui)));
        r := if ok then Done else Overflow;
      } else if ui < 0x100 {
        r := PutUInt8(mt, LowByte(ui));
      } else if ui < 0x1_0000 {
        r := PutUIntN(mt, VALUE_16BIT, BigEndian(ui, 2));
      } else if ui < 0x1_0000_0000 {
        r := PutUIntN(mt, VALUE_32BIT, BigEndian(ui, 4));
      } else {
        r := PutUIntN(mt, VALUE_64BIT, BigEndian(ui, 8));
      }
    }

    /** putUInt8: the head byte `mt | 24`, then the argument byte. */
    method PutUInt8(mt: int, ui: Byte) returns (r: Status)
      requires Valid() && IsShiftedMajorType(mt)
      modifies out, out.hb
      ensures Valid() && out.hb == old(out.hb) && out.limit == old(out.limit)
      ensures Wrote(old(out.Written()), out.Written(), Complete([OrMajor(mt, VALUE_8BIT), ui]), old(out.Remaining()), r)
    {
      ghost var w0, room := out.Written(), out.Remaining();
      var ok := out.Put(OrMajor(mt, VALUE_8BIT));
      ghost var w1 := out.Written();
      var r1 := if ok then Done else Overflow;
      r := r1;
      if ok {
        ok := out.Put(ui);
        r := if ok then Done else Overflow;
      }
      WroteThen(w0, w1, out.Written(), Complete([OrMajor(mt, VALUE_8BIT)]), Complete([ui]), room, r1, r);
    }

    /**
     * putUInt16, putUInt32 and putUInt64: the head byte `mt | ai`, then the argument
     * as one putShort, putInt or putLong (its big-endian bytes).
     */
    method PutUIntN(mt: int, ai: Byte, argument: seq<Byte>) returns (r: Status)
      requires Valid() && IsShiftedMajorType(mt)
      modifies out, out.hb
      ensures Valid() && out.hb == old(out.hb) && out.limit == old(out.limit)
      ensures Wrote(old(out.Written()), out.Written(), Complete([OrMajor(mt, ai)] + argument), old(out.Remaining()), r)
    {
      ghost var w0, room := out.Written(), out.Remaining();
      var ok := out.Put(OrMajor(mt, ai));
      ghost var w1 := out.Written();
      var r1 := if ok then Done else Overflow;
      r := r1;
      if ok {
        ok := out.PutBytes(argument);
        r := if ok then Done else Overflow;
      }
      WroteThen(w0, w1, out.Written(), Complete([OrMajor(mt, ai)]), Complete(argument), room, r1, r);
    }

    /** encode_string: the length head, then the bytes in one bulk put. */
    method EncodeString(mt: int, bytes: seq<Byte>) returns (r: Status)
      requires Valid() && IsShiftedMajorType(mt)
      modifies out, out.hb
      ensures Valid() && out.hb == old(out.hb) && out.limit == old(out.limit)
      ensures Wrote(old(out.Written()), out.Written(), Complete(StringBytes(mt, bytes)), old(out.Remaining()), r)
    {
      ghost var w0, room := out.Written(), out.Remaining();
      r := EncodeNumber(mt, |bytes|);
      ghost var w1 := out.Written();
      var r2 := r;
      if r == Done {
        var ok := out.PutBytes(bytes);
        r2 := if ok then Done else Overflow;
      }
      WroteThen(w0, w1, out.Written(), Complete(NumberBytes(mt, |bytes|)), Complete(bytes), room, r, r2);
      r := r2;
    }
  }

  /** A collection is written as its head followed by its items. */
  lemma CollectionWrote(a: seq<Byte>, c: seq<Byte>, xs: seq<Value>, room: int, r: Status)
    requires Wrote(a, c, Then(Complete(ContainerHead(ARRAY_TYPE, |xs|)), EmitItems(xs, |xs|)), room, r)
    ensures Wrote(a, c, Emit(CollectionOf(xs)), room, r)
  {
  }

  /** An item loop that stopped after item `i` leaves the bytes the whole call would. */
  lemma ItemsStop(a: seq<Byte>, c: seq<Byte>, head: Emission, xs: seq<Value>, i: nat, room: int, r: Status)
    requires i <= |xs| && r != Done
    requires Wrote(a, c, Then(head, EmitItems(xs, i)), room, r)
    ensures Wrote(a, c, Then(head, EmitItems(xs, |xs|)), room, r)
  {
    ItemsSplit(xs, i, |xs|);
    WroteThen(a, c, c, Then(head, EmitItems(xs, i)), ItemsFrom(xs, i, |xs|), room, r, r);
    ThenAssoc(head, EmitItems(xs, i), ItemsFrom(xs, i, |xs|));
  }

  /** Items `i` to `n - 1`. */
  function ItemsFrom(xs: seq<Value>, i: nat, n: nat): Emission
    requires i <= n <= |xs|
    decreases n
  {
    if n == i then Complete([]) else Then(ItemsFrom(xs, i, n - 1), Emit(xs[n - 1]))
  }

  lemma {:induction false} ItemsSplit(xs: seq<Value>, i: nat, n: nat)
    requires i <= n <= |xs|
    ensures EmitItems(xs, n) == Then(EmitItems(xs, i), ItemsFrom(xs, i, n))
    decreases n
  {
    if n == i {
      assert Then(EmitItems(xs, i), Complete([])) == EmitItems(xs, i) by {
        assert EmitItems(xs, i).bytes + [] == EmitItems(xs, i).bytes;
      }
    } else {
      ItemsSplit(xs, i, n - 1);
      ThenAssoc(EmitItems(xs, i), ItemsFrom(xs, i, n - 1), Emit(xs[n - 1]));
    }
  }

  /** Writing one more item extends what the items before it wrote. */
  lemma ItemStep(w0: seq<Byte>, w1: seq<Byte>, w2: seq<Byte>, head: Emission, xs: seq<Value>, i: nat, room: int, r: Status)
    requires i < |xs|
    requires Wrote(w0, w1, Then(head, EmitItems(xs, i)), room, Done)
    requires Wrote(w1, w2, Emit(xs[i]), room - |Then(head, EmitItems(xs, i)).bytes|, r)
    ensures Wrote(w0, w2, Then(head, EmitItems(xs, i + 1)), room, r)
  {
    WroteThen(w0, w1, w2, Then(head, EmitItems(xs, i)), Emit(xs[i]), room, Done, r);
    ThenAssoc(head, EmitItems(xs, i), Emit(xs[i]));
  }

  /** A map loop that stopped after entry `i` leaves the bytes the whole call would. */
  lemma EntriesStop(a: seq<Byte>, c: seq<Byte>, head: Emission, es: seq<Entry>, i: nat, room: int, r: Status)
    requires i <= |es| && r != Done
    requires Wrote(a, c, Then(head, EmitEntries(es, i)), room, r)
    ensures Wrote(a, c, Then(head, EmitEntries(es, |es|)), room, r)
  {
    EntriesSplit(es, i, |es|);
    WroteThen(a, c, c, Then(head, EmitEntries(es, i)), EntriesFrom(es, i, |es|), room, r, r);
    ThenAssoc(head, EmitEntries(es, i), EntriesFrom(es, i, |es|));
  }

  /** Entries `i` to `n - 1`. */
  function EntriesFrom(es: seq<Entry>, i: nat, n: nat): Emission
    requires i <= n <= |es|
    decreases n
  {
    if n == i then Complete([]) else Then(EntriesFrom(es, i, n - 1), Then(Emit(es[n - 1].key), Emit(es[n - 1].val)))
  }

  lemma {:induction false} EntriesSplit(es: seq<Entry>, i: nat, n: nat)
    requires i <= n <= |es|
    ensures EmitEntries(es, n) == Then(EmitEntries(es, i), EntriesFrom(es, i, n))
    decreases n
  {
    if n == i {
      assert Then(EmitEntries(es, i), Complete([])) == EmitEntries(es, i) by {
        assert EmitEntries(es, i).bytes + [] == EmitEntries(es, i).bytes;
      }
    } else {
      EntriesSplit(es, i, n - 1);
      ThenAssoc(EmitEntries(es, i), EntriesFrom(es, i, n - 1), Then(Emit(es[n - 1].key), Emit(es[n - 1].val)));
    }
  }
}
