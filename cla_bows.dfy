/**
 * The bows convergence-layer eid: dtn://@bows:<url>/, where the WebSocket url is
 * carried in base64 (section 4 of RFC 4648) with '+', '/' and '=' replaced by '.',
 * '_' and '-' so that it fits "^([a-zA-Z0-9-_.]+)$".
 */
module ClaBows {
  import opened Wrappers
  import opened JavaInts
  import opened Eids

  const BOWS_MODULE_NAME: string := "bows"

  // ----- Base64, section 4 of RFC 4648 -----

  /** The character of a 6-bit value in the base64 alphabet (Table 1 of RFC 4648). */
  function B64Char(v: nat): (c: char)
    requires v < 64
    ensures c != '='
  {
    if v < 26 then ('A' as int + v) as char
    else if v < 52 then ('a' as int + (v - 26)) as char
    else if v < 62 then ('0' as int + (v - 52)) as char
    else if v == 62 then '+'
    else '/'
  }

  /** The value of a base64 character; None for one outside the alphabet (the decoder's -1). */
  function B64Value(c: char): (r: Option<nat>)
    ensures r.Some? ==> r.value < 64 && B64Char(r.value) == c
  {
    if 'A' <= c <= 'Z' then Some(c as int - 'A' as int)
    else if 'a' <= c <= 'z' then Some(c as int - 'a' as int + 26)
    else if '0' <= c <= '9' then Some(c as int - '0' as int + 52)
    else if c == '+' then Some(62)
    else if c == '/' then Some(63)
    else None
  }

  lemma B64ValueOfChar(v: nat)
    requires v < 64
    ensures B64Value(B64Char(v)) == Some(v)
  {
  }

  predicate IsB64Char(c: char) { B64Value(c).Some? }

  /** The four characters of a full group of three bytes. */
  function Quad3(x: Byte, y: Byte, z: Byte): string
  {
    [B64Char(x as int / 4), B64Char(x as int % 4 * 16 + y as int / 16),
     B64Char(y as int % 16 * 4 + z as int / 64), B64Char(z as int % 64)]
  }

  /** A final group of two bytes, padded with "=". */
  function Quad2(x: Byte, y: Byte): string
  {
    [B64Char(x as int / 4), B64Char(x as int % 4 * 16 + y as int / 16), B64Char(y as int % 16 * 4), '=']
  }

  /** A final group of one byte, padded with "==". */
  function Quad1(x: Byte): string
  {
    [B64Char(x as int / 4), B64Char(x as int % 4 * 16), '=', '=']
  }

  /**
   * Base64.getEncoder().encode: each group of three bytes becomes four characters;
   * a final group of one or two bytes is padded with "==" or "=".
   */
  function Base64Encode(b: seq<Byte>): (s: string)
    ensures |s| == 4 * ((|b| + 2) / 3)
    ensures forall c :: c in s ==> IsB64Char(c) || c == '='
    decreases |b|
  {
    if |b| == 0 then ""
    else if |b| == 1 then Quad1(b[0])
    else if |b| == 2 then Quad2(b[0], b[1])
    else Quad3(b[0], b[1], b[2]) + Base64Encode(b[3..])
  }

  /** The 6-bit value of a character of the alphabet. */
  function Val(c: char): (v: nat)
    requires IsB64Char(c)
    ensures v < 64
  {
    B64Value(c).value
  }

  /** The bytes of a final unit of two characters: the top eight of their twelve bits. */
  function Bytes1(a: char, b: char): seq<Byte>
    requires IsB64Char(a) && IsB64Char(b)
  {
    [(Val(a) * 4 + Val(b) / 16) as Byte]
  }

  /** The bytes of a final unit of three characters: the top sixteen of their eighteen bits. */
  function Bytes2(a: char, b: char, c: char): seq<Byte>
    requires IsB64Char(a) && IsB64Char(b) && IsB64Char(c)
  {
    Bytes1(a, b) + [(Val(b) % 16 * 16 + Val(c) / 4) as Byte]
  }

  /** The three bytes of a full group of four characters. */
  function Bytes3(a: char, b: char, c: char, d: char): seq<Byte>
    requires IsB64Char(a) && IsB64Char(b) && IsB64Char(c) && IsB64Char(d)
  {
    Bytes2(a, b, c) + [(Val(c) % 4 * 64 + Val(d)) as Byte]
  }

  predicate IsFullGroup(s: string)
  {
    |s| >= 4 && IsB64Char(s[0]) && IsB64Char(s[1]) && IsB64Char(s[2]) && IsB64Char(s[3])
  }

  /**
   * The end of the input once no full group of four alphabet characters is left:
   * "xx", "xxx", "xx==" and "xxx=" are accepted, anything else (a lone character, a
   * wrong padding, a character outside the alphabet, text after the padding) throws
   * IllegalArgumentException.
   */
  function FinalUnit(s: string): (r: Result<seq<Byte>, EidError>)
    requires s != [] && !IsFullGroup(s)
    ensures r.Err? ==> r.error == IllegalArgument
    ensures r.Ok? ==> 2 <= |s| <= 4 && 0 < |r.value| < |s|
  {
    if |s| < 2 || |s| > 4 || !IsB64Char(s[0]) || !IsB64Char(s[1]) then Err(IllegalArgument)
    else if |s| == 2 then Ok(Bytes1(s[0], s[1]))
    else if s[2] == '=' then
      if |s| == 4 && s[3] == '=' then Ok(Bytes1(s[0], s[1])) else Err(IllegalArgument)
    else if !IsB64Char(s[2]) then Err(IllegalArgument)
    else if |s| == 3 || s[3] == '=' then Ok(Bytes2(s[0], s[1], s[2]))
    else Err(IllegalArgument)
  }

  /**
   * Base64.getDecoder().decode: groups of four characters give three bytes, then
   * the final unit. The unused low bits of the last character are not checked.
   */
  function Base64Decode(s: string): (r: Result<seq<Byte>, EidError>)
    ensures r.Err? ==> r.error == IllegalArgument
    decreases |s|
  {
    if s == [] then Ok([])
    else if IsFullGroup(s) then
      var rest :- Base64Decode(s[4..]);
      Ok(Bytes3(s[0], s[1], s[2], s[3]) + rest)
    else FinalUnit(s)
  }

  /** The bit arithmetic of a group: the three bytes come back out of the four 6-bit values. */
  lemma GroupBits(x: int, y: int, z: int)
    requires 0 <= x < 256 && 0 <= y < 256 && 0 <= z < 256
    ensures x / 4 * 4 + (x % 4 * 16 + y / 16) / 16 == x
    ensures (x % 4 * 16 + y / 16) % 16 * 16 + (y % 16 * 4 + z / 64) / 4 == y
    ensures (y % 16 * 4 + z / 64) % 4 * 64 + z % 64 == z
  {
  }

  lemma DecodeQuad1(x: Byte)
    ensures Base64Decode(Quad1(x)) == Ok([x])
  {
    GroupBits(x as int, 0, 0);
    var q := Quad1(x);
    B64ValueOfChar(x as int / 4);
    B64ValueOfChar(x as int % 4 * 16);
    assert !IsFullGroup(q);
    assert Bytes1(q[0], q[1]) == [x];
  }

  lemma DecodeQuad2(x: Byte, y: Byte)
    ensures Base64Decode(Quad2(x, y)) == Ok([x, y])
  {
    var q := Quad2(x, y);
    Quad2Bytes(x, y);
    assert !IsFullGroup(q);
    assert FinalUnit(q) == Ok(Bytes2(q[0], q[1], q[2]));
  }

  /** A group of two bytes decodes, from its first three characters, to those bytes. */
  lemma Quad2Bytes(x: Byte, y: Byte)
    ensures var q := Quad2(x, y);
      IsB64Char(q[0]) && IsB64Char(q[1]) && IsB64Char(q[2]) && q[3] == '=' && Bytes2(q[0], q[1], q[2]) == [x, y]
  {
    GroupBits(x as int, y as int, 0);
    B64ValueOfChar(x as int / 4);
    B64ValueOfChar(x as int % 4 * 16 + y as int / 16);
    B64ValueOfChar(y as int % 16 * 4);
  }

  lemma DecodeQuad3(x: Byte, y: Byte, z: Byte, rest: string)
    ensures Base64Decode(Quad3(x, y, z) + rest) ==
      if Base64Decode(rest).Ok? then Ok([x, y, z] + Base64Decode(rest).value) else Base64Decode(rest)
  {
    var q := Quad3(x, y, z);
    var s := q + rest;
    Quad3Bytes(x, y, z);
    assert s[..4] == q && s[4..] == rest;
    assert s[0] == q[0] && s[1] == q[1] && s[2] == q[2] && s[3] == q[3];
  }

  /** A full group decodes to the three bytes it was made of. */
  lemma Quad3Bytes(x: Byte, y: Byte, z: Byte)
    ensures var q := Quad3(x, y, z);
      IsFullGroup(q) && Bytes3(q[0], q[1], q[2], q[3]) == [x, y, z]
  {
    GroupBits(x as int, y as int, z as int);
    B64ValueOfChar(x as int / 4);
    B64ValueOfChar(x as int % 4 * 16 + y as int / 16);
    B64ValueOfChar(y as int % 16 * 4 + z as int / 64);
    B64ValueOfChar(z as int % 64);
  }

  lemma RoundTripShort(b: seq<Byte>)
    requires 1 <= |b| <= 2
    ensures Base64Decode(Base64Encode(b)) == Ok(b)
  {
    if |b| == 1 {
      assert Base64Encode(b) == Quad1(b[0]);
      DecodeQuad1(b[0]);
      assert b == [b[0]];
    } else {
      assert Base64Encode(b) == Quad2(b[0], b[1]);
      DecodeQuad2(b[0], b[1]);
      assert b == [b[0], b[1]];
    }
  }

  /** Decoding what the encoder wrote gives the bytes back. */
  lemma {:induction false} Base64RoundTrip(b: seq<Byte>)
    ensures Base64Decode(Base64Encode(b)) == Ok(b)
    decreases |b|
  {
    if |b| == 0 {
    } else if |b| <= 2 {
      RoundTripShort(b);
    } else {
      var tail := Base64Encode(b[3..]);
      assert Base64Encode(b) == Quad3(b[0], b[1], b[2]) + tail;
      Base64RoundTrip(b[3..]);
      DecodeQuad3(b[0], b[1], b[2], tail);
      assert b == [b[0], b[1], b[2]] + b[3..];
    }
  }

  // ----- The substitutions -----

  /** String.replaceAll of a one-character literal pattern by another character. */
  function ReplaceAll(s: string, a: char, b: char): (r: string)
    ensures |r| == |s|
    ensures forall i :: 0 <= i < |s| ==> r[i] == if s[i] == a then b else s[i]
  {
    if s == [] then [] else [if s[0] == a then b else s[0]] + ReplaceAll(s[1..], a, b)
  }

  /** encode: base64 of the url's ASCII bytes, then '+' to '.', '/' to '_' and '=' to '-'. */
  function Encode(ascii: seq<Byte>): (s: string)
    ensures |s| == 4 * ((|ascii| + 2) / 3)
  {
    ReplaceAll(ReplaceAll(ReplaceAll(Base64Encode(ascii), '+', '.'), '/', '_'), '=', '-')
  }

  /** decode: '.' back to '+', '_' to '/' and '-' to '=', then base64-decode. */
  function Decode(s: string): (r: Result<seq<Byte>, EidError>)
    ensures r.Err? ==> r.error == IllegalArgument
  {
    Base64Decode(ReplaceAll(ReplaceAll(ReplaceAll(s, '.', '+'), '_', '/'), '-', '='))
  }

  /** The characters of "[a-zA-Z0-9-_.]". */
  predicate IsBowsChar(c: char)
  {
    'a' <= c <= 'z' || 'A' <= c <= 'Z' || '0' <= c <= '9' || c == '-' || c == '_' || c == '.'
  }

  /** A full match of "^([a-zA-Z0-9-_.]+)$". */
  predicate IsBowsParam(p: string)
  {
    p != "" && forall c :: c in p ==> IsBowsChar(c)
  }

  /** The substitutions take the base64 output into the parameter alphabet. */
  lemma EncodeIsBowsParam(ascii: seq<Byte>)
    requires ascii != []
    ensures IsBowsParam(Encode(ascii))
  {
    var e := Base64Encode(ascii);
    var s := Encode(ascii);
    forall i | 0 <= i < |s|
      ensures IsBowsChar(s[i])
    {
      assert e[i] in e;
    }
  }

  /** No base64 output character is one the substitutions produce. */
  lemma OutsideBowsSubstitutes(c: char)
    requires IsB64Char(c) || c == '='
    ensures c != '.' && c != '_' && c != '-'
  {
  }

  /** decode(encode(url)) gives back the url's ASCII bytes. */
  lemma DecodeEncode(ascii: seq<Byte>)
    ensures Decode(Encode(ascii)) == Ok(ascii)
  {
    var e := Base64Encode(ascii);
    var back := ReplaceAll(ReplaceAll(ReplaceAll(Encode(ascii), '.', '+'), '_', '/'), '-', '=');
    forall i | 0 <= i < |e|
      ensures back[i] == e[i]
    {
      assert e[i] in e;
      OutsideBowsSubstitutes(e[i]);
    }
    assert back == e;
    Base64RoundTrip(ascii);
  }

  // ----- The checks -----

  /**
   * checkValidClaBowsEid: the cla scheme must be "bows" and the parameters must
   * match; a cla eid without parameters hands null to the matcher, which throws
   * NullPointerException. The matched group is the encoded url.
   */
  function CheckValidClaBowsEid(u: Uri): (r: Result<string, EidError>)
    ensures r.Ok? ==> (GetClaScheme(u) == Ok(BOWS_MODULE_NAME) && GetClaParameters(u) == Ok(Some(r.value)) &&
                       IsBowsParam(r.value))
    ensures GetClaScheme(u).Err? ==> r == Err(GetClaScheme(u).error)
    ensures GetClaScheme(u).Ok? && GetClaScheme(u).value != BOWS_MODULE_NAME ==> r == Err(InvalidClaBowsEid)
    ensures GetClaScheme(u) == Ok(BOWS_MODULE_NAME) && GetClaParameters(u) == Ok(None) ==> r == Err(NullPointer)
    ensures (GetClaScheme(u) == Ok(BOWS_MODULE_NAME) && GetClaParameters(u).Ok? &&
             GetClaParameters(u).value.Some? && IsBowsParam(GetClaParameters(u).value.value)) ==> r.Ok?
  {
    var scheme :- GetClaScheme(u);
    if scheme != BOWS_MODULE_NAME then Err(InvalidClaBowsEid)
    else
      match GetClaParameters(u)
      case Err(e) => Err(e)
      case Ok(params) =>
        if params.None? then Err(NullPointer)
        else if !IsBowsParam(params.value) then Err(InvalidClaBowsEid)
        else Ok(params.value)
  }

  /** isClaBowsEid as written: the NullPointerException of a cla eid without parameters escapes. */
  function IsClaBowsEidAsWritten(u: Uri): (r: Result<bool, EidError>)
    ensures r.Err? ==> r.error == NullPointer
    ensures r == Ok(true) <==> CheckValidClaBowsEid(u).Ok?
  {
    match CheckValidClaBowsEid(u)
    case Ok(_) => Ok(true)
    case Err(e) => if e == NullPointer then Err(NullPointer) else Ok(false)
  }

  /** "dtn://@bows/": asking whether it is a bows eid throws. */
  lemma IsClaBowsEidNoParameters()
    ensures IsClaBowsEidAsWritten(Hier("dtn", Some("@bows"), "/", None, None)) == Err(NullPointer)
  {
    var u := Hier("dtn", Some("@bows"), "/", None, None);
    HierNotNone(u);
    assert MatchClaAuthority("@bows") == Some(("bows", None)) by {
      MatchClaAuthorityOf("bows", None);
      assert "@bows" + "" == "@bows";
    }
  }

  /** isClaBowsEid: a cla eid of scheme bows whose parameters are present and match. */
  predicate IsClaBowsEid(u: Uri)
  {
    GetClaScheme(u) == Ok(BOWS_MODULE_NAME) && GetClaParameters(u).Ok? &&
    GetClaParameters(u).value.Some? && IsBowsParam(GetClaParameters(u).value.value)
  }

  lemma IsClaBowsEidAgrees(u: Uri)
    ensures IsClaBowsEidAsWritten(u).Ok? ==> IsClaBowsEidAsWritten(u).value == IsClaBowsEid(u)
    ensures IsClaBowsEid(u) <==> CheckValidClaBowsEid(u).Ok?
  {
  }

  /** getWebsocketUrl: the decoded parameters (the ASCII text of the url). */
  function GetWebsocketUrl(u: Uri): (r: Result<seq<Byte>, EidError>)
    ensures r.Ok? ==> IsClaBowsEid(u) && Decode(GetClaParameters(u).value.value) == r
    ensures CheckValidClaBowsEid(u).Err? ==> r == Err(CheckValidClaBowsEid(u).error)
  {
    var params :- CheckValidClaBowsEid(u);
    Decode(params)
  }

  /** create(url, path, query, fragment): Cla.create("bows", encode(url), ...). */
  function Create(ascii: seq<Byte>, path: Option<string>, query: Option<string>, fragment: Option<string>): (r: Result<Uri, EidError>)
    ensures r.Ok? <==> path.Some? && path.value != "" && path.value[0] == '/'
    ensures r.Ok? ==> IsClaEid(r.value) && GetPath(r.value) == path
  {
    CreateCla(BOWS_MODULE_NAME, Some(Encode(ascii)), path, query, fragment)
  }

  /** The url carried by a bows eid is read back from it. */
  lemma CreateRoundTrip(ascii: seq<Byte>, path: string)
    requires ascii != []
    requires path != "" && path[0] == '/'
    ensures Create(ascii, Some(path), None, None).Ok?
    ensures var u := Create(ascii, Some(path), None, None).value;
      IsClaBowsEid(u) && GetWebsocketUrl(u) == Ok(ascii)
  {
    var params := Encode(ascii);
    EncodeIsBowsParam(ascii);
    assert forall c :: c in params ==> !IsLineTerminator(c);
    ClaRoundTrip(BOWS_MODULE_NAME, params, path);
    DecodeEncode(ascii);
  }
}
