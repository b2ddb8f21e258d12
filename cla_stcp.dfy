/**
 * The stcp convergence-layer eid: dtn://@stcp:host:port/, whose parameters must
 * match "^([^:/?#]+):([0-9]+)$".
 */
module ClaStcp {
  import opened Wrappers
  import opened JavaInts
  import opened Eids

  const STCP_MODULE_NAME: string := "stcp"

  predicate IsDigit(c: char) { '0' <= c <= '9' }

  /** The characters the host group `[^:/?#]` accepts. */
  predicate IsHostChar(c: char) { c != ':' && c != '/' && c != '?' && c != '#' }

  predicate IsHost(h: string)
  {
    h != "" && forall c :: c in h ==> IsHostChar(c)
  }

  predicate IsDigits(d: string)
  {
    d != "" && forall c :: c in d ==> IsDigit(c)
  }

  /**
   * A full match of "^([^:/?#]+):([0-9]+)$": the host group ends at the first ':'
   * (it cannot hold one), the port group is the rest and holds only digits.
   */
  function MatchStcpParams(p: string): (r: Option<(string, string)>)
    ensures r.Some? ==> IsHost(r.value.0) && IsDigits(r.value.1) && p == r.value.0 + ":" + r.value.1
  {
    var i := IndexOf(p, ':');
    if i == |p| then None
    else
      var host, port := p[..i], p[i + 1..];
      assert p == host + ":" + port;
      if IsHost(host) && IsDigits(port) then Some((host, port)) else None
  }

  /** Every host and digit string the pattern accepts is read back from "host:port". */
  lemma MatchStcpParamsOf(host: string, port: string)
    requires IsHost(host) && IsDigits(port)
    ensures MatchStcpParams(host + ":" + port) == Some((host, port))
  {
    assert ':' !in host;
    IndexOfPrefix(host, ":" + port, ':');
    assert host + ":" + port == host + (":" + port);
    assert (host + ":" + port)[..|host|] == host;
    assert (host + ":" + port)[|host| + 1..] == port;
  }

  // ----- Integer.toString and Integer.parseInt -----

  function DigitChar(d: nat): char
    requires d < 10
  {
    "0123456789"[d]
  }

  function DigitValue(c: char): nat
    requires IsDigit(c)
  {
    (c as int - '0' as int) as nat
  }

  /** The decimal digits of n, without leading zeros. */
  function NatToString(n: nat): (s: string)
    ensures IsDigits(s)
    ensures s[0] != '0' || n == 0
  {
    if n < 10 then [DigitChar(n)] else NatToString(n / 10) + [DigitChar(n % 10)]
  }

  /** Integer.toString: a minus sign before the digits of a negative number. */
  function IntToString(n: Int): string
  {
    if n < 0 then "-" + NatToString(-(n as int)) else NatToString(n)
  }

  /** The value of a string of decimal digits, leading zeros allowed. */
  function DigitsValue(s: string): nat
    requires forall c :: c in s ==> IsDigit(c)
  {
    if s == [] then 0 else DigitsValue(s[..|s| - 1]) * 10 + DigitValue(s[|s| - 1])
  }

  lemma {:induction false} DigitsValueOfNat(n: nat)
    ensures DigitsValue(NatToString(n)) == n
  {
    var s := NatToString(n);
    if n >= 10 {
      DigitsValueOfNat(n / 10);
      assert s[..|s| - 1] == NatToString(n / 10);
      assert DigitValue(s[|s| - 1]) == n % 10;
    } else {
      assert DigitValue(s[0]) == n;
      assert s[..0] == [];
    }
  }

  /**
   * Integer.parseInt on a string of digits: its value, or NumberFormatException
   * when it does not fit an int.
   */
  function ParseInt(d: string): (r: Result<Int, EidError>)
    requires IsDigits(d)
    ensures r.Ok? <==> DigitsValue(d) <= INT_MAX
    ensures r.Ok? ==> r.value == DigitsValue(d)
    ensures r.Err? ==> r.error == NumberFormat
  {
    var v := DigitsValue(d);
    if v > INT_MAX then Err(NumberFormat) else Ok(v)
  }

  lemma ParseIntOfNat(n: nat)
    requires n <= INT_MAX
    ensures ParseInt(NatToString(n)) == Ok(n)
  {
    DigitsValueOfNat(n);
  }

  // ----- The checks -----

  /**
   * checkValidClaStcpEid: the cla scheme must be "stcp" and the parameters must
   * match; the two groups are the host and the port. A cla eid without parameters
   * hands null to the matcher, which throws NullPointerException.
   */
  function CheckValidClaStcpEid(u: Uri): (r: Result<(string, string), EidError>)
    ensures r.Ok? ==> (IsClaEid(u) && GetClaScheme(u) == Ok(STCP_MODULE_NAME) &&
                       GetClaParameters(u).Ok? && GetClaParameters(u).value.Some? &&
                       MatchStcpParams(GetClaParameters(u).value.value) == Some(r.value))
    ensures GetClaScheme(u).Err? ==> r == Err(GetClaScheme(u).error)
    ensures GetClaScheme(u).Ok? && GetClaScheme(u).value != STCP_MODULE_NAME ==> r == Err(InvalidClaStcpEid)
    ensures GetClaScheme(u) == Ok(STCP_MODULE_NAME) && GetClaParameters(u) == Ok(None) ==> r == Err(NullPointer)
  {
    var scheme :- GetClaScheme(u);
    if scheme != STCP_MODULE_NAME then Err(InvalidClaStcpEid)
    else
      match GetClaParameters(u)
      case Err(e) => Err(e)
      case Ok(params) =>
        if params.None? then Err(NullPointer)
        else
          match MatchStcpParams(params.value)
          case None => Err(InvalidClaStcpEid)
          case Some(groups) => Ok(groups)
  }

  /**
   * isClaStcpEid as written: it catches the checked exceptions only, so the
   * NullPointerException of a cla eid without parameters (and of dtn:none) escapes.
   */
  function IsClaStcpEidAsWritten(u: Uri): (r: Result<bool, EidError>)
    ensures r.Err? ==> r.error == NullPointer
    ensures r == Ok(true) <==> CheckValidClaStcpEid(u).Ok?
  {
    match CheckValidClaStcpEid(u)
    case Ok(_) => Ok(true)
    case Err(e) => if e == NullPointer then Err(NullPointer) else Ok(false)
  }

  /** "dtn://@stcp/" is a cla eid of scheme stcp without parameters: asking whether it is an stcp eid throws. */
  lemma IsClaStcpEidNoParameters()
    ensures IsClaStcpEidAsWritten(Hier("dtn", Some("@stcp"), "/", None, None)) == Err(NullPointer)
  {
    var u := Hier("dtn", Some("@stcp"), "/", None, None);
    HierNotNone(u);
    assert MatchClaAuthority("@stcp") == Some(("stcp", None)) by {
      MatchClaAuthorityOf("stcp", None);
      assert "@stcp" + "" == "@stcp";
    }
  }

  /** isClaStcpEid: a cla eid of scheme stcp whose parameters are present and match host:port. */
  predicate IsClaStcpEid(u: Uri)
  {
    GetClaScheme(u) == Ok(STCP_MODULE_NAME) && GetClaParameters(u).Ok? &&
    GetClaParameters(u).value.Some? && MatchStcpParams(GetClaParameters(u).value.value).Some?
  }

  /** Wherever the as-written check answers, it answers as the corrected one. */
  lemma IsClaStcpEidAgrees(u: Uri)
    ensures IsClaStcpEidAsWritten(u).Ok? ==> IsClaStcpEidAsWritten(u).value == IsClaStcpEid(u)
    ensures IsClaStcpEid(u) <==> CheckValidClaStcpEid(u).Ok?
  {
  }

  // ----- The getters -----

  /** getStcpHost: the host group. */
  function GetStcpHost(u: Uri): (r: Result<string, EidError>)
    ensures r.Ok? <==> CheckValidClaStcpEid(u).Ok?
    ensures r.Ok? ==> IsHost(r.value) && r.value == CheckValidClaStcpEid(u).value.0
  {
    var groups :- CheckValidClaStcpEid(u);
    Ok(groups.0)
  }

  /** getStcpPort: the port group read by Integer.parseInt. */
  function GetStcpPort(u: Uri): (r: Result<Int, EidError>)
    ensures r.Ok? ==> CheckValidClaStcpEid(u).Ok? && r.value == DigitsValue(CheckValidClaStcpEid(u).value.1)
    ensures CheckValidClaStcpEid(u).Ok? && r.Err? ==> r.error == NumberFormat
    ensures CheckValidClaStcpEid(u).Err? ==> r == Err(CheckValidClaStcpEid(u).error)
  {
    var groups :- CheckValidClaStcpEid(u);
    ParseInt(groups.1)
  }

  /** What the Unsafe getters rethrow: the checked eid exceptions become IllegalArgumentException. */
  function Unchecked<T>(r: Result<T, EidError>): (q: Result<T, EidError>)
    ensures q.Ok? <==> r.Ok?
    ensures q.Ok? ==> q.value == r.value
    ensures q.Err? ==> q.error == if r.error in {InvalidDtnEid, InvalidClaEid, InvalidClaStcpEid} then IllegalArgument else r.error
  {
    match r
    case Ok(v) => Ok(v)
    case Err(e) => if e in {InvalidDtnEid, InvalidClaEid, InvalidClaStcpEid} then Err(IllegalArgument) else Err(e)
  }

  /** getStcpHostUnsafe. */
  function GetStcpHostUnsafe(u: Uri): (r: Result<string, EidError>)
    ensures r.Ok? <==> GetStcpHost(u).Ok?
    ensures r.Ok? ==> r.value == GetStcpHost(u).value
    ensures r.Err? ==> r.error in {IllegalArgument, NullPointer}
  {
    Unchecked(GetStcpHost(u))
  }

  /** getStcpPortUnsafe: a port too large for an int still throws NumberFormatException. */
  function GetStcpPortUnsafe(u: Uri): (r: Result<Int, EidError>)
    ensures r.Ok? <==> GetStcpPort(u).Ok?
    ensures r.Ok? ==> r.value == GetStcpPort(u).value
    ensures r.Err? ==> r.error in {IllegalArgument, NullPointer, NumberFormat}
  {
    Unchecked(GetStcpPort(u))
  }

  // ----- create -----

  /** create(host, port, path, query, fragment): Cla.create("stcp", host + ":" + port, ...). */
  function Create(host: string, port: Int, path: Option<string>, query: Option<string>, fragment: Option<string>): (r: Result<Uri, EidError>)
    ensures r.Ok? <==> path.Some? && path.value != "" && path.value[0] == '/'
    ensures r.Ok? ==> IsClaEid(r.value) && GetPath(r.value) == path
  {
    CreateCla(STCP_MODULE_NAME, Some(host + ":" + IntToString(port)), path, query, fragment)
  }

  /** create(host, port): the path is "/". */
  function CreateDefault(host: string, port: Int): (r: Result<Uri, EidError>)
    ensures r.Ok? && GetPath(r.value) == Some("/")
  {
    Create(host, port, Some("/"), None, None)
  }

  /**
   * For a host the pattern accepts and a port that is not negative, the eid built by
   * create is an stcp eid, and its host and port read back.
   */
  lemma CreateRoundTrip(host: string, port: Int, path: string)
    requires IsHost(host) && forall c :: c in host ==> !IsLineTerminator(c)
    requires port >= 0
    requires path != "" && path[0] == '/'
    ensures Create(host, port, Some(path), None, None).Ok?
    ensures var u := Create(host, port, Some(path), None, None).value;
      IsClaStcpEid(u) && GetStcpHost(u) == Ok(host) && GetStcpPort(u) == Ok(port)
  {
    var digits := NatToString(port);
    var params := host + ":" + digits;
    assert forall c :: c in params ==> c in host || c == ':' || c in digits;
    ClaRoundTrip(STCP_MODULE_NAME, params, path);
    MatchStcpParamsOf(host, digits);
    ParseIntOfNat(port);
  }
}
