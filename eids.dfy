/**
 * Endpoint identifiers as URIs: the dtn scheme (dtn:none or dtn://node/demux), the
 * api:me authority naming the local application-agent interface, and the
 * convergence-layer form dtn://@scheme:parameters/.
 */
module Eids {
  import opened Wrappers

  /**
   * A java.net.URI with a scheme: opaque (`scheme:ssp`, no authority and no path)
   * or hierarchical (`scheme://authority/path?query#fragment`). None stands for a
   * component Java reports as null.
   */
  datatype Uri =
    | Opaque(scheme: string, opaqueSsp: string, ofragment: Option<string>)
    | Hier(scheme: string, authority: Option<string>, path: string, query: Option<string>, fragment: Option<string>)

  /**
   * What java.net.URI guarantees of the URIs it builds or parses: an opaque part
   * does not start with "/", a hierarchical path is empty or absolute, an empty
   * authority is reported as none, and a URI without authority has a path.
   */
  predicate WellFormed(u: Uri)
  {
    match u
    case Opaque(_, ssp, _) => ssp != "" && ssp[0] != '/'
    case Hier(_, auth, path, _, _) =>
      (path == "" || path[0] == '/') && auth != Some("") && (auth.None? ==> path != "")
  }

  /** The scheme-specific part of a well-formed hierarchical URI starts with "/", so it is never "none". */
  lemma HierNotNone(u: Uri)
    requires WellFormed(u) && u.Hier?
    ensures GetSchemeSpecificPart(u) != "" && GetSchemeSpecificPart(u)[0] == '/'
  {
    if u.authority.Some? {
      assert GetSchemeSpecificPart(u) == "//" + (u.authority.value + u.path + OptText("?", u.query));
    } else {
      assert GetSchemeSpecificPart(u) == u.path + OptText("?", u.query);
    }
  }

  /** The exceptions of the eid helpers. */
  datatype EidError =
    | InvalidDtnEid
    | InvalidApiEid
    | InvalidClaEid
    | UriSyntax          // URISyntaxException from the URI constructor
    | NullPointer        // a method called on a null component
    | InvalidClaStcpEid  // ClaStcp.InvalidClaStcpEid
    | InvalidClaBowsEid  // ClaBows.InvalidClaBowsEid
    | NumberFormat       // NumberFormatException from Integer.parseInt
    | IllegalArgument    // IllegalArgumentException from the Unsafe getters and the base64 decoder

  function StartsWith(s: string, prefix: string): bool
  {
    |prefix| <= |s| && s[..|prefix|] == prefix
  }

  function OptText(prefix: string, o: Option<string>): string
  {
    if o.Some? then prefix + o.value else ""
  }

  /** getPath(): null for an opaque URI. */
  function GetPath(u: Uri): Option<string>
  {
    if u.Opaque? then None else Some(u.path)
  }

  /** getAuthority(): null for an opaque URI and for one without `//`. */
  function GetAuthority(u: Uri): Option<string>
  {
    if u.Opaque? then None else u.authority
  }

  function GetQuery(u: Uri): Option<string>
  {
    if u.Opaque? then None else u.query
  }

  function GetFragment(u: Uri): Option<string>
  {
    if u.Opaque? then u.ofragment else u.fragment
  }

  /** getSchemeSpecificPart(): everything between the scheme's colon and the fragment. */
  function GetSchemeSpecificPart(u: Uri): string
  {
    match u
    case Opaque(_, ssp, _) => ssp
    case Hier(_, auth, path, query, _) => OptText("//", auth) + path + OptText("?", query)
  }

  function ToString(u: Uri): string
  {
    u.scheme + ":" + GetSchemeSpecificPart(u) + OptText("#", GetFragment(u))
  }

  // ----- Dtn -----

  /**
   * checkValidDtnEid: the scheme must be "dtn"; then either the scheme-specific part
   * is "none" or the path is present and not empty.
   */
  function CheckValidDtnEid(u: Uri): (r: Result<(), EidError>)
    ensures r.Ok? <==> u.scheme == "dtn" && (GetSchemeSpecificPart(u) == "none" || (GetPath(u).Some? && GetPath(u).value != ""))
    ensures r.Err? ==> r.error == InvalidDtnEid
  {
    if u.scheme != "dtn" then Err(InvalidDtnEid)
    else if GetSchemeSpecificPart(u) == "none" then Ok(())
    else if GetPath(u).None? || GetPath(u).value == "" then Err(InvalidDtnEid)
    else Ok(())
  }

  predicate IsDtnEid(u: Uri)
  {
    CheckValidDtnEid(u).Ok?
  }

  predicate IsNullEid(u: Uri)
  {
    ToString(u) == "dtn:none"
  }

  /** isSingleton: the path does not start with "/~"; a null path raises NullPointerException. */
  function IsSingleton(u: Uri): (r: Result<bool, EidError>)
    ensures r.Ok? <==> GetPath(u).Some?
    ensures r.Ok? ==> (r.value <==> !StartsWith(u.path, "/~"))
  {
    if u.Opaque? then Err(NullPointer) else Ok(!StartsWith(u.path, "/~"))
  }

  /** nullEid(): "dtn:none". */
  function NullEid(): (u: Uri)
    ensures ToString(u) == "dtn:none"
  {
    Opaque("dtn", "none", None)
  }

  lemma NullEidIsNullAndValid()
    ensures IsNullEid(NullEid()) && IsDtnEid(NullEid())
    ensures GetPath(NullEid()).None? && GetAuthority(NullEid()).None?
  {
  }

  /**
   * new URI("dtn", authority, path, query, fragment): a path that is not empty must
   * start with "/", and a URI with neither authority nor path has no
   * scheme-specific part. An empty authority reads back as none.
   */
  function NewDtnUri(authority: Option<string>, path: Option<string>, query: Option<string>, fragment: Option<string>): (r: Result<Uri, EidError>)
    ensures r.Ok? <==> (path.None? || path.value == "" || path.value[0] == '/') &&
                       !((authority.None? || authority == Some("")) && (path.None? || path.value == ""))
    ensures r.Ok? ==> WellFormed(r.value) && r.value.Hier? && r.value.scheme == "dtn"
    ensures r.Ok? ==> GetQuery(r.value) == query && GetFragment(r.value) == fragment
    ensures r.Ok? ==> GetPath(r.value) == Some(if path.None? then "" else path.value)
    ensures r.Ok? ==> GetAuthority(r.value) == if authority == Some("") then None else authority
    ensures r.Err? ==> r.error == UriSyntax
  {
    var p := if path.None? then "" else path.value;
    if p != "" && p[0] != '/' then Err(UriSyntax)
    else if (authority.None? || authority == Some("")) && p == "" then Err(UriSyntax)
    else Ok(Hier("dtn", if authority == Some("") then None else authority, p, query, fragment))
  }

  /** create(node): "dtn://node/". */
  function Create(node: string): (r: Result<Uri, EidError>)
    ensures node != "" ==> r == Ok(Hier("dtn", Some(node), "/", None, None))
  {
    NewDtnUri(Some(node), Some("/"), None, None)
  }

  /** create(node, path, query, fragment): the URI, checked to be a valid dtn eid. */
  function CreateChecked(node: Option<string>, path: Option<string>, query: Option<string>, fragment: Option<string>): (r: Result<Uri, EidError>)
    ensures r.Ok? ==> IsDtnEid(r.value) && NewDtnUri(node, path, query, fragment) == Ok(r.value)
    ensures r.Ok? ==> path.Some? && path.value != "" && GetPath(r.value) == path
    ensures NewDtnUri(node, path, query, fragment).Err? ==> r == NewDtnUri(node, path, query, fragment)
    ensures NewDtnUri(node, path, query, fragment).Ok? ==> (r.Ok? <==> path.Some? && path.value != "")
  {
    var u :- NewDtnUri(node, path, query, fragment);
    HierNotNone(u);
    var _ :- CheckValidDtnEid(u);
    Ok(u)
  }

  /** create(node) gives "dtn://node/", a valid singleton dtn eid whose path is "/". */
  lemma CreateNode(node: string)
    requires node != ""
    ensures Create(node).Ok? && ToString(Create(node).value) == "dtn://" + node + "/"
    ensures IsDtnEid(Create(node).value) && GetPath(Create(node).value) == Some("/")
    ensures IsSingleton(Create(node).value) == Ok(true)
  {
    var u := Create(node).value;
    assert GetSchemeSpecificPart(u) == "//" + node + "/";
    assert GetSchemeSpecificPart(u) != "none" by {
      assert GetSchemeSpecificPart(u)[0] == '/';
    }
  }

  // ----- Api -----

  const API_ME: string := "api:me"

  /**
   * checkValidApiEid as written: a valid dtn eid whose authority is "api:me"; a
   * valid eid without authority (dtn:none) makes `getAuthority().equals` throw.
   */
  function CheckValidApiEid(u: Uri): (r: Result<(), EidError>)
    ensures r.Ok? <==> IsDtnEid(u) && GetAuthority(u) == Some(API_ME)
    ensures r == Err(NullPointer) <==> IsDtnEid(u) && GetAuthority(u).None?
  {
    var _ :- CheckValidDtnEid(u);
    if GetAuthority(u).None? then Err(NullPointer)
    else if GetAuthority(u).value != API_ME then Err(InvalidApiEid)
    else Ok(())
  }

  /** isApiEid as written: the NullPointerException is not caught. */
  function IsApiEidAsWritten(u: Uri): (r: Result<bool, EidError>)
    ensures r.Err? <==> IsDtnEid(u) && GetAuthority(u).None?
  {
    var c := CheckValidApiEid(u);
    if c == Err(NullPointer) then Err(NullPointer) else Ok(c.Ok?)
  }

  /** As written, asking whether dtn:none is an api eid throws instead of answering false. */
  lemma IsApiEidNullEid()
    ensures IsApiEidAsWritten(NullEid()) == Err(NullPointer)
  {
    NullEidIsNullAndValid();
  }

  /** isApiEid: a valid dtn eid with authority "api:me"; false for anything else. */
  predicate IsApiEid(u: Uri)
  {
    IsDtnEid(u) && GetAuthority(u) == Some(API_ME)
  }

  /** Wherever the as-written check answers, it answers as the corrected one. */
  lemma IsApiEidAgrees(u: Uri)
    ensures IsApiEidAsWritten(u).Ok? ==> IsApiEidAsWritten(u).value == IsApiEid(u)
    ensures !IsApiEid(NullEid())
  {
  }

  /** me(): "dtn://api:me/". */
  function Me(): (u: Uri)
    ensures IsApiEid(u) && ToString(u) == "dtn://api:me/"
  {
    var u := Hier("dtn", Some(API_ME), "/", None, None);
    assert GetSchemeSpecificPart(u)[0] == '/';
    u
  }

  /** me(path, query, fragment): the api:me eid with those parts, checked. */
  function MeWith(path: Option<string>, query: Option<string>, fragment: Option<string>): (r: Result<Uri, EidError>)
    ensures r.Ok? <==> path.Some? && path.value != "" && path.value[0] == '/'
    ensures r.Ok? ==> IsApiEid(r.value) && GetPath(r.value) == path && GetQuery(r.value) == query && GetFragment(r.value) == fragment
  {
    var u :- CreateChecked(Some(API_ME), path, query, fragment);
    if GetAuthority(u).value != API_ME then Err(InvalidApiEid) else Ok(u)
  }

  /**
   * swapApiMe(uri1, uri2): both must be valid dtn eids; the result has the authority
   * of uri2 and the path, query and fragment of uri1.
   */
  function SwapApiMe(uri1: Uri, uri2: Uri): (r: Result<Uri, EidError>)
    requires WellFormed(uri2)
    ensures !IsDtnEid(uri1) || !IsDtnEid(uri2) ==> r == Err(InvalidDtnEid)
    ensures r.Ok? ==> IsDtnEid(r.value) && GetPath(r.value) == GetPath(uri1) &&
                      GetQuery(r.value) == GetQuery(uri1) && GetFragment(r.value) == GetFragment(uri1) &&
                      GetAuthority(r.value) == GetAuthority(uri2)
  {
    var _ :- CheckValidDtnEid(uri1);
    var _ :- CheckValidDtnEid(uri2);
    CreateChecked(GetAuthority(uri2), GetPath(uri1), GetQuery(uri1), GetFragment(uri1))
  }

  /** Swapping a hierarchical dtn eid with path into another's node succeeds. */
  lemma SwapApiMeSucceeds(uri1: Uri, uri2: Uri)
    requires WellFormed(uri1) && WellFormed(uri2)
    requires IsDtnEid(uri1) && IsDtnEid(uri2) && uri1.Hier? && uri1.path != ""
    requires GetAuthority(uri2).Some?
    ensures SwapApiMe(uri1, uri2).Ok?
    ensures SwapApiMe(uri1, uri2).value == Hier("dtn", GetAuthority(uri2), uri1.path, uri1.query, uri1.fragment)
  {
  }

  /** swapApiMeUnsafe: the checked exceptions of swapApiMe become IllegalArgumentException. */
  function SwapApiMeUnsafe(uri1: Uri, uri2: Uri): (r: Result<Uri, EidError>)
    requires WellFormed(uri2)
    ensures r.Ok? <==> SwapApiMe(uri1, uri2).Ok?
    ensures r.Ok? ==> r.value == SwapApiMe(uri1, uri2).value
    ensures r.Err? ==> r.error == IllegalArgument
  {
    match SwapApiMe(uri1, uri2)
    case Ok(u) => Ok(u)
    case Err(_) => Err(IllegalArgument)
  }

  // ----- Cla -----

  /**
   * checkValidClaEid as written: a valid dtn eid whose authority starts with "@";
   * a valid eid without authority makes `getAuthority().startsWith` throw.
   */
  function CheckValidClaEid(u: Uri): (r: Result<(), EidError>)
    ensures r.Ok? <==> IsDtnEid(u) && GetAuthority(u).Some? && StartsWith(GetAuthority(u).value, "@")
    ensures r == Err(NullPointer) <==> IsDtnEid(u) && GetAuthority(u).None?
  {
    var _ :- CheckValidDtnEid(u);
    if GetAuthority(u).None? then Err(NullPointer)
    else if !StartsWith(GetAuthority(u).value, "@") then Err(InvalidClaEid)
    else Ok(())
  }

  /** isClaEid as written: the NullPointerException is not caught. */
  function IsClaEidAsWritten(u: Uri): (r: Result<bool, EidError>)
    ensures r.Err? <==> IsDtnEid(u) && GetAuthority(u).None?
  {
    var c := CheckValidClaEid(u);
    if c == Err(NullPointer) then Err(NullPointer) else Ok(c.Ok?)
  }

  /** As written, asking whether dtn:none is a cla eid throws instead of answering false. */
  lemma IsClaEidNullEid()
    ensures IsClaEidAsWritten(NullEid()) == Err(NullPointer)
  {
    NullEidIsNullAndValid();
  }

  /** isClaEid: a valid dtn eid whose authority starts with "@"; false for anything else. */
  predicate IsClaEid(u: Uri)
  {
    IsDtnEid(u) && GetAuthority(u).Some? && StartsWith(GetAuthority(u).value, "@")
  }

  lemma IsClaEidAgrees(u: Uri)
    ensures IsClaEidAsWritten(u).Ok? ==> IsClaEidAsWritten(u).value == IsClaEid(u)
    ensures !IsClaEid(NullEid())
  {
  }

  /** The characters `.` does not match in a Java regular expression. */
  predicate IsLineTerminator(c: char)
  {
    c == '\n' || c == '\r' || c == '\U{0085}' || c == '\U{2028}' || c == '\U{2029}'
  }

  /** Index of the first occurrence of `c` in `s`, or |s|. */
  function IndexOf(s: string, c: char): (i: nat)
    ensures i <= |s|
    ensures i < |s| ==> s[i] == c
    ensures forall j :: 0 <= j < i ==> s[j] != c
  {
    if s == [] then 0 else if s[0] == c then 0 else 1 + IndexOf(s[1..], c)
  }

  /**
   * A full match of "^@([^:]+)(:(.+))?" against an authority: group 1, the cla
   * scheme, runs from after "@" to the first ':'; group 3, the parameters, is what
   * follows that colon, absent when there is no colon.
   */
  function MatchClaAuthority(a: string): (r: Option<(string, Option<string>)>)
    ensures r.Some? ==> r.value.0 != "" && ':' !in r.value.0
    ensures r.Some? && r.value.1.None? ==> a == "@" + r.value.0
    ensures r.Some? && r.value.1.Some? ==> a == "@" + r.value.0 + ":" + r.value.1.value
    ensures r.Some? && r.value.1.Some? ==> r.value.1.value != "" && forall c :: c in r.value.1.value ==> !IsLineTerminator(c)
  {
    if a == [] || a[0] != '@' then None
    else
      var rest := a[1..];
      var i := IndexOf(rest, ':');
      AuthoritySplit(a);
      if i == 0 then None
      else if i == |rest| then Some((rest, None))
      else
        var params := rest[i + 1..];
        if params == [] || exists c :: c in params && IsLineTerminator(c) then None
        else Some((rest[..i], Some(params)))
  }

  /** An authority starting with "@" is "@", what precedes its first ':', and after that colon the rest. */
  lemma AuthoritySplit(a: string)
    requires a != [] && a[0] == '@'
    ensures var rest := a[1..]; var i := IndexOf(rest, ':');
      ':' !in rest[..i] &&
      (i == |rest| ==> a == "@" + rest) &&
      (i < |rest| ==> a == "@" + rest[..i] + ":" + rest[i + 1..])
  {
    var rest := a[1..];
    var i := IndexOf(rest, ':');
    assert a == "@" + rest;
    if i < |rest| {
      assert rest == rest[..i] + ":" + rest[i + 1..];
    }
  }

  /** Every scheme and parameters the pattern accepts are read back from the authority built of them. */
  lemma MatchClaAuthorityOf(scheme: string, params: Option<string>)
    requires scheme != "" && ':' !in scheme
    requires params.Some? ==> params.value != "" && forall c :: c in params.value ==> !IsLineTerminator(c)
    ensures MatchClaAuthority("@" + scheme + (if params.Some? then ":" + params.value else "")) == Some((scheme, params))
  {
    var a := "@" + scheme + (if params.Some? then ":" + params.value else "");
    var rest := a[1..];
    assert rest == scheme + (if params.Some? then ":" + params.value else "");
    IndexOfPrefix(scheme, if params.Some? then ":" + params.value else "", ':');
    if params.Some? {
      assert rest[|scheme| + 1..] == params.value;
    } else {
      assert rest == scheme;
    }
  }

  lemma {:induction false} IndexOfPrefix(s: string, t: string, c: char)
    requires c !in s
    ensures IndexOf(s + t, c) == |s| + IndexOf(t, c)
    decreases |s|
  {
    if s != [] {
      assert (s + t)[0] == s[0] != c;
      assert (s + t)[1..] == s[1..] + t;
      IndexOfPrefix(s[1..], t, c);
    } else {
      assert s + t == t;
    }
  }

  /** getClaScheme: group 1 of the authority, for a cla eid the pattern matches. */
  function GetClaScheme(u: Uri): (r: Result<string, EidError>)
    ensures r.Ok? ==> IsClaEid(u) && MatchClaAuthority(GetAuthority(u).value).Some? &&
                      r.value == MatchClaAuthority(GetAuthority(u).value).value.0
    ensures IsClaEid(u) && MatchClaAuthority(GetAuthority(u).value).Some? ==> r.Ok?
  {
    var _ :- CheckValidClaEid(u);
    var m := MatchClaAuthority(GetAuthority(u).value);
    if m.None? then Err(InvalidClaEid) else Ok(m.value.0)
  }

  /** getClaParameters: group 3 of the authority (None for Java's null when there is no colon). */
  function GetClaParameters(u: Uri): (r: Result<Option<string>, EidError>)
    ensures r.Ok? <==> GetClaScheme(u).Ok?
    ensures r.Ok? ==> r.value == MatchClaAuthority(GetAuthority(u).value).value.1
  {
    var _ :- CheckValidClaEid(u);
    var m := MatchClaAuthority(GetAuthority(u).value);
    if m.None? then Err(InvalidClaEid) else Ok(m.value.1)
  }

  /** The authority Cla.create builds: "@" + scheme, then ":" + ssp unless ssp is null or empty. */
  function ClaAuthority(claScheme: string, claSsp: Option<string>): string
  {
    "@" + claScheme + (if claSsp.None? || claSsp.value == "" then "" else ":" + claSsp.value)
  }

  /** create(claScheme, claSsp, path, query, fragment): the cla eid, checked. */
  function CreateCla(claScheme: string, claSsp: Option<string>, path: Option<string>, query: Option<string>, fragment: Option<string>): (r: Result<Uri, EidError>)
    ensures r.Ok? ==> IsClaEid(r.value) && GetAuthority(r.value) == Some(ClaAuthority(claScheme, claSsp))
    ensures r.Ok? ==> GetPath(r.value) == path && GetQuery(r.value) == query && GetFragment(r.value) == fragment
    ensures r.Ok? <==> path.Some? && path.value != "" && path.value[0] == '/'
    ensures r.Ok? ==> r.value.Hier? && r.value.scheme == "dtn"
  {
    var auth := ClaAuthority(claScheme, claSsp);
    assert auth != "" && auth[0] == '@' && StartsWith(auth, "@");
    assert path.Some? && path.value != "" && path.value[0] == '/' ==>
      GetSchemeSpecificPart(Hier("dtn", Some(auth), path.value, query, fragment))[0] == '/';
    var u :- CreateChecked(Some(auth), path, query, fragment);
    match CheckValidClaEid(u)
    case Ok(_) => Ok(u)
    case Err(e) => Err(e)
  }

  /** A path starting with '/' gives the hierarchical dtn URI of the cla authority. */
  lemma CreateClaValue(claScheme: string, claSsp: Option<string>, path: string)
    requires path != "" && path[0] == '/'
    ensures CreateCla(claScheme, claSsp, Some(path), None, None) ==
      Ok(Hier("dtn", Some(ClaAuthority(claScheme, claSsp)), path, None, None))
  {
  }

  /**
   * A cla eid created from a scheme without ':' and parameters the pattern accepts
   * gives back that scheme and those parameters (none for an empty ssp).
   */
  lemma ClaRoundTrip(claScheme: string, claSsp: string, path: string)
    requires claScheme != "" && ':' !in claScheme
    requires forall c :: c in claSsp ==> !IsLineTerminator(c)
    requires path != "" && path[0] == '/'
    ensures var r := CreateCla(claScheme, Some(claSsp), Some(path), None, None);
      r.Ok? && GetClaScheme(r.value) == Ok(claScheme) &&
      GetClaParameters(r.value) == Ok(if claSsp == "" then None else Some(claSsp))
  {
    var params := if claSsp == "" then None else Some(claSsp);
    assert ClaAuthority(claScheme, Some(claSsp)) == "@" + claScheme + (if params.Some? then ":" + params.value else "");
    MatchClaAuthorityOf(claScheme, params);
  }

  lemma ToStringPlain(u: Uri)
    requires u.Hier? && u.authority.Some? && u.query.None? && u.fragment.None?
    ensures ToString(u) == u.scheme + "://" + u.authority.value + u.path
  {
  }

  /** The example without parameters: "dtn://@camera/". */
  lemma ClaExampleCamera()
    ensures var cam := CreateCla("camera", Some(""), Some("/"), None, None);
      cam.Ok? && ToString(cam.value) == "dtn://@camera/" && GetClaScheme(cam.value) == Ok("camera") &&
      GetClaParameters(cam.value) == Ok(None)
  {
    ClaRoundTrip("camera", "", "/");
    ClaExampleCameraValue();
    CameraText();
  }

  /** Its text form. */
  lemma CameraText()
    ensures ToString(Hier("dtn", Some("@camera"), "/", None, None)) == "dtn://@camera/"
  {
    ToStringPlain(Hier("dtn", Some("@camera"), "/", None, None));
    assert "dtn" + "://" + "@camera" + "/" == "dtn://@camera/";
  }

  /** The cla eid it creates: authority "@camera" and path "/". */
  lemma ClaExampleCameraValue()
    ensures CreateCla("camera", Some(""), Some("/"), None, None) == Ok(Hier("dtn", Some("@camera"), "/", None, None))
  {
    CreateClaValue("camera", Some(""), "/");
    assert ClaAuthority("camera", Some("")) == "@camera";
  }

  /** The example with parameters: "dtn://@stcp:1.2.3.4:8118/", authority "@stcp:1.2.3.4:8118" and path "/". */
  lemma ClaExampleStcp()
    ensures CreateCla("stcp", Some("1.2.3.4:8118"), Some("/"), None, None) ==
      Ok(Hier("dtn", Some("@stcp:1.2.3.4:8118"), "/", None, None))
  {
    CreateClaValue("stcp", Some("1.2.3.4:8118"), "/");
    assert ClaAuthority("stcp", Some("1.2.3.4:8118")) == "@stcp:1.2.3.4:8118";
  }

  /** Its scheme and parameters read back. */
  lemma ClaExampleStcpParts()
    ensures var st := CreateCla("stcp", Some("1.2.3.4:8118"), Some("/"), None, None);
      st.Ok? && GetClaScheme(st.value) == Ok("stcp") && GetClaParameters(st.value) == Ok(Some("1.2.3.4:8118"))
  {
    ClaRoundTrip("stcp", "1.2.3.4:8118", "/");
  }
}
