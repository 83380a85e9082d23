/** Printing and parsing `zsync://` URIs (src/group.rs). */
module GroupUris {
  import opened Basics
  import opened Text

  datatype GroupUri = GroupUri(groupId: Id, key: Option<Secret>, host: string, port: u16)

  datatype UriError =
    | NotZsync | NoHost | BadKey | KeyLength | BadGroupId | Unspecified(host: string)
    | Unclosed | ExpectedPort | BadPort | KeyMissing

  /** Library functions the printer and the parser use: the test for an IPv6 literal, and base64. */
  datatype Lib = Lib(isIpv6: string -> bool, encode: Bytes -> string, decode: string -> Option<Bytes>)

  /** The URL-safe alphabet (section 5 of RFC 4648). */
  predicate InAlphabet(c: char) {
    IsDigit(c) || 'a' <= c <= 'z' || 'A' <= c <= 'Z' || c == '-' || c == '_'
  }

  ghost predicate LibLaw(lib: Lib) {
    && (forall s :: lib.isIpv6(s) ==> ':' in s && forall c :: c in s ==> IsHexDigit(c) || c == ':' || c == '.')
    && (forall b :: lib.decode(lib.encode(b)) == Some(b) && forall c :: c in lib.encode(b) ==> InAlphabet(c))
  }

  // Hosts and ports.

  function HostPort(bracketed: bool, host: string, port: u16): string {
    if bracketed then "[" + host + "]:" + Decimal(port) else host + ":" + Decimal(port)
  }

  function PortOr(text: string, host: string): Result<(string, u16), UriError> {
    match ParsePort(text)
    case Some(port) => Ok((host, port))
    case None => Err(BadPort)
  }

  /** The same in src/group.rs and src/net.rs. */
  function SplitHostPort(s: string): Result<(string, u16), UriError> {
    if "[" <= s then
      var rest := s[1..];
      var i := FirstIndex(rest, ']');
      if i == |rest| then Err(Unclosed)
      else if rest[i + 1..] == "" then Ok((rest[..i], DEFAULT_PORT))
      else if rest[i + 1] != ':' then Err(ExpectedPort)
      else PortOr(rest[i + 2..], rest[..i])
    else
      var i := LastIndex(s, ':');
      if i < |s| && ':' !in s[..i] then PortOr(s[i + 1..], s[..i]) else Ok((s, DEFAULT_PORT))
  }

  predicate Readable(bracketed: bool, host: string) {
    if bracketed then ']' !in host else ':' !in host && !("[" <= host)
  }

  lemma BracketedReadsBack(host: string, port: u16)
    ensures SplitHostPort(HostPort(true, host, port)) == Ok((host, port)) <==> ']' !in host
  {
    var s, digits := HostPort(true, host, port), Decimal(port);
    var rest := s[1..];
    assert rest == host + "]" + (":" + digits);
    if ']' !in host {
      FirstIndexIs(host, ']', ":" + digits);
      assert rest[..|host|] == host && rest[|host| + 1] == ':' && rest[|host| + 2..] == digits;
      PortRoundTrip(port);
    }
  }

  lemma PlainReadsBack(host: string, port: u16)
    ensures SplitHostPort(HostPort(false, host, port)) == Ok((host, port)) <==> Readable(false, host)
  {
    if "[" <= host {
      BracketIsLost(host, port);
    } else {
      PlainSplits(host, port);
    }
  }

  lemma PlainSplits(host: string, port: u16)
    requires !("[" <= host)
    ensures SplitHostPort(HostPort(false, host, port)) ==
              if ':' in host then Ok((HostPort(false, host, port), DEFAULT_PORT)) else Ok((host, port))
  {
    var s, digits := HostPort(false, host, port), Decimal(port);
    assert s == host + ":" + digits && !IsDigit(':');
    PortRoundTrip(port);
    hide Decimal, ParsePort, IsDigit;
    LastIndexIs(host, ':', digits);
    assert s[0] == if host == "" then ':' else host[0];
    assert s[..|host|] == host && s[|host| + 1..] == digits;
  }

  lemma BracketIsLost(host: string, port: u16)
    requires "[" <= host
    ensures SplitHostPort(HostPort(false, host, port)) != Ok((host, port))
  {
    var s := HostPort(false, host, port);
    var rest := s[1..];
    var i := FirstIndex(rest, ']');
    assert "[" <= s;
    assert !IsDigit(']');
    assert rest == host[1..] + ":" + Decimal(port);
    if i < |rest| {
      assert rest[i] == ']';
      assert |rest[..i]| < |host|;
    }
  }

  /** What is printed splits back into the host and the port exactly for these hosts. */
  lemma HostPortReadsBack(bracketed: bool, host: string, port: u16)
    ensures SplitHostPort(HostPort(bracketed, host, port)) == Ok((host, port)) <==> Readable(bracketed, host)
  {
    if bracketed {
      BracketedReadsBack(host, port);
    } else {
      PlainReadsBack(host, port);
    }
  }

  /** Without a port the default one is taken: for a host in brackets, and for a bare address with several colons. */
  lemma BracketedHostAlone(host: string)
    requires ']' !in host
    ensures SplitHostPort("[" + host + "]") == Ok((host, DEFAULT_PORT))
  {
    var s := "[" + host + "]";
    FirstIndexIs(host, ']', "");
    var rest := s[1..];
    assert "[" <= s && rest == host + "]" + "";
    assert rest[..|host|] == host && rest[|host| + 1..] == "";
  }

  lemma BareAddressAlone(a: string, b: string, c: string)
    requires !("[" <= a) && ':' !in c
    ensures SplitHostPort(a + ":" + b + ":" + c) == Ok((a + ":" + b + ":" + c, DEFAULT_PORT))
  {
    var front := a + ":" + b;
    LastIndexIs(front, ':', c);
    var s := front + ":" + c;
    assert s[..|front|] == front && front[|a|] == ':';
    assert s[0] == if a == "" then ':' else a[0];
  }

  /** As do hosts without a colon. */
  lemma PlainHostAlone(host: string)
    requires ':' !in host && !("[" <= host)
    ensures SplitHostPort(host) == Ok((host, 43721))
  {
  }

  /** With something behind the host: a port, or what is wrong with it. */
  lemma PlainPortText(host: string, text: string)
    requires ':' !in host && ':' !in text && !("[" <= host)
    ensures SplitHostPort(host + ":" + text) ==
              match ParsePort(text) case Some(port) => Ok((host, port)) case None => Err(BadPort)
  {
    hide ParsePort;
    var s := host + ":" + text;
    LastIndexIs(host, ':', text);
    assert s[..|host|] == host && s[|host| + 1..] == text && s[0] == if host == "" then ':' else host[0];
  }

  lemma BracketedPortText(host: string, text: string)
    requires ']' !in host
    ensures SplitHostPort("[" + host + "]:" + text) ==
              match ParsePort(text) case Some(port) => Ok((host, port)) case None => Err(BadPort)
  {
    hide ParsePort;
    var s := "[" + host + "]:" + text;
    var rest := s[1..];
    FirstIndexIs(host, ']', ":" + text);
    assert "[" <= s && rest == host + "]" + (":" + text);
    assert rest[..|host|] == host && rest[|host| + 1..] == ":" + text && rest[|host| + 2..] == text;
  }

  /** A bracket that is not closed, and one that is followed by something other than a port. */
  lemma BracketErrors(host: string, tail: string)
    requires ']' !in host && tail != "" && tail[0] != ':'
    ensures SplitHostPort("[" + host) == Err(Unclosed)
    ensures SplitHostPort("[" + host + "]" + tail) == Err(ExpectedPort)
  {
    var s := "[" + host + "]" + tail;
    FirstIndexIs(host, ']', tail);
    assert "[" <= s && s[1..] == host + "]" + tail && s[1..][|host| + 1..] == tail;
    assert "[" <= "[" + host && ("[" + host)[1..] == host;
  }

  // Printing.

  function Scheme(): (s: string)
    ensures |s| == 8
  {
    "zsync://"
  }

  function Creds(lib: Lib, g: GroupUri): string {
    Hex(g.groupId) + if g.key.Some? then ":" + lib.encode(g.key.value) else ""
  }

  /** A URI as `to_uri` prints it, or, for a group without its key, as `redacted_uri` does. */
  function Printed(lib: Lib, g: GroupUri): string {
    Scheme() + Creds(lib, g) + "@" + HostPort(lib.isIpv6(g.host), g.host, g.port)
  }

  function ToUri(lib: Lib, g: GroupUri): Result<string, UriError> {
    if g.key.None? then Err(KeyMissing) else Ok(Printed(lib, g))
  }

  function RedactedUri(lib: Lib, g: GroupUri): string {
    Printed(lib, g.(key := None))
  }

  // Parsing.

  predicate AllHex(s: string) {
    forall c :: c in s ==> IsHexDigit(c)
  }

  function GroupId(s: string): Result<Id, UriError> {
    var t := Trimmed(s);
    if |t| != 32 || !AllHex(t) then Err(BadGroupId) else Ok(FromHex(t))
  }

  lemma FromHexOneMore(t: string, i: nat)
    requires AllHex(t) && 2 * (i + 1) <= |t|
    ensures AllHex(t[..2 * i]) && AllHex(t[..2 * (i + 1)]) && IsHexDigit(t[2 * i]) && IsHexDigit(t[2 * i + 1])
    ensures FromHex(t[..2 * (i + 1)]) == FromHex(t[..2 * i]) + [16 * HexValue(t[2 * i]) + HexValue(t[2 * i + 1])]
  {
    hide IsHexDigit, HexValue;
    assert t[..2 * (i + 1)][..2 * i] == t[..2 * i];
    assert t[2 * i] in t && t[2 * i + 1] in t;
  }

  method ParseGroupId(s: string) returns (r: Result<Id, UriError>)
    ensures r == GroupId(s)
  {
    var t := Trimmed(s);
    if |t| != 32 || exists c :: c in t && !IsHexDigit(c) {
      return Err(BadGroupId);
    }
    hide FromHex, IsHexDigit, HexValue, Trimmed;
    var id := new byte[16];
    for i := 0 to 16
      invariant AllHex(t[..2 * i]) && id[..i] == FromHex(t[..2 * i])
    {
      FromHexOneMore(t, i);
      id[i] := 16 * HexValue(t[2 * i]) + HexValue(t[2 * i + 1]);
      assert id[..i + 1] == id[..i] + [id[i]];
    }
    assert t[..32] == t && id[..16] == id[..];
    return Ok(id[..]);
  }

  /** Accepted in either case and with white space around it; 32 digits, no more and no fewer. */
  lemma GroupIdIsRead(id: Id, left: string, s: string, right: string)
    requires Blank(left) && Blank(right) && Lowered(s) == Hex(id)
    ensures GroupId(left + s + right) == Ok(id)
  {
    HexIsLower(id);
    HexRoundTrip(id);
    CaseDoesNotMatter(s);
    assert s[0] in s && s[31] in s;
    assert forall c :: IsHexDigit(c) ==> !IsWhitespace(c);
    hide IsWhitespace, Hex, FromHex, Lowered, IsHexDigit, Trimmed, DIGITS;
    TrimmedStripsEnds(left, s, right);
  }

  lemma GroupIdIsRefused(left: string, s: string, right: string)
    requires Blank(left) && Blank(right) && (s != "" ==> !IsWhitespace(s[0]) && !IsWhitespace(s[|s| - 1]))
    ensures |s| != 32 || (exists c :: c in s && !IsHexDigit(c)) <==> GroupId(left + s + right) == Err(BadGroupId)
  {
    TrimmedStripsEnds(left, s, right);
    hide IsWhitespace, IsHexDigit, Trimmed;
  }

  function ParseKey(lib: Lib, text: string): Result<Option<Secret>, UriError> {
    match lib.decode(text)
    case None => Err(BadKey)
    case Some(bytes) => if |bytes| != 32 then Err(KeyLength) else Ok(Some(bytes))
  }

  predicate IsUnspecified(host: string) {
    host == "" || host == "0.0.0.0" || host == "::"
  }

  function Assembled(id: Id, key: Option<Secret>, hostport: string): Result<GroupUri, UriError> {
    match SplitHostPort(hostport)
    case Err(e) => Err(e)
    case Ok((host, port)) => if IsUnspecified(host) then Err(Unspecified(host)) else Ok(GroupUri(id, key, host, port))
  }

  function ParseCreds(lib: Lib, creds: string): Result<(Id, Option<Secret>), UriError> {
    var colon := FirstIndex(creds, ':');
    match if colon == |creds| then Ok(None) else ParseKey(lib, creds[colon + 1..])
    case Err(e) => Err(e)
    case Ok(key) =>
      match GroupId(creds[..colon])
      case Err(e) => Err(e)
      case Ok(id) => Ok((id, key))
  }

  function ParseGroupUri(lib: Lib, raw: string): Result<GroupUri, UriError> {
    var s := Stripped(raw);
    if !(Scheme() <= s) then Err(NotZsync) else
    var rest := s[8..];
    var at := LastIndex(rest, '@');
    if at == |rest| then Err(NoHost) else
    match ParseCreds(lib, rest[..at])
    case Err(e) => Err(e)
    case Ok((id, key)) => Assembled(id, key, rest[at + 1..])
  }

  // Round trips.

  /** Nothing the parser drops or cuts at. */
  ghost predicate Clean(s: string) {
    forall c :: c in s ==> !IsWhitespace(c) && c != '@'
  }

  /** Hosts that survive: clean, specified, and readable as they are printed. */
  ghost predicate GoodHost(lib: Lib, host: string) {
    && Clean(host)
    && !IsUnspecified(host)
    && (lib.isIpv6(host) || (':' !in host && !("[" <= host)))
  }

  lemma CleanCreds(lib: Lib, g: GroupUri)
    requires LibLaw(lib)
    ensures Clean(Scheme()) && Clean(Creds(lib, g))
    ensures forall c :: c in Hex(g.groupId) ==> IsHexDigit(c) && c != ':' && !IsWhitespace(c)
  {
    HexRoundTrip(g.groupId);
    hide Hex;
    assert forall c :: IsHexDigit(c) ==> c != ':' && c != '@' && !IsWhitespace(c);
    assert forall c :: InAlphabet(c) ==> c != '@' && !IsWhitespace(c);
  }

  lemma CleanHostPort(bracketed: bool, host: string, port: u16)
    requires Clean(host)
    ensures Clean(HostPort(bracketed, host, port))
  {
    assert forall c :: IsDigit(c) ==> !IsWhitespace(c) && c != '@';
  }

  lemma IdReadsBack(id: Id)
    ensures GroupId(Hex(id)) == Ok(id) && ':' !in Hex(id)
  {
    HexRoundTrip(id);
    assert forall c :: IsHexDigit(c) ==> c != ':' && !IsWhitespace(c);
    TrimmedIs(Hex(id));
    hide Hex, FromHex, IsHexDigit, IsWhitespace, Trimmed;
  }

  lemma CredsReadBack(lib: Lib, g: GroupUri)
    requires LibLaw(lib)
    ensures ParseCreds(lib, Creds(lib, g)) == Ok((g.groupId, g.key))
  {
    var creds, hex := Creds(lib, g), Hex(g.groupId);
    IdReadsBack(g.groupId);
    hide Hex, GroupId, FirstIndex;
    if g.key.Some? {
      FirstIndexIs(hex, ':', lib.encode(g.key.value));
      assert creds == hex + ":" + lib.encode(g.key.value);
      assert creds[..32] == hex && creds[33..] == lib.encode(g.key.value);
    } else {
      assert creds == hex && creds[..32] == creds;
    }
  }

  /** A URI with these credentials before a clean host and port: they come back, and the rest is up to the latter. */
  lemma ParseOfParts(lib: Lib, g: GroupUri, hostport: string)
    requires LibLaw(lib) && Clean(hostport)
    ensures var s := Scheme() + Creds(lib, g) + "@" + hostport;
            && Stripped(s) == s && Scheme() <= s
            && ParseGroupUri(lib, s) == Assembled(g.groupId, g.key, hostport)
  {
    CleanCreds(lib, g);
    CredsReadBack(lib, g);
    hide HostPort, Assembled, Creds, ParseCreds, Scheme, Clean, Stripped, LastIndex;
    NothingIsStripped(Scheme(), Creds(lib, g), hostport);
    PartsAre(Scheme(), Creds(lib, g), hostport);
  }

  lemma ParseOfPrinted(lib: Lib, g: GroupUri)
    requires LibLaw(lib) && Clean(g.host)
    ensures var hostport := HostPort(lib.isIpv6(g.host), g.host, g.port);
            ParseGroupUri(lib, Printed(lib, g)) == Assembled(g.groupId, g.key, hostport)
  {
    CleanHostPort(lib.isIpv6(g.host), g.host, g.port);
    hide HostPort, Assembled, Creds, ParseGroupUri, Scheme, Clean;
    ParseOfParts(lib, g, HostPort(lib.isIpv6(g.host), g.host, g.port));
  }

  lemma NothingIsStripped(scheme: string, creds: string, hostport: string)
    requires Clean(scheme) && Clean(creds) && Clean(hostport)
    ensures Stripped(scheme + creds + "@" + hostport) == scheme + creds + "@" + hostport
    ensures '@' !in hostport
  {
    assert !IsWhitespace('@');
    hide IsWhitespace, Stripped;
    StrippedIs(scheme + creds + "@" + hostport);
  }

  lemma PartsAre(scheme: string, creds: string, hostport: string)
    requires '@' !in hostport
    ensures var s := scheme + creds + "@" + hostport;
            var rest := s[|scheme|..];
            && scheme <= s && LastIndex(rest, '@') == |creds| < |rest|
            && rest[..|creds|] == creds && rest[|creds| + 1..] == hostport
  {
    hide LastIndex;
    LastIndexIs(creds, '@', hostport);
    assert (scheme + creds + "@" + hostport)[|scheme|..] == creds + "@" + hostport;
  }

  lemma PrintedIsStripped(lib: Lib, g: GroupUri)
    requires LibLaw(lib) && Clean(g.host)
    ensures Stripped(Printed(lib, g)) == Printed(lib, g) && Scheme() <= Printed(lib, g)
  {
    CleanHostPort(lib.isIpv6(g.host), g.host, g.port);
    hide HostPort, Creds, Scheme, Clean, Stripped;
    ParseOfParts(lib, g, HostPort(lib.isIpv6(g.host), g.host, g.port));
  }

  lemma SplitHostIsPart(s: string)
    requires SplitHostPort(s).Ok?
    ensures forall c :: c in SplitHostPort(s).value.0 ==> c in s
  {
    hide ParsePort;
  }

  /** A parsed host has no white space and no '@', and is specified. */
  lemma ParsedHostIsClean(lib: Lib, raw: string)
    requires ParseGroupUri(lib, raw).Ok?
    ensures var host := ParseGroupUri(lib, raw).value.host;
            Clean(host) && !IsUnspecified(host)
  {
    hide ParseCreds, SplitHostPort, IsWhitespace, Stripped, LastIndex, Scheme;
    var rest := Stripped(raw)[8..];
    var hostport := rest[LastIndex(rest, '@') + 1..];
    SplitHostIsPart(hostport);
    assert forall c :: c in hostport ==> c in rest && c in Stripped(raw);
  }

  /** What is printed for a group, with a key or without, parses back to it exactly for good hosts. */
  lemma PrintedReadsBack(lib: Lib, g: GroupUri)
    requires LibLaw(lib)
    ensures ParseGroupUri(lib, Printed(lib, g)) == Ok(g) <==> GoodHost(lib, g.host)
  {
    var bracketed := lib.isIpv6(g.host);
    hide SplitHostPort, ParseGroupUri, Printed, HostPort, IsWhitespace, Clean, IsUnspecified;
    if Clean(g.host) {
      ParseOfPrinted(lib, g);
      HostPortReadsBack(bracketed, g.host, g.port);
      assert !IsHexDigit(']');
    } else if ParseGroupUri(lib, Printed(lib, g)).Ok? {
      ParsedHostIsClean(lib, Printed(lib, g));
    }
  }

  /**
   * The full URI parses back to the group, and the redacted one to the group without its key, exactly
   * for good hosts.
   */
  lemma UriRoundTrip(lib: Lib, g: GroupUri)
    requires LibLaw(lib) && g.key.Some?
    ensures ToUri(lib, g).Ok? && (ParseGroupUri(lib, ToUri(lib, g).value) == Ok(g) <==> GoodHost(lib, g.host))
    ensures ParseGroupUri(lib, RedactedUri(lib, g)) == Ok(g.(key := None)) <==> GoodHost(lib, g.host)
  {
    hide ParseGroupUri, Printed, GoodHost;
    PrintedReadsBack(lib, g);
    PrintedReadsBack(lib, g.(key := None));
  }

  // Every outcome.

  lemma LaterErrors(lib: Lib, creds: string, id: Id, key: Option<Secret>, hostport: string)
    ensures ParseCreds(lib, creds).Err? ==> ParseCreds(lib, creds).error in {BadKey, KeyLength, BadGroupId}
    ensures Assembled(id, key, hostport).Err? ==> !Assembled(id, key, hostport).error.NotZsync?
    ensures Assembled(id, key, hostport).Err? ==> !Assembled(id, key, hostport).error.NoHost?
  {
    hide FirstIndex, LastIndex, ParsePort, Trimmed, FromHex;
  }

  /** What is not a URI of this kind, or has no '@'. */
  lemma RefusedUris(lib: Lib, raw: string)
    ensures ParseGroupUri(lib, raw) == Err(NotZsync) <==> !("zsync://" <= Stripped(raw))
    ensures ParseGroupUri(lib, raw) == Err(NoHost) <==> "zsync://" <= Stripped(raw) && '@' !in Stripped(raw)[8..]
  {
    var s := Stripped(raw);
    hide Stripped, ParseCreds, Assembled, LastIndex;
    if "zsync://" <= s && '@' in s[8..] {
      var rest := s[8..];
      var at := LastIndex(rest, '@');
      var r := ParseCreds(lib, rest[..at]);
      if r.Ok? {
        LaterErrors(lib, rest[..at], r.value.0, r.value.1, rest[at + 1..]);
      } else {
        var any: Id := seq(16, _ => 0);
        LaterErrors(lib, rest[..at], any, None, "");
      }
    }
  }

  predicate IsId(s: string) {
    |s| == 32 && forall c :: c in s ==> IsHexDigit(c)
  }

  lemma CredsInParts(lib: Lib, id: string, key: Option<string>)
    requires forall c :: c in id ==> !IsWhitespace(c) && c != ':'
    ensures ParseCreds(lib, id + if key.Some? then ":" + key.value else "") ==
              var secret := if key.Some? then lib.decode(key.value) else None;
              if key.Some? && secret.None? then Err(BadKey)
              else if key.Some? && |secret.value| != 32 then Err(KeyLength)
              else if !IsId(id) then Err(BadGroupId)
              else Ok((FromHex(id), if key.Some? then Some(secret.value) else None))
  {
    var creds := id + if key.Some? then ":" + key.value else "";
    TrimmedIs(id);
    hide IsWhitespace, Trimmed, FromHex, IsHexDigit, FirstIndex;
    if key.Some? {
      FirstIndexIs(id, ':', key.value);
      assert creds == id + ":" + key.value;
      assert creds[..|id|] == id && creds[|id| + 1..] == key.value;
    } else {
      assert creds == id && creds[..|id|] == id;
    }
  }

  /**
   * A URI in its parts: an error in the key is found first, then one in the id, then one in the host and
   * port; and otherwise each part is what it says.
   */
  lemma UriInParts(lib: Lib, raw: string, id: string, key: Option<string>, hostport: string)
    requires ':' !in id && '@' !in hostport
    requires Stripped(raw) == "zsync://" + (id + if key.Some? then ":" + key.value else "") + "@" + hostport
    ensures ParseGroupUri(lib, raw) ==
              var secret := if key.Some? then lib.decode(key.value) else None;
              var address := SplitHostPort(hostport);
              if key.Some? && secret.None? then Err(BadKey)
              else if key.Some? && |secret.value| != 32 then Err(KeyLength)
              else if !IsId(id) then Err(BadGroupId)
              else if address.Err? then Err(address.error)
              else if address.value.0 in {"", "0.0.0.0", "::"} then Err(Unspecified(address.value.0))
              else Ok(GroupUri(FromHex(id), if key.Some? then Some(secret.value) else None,
                               address.value.0, address.value.1))
  {
    var creds := id + if key.Some? then ":" + key.value else "";
    assert forall c :: c in id ==> c in Stripped(raw);
    hide Stripped, IsWhitespace, SplitHostPort, FromHex, IsHexDigit, ParseCreds, LastIndex, IsId, IsUnspecified,
         ParseGroupUri;
    CredsInParts(lib, id, key);
    CredsAndHost(lib, raw, creds, hostport);
    if SplitHostPort(hostport).Ok? {
      UnspecifiedHosts(SplitHostPort(hostport).value.0);
    }
  }

  lemma CredsAndHost(lib: Lib, raw: string, creds: string, hostport: string)
    requires '@' !in hostport && Stripped(raw) == "zsync://" + creds + "@" + hostport
    ensures ParseGroupUri(lib, raw) ==
              match ParseCreds(lib, creds)
              case Err(e) => Err(e)
              case Ok((id, key)) => Assembled(id, key, hostport)
  {
    hide Stripped, ParseCreds, Assembled, LastIndex;
    PartsAre("zsync://", creds, hostport);
  }

  lemma UnspecifiedHosts(host: string)
    ensures IsUnspecified(host) <==> host in {"", "0.0.0.0", "::"}
  {
  }
}
