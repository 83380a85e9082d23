/** Peer addresses as the user types them, and the canonical form kept in `state.json` (src/net.rs). */
module Peers {
  import opened Basics
  import opened Text
  import opened GroupUris

  datatype RelayPeer = RelayPeer(groupId: Id, key: Option<Secret>)

  datatype PeerTarget = PeerTarget(uri: string, host: string, port: u16, relay: Option<RelayPeer>)

  datatype PeerError = Empty | NoSsh | NoIroh | MissingHost | BadAddress(error: UriError)

  /** Unlike in src/group.rs, any host with a colon is put in brackets. */
  function Canonical(host: string, port: u16): string {
    HostPort(':' in host, host, port)
  }

  function PeerFromGroup(lib: Lib, g: GroupUri): PeerTarget {
    PeerTarget(RedactedUri(lib, g), g.host, g.port, Some(RelayPeer(g.groupId, g.key)))
  }

  function ParseTcp(s: string): Result<PeerTarget, PeerError> {
    match SplitHostPort(s)
    case Err(e) => Err(BadAddress(e))
    case Ok((host, port)) =>
      if host == "" then Err(MissingHost) else Ok(PeerTarget(Canonical(host, port), host, port, None))
  }

  function ParseStripped(lib: Lib, s: string): Result<PeerTarget, PeerError> {
    if s == "" then Err(Empty)
    else if "ssh://" <= s then Err(NoSsh)
    else if "iroh://" <= s || "endpoint" <= s then Err(NoIroh)
    else if Scheme() <= s then
      match ParseGroupUri(lib, s)
      case Err(e) => Err(BadAddress(e))
      case Ok(g) => Ok(PeerFromGroup(lib, g))
    else ParseTcp(if "tcp://" <= s then s[6..] else s)
  }

  function ParsePeer(lib: Lib, raw: string): Result<PeerTarget, PeerError> {
    ParseStripped(lib, Stripped(raw))
  }

  // The canonical form read again.

  lemma SplitsOnce(a: string, x: string, b: string, y: string)
    requires a + ":" + x == b + ":" + y && ':' !in a && ':' !in b
    ensures x == y
  {
    FirstIndexIs(a, ':', x);
    FirstIndexIs(b, ':', y);
    assert (a + ":" + x)[|a| + 1..] == x && (b + ":" + y)[|b| + 1..] == y;
  }

  lemma NoScheme(name: string, host: string, port: u16)
    requires ':' !in host && ':' !in name
    ensures !(name + "://" <= HostPort(false, host, port))
  {
    var s := HostPort(false, host, port);
    assert Decimal(port)[0] in Decimal(port);
    assert Decimal(port)[0] != '/';
    if name + "://" <= s {
      var tail := s[|name| + 3..];
      assert s == name + ":" + ("//" + tail);
      SplitsOnce(name, "//" + tail, host, Decimal(port));
      assert false;
    }
  }

  lemma PrefixBeforeColon(prefix: string, host: string, tail: string)
    requires ':' !in prefix
    ensures prefix <= host + ":" + tail <==> prefix <= host
  {
    var s := host + ":" + tail;
    assert s[|host|] == ':' && s[..|host|] == host;
    if |host| < |prefix| {
      assert prefix[|host|] in prefix;
    }
  }

  /** A canonical TCP address is not mistaken for anything else, unless its host starts with "endpoint". */
  lemma CanonicalIsTcp(lib: Lib, host: string, port: u16)
    requires host != ""
    ensures ParseStripped(lib, Canonical(host, port)) ==
              if ':' !in host && "endpoint" <= host then Err(NoIroh) else ParseTcp(Canonical(host, port))
  {
    var s := Canonical(host, port);
    assert "ssh" + "://" == "ssh://" && "iroh" + "://" == "iroh://";
    assert "tcp" + "://" == "tcp://" && "zsync" + "://" == Scheme();
    hide ParseTcp;
    if ':' in host {
      assert s[0] == '[';
    } else {
      PrefixBeforeColon("endpoint", host, Decimal(port));
      NoScheme("ssh", host, port);
      NoScheme("iroh", host, port);
      NoScheme("tcp", host, port);
      NoScheme("zsync", host, port);
    }
  }

  lemma NothingIsStripped(host: string, port: u16)
    requires forall c :: c in host ==> !IsWhitespace(c)
    ensures Stripped(Canonical(host, port)) == Canonical(host, port)
  {
    assert forall c :: IsDigit(c) ==> !IsWhitespace(c);
    assert !IsWhitespace(':') && !IsWhitespace('[') && !IsWhitespace(']');
    hide IsWhitespace, IsDigit;
    StrippedIs(Canonical(host, port));
  }

  lemma ParsedTcpIs(lib: Lib, raw: string, t: PeerTarget)
    requires ParsePeer(lib, raw) == Ok(t) && t.relay.None?
    ensures t.host != "" && t == PeerTarget(Canonical(t.host, t.port), t.host, t.port, None)
    ensures forall c :: c in t.host ==> !IsWhitespace(c)
  {
    hide SplitHostPort, ParseGroupUri, Stripped, IsWhitespace, Scheme, RedactedUri;
    var s := Stripped(raw);
    var rest := if "tcp://" <= s then s[6..] else s;
    assert ParseTcp(rest) == Ok(t);
    SplitHostIsPart(rest);
    assert forall c :: c in rest ==> c in s;
  }

  /**
   * For every input that names a TCP peer, its canonical address names the same peer, exactly when
   * the host has no ']' if it has a colon, and otherwise starts neither with '[' nor with "endpoint".
   */
  lemma CanonicalTcpIsFixed(lib: Lib, raw: string, t: PeerTarget)
    requires ParsePeer(lib, raw) == Ok(t) && t.relay.None?
    ensures ParsePeer(lib, t.uri) == Ok(t) <==>
              if ':' in t.host then ']' !in t.host else !("[" <= t.host) && !("endpoint" <= t.host)
  {
    ParsedTcpIs(lib, raw, t);
    NothingIsStripped(t.host, t.port);
    CanonicalIsTcp(lib, t.host, t.port);
    HostPortReadsBack(':' in t.host, t.host, t.port);
    hide ParseStripped, SplitHostPort, Stripped, HostPort;
  }

  lemma TcpPrefixIsDropped(lib: Lib, s: string)
    requires forall c :: c in s ==> !IsWhitespace(c)
    ensures ParsePeer(lib, "tcp://" + s) == ParseTcp(s)
  {
    var raw := "tcp://" + s;
    assert forall c :: c in "tcp://" ==> !IsWhitespace(c);
    hide ParseTcp, ParseGroupUri, IsWhitespace, Stripped;
    StrippedIs(raw);
    assert raw[0] == 't' && raw[6..] == s;
  }

  /** Such as "tcp://endpoint:80": accepted, and kept as "endpoint:80", which is then refused. */
  lemma EndpointHostsAreLost(lib: Lib, host: string, port: u16)
    requires "endpoint" <= host && ':' !in host && forall c :: c in host ==> !IsWhitespace(c)
    ensures ParsePeer(lib, "tcp://" + Canonical(host, port)) == Ok(PeerTarget(Canonical(host, port), host, port, None))
    ensures ParsePeer(lib, Canonical(host, port)) == Err(NoIroh)
  {
    assert host[0] == 'e';
    NothingIsStripped(host, port);
    CanonicalIsTcp(lib, host, port);
    HostPortReadsBack(false, host, port);
    hide SplitHostPort, Stripped, HostPort, IsWhitespace, ParseStripped;
    StrippedIs(Canonical(host, port));
    TcpPrefixIsDropped(lib, Canonical(host, port));
  }

  lemma ParsedRelayIs(lib: Lib, raw: string, t: PeerTarget) returns (g: GroupUri)
    requires ParsePeer(lib, raw) == Ok(t) && t.relay.Some?
    ensures ParseGroupUri(lib, Stripped(raw)) == Ok(g) && t == PeerFromGroup(lib, g)
  {
    hide SplitHostPort, ParseGroupUri, Stripped, Scheme, RedactedUri;
    g := ParseGroupUri(lib, Stripped(raw)).value;
  }

  lemma ZsyncIsParsed(lib: Lib, s: string)
    requires Scheme() <= s
    ensures ParseStripped(lib, s) ==
              match ParseGroupUri(lib, s) case Err(e) => Err(BadAddress(e)) case Ok(g) => Ok(PeerFromGroup(lib, g))
  {
    hide ParseGroupUri, PeerFromGroup;
    assert s[0] == 'z';
  }

  /**
   * For every input that names a relay, the canonical URI names the same group and relay, without
   * the key, exactly when the host is an IPv6 literal or has no colon and does not start with '['.
   */
  lemma CanonicalRelayIsFixed(lib: Lib, raw: string, t: PeerTarget)
    requires LibLaw(lib) && ParsePeer(lib, raw) == Ok(t) && t.relay.Some?
    ensures ParsePeer(lib, t.uri) == Ok(t.(relay := Some(t.relay.value.(key := None)))) <==>
              lib.isIpv6(t.host) || (':' !in t.host && !("[" <= t.host))
  {
    var g := ParsedRelayIs(lib, raw, t);
    ParsedHostIsClean(lib, Stripped(raw));
    var redacted := g.(key := None);
    PrintedReadsBack(lib, redacted);
    PrintedIsStripped(lib, redacted);
    ZsyncIsParsed(lib, t.uri);
    hide ParseGroupUri, Stripped, Clean, ParseStripped, Printed, IsUnspecified;
  }

  /**
   * Such as "zsync://", a group id and "@a:b:c": the host is "a:b:c", printed without brackets, and what
   * is stored names the host "a:b:c:43721" when it is read again.
   */
  lemma ColonHostsAreLost(lib: Lib, id: Id, a: string, b: string, c: string)
    requires var host := a + ":" + b + ":" + c;
             LibLaw(lib) && Clean(host) && !("[" <= a) && ':' !in c && !IsUnspecified(host) && !lib.isIpv6(host)
    ensures var host, longer := a + ":" + b + ":" + c, a + ":" + b + ":" + c + ":" + Decimal(DEFAULT_PORT);
            var t := PeerFromGroup(lib, GroupUri(id, None, host, DEFAULT_PORT));
            && ParsePeer(lib, Scheme() + Hex(id) + "@" + host) == Ok(t)
            && ParsePeer(lib, t.uri) == Ok(PeerFromGroup(lib, GroupUri(id, None, longer, DEFAULT_PORT)))
  {
    var host := a + ":" + b + ":" + c;
    var longer := host + ":" + Decimal(DEFAULT_PORT);
    var g := GroupUri(id, None, host, DEFAULT_PORT);
    BareAddressAlone(a, b, c);
    BareWithPortAlone(a, b, c);
    CleanHostPort(false, host, DEFAULT_PORT);
    assert Creds(lib, g) == Hex(id);
    assert !IsUnspecified(longer) by {
      LongerIsSpecified(host);
    }
    hide Hex, Clean, Decimal, SplitHostPort, IsUnspecified, Scheme, ParseGroupUri, Stripped, PeerFromGroup,
         ParseStripped;
    ParseOfParts(lib, g, host);
    ParseOfParts(lib, g, longer);
    ZsyncIsParsed(lib, Scheme() + Hex(id) + "@" + host);
    ZsyncIsParsed(lib, Scheme() + Hex(id) + "@" + longer);
    assert RedactedUri(lib, g) == Scheme() + Hex(id) + "@" + longer;
    RedactedIsUri(lib, g);
  }

  lemma RedactedIsUri(lib: Lib, g: GroupUri)
    ensures PeerFromGroup(lib, g).uri == RedactedUri(lib, g)
  {
  }

  lemma LongerIsSpecified(host: string)
    ensures !IsUnspecified(host + ":" + Decimal(DEFAULT_PORT))
  {
    var s := host + ":" + Decimal(DEFAULT_PORT);
    assert s[|s| - 1] == Decimal(DEFAULT_PORT)[|Decimal(DEFAULT_PORT)| - 1] && s[|host|] == ':';
    assert Decimal(DEFAULT_PORT)[|Decimal(DEFAULT_PORT)| - 1] in Decimal(DEFAULT_PORT) && !IsDigit(':');
  }

  lemma BareWithPortAlone(a: string, b: string, c: string)
    requires !("[" <= a)
    ensures var longer := a + ":" + b + ":" + c + ":" + Decimal(DEFAULT_PORT);
            SplitHostPort(longer) == Ok((longer, DEFAULT_PORT))
  {
    var front := a + ":" + b;
    assert !IsDigit(':') && front[0] == if a == "" then ':' else a[0];
    hide SplitHostPort, Decimal;
    BareAddressAlone(front, c, Decimal(DEFAULT_PORT));
  }

  // What is read from what is typed.

  /**
   * An imported URI gives its group, key, host and port, and is stored without the key.
   */
  lemma ImportedKeyIsKept(lib: Lib, g: GroupUri)
    requires LibLaw(lib) && g.key.Some? && GoodHost(lib, g.host)
    ensures ToUri(lib, g).Ok? && ParsePeer(lib, ToUri(lib, g).value).Ok?
    ensures var t := ParsePeer(lib, ToUri(lib, g).value).value;
            && t.relay.Some? && t.relay.value.groupId == g.groupId && t.relay.value.key == g.key
            && t.host == g.host && t.port == g.port && t.uri == RedactedUri(lib, g)
  {
    PrintedReadsBack(lib, g);
    PrintedIsStripped(lib, g);
    ZsyncIsParsed(lib, Printed(lib, g));
    hide ParseGroupUri, Stripped, Clean, ParseStripped, Printed, IsUnspecified, Scheme, HostPort;
  }

  /** White space in an address does not matter, wherever it stands. */
  lemma BlanksDoNotMatter(lib: Lib, a: string, blank: string, b: string)
    requires Blank(blank)
    ensures ParsePeer(lib, a + blank + b) == ParsePeer(lib, a + b)
  {
    BlanksAreDropped(a, blank, b);
    hide Stripped, ParseStripped;
  }

  lemma FirstDiffers(start: string, s: string)
    requires start != "" && s != "" && start[0] != s[0]
    ensures !(start <= s)
  {
  }

  /** What is refused for what it starts with, or for being nothing but white space. */
  lemma RefusedAddresses(lib: Lib, raw: string)
    ensures ParsePeer(lib, raw) == Err(Empty) <==> Blank(raw)
    ensures ParsePeer(lib, raw) == Err(NoSsh) <==> "ssh://" <= Stripped(raw)
    ensures ParsePeer(lib, raw) == Err(NoIroh) <==> "iroh://" <= Stripped(raw) || "endpoint" <= Stripped(raw)
  {
    BlankIsEmpty(raw);
    var s := Stripped(raw);
    hide Stripped, ParseGroupUri, SplitHostPort, Scheme, Blank;
    if s != "" && s[0] != 's' {
      FirstDiffers("ssh://", s);
    }
  }

  lemma BlankIsEmpty(raw: string)
    ensures Blank(raw) <==> Stripped(raw) == ""
  {
    hide IsWhitespace;
    if Blank(raw) {
      NoneIsKept(raw);
    } else {
      var c :| c in raw && !IsWhitespace(c);
      assert c in Stripped(raw);
    }
  }

  /** The scheme of a TCP address may be left out, unless what is left starts like another one. */
  lemma SchemeIsOptional(lib: Lib, s: string)
    requires s != "" && forall c :: c in s ==> !IsWhitespace(c)
    requires !("ssh://" <= s) && !("iroh://" <= s) && !("endpoint" <= s) && !("zsync://" <= s) && !("tcp://" <= s)
    ensures ParsePeer(lib, s) == ParsePeer(lib, "tcp://" + s)
  {
    StrippedIs(s);
    TcpPrefixIsDropped(lib, s);
    hide Stripped, ParseTcp, IsWhitespace, ParseGroupUri;
  }

  /** An address with its port, in brackets or not, and one without. */
  lemma AddressesAreRead(lib: Lib, bracketed: bool, host: string, port: u16)
    requires host != "" && Readable(bracketed, host) && forall c :: c in host ==> !IsWhitespace(c)
    ensures ParsePeer(lib, "tcp://" + HostPort(bracketed, host, port))
              == Ok(PeerTarget(HostPort(':' in host, host, port), host, port, None))
    ensures ParsePeer(lib, "tcp://" + if bracketed then "[" + host + "]" else host)
              == Ok(PeerTarget(HostPort(':' in host, host, 43721), host, 43721, None))
  {
    var typed, alone := HostPort(bracketed, host, port), if bracketed then "[" + host + "]" else host;
    HostPortReadsBack(bracketed, host, port);
    if bracketed {
      BracketedHostAlone(host);
    } else {
      PlainHostAlone(host);
    }
    assert forall c :: c in typed ==> !IsWhitespace(c) by {
      assert forall c :: IsDigit(c) ==> !IsWhitespace(c);
    }
    assert forall c :: c in alone ==> !IsWhitespace(c);
    hide SplitHostPort, Stripped, HostPort, IsWhitespace, ParsePeer;
    TcpPrefixIsDropped(lib, typed);
    TcpPrefixIsDropped(lib, alone);
  }

  /** A host is needed: ":80" and "[]" are refused. */
  lemma HostIsNeeded(lib: Lib, port: u16)
    ensures ParsePeer(lib, "tcp://" + (":" + Decimal(port))) == Err(MissingHost)
    ensures ParsePeer(lib, "tcp://" + "[]") == Err(MissingHost)
  {
    HostPortReadsBack(false, "", port);
    BracketedHostAlone("");
    assert HostPort(false, "", port) == ":" + Decimal(port) && "[" + "" + "]" == "[]";
    hide HostPort, SplitHostPort;
    NoHostIsMissing(lib, ":" + Decimal(port));
    NoHostIsMissing(lib, "[]");
  }

  lemma NoHostIsMissing(lib: Lib, s: string)
    requires SplitHostPort(s).Ok? && SplitHostPort(s).value.0 == ""
    requires forall c :: c in s ==> c in "[]:" || IsDigit(c)
    ensures ParsePeer(lib, "tcp://" + s) == Err(MissingHost)
  {
    assert forall c :: c in "[]:" || IsDigit(c) ==> !IsWhitespace(c);
    hide SplitHostPort, Stripped, IsDigit, IsWhitespace, ParsePeer;
    TcpPrefixIsDropped(lib, s);
  }
}
