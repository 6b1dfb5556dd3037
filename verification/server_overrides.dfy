/**
 * The server overrides of a network: how entries are validated, what a settings file keeps of them
 * and what is read back from it. The URL parser is a parameter.
 */
module ServerOverrides {
  import opened Decimals
  import opened Endpoints
  import opened RustStrings
  import opened Wrappers

  datatype Kind = Electrum | Peer | Explorer

  /** One network's overrides; None means the network's default. */
  datatype Servers = Servers(electrum: Option<string>, peer: Option<string>, explorer: Option<string>) {
    function With(kind: Kind, entry: Option<string>): Servers {
      match kind
      case Electrum => this.(electrum := entry)
      case Peer => this.(peer := entry)
      case Explorer => this.(explorer := entry)
    }
  }

  const DEFAULTS: Servers := Servers(None, None, None)

  // ---------------------------------------------------------------- validation

  /** What an entry is kept as. */
  datatype Verdict = Refused | Blank | Canonical(entry: string)

  const HTTPS: string := "https://"

  /** `validate_explorer` */
  function ValidExplorer(entry: string): Option<string> {
    var trimmed := TrimEndOf(Trim(entry), '/');
    if HTTPS <= trimmed && |trimmed| > |HTTPS| && trimmed[|HTTPS|] != '/' then Some(trimmed) else None
  }

  /** The endpoint an entry names, for the kinds that are endpoints. */
  function Parsed(kind: Kind, entry: string): Option<Endpoint> {
    if kind == Electrum then ParseElectrum(entry) else ParsePeer(entry)
  }

  function DefaultPort(kind: Kind): nat {
    if kind == Electrum then ELECTRUM_PORT else PEER_PORT
  }

  function Validated(kind: Kind, raw: string): Verdict {
    var entry := Trim(raw);
    if entry == "" then Blank
    else if kind == Explorer then
      if ValidExplorer(entry).None? then Refused else Canonical(ValidExplorer(entry).value)
    else
      match Parsed(kind, entry)
      case None => Refused
      case Some(e) => Canonical(Text(e.host, e.port))
  }

  /** `ServerOverrides::set` on one network: a blank entry clears the override. */
  function Placed(servers: Servers, kind: Kind, entry: string): Option<Servers> {
    match Validated(kind, entry)
    case Refused => None
    case Blank => Some(servers.With(kind, None))
    case Canonical(canonical) => Some(servers.With(kind, Some(canonical)))
  }

  function PlacedIfAny(servers: Option<Servers>, kind: Kind, entry: Option<string>): Option<Servers> {
    if servers.None? || entry.None? then servers else Placed(servers.value, kind, entry.value)
  }

  /** Every entry that is set, validated and placed on top of `base`; None if one is refused. */
  function PlacedAll(base: Servers, entries: Servers): Option<Servers> {
    PlacedIfAny(PlacedIfAny(PlacedIfAny(Some(base), Electrum, entries.electrum), Peer, entries.peer),
                Explorer, entries.explorer)
  }

  // ---------------------------------------------------------------- what a file keeps

  datatype WebOrigin = WebOrigin(host: string, port: Option<nat>)

  /** Host and port of an HTTPS URL that is nothing but an origin; None for any other text. */
  type UrlParser = string -> Option<WebOrigin>

  /** The endpoints a file keeps: the sources they are grouped in hold exactly these. */
  datatype Stored = Stored(electrum: Option<Endpoint>, peer: Option<Endpoint>, explorer: Option<WebOrigin>)

  predicate StorableHost(host: string) {
    Trim(host) != "" && HasNoneOf(Trim(host), "/\\@?#") && forall i :: 0 <= i < |Trim(host)| ==> !IsSpace(Trim(host)[i])
  }

  /** What the codec accepts, when it checks what is about to be written and when it reads. */
  predicate Loads(stored: Stored) {
    && (stored.electrum.Some? ==> StorableHost(stored.electrum.value.host) && stored.electrum.value.port > 0)
    && (stored.peer.Some? ==> StorableHost(stored.peer.value.host) && stored.peer.value.port > 0)
    && (stored.explorer.Some? ==> StorableHost(stored.explorer.value.host) && stored.explorer.value.port != Some(0))
  }

  /** An entry that does not parse is not written, and that is no failure. */
  function ParsedIfAny(kind: Kind, entry: Option<string>): Option<Endpoint> {
    if entry.None? then None else Parsed(kind, entry.value)
  }

  /** `envelope_from_state`: what is written of the servers; None if the save fails. */
  function Envelope(url: UrlParser, servers: Servers): Option<Stored> {
    var origin := if servers.explorer.None? then None else url(servers.explorer.value);
    var stored := Stored(ParsedIfAny(Electrum, servers.electrum), ParsedIfAny(Peer, servers.peer), origin);
    if (servers.explorer.Some? && origin.None?) || !Loads(stored) then None else Some(stored)
  }

  // ---------------------------------------------------------------- what is read back

  /** A host that holds a colon gets brackets, unless it starts with one. */
  function Bracketed(host: string): string {
    if ':' in host && host[0] != '[' then "[" + host + "]" else host
  }

  /** `host_port_optional` */
  function HostPort(host: string, port: Option<nat>): Option<string> {
    var h := Trim(host);
    if h == "" || !HasNoneOf(h, NOT_IN_HOST) then None
    else Some(if port.Some? then Text(Bracketed(h), port.value) else Bracketed(h))
  }

  /** `set_once`: what is read is validated like a typed entry. */
  function ReadEntry(kind: Kind, text: Option<string>): Option<string> {
    if text.Some? && Validated(kind, text.value).Canonical? then Some(Validated(kind, text.value).entry) else None
  }

  function ReadEndpoint(kind: Kind, e: Endpoint): Option<string> {
    if e.kind == ElectrumTcp then None
    else
      var host := HostPort(e.host, None);
      ReadEntry(kind, if host.None? then None else Some(Text(host.value, e.port)))
  }

  function ReadOrigin(o: WebOrigin): Option<string> {
    var text := HostPort(o.host, o.port);
    ReadEntry(Explorer, if text.None? then None else Some(HTTPS + text.value))
  }

  /** `legacy_network_servers_from_overlay`; None if an entry cannot be represented. */
  function ReadBack(stored: Stored): Option<Servers> {
    var electrum := if stored.electrum.None? then None else ReadEndpoint(Electrum, stored.electrum.value);
    var peer := if stored.peer.None? then None else ReadEndpoint(Peer, stored.peer.value);
    var explorer := if stored.explorer.None? then None else ReadOrigin(stored.explorer.value);
    if || (stored.electrum.Some? && electrum.None?) || (stored.peer.Some? && peer.None?)
       || (stored.explorer.Some? && explorer.None?)
    then None
    else Some(Servers(electrum, peer, explorer))
  }

  /** A host that a file may hold: no path, no credential, no query and no white space. */
  lemma StorableHostIff(host: string)
    ensures
      StorableHost(host)
      <==> Trim(host) != ""
           && forall i :: 0 <= i < |Trim(host)| ==>
                Trim(host)[i] !in {'/', '\\', '@', '?', '#'} && !IsSpace(Trim(host)[i])
  {
    assert "/\\@?#" == ['/', '\\', '@', '?', '#'];
  }

  /** An Electrum server in plain text, an entry that is refused, or a host that is none: the file is not read back. */
  lemma ReadBackFails(stored: Stored)
    ensures stored.electrum.Some? && stored.electrum.value.kind == ElectrumTcp ==> ReadBack(stored) == None
    ensures
      stored.peer.Some? && (Trim(stored.peer.value.host) == "" || ' ' in Trim(stored.peer.value.host)) ==>
        ReadBack(stored) == None
    ensures
      ReadBack(stored).Some? ==>
        && (stored.electrum.Some? <==> ReadBack(stored).value.electrum.Some?)
        && (stored.peer.Some? <==> ReadBack(stored).value.peer.Some?)
        && (stored.explorer.Some? <==> ReadBack(stored).value.explorer.Some?)
  {
    if stored.peer.Some? && ' ' in Trim(stored.peer.value.host) {
      var h := Trim(stored.peer.value.host);
      var i :| 0 <= i < |h| && h[i] == ' ';
      assert NOT_IN_HOST[5] == ' ';
      assert h[i] in NOT_IN_HOST;
    }
  }

  // ---------------------------------------------------------------- one address, written and read back

  /** Parsed and shown again. */
  function Reparsed(entry: string, defaultPort: nat): Option<string> {
    match ParseAddress(entry, defaultPort)
    case None => None
    case Some(a) => Some(Text(a.host, a.port))
  }

  function ReparsedIfAny(entry: Option<string>, defaultPort: nat): Option<string> {
    if entry.None? then None else Reparsed(entry.value, defaultPort)
  }

  /** Parsed for the file, bracketed when it is read, and validated twice. */
  function AddressComesBackAs(entry: string, defaultPort: nat): Option<string> {
    match ParseAddress(entry, defaultPort)
    case None => None
    case Some(a) => ReparsedIfAny(Reparsed(Text(Bracketed(a.host), a.port), defaultPort), defaultPort)
  }

  /** An entry that is not split grows by the default port. */
  lemma WholeReparses(entry: string, defaultPort: nat)
    requires SplitHostPort(entry).None? && IsTrimmed(entry)
    ensures
      var r := Reparsed(entry, defaultPort);
      && (r.Some? ==> r.value == Text(entry, defaultPort) && |r.value| > |entry|)
      && (r.Some? ==> ParseAddress(entry, defaultPort) == Some(Address(entry, defaultPort)))
      && (r.Some? ==> ValidHost(entry) == Some(entry))
  {
    WholeGrows(entry, defaultPort);
  }

  lemma PlainReparses(a: Address, defaultPort: nat)
    requires IsProper(a) && IsPlain(a.host)
    ensures ParseAddress(Text(a.host, a.port), defaultPort) == Some(a)
    ensures Reparsed(Text(a.host, a.port), defaultPort) == Some(Text(a.host, a.port))
    ensures Bracketed(a.host) == a.host && a.host != ""
  {
    DigitsAreTrimmed(Decimal(a.port));
    SplitsAtItsColon(a.host, Decimal(a.port));
    PortRoundTrip(a.port);
  }

  /** Two entries in a row that are not split: the text grows twice. */
  lemma GrowsTwice(entry: string, defaultPort: nat)
    requires SplitHostPort(entry).None? && IsTrimmed(entry)
    requires SplitHostPort(Text(entry, defaultPort)).None?
    ensures
      var r := ReparsedIfAny(Reparsed(entry, defaultPort), defaultPort);
      r.Some? ==> r.value == Text(Text(entry, defaultPort), defaultPort)
  {
    WholeReparses(entry, defaultPort);
    if Reparsed(entry, defaultPort).Some? {
      ValidHostsAreProper(entry);
      TextShape(entry, defaultPort);
      WholeReparses(Text(entry, defaultPort), defaultPort);
    }
  }

  /** A text with a bracket in it is no port. */
  lemma BracketIsNoPort(raw: string)
    requires ']' in raw
    ensures PortOf(raw).None?
  {
    TrimKeeps(raw, ']');
    var text := Trim(raw);
    var digits := if text[0] == '+' then text[1..] else text;
    assert text == if text[0] == '+' then [text[0]] + digits else digits;
    assert ']' in digits;
  }

  lemma ColonStaysWhole(host: string, port: nat)
    requires ':' in host && host[0] != '['
    ensures SplitHostPort(Text(host, port)).None?
  {
    var i :| 0 <= i < |host| && host[i] == ':';
    TwoColonsStayWhole(Text(host, port), i, |host|);
  }

  /** A colon in the host and no bracket in front: the address is taken for a host, and never comes back. */
  lemma ColonDoesNotComeBack(a: Address, defaultPort: nat)
    requires IsProper(a) && ':' in a.host && a.host[0] != '[' && 0 < defaultPort <= MAX_PORT
    ensures AddressComesBackAs(Text(a.host, a.port), defaultPort) != Some(Text(a.host, a.port))
  {
    var entry := Text(a.host, a.port);
    ValidHostsAreProper(a.host);
    TextShape(a.host, a.port);
    var i :| 0 <= i < |a.host| && a.host[i] == ':';
    assert entry[i] == ':' && entry[|a.host|] == ':';
    TwoColonsStayWhole(entry, i, |a.host|);
    WholeReparses(entry, defaultPort);
    if ParseAddress(entry, defaultPort).Some? {
      assert entry[i] in entry;
      if ']' in entry { InnerBracketDoesNotComeBack(entry, defaultPort); }
      else { BracketedGrows(entry, i, |a.host|, defaultPort); }
    }
  }

  lemma BracketedParses(host: string, port: nat, defaultPort: nat)
    requires ']' !in host && ValidHost(host) == Some(host) && 0 < port <= MAX_PORT
    ensures ParseAddress(Text("[" + host + "]", port), defaultPort) == Some(Address(host, port))
  {
    var d := Decimal(port);
    assert Text("[" + host + "]", port) == "[" + host + "]" + (":" + d);
    BracketsSplit(host, ":" + d);
    assert (":" + d)[1..] == d;
    PortRoundTrip(port);
  }

  /** Brackets around an entry without one are taken off again, and then it grows, if that still is a host. */
  lemma BracketedGrows(entry: string, i: nat, j: nat, defaultPort: nat)
    requires i < j < |entry| && entry[i] == ':' && entry[j] == ':' && entry[0] != '[' && ']' !in entry
    requires ValidHost(entry) == Some(entry) && 0 < defaultPort <= MAX_PORT
    ensures
      var r := ReparsedIfAny(Reparsed(Text("[" + entry + "]", defaultPort), defaultPort), defaultPort);
      && (r.Some? ==> r.value == Text(Text(entry, defaultPort), defaultPort))
      && (r.Some? <==> ByteLength(Text(entry, defaultPort)) <= MAX_HOST_LENGTH)
  {
    var text := Text(entry, defaultPort);
    BracketedParses(entry, defaultPort, defaultPort);
    ValidHostsAreProper(entry);
    TextShape(entry, defaultPort);
    assert text[i] == entry[i] && text[j] == entry[j];
    TwoColonsStayWhole(text, i, j);
    WholeReparses(text, defaultPort);
  }

  /** A bracketed text with something other than a port behind it is never split. */
  lemma BadBracketsGrow(inner: string, tail: string, defaultPort: nat)
    requires ']' !in inner && tail != "" && tail[0] != ':' && !IsSpace(tail[|tail| - 1])
    ensures
      var text := "[" + inner + "]" + tail;
      var r := ReparsedIfAny(Reparsed(text, defaultPort), defaultPort);
      r.Some? ==> |r.value| > |text|
  {
    var text, more := "[" + inner + "]" + tail, tail + ":" + Decimal(defaultPort);
    assert text[0] == '[' && text[|text| - 1] == tail[|tail| - 1];
    BracketsSplit(inner, tail);
    BracketsSplit(inner, more);
    assert Text(text, defaultPort) == "[" + inner + "]" + more;
    GrowsTwice(text, defaultPort);
  }

  /** With a port behind the bracket that holds another bracket, it is refused. */
  lemma BadPortIsRefused(inner: string, port: string, defaultPort: nat)
    requires ']' !in inner && ']' in port
    ensures Reparsed("[" + inner + "]" + (":" + port), defaultPort).None?
  {
    BracketsSplit(inner, ":" + port);
    assert (":" + port)[1..] == port;
    BracketIsNoPort(port);
  }

  lemma InnerTexts(inner: string, after: string, port: nat)
    ensures
      Text("[" + (inner + "]" + after) + "]", port) == "[" + inner + "]" + (after + "]:" + Decimal(port))
    ensures after != "" ==> after + "]:" + Decimal(port) == [after[0]] + (after[1..] + "]:" + Decimal(port))
  {
  }

  /** The brackets around it close too early: what follows is no port, or it stays whole and grows. */
  lemma InnerBracketDoesNotComeBack(entry: string, defaultPort: nat)
    requires ']' in entry && entry[|entry| - 1] != ']'
    ensures
      ReparsedIfAny(Reparsed(Text("[" + entry + "]", defaultPort), defaultPort), defaultPort) != Some(entry)
  {
    var d := Decimal(defaultPort);
    var i := First(entry, ']');
    var inner, after := entry[..i], entry[i + 1..];
    assert entry == inner + "]" + after;
    InnerTexts(inner, after, defaultPort);
    var port := after[1..] + "]:" + d;
    if after[0] == ':' {
      assert port[|after| - 1] == ']';
      BadPortIsRefused(inner, port, defaultPort);
    } else {
      BadBracketsGrow(inner, after + "]:" + d, defaultPort);
    }
  }

  lemma OpenBracketGrows(entry: string, defaultPort: nat)
    requires entry != "" && entry[0] == '[' && ']' !in entry && IsTrimmed(entry)
    ensures AddressComesBackAs(entry, defaultPort) != Some(entry)
  {
    var text := Text(entry, defaultPort);
    OpenBracketStaysWhole(entry);
    WholeReparses(entry, defaultPort);
    DigitsAreTrimmed(Decimal(defaultPort));
    if ParseAddress(entry, defaultPort).Some? {
      ValidHostsAreProper(entry);
      TextShape(entry, defaultPort);
      OpenBracketStaysWhole(text);
      OpenBracketStaysWhole(Text(text, defaultPort));
      GrowsTwice(text, defaultPort);
    }
  }

  lemma BadBracketsStay(inner: string, tail: string, defaultPort: nat)
    requires ']' !in inner && tail != "" && tail[0] != ':' && !IsSpace(tail[|tail| - 1])
    ensures
      var entry := "[" + inner + "]" + tail;
      AddressComesBackAs(entry, defaultPort) != Some(entry)
  {
    var entry, d := "[" + inner + "]" + tail, Decimal(defaultPort);
    var more := tail + ":" + d;
    BracketsSplit(inner, tail);
    assert entry[0] == '[' && entry[|entry| - 1] == tail[|tail| - 1];
    WholeReparses(entry, defaultPort);
    assert Text(entry, defaultPort) == "[" + inner + "]" + more;
    assert more[|more| - 1] == d[|d| - 1];
    BadBracketsGrow(inner, more, defaultPort);
  }

  lemma OpenHostStaysOpen(a: Address, defaultPort: nat)
    requires IsProper(a) && a.host[0] == '[' && ']' !in a.host
    ensures
      var r := ReparsedIfAny(Reparsed(Text(a.host, a.port), defaultPort), defaultPort);
      r.Some? ==> ']' !in r.value
  {
    var text := Text(a.host, a.port);
    ValidHostsAreProper(a.host);
    TextShape(a.host, a.port);
    DigitsAreTrimmed(Decimal(a.port));
    DigitsAreTrimmed(Decimal(defaultPort));
    OpenBracketStaysWhole(text);
    OpenBracketStaysWhole(Text(text, defaultPort));
    GrowsTwice(text, defaultPort);
  }

  lemma BareHostFollows(a: Address, defaultPort: nat)
    requires IsProper(a) && ':' in a.host && a.host[0] != '[' && ']' !in a.host
    ensures
      var r := ReparsedIfAny(Reparsed(Text("[" + a.host + "]", a.port), defaultPort), defaultPort);
      r.Some? ==> r.value != "" && r.value[0] != '['
  {
    ValidHostsAreProper(a.host);
    TextShape(a.host, a.port);
    BracketedParses(a.host, a.port, defaultPort);
    ColonStaysWhole(a.host, a.port);
    WholeReparses(Text(a.host, a.port), defaultPort);
  }

  /** Without a closing bracket in the host, what comes back does not start with a bracket, or never closes it. */
  lemma NoBracketsAppear(a: Address, defaultPort: nat)
    requires IsProper(a) && ']' !in a.host
    ensures
      var r := ReparsedIfAny(Reparsed(Text(Bracketed(a.host), a.port), defaultPort), defaultPort);
      r.Some? ==> r.value != "" && (r.value[0] != '[' || ']' !in r.value)
  {
    if a.host[0] == '[' { OpenHostStaysOpen(a, defaultPort); }
    else if ':' in a.host { BareHostFollows(a, defaultPort); }
    else { PlainReparses(a, defaultPort); }
  }

  /** The brackets around the host come off, and do not come back. */
  lemma BracketsComeOff(inner: string, port: string, entry: string, defaultPort: nat)
    requires ']' !in inner && SplitHostPort(entry) == Some((inner, port))
    requires 0 < defaultPort <= MAX_PORT
    requires entry != "" && entry[0] == '[' && ']' in entry
    ensures AddressComesBackAs(entry, defaultPort) != Some(entry)
  {
    var parsed := ParseAddress(entry, defaultPort);
    if parsed.Some? {
      TrimKeeps(inner, ']');
      ParsesAreProper(entry, defaultPort);
      NoBracketsAppear(parsed.value, defaultPort);
    }
  }

  /** A text that starts with a bracket and holds the other falls apart at the first of those. */
  lemma FallsApart(entry: string) returns (inner: string, tail: string)
    requires entry != "" && entry[0] == '[' && ']' in entry && entry[|entry| - 1] != ']'
    ensures entry == "[" + inner + "]" + tail && ']' !in inner
    ensures tail != "" && tail[|tail| - 1] == entry[|entry| - 1]
  {
    var i := First(entry, ']');
    inner, tail := entry[1..i], entry[i + 1..];
    assert forall k :: 0 <= k < |inner| ==> inner[k] == entry[..i][k + 1];
  }

  /** A bracket in front of the host: it is taken off, or the address stays whole and grows. */
  lemma BracketDoesNotComeBack(a: Address, defaultPort: nat)
    requires IsProper(a) && a.host[0] == '[' && 0 < defaultPort <= MAX_PORT
    ensures AddressComesBackAs(Text(a.host, a.port), defaultPort) != Some(Text(a.host, a.port))
  {
    var entry := Text(a.host, a.port);
    ValidHostsAreProper(a.host);
    TextShape(a.host, a.port);
    if ']' !in entry {
      OpenBracketGrows(entry, defaultPort);
    } else {
      var inner, tail := FallsApart(entry);
      BracketsSplit(inner, tail);
      if tail[0] == ':' {
        BracketsComeOff(inner, tail[1..], entry, defaultPort);
      } else {
        BadBracketsStay(inner, tail, defaultPort);
      }
    }
  }

  /**
   * Whatever the host: a kept address comes back as it was if and only if the host holds no colon and
   * starts with no bracket.
   */
  lemma AddressComesBackIff(a: Address, defaultPort: nat)
    requires IsProper(a) && 0 < defaultPort <= MAX_PORT
    ensures
      AddressComesBackAs(Text(a.host, a.port), defaultPort) == Some(Text(a.host, a.port)) <==> IsPlain(a.host)
  {
    if IsPlain(a.host) { PlainReparses(a, defaultPort); }
    else if a.host[0] == '[' { BracketDoesNotComeBack(a, defaultPort); }
    else { ColonDoesNotComeBack(a, defaultPort); }
  }

  /** A host with colons and no brackets comes back longer by two default ports, while the first still fits. */
  lemma ColonHostGrows(a: Address, defaultPort: nat)
    requires IsProper(a) && ':' in a.host && '[' !in a.host && ']' !in a.host
    requires 0 < defaultPort <= MAX_PORT
    requires ByteLength(Text(a.host, a.port)) <= MAX_HOST_LENGTH
    ensures
      var grown := Text(Text(a.host, a.port), defaultPort);
      AddressComesBackAs(Text(a.host, a.port), defaultPort)
        == if ByteLength(grown) <= MAX_HOST_LENGTH then Some(Text(grown, defaultPort)) else None
  {
    var entry := Text(a.host, a.port);
    ValidHostsAreProper(a.host);
    TextShape(a.host, a.port);
    DigitsAreTrimmed(Decimal(a.port));
    var i :| 0 <= i < |a.host| && a.host[i] == ':';
    assert entry[i] == ':' && entry[i] in entry;
    TwoColonsStayWhole(entry, i, |a.host|);
    WholeReparses(entry, defaultPort);
    BracketedGrows(entry, i, |a.host|, defaultPort);
  }

  // ---------------------------------------------------------------- one entry, saved and restored

  /** What an address entry is live as after a save and a restart; None if it is lost. */
  function RestoredAddress(kind: Kind, entry: string): Option<string> {
    match Parsed(kind, entry)
    case None => None
    case Some(e) => ReadEntry(kind, ReadEndpoint(kind, e))
  }

  /** What a host or an address looks like. */
  predicate IsHostText(text: string) {
    text != "" && IsTrimmed(text) && HasNoneOf(text, NOT_IN_HOST)
  }

  lemma SchemesHaveSlashes(entry: string, scheme: string)
    requires '/' in scheme
    ensures Contains(entry, scheme) || scheme <= entry ==> '/' in entry
  {
    var k :| 0 <= k < |scheme| && scheme[k] == '/';
    if scheme <= entry { assert entry[k] == '/'; }
    if Contains(entry, scheme) {
      var i :| 0 <= i <= |entry| && scheme <= entry[i..];
      assert entry[i + k] == '/';
    }
  }

  /** Without a slash no scheme is found, and both parsers read a host and a port. */
  lemma NoSchemeNoDifference(kind: Kind, entry: string)
    requires kind != Explorer && IsHostText(entry)
    ensures
      var a, e := ParseAddress(entry, DefaultPort(kind)), Parsed(kind, entry);
      && (a.None? <==> e.None?)
      && (a.Some? ==> e.value == Endpoint(if kind == Electrum then ElectrumTls else BchP2p, a.value.host, a.value.port))
      && Validated(kind, entry) == if a.None? then Refused else Canonical(Text(a.value.host, a.value.port))
  {
    TrimOfTrimmed(entry);
    assert NOT_IN_HOST[0] == '/' && WSS[4] == '/' && WS[3] == '/' && SCHEME_END[1] == '/';
    SchemesHaveSlashes(entry, WSS);
    SchemesHaveSlashes(entry, WS);
    SchemesHaveSlashes(entry, SCHEME_END);
  }

  lemma BracketedShape(host: string, port: nat)
    requires host != "" && IsTrimmed(host) && HasNoneOf(host, NOT_IN_HOST)
    ensures IsHostText(Text(Bracketed(host), port))
    ensures HostPort(host, None) == Some(Bracketed(host))
  {
    TrimOfTrimmed(host);
    TextShape(Bracketed(host), port);
  }

  /** Validating such a text is parsing it and showing it again. */
  lemma EntryIsReparsed(kind: Kind, text: string)
    requires kind != Explorer && IsHostText(text)
    ensures ReadEntry(kind, Some(text)) == Reparsed(text, DefaultPort(kind))
    ensures Reparsed(text, DefaultPort(kind)).Some? ==> IsHostText(Reparsed(text, DefaultPort(kind)).value)
  {
    NoSchemeNoDifference(kind, text);
    var a := ParseAddress(text, DefaultPort(kind));
    if a.Some? {
      ParsesAreProper(text, DefaultPort(kind));
      ValidHostsAreProper(a.value.host);
      TextShape(a.value.host, a.value.port);
    }
  }

  lemma EndpointIsReparsed(kind: Kind, a: Address)
    requires kind != Explorer && IsProper(a)
    ensures
      var e := Endpoint(if kind == Electrum then ElectrumTls else BchP2p, a.host, a.port);
      ReadEndpoint(kind, e) == Reparsed(Text(Bracketed(a.host), a.port), DefaultPort(kind))
    ensures IsHostText(Text(Bracketed(a.host), a.port))
  {
    ValidHostsAreProper(a.host);
    BracketedShape(a.host, a.port);
    EntryIsReparsed(kind, Text(Bracketed(a.host), a.port));
  }

  /** Reading back and validating is parsing twice more. */
  lemma RestoringIsReparsing(kind: Kind, entry: string)
    requires kind != Explorer && IsHostText(entry)
    ensures RestoredAddress(kind, entry) == AddressComesBackAs(entry, DefaultPort(kind))
  {
    var d := DefaultPort(kind);
    NoSchemeNoDifference(kind, entry);
    ParsesAreProper(entry, d);
    if ParseAddress(entry, d).Some? {
      var a := ParseAddress(entry, d).value;
      var text := Text(Bracketed(a.host), a.port);
      EndpointIsReparsed(kind, a);
      EntryIsReparsed(kind, text);
      if Reparsed(text, d).Some? { EntryIsReparsed(kind, Reparsed(text, d).value); }
    }
  }

  /** The parsers let this entry through as it is kept. */
  ghost predicate IsKept(kind: Kind, entry: string) {
    exists raw :: Validated(kind, raw) == Canonical(entry)
  }

  lemma KeptIsProper(kind: Kind, entry: string) returns (a: Address)
    requires kind != Explorer && IsKept(kind, entry)
    ensures IsProper(a) && entry == Text(a.host, a.port)
  {
    var raw :| Validated(kind, raw) == Canonical(entry);
    var text := Trim(Trim(raw));
    var e := Parsed(kind, Trim(raw)).value;
    a := Address(e.host, e.port);
    if kind == Electrum && WSS <= text { ParsesAreProper(text[|WSS|..], ELECTRUM_PORT); }
    else if kind == Electrum && WS <= text { ParsesAreProper(text[|WS|..], PLAIN_ELECTRUM_PORT); }
    else { ParsesAreProper(text, DefaultPort(kind)); }
  }

  /** The host of a kept address, as its text shows it. */
  function HostOf(entry: string): string {
    entry[..Last(entry, ':')]
  }

  /**
   * Whatever was typed: the kept address is restored as it was if and only if its host holds no colon
   * and starts with no bracket.
   */
  lemma AddressIsRestoredIff(kind: Kind, entry: string)
    requires kind != Explorer && IsKept(kind, entry)
    ensures RestoredAddress(kind, entry) == Some(entry) <==> IsPlain(HostOf(entry))
  {
    var a := KeptIsProper(kind, entry);
    ValidHostsAreProper(a.host);
    TextShape(a.host, a.port);
    RestoringIsReparsing(kind, entry);
    AddressComesBackIff(a, DefaultPort(kind));
    DigitsAreTrimmed(Decimal(a.port));
    assert entry[|a.host| + 1..] == Decimal(a.port) && entry[..|a.host|] == a.host;
    LastIs(entry, ':', |a.host|);
  }

  /** A kept Electrum address has lost its scheme: wherever it is parsed again, it is encrypted. */
  lemma KeptElectrumIsEncrypted(entry: string)
    requires IsKept(Electrum, entry)
    ensures Parsed(Electrum, entry).Some? ==> Parsed(Electrum, entry).value.kind == ElectrumTls
  {
    var a := KeptIsProper(Electrum, entry);
    ValidHostsAreProper(a.host);
    TextShape(a.host, a.port);
    NoSchemeNoDifference(Electrum, entry);
  }

  // ---------------------------------------------------------------- explorers

  /** How an origin is written out again. */
  function OriginText(o: WebOrigin): string {
    var h := Bracketed(Trim(o.host));
    HTTPS + if o.port.Some? then Text(h, o.port.value) else h
  }

  /** An explorer is restored as its URL's origin is written, however it was typed. */
  lemma ExplorerComesBackAsOrigin(o: WebOrigin)
    requires StorableHost(o.host)
    ensures ReadOrigin(o) == Some(OriginText(o)) && Validated(Explorer, OriginText(o)) == Canonical(OriginText(o))
  {
    var h, text := Trim(o.host), OriginText(o);
    TrimIsTrimmed(o.host);
    assert h[|h| - 1] != '/';
    assert text[|text| - 1] != '/' && !IsSpace(text[|text| - 1]) && text[|HTTPS|] != '/' && text[0] == 'h';
    TrimOfTrimmed(text);
    assert TrimEndOf(text, '/') == text;
    assert HTTPS <= text;
  }

  // ---------------------------------------------------------------- a network's servers, saved and restored

  /** What a file that loads makes of its network's servers; a file that cannot be read back leaves them alone. */
  function Restored(stored: Stored, present: Servers): Option<Servers> {
    var read := ReadBack(stored);
    if read.None? then Some(present) else PlacedAll(DEFAULTS, read.value)
  }

  ghost predicate AllKept(servers: Servers) {
    && (servers.electrum.Some? ==> IsKept(Electrum, servers.electrum.value))
    && (servers.peer.Some? ==> IsKept(Peer, servers.peer.value))
    && (servers.explorer.Some? ==> IsKept(Explorer, servers.explorer.value))
  }

  /** An address with a plain host, and an explorer that already is what its URL's origin is written as. */
  predicate Survives(url: UrlParser, kind: Kind, entry: string) {
    if kind == Explorer then url(entry).Some? && entry == OriginText(url(entry).value) else IsPlain(HostOf(entry))
  }

  predicate AllSurvive(url: UrlParser, servers: Servers) {
    && (servers.electrum.Some? ==> Survives(url, Electrum, servers.electrum.value))
    && (servers.peer.Some? ==> Survives(url, Peer, servers.peer.value))
    && (servers.explorer.Some? ==> Survives(url, Explorer, servers.explorer.value))
  }

  lemma PlacedSlots(read: Servers)
    ensures
      var placed := PlacedAll(DEFAULTS, read);
      placed.Some? ==>
        placed.value == Servers(ReadEntry(Electrum, read.electrum), ReadEntry(Peer, read.peer),
                                ReadEntry(Explorer, read.explorer))
    ensures
      && (read.electrum.Some? ==> ReadEntry(Electrum, read.electrum).Some?)
      && (read.peer.Some? ==> ReadEntry(Peer, read.peer).Some?)
      && (read.explorer.Some? ==> ReadEntry(Explorer, read.explorer).Some?)
      ==> PlacedAll(DEFAULTS, read).Some?
  {
  }

  /** What the stored endpoint of a kind is live as, if it is read and accepted. */
  function EndpointSlot(kind: Kind, e: Option<Endpoint>): Option<string> {
    if e.None? then None else ReadEntry(kind, ReadEndpoint(kind, e.value))
  }

  function OriginSlot(o: Option<WebOrigin>): Option<string> {
    if o.None? then None else ReadEntry(Explorer, ReadOrigin(o.value))
  }

  /** Servers are restored exactly if every stored part is live as the entry it was written for. */
  lemma RestoredBySlots(stored: Stored, servers: Servers)
    requires stored.electrum.Some? ==> servers.electrum.Some?
    requires stored.peer.Some? ==> servers.peer.Some?
    requires stored.explorer.Some? ==> servers.explorer.Some?
    ensures
      Restored(stored, DEFAULTS) == Some(servers)
      <==> servers == Servers(EndpointSlot(Electrum, stored.electrum), EndpointSlot(Peer, stored.peer),
                              OriginSlot(stored.explorer))
  {
    if ReadBack(stored).Some? { PlacedSlots(ReadBack(stored).value); }
  }

  /** An address that is set is live as it was exactly if it survives. */
  lemma AddressSlotIff(url: UrlParser, kind: Kind, entry: Option<string>)
    requires kind != Explorer && (entry.Some? ==> IsKept(kind, entry.value))
    ensures
      EndpointSlot(kind, ParsedIfAny(kind, entry)) == entry <==> (entry.Some? ==> Survives(url, kind, entry.value))
  {
    if entry.Some? { AddressIsRestoredIff(kind, entry.value); }
  }

  /**
   * Servers that were saved are, after a restart, the very servers that were saved if and only if each
   * entry that is set survives.
   */
  lemma SavedServersAreRestoredIff(url: UrlParser, servers: Servers)
    requires AllKept(servers) && Envelope(url, servers).Some?
    ensures Restored(Envelope(url, servers).value, DEFAULTS) == Some(servers) <==> AllSurvive(url, servers)
  {
    var stored := Envelope(url, servers).value;
    RestoredBySlots(stored, servers);
    AddressSlotIff(url, Electrum, servers.electrum);
    AddressSlotIff(url, Peer, servers.peer);
    if servers.explorer.Some? { ExplorerComesBackAsOrigin(stored.explorer.value); }
  }

  /** The characters and the length of an IPv6 address, such as `::1`. */
  predicate IsIpv6Text(host: string) {
    && ':' in host && |host| <= 45
    && forall i :: 0 <= i < |host| ==>
         IsDigit(host[i]) || 'a' <= host[i] <= 'f' || 'A' <= host[i] <= 'F' || host[i] == ':' || host[i] == '.'
  }

  lemma {:induction false} LengthBound(s: string)
    ensures ByteLength(s) <= 4 * |s|
  {
    if s != "" { LengthBound(s[1..]); }
  }

  lemma PortLength(port: nat)
    requires port <= MAX_PORT
    ensures |Decimal(port)| <= 5
  {
    assert Pow10(5) == 100_000;
    DecimalLength(port, 5);
  }

  /** An IPv6 address is a host, and so is what it grows to. */
  lemma Ipv6IsProper(host: string, port: nat)
    requires IsIpv6Text(host) && 0 < port <= MAX_PORT
    ensures IsProper(Address(host, port)) && '[' !in host && ']' !in host && host[0] != '['
    ensures ByteLength(Text(host, port)) <= MAX_HOST_LENGTH
    ensures ByteLength(Text(Text(host, port), PEER_PORT)) <= MAX_HOST_LENGTH
  {
    TrimOfTrimmed(host);
    PortLength(port);
    PortLength(PEER_PORT);
    LengthBound(host);
    LengthBound(Text(host, port));
    LengthBound(Text(Text(host, port), PEER_PORT));
  }

  /** Typed with brackets, as it must be, it is kept without them. */
  lemma Ipv6IsKept(host: string, port: nat)
    requires IsIpv6Text(host) && 0 < port <= MAX_PORT
    ensures Validated(Peer, "[" + host + "]:" + Decimal(port)) == Canonical(Text(host, port))
  {
    var typed := Text("[" + host + "]", port);
    assert "[" + host + "]:" + Decimal(port) == typed;
    Ipv6IsProper(host, port);
    BracketedIsHostText(host, port);
    BracketedParses(host, port, PEER_PORT);
    NoSchemeNoDifference(Peer, typed);
  }

  lemma BracketedIsHostText(host: string, port: nat)
    requires ValidHost(host) == Some(host)
    ensures IsHostText(Text("[" + host + "]", port))
  {
    ValidHostsAreProper(host);
    TrimOfTrimmed("[" + host + "]");
    TextShape("[" + host + "]", port);
  }

  lemma PeerIsRestoredAs(url: UrlParser, entry: string, restored: string)
    requires Parsed(Peer, entry).Some? && RestoredAddress(Peer, entry) == Some(restored)
    requires StorableHost(Parsed(Peer, entry).value.host) && Parsed(Peer, entry).value.port > 0
    ensures
      var saved := Envelope(url, DEFAULTS.(peer := Some(entry)));
      saved.Some? && Restored(saved.value, DEFAULTS) == Some(DEFAULTS.(peer := Some(restored)))
  {
    RestoredBySlots(Stored(None, Parsed(Peer, entry), None), DEFAULTS.(peer := Some(restored)));
  }

  lemma Ipv6HasNoSpace(host: string, port: nat)
    requires IsIpv6Text(host)
    ensures StorableHost(Text(host, port))
  {
    var entry := Text(host, port);
    assert forall i :: 0 <= i < |entry| ==>
      entry[i] == if i < |host| then host[i] else if i == |host| then ':' else Decimal(port)[i - |host| - 1];
    TrimOfTrimmed(entry);
  }

  /** The whole address is taken for the host that is stored. */
  lemma Ipv6IsStored(host: string, port: nat)
    requires IsIpv6Text(host) && 0 < port <= MAX_PORT
    ensures Parsed(Peer, Text(host, port)) == Some(Endpoint(BchP2p, Text(host, port), PEER_PORT))
  {
    var entry := Text(host, port);
    Ipv6IsProper(host, port);
    ValidHostsAreProper(host);
    TextShape(host, port);
    ColonStaysWhole(host, port);
    WholeReparses(entry, PEER_PORT);
    NoSchemeNoDifference(Peer, entry);
  }

  /**
   * A peer with an IPv6 host, typed with brackets, is kept without them; after a save and a restart it
   * has the default port behind it twice.
   */
  lemma Ipv6PeerGrows(url: UrlParser, host: string, port: nat)
    requires IsIpv6Text(host) && 0 < port <= MAX_PORT
    ensures Validated(Peer, "[" + host + "]:" + Decimal(port)) == Canonical(Text(host, port))
    ensures
      var saved := Envelope(url, DEFAULTS.(peer := Some(Text(host, port))));
      && saved.Some?
      && Restored(saved.value, DEFAULTS)
           == Some(DEFAULTS.(peer := Some(Text(Text(Text(host, port), PEER_PORT), PEER_PORT))))
  {
    var entry := Text(host, port);
    Ipv6IsProper(host, port);
    Ipv6IsKept(host, port);
    Ipv6IsStored(host, port);
    Ipv6HasNoSpace(host, port);
    ColonHostGrows(Address(host, port), PEER_PORT);
    ValidHostsAreProper(host);
    TextShape(host, port);
    RestoringIsReparsing(Peer, entry);
    PeerIsRestoredAs(url, entry, Text(Text(entry, PEER_PORT), PEER_PORT));
  }

  lemma PeerPortText()
    ensures Decimal(PEER_PORT) == "8333"
  {
    assert Decimal(83) == "83";
    assert Decimal(833) == "833";
  }

  /** The node of this machine. */
  lemma LocalPeerGrows(url: UrlParser)
    ensures Validated(Peer, "[::1]:8333") == Canonical("::1:8333")
    ensures
      var saved := Envelope(url, DEFAULTS.(peer := Some("::1:8333")));
      && saved.Some?
      && Restored(saved.value, DEFAULTS) == Some(DEFAULTS.(peer := Some("::1:8333:8333:8333")))
  {
    var host := "::1";
    assert IsIpv6Text(host) by { assert host[0] == ':'; }
    PeerPortText();
    LocalPeerTexts(host);
    Ipv6PeerGrows(url, host, PEER_PORT);
  }

  lemma LocalPeerTexts(host: string)
    requires host == "::1" && Decimal(PEER_PORT) == "8333"
    ensures "[" + host + "]:" + Decimal(PEER_PORT) == "[::1]:8333" && Text(host, PEER_PORT) == "::1:8333"
    ensures Text(Text(Text(host, PEER_PORT), PEER_PORT), PEER_PORT) == "::1:8333:8333:8333"
  {
  }

  /** Whatever was typed, an explorer that can be saved is restored as its URL's origin. */
  lemma ExplorerIsRestoredAsOrigin(url: UrlParser, entry: string, o: WebOrigin)
    requires url(entry) == Some(o) && StorableHost(o.host) && o.port != Some(0)
    ensures
      var saved := Envelope(url, DEFAULTS.(explorer := Some(entry)));
      saved.Some? && Restored(saved.value, DEFAULTS) == Some(DEFAULTS.(explorer := Some(OriginText(o))))
  {
    ExplorerComesBackAsOrigin(o);
    PlacedSlots(ReadBack(Stored(None, None, Some(o))).value);
  }

  predicate IsDomain(host: string) {
    host != "" && forall i :: 0 <= i < |host| ==> 'a' <= host[i] <= 'z' || host[i] == '.'
  }

  lemma DomainIsStorable(host: string)
    requires IsDomain(host)
    ensures StorableHost(host) && OriginText(WebOrigin(host, None)) == HTTPS + host
  {
    TrimOfTrimmed(host);
  }

  /**
   * URL parsers give hosts in small letters and no port for the usual one. So an explorer typed with
   * capitals or with its default port is live as typed and, after a save and a restart, live without.
   */
  lemma TypedExplorerChanges(url: UrlParser, entry: string, host: string)
    requires IsDomain(host) && url(entry) == Some(WebOrigin(host, None)) && entry != HTTPS + host
    ensures
      var saved := Envelope(url, DEFAULTS.(explorer := Some(entry)));
      saved.Some? && Restored(saved.value, DEFAULTS) == Some(DEFAULTS.(explorer := Some(HTTPS + host)))
  {
    DomainIsStorable(host);
    ExplorerIsRestoredAsOrigin(url, entry, WebOrigin(host, None));
  }
}