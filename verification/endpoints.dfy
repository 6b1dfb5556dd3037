/** The parsers of the server addresses a user types. */
module Endpoints {
  import opened Decimals
  import opened RustStrings
  import opened Wrappers

  datatype EndpointKind = ElectrumTls | ElectrumTcp | BchP2p

  datatype Endpoint = Endpoint(kind: EndpointKind, host: string, port: nat)

  datatype Address = Address(host: string, port: nat)

  const ELECTRUM_PORT: nat := 50004
  const PLAIN_ELECTRUM_PORT: nat := 50003
  const PEER_PORT: nat := 8333

  const MAX_HOST_LENGTH: nat := 253
  const MAX_PORT: nat := 65535

  /** What a host must not contain: a path, a credential, a query or a blank. */
  const NOT_IN_HOST: string := "/\\@?# "

  predicate HasNoneOf(s: string, chars: string) {
    forall i :: 0 <= i < |s| ==> s[i] !in chars
  }

  /** `validate_host` */
  function ValidHost(host: string): Option<string> {
    var h := Trim(host);
    if h == "" || ByteLength(h) > MAX_HOST_LENGTH || !HasNoneOf(h, NOT_IN_HOST) then None else Some(h)
  }

  /** `parse_port`: decimal digits, possibly after a plus sign. */
  function PortOf(raw: string): Option<nat> {
    var text := Trim(raw);
    var digits := if text != "" && text[0] == '+' then text[1..] else text;
    if digits == "" || !AllDigits(digits) then None
    else if 0 < Value(digits) <= MAX_PORT then Some(Value(digits))
    else None
  }

  /** `split_host_port`: a bracketed host and a port, or a host and a port around the only colon. */
  function SplitHostPort(entry: string): Option<(string, string)> {
    if entry != "" && entry[0] == '[' then
      var rest := entry[1..];
      var i := First(rest, ']');
      if i == |rest| then None
      else
        var tail := rest[i + 1..];
        if tail == "" || tail[0] != ':' then None else Some((rest[..i], tail[1..]))
    else
      var i := Last(entry, ':');
      if i == |entry| || ':' in entry[..i] then None else Some((entry[..i], entry[i + 1..]))
  }

  /** A host and a port, or a host that gets the default port. */
  function ParseAddress(entry: string, defaultPort: nat): Option<Address> {
    match SplitHostPort(entry)
    case Some((host, port)) =>
      if ValidHost(host).None? || PortOf(port).None? then None
      else Some(Address(ValidHost(host).value, PortOf(port).value))
    case None => if ValidHost(entry).None? then None else Some(Address(ValidHost(entry).value, defaultPort))
  }

  /** `parse::<u8>` succeeds. */
  predicate IsOctet(part: string) {
    var digits := if part != "" && part[0] == '+' then part[1..] else part;
    digits != "" && AllDigits(digits) && Value(digits) < 256
  }

  /** `is_loopback_host` */
  predicate IsLoopback(host: string) {
    var h := TrimEndOf(TrimStartOf(Trim(host), '['), ']');
    var octets := Split(h, '.');
    || LowerCase(h) == "localhost" || h == "::1" || h == "0:0:0:0:0:0:0:1"
    || (octets[0] == "127" && |octets| == 4 && forall i :: 1 <= i < 4 ==> IsOctet(octets[i]))
  }

  const WSS: string := "wss://"
  const WS: string := "ws://"
  const SCHEME_END: string := "://"

  /** `parse_electrum_endpoint`: encrypted unless it asks for plain text on this machine. */
  function ParseElectrum(raw: string): Option<Endpoint> {
    var entry := Trim(raw);
    if entry == "" then None
    else if WSS <= entry then
      var address := ParseAddress(entry[|WSS|..], ELECTRUM_PORT);
      if address.None? then None else Some(Endpoint(ElectrumTls, address.value.host, address.value.port))
    else if WS <= entry then
      var address := ParseAddress(entry[|WS|..], PLAIN_ELECTRUM_PORT);
      if address.None? || !IsLoopback(address.value.host) then None
      else Some(Endpoint(ElectrumTcp, address.value.host, address.value.port))
    else if Contains(entry, SCHEME_END) then None
    else
      var address := ParseAddress(entry, ELECTRUM_PORT);
      if address.None? then None else Some(Endpoint(ElectrumTls, address.value.host, address.value.port))
  }

  /** `parse_peer_endpoint` */
  function ParsePeer(raw: string): Option<Endpoint> {
    var entry := Trim(raw);
    if entry == "" || Contains(entry, SCHEME_END) then None
    else
      var address := ParseAddress(entry, PEER_PORT);
      if address.None? then None else Some(Endpoint(BchP2p, address.value.host, address.value.port))
  }

  /** How an address is shown and kept: without brackets, whatever the host. */
  function Text(host: string, port: nat): string {
    host + ":" + Decimal(port)
  }

  /** What the parsers give. */
  predicate IsProper(a: Address) {
    ValidHost(a.host) == Some(a.host) && 0 < a.port <= MAX_PORT
  }

  /** The host comes back from the text: it neither contains a colon nor starts like a bracketed one. */
  predicate IsPlain(host: string) {
    ':' !in host && (host != "" ==> host[0] != '[')
  }

  // ---------------------------------------------------------------- facts about the parsers

  lemma ValidHostsAreProper(host: string)
    requires ValidHost(host).Some?
    ensures ValidHost(ValidHost(host).value) == ValidHost(host)
    ensures
      var h := ValidHost(host).value;
      h != "" && IsTrimmed(h) && HasNoneOf(h, NOT_IN_HOST)
  {
    TrimIsTrimmed(host);
  }

  lemma ParsesAreProper(entry: string, defaultPort: nat)
    requires 0 < defaultPort <= MAX_PORT
    ensures var a := ParseAddress(entry, defaultPort); a.Some? ==> IsProper(a.value)
  {
    match SplitHostPort(entry)
    case Some((host, port)) => if ValidHost(host).Some? { ValidHostsAreProper(host); }
    case None => if ValidHost(entry).Some? { ValidHostsAreProper(entry); }
  }

  lemma DigitsAreTrimmed(s: string)
    requires AllDigits(s)
    ensures IsTrimmed(s) && ':' !in s && ']' !in s && '[' !in s
  {
  }

  /** A port is read back from its decimal text. */
  lemma PortRoundTrip(port: nat)
    requires 0 < port <= MAX_PORT
    ensures PortOf(Decimal(port)) == Some(port)
  {
    DecimalRoundTrip(port);
    DigitsAreTrimmed(Decimal(port));
    TrimOfTrimmed(Decimal(port));
  }

  lemma TextShape(host: string, port: nat)
    requires host != "" && IsTrimmed(host) && HasNoneOf(host, NOT_IN_HOST)
    ensures var t := Text(host, port);
      && IsTrimmed(t) && Trim(t) == t && HasNoneOf(t, NOT_IN_HOST)
      && |t| >= |host| + 2 && t[0] == host[0] && t[..|host|] == host && t[|host|] == ':' && IsDigit(t[|t| - 1])
  {
    var t := Text(host, port);
    assert forall i :: 0 <= i < |t| ==>
      t[i] == if i < |host| then host[i] else if i == |host| then ':' else Decimal(port)[i - |host| - 1];
    TrimOfTrimmed(t);
  }

  // ---------------------------------------------------------------- where a text is split

  lemma SplitsAtItsColon(host: string, port: string)
    requires IsPlain(host) && ':' !in port
    ensures SplitHostPort(host + ":" + port) == Some((host, port))
  {
    var entry := host + ":" + port;
    assert entry[..|host|] == host && entry[|host| + 1..] == port;
    LastIs(entry, ':', |host|);
  }

  lemma TwoColonsStayWhole(entry: string, i: nat, j: nat)
    requires i < j < |entry| && entry[i] == ':' && entry[j] == ':' && entry[0] != '['
    ensures SplitHostPort(entry).None?
  {
    var last := Last(entry, ':');
    assert forall k :: last < k < |entry| ==> entry[k] == entry[last + 1..][k - last - 1];
    assert entry[i] in entry[..last];
  }

  lemma OpenBracketStaysWhole(entry: string)
    requires entry != "" && entry[0] == '[' && ']' !in entry
    ensures SplitHostPort(entry).None?
  {
    assert forall k :: 0 <= k < |entry| - 1 ==> entry[1..][k] == entry[k + 1];
  }

  /** A bracketed text is split behind its first closing bracket, if a colon follows there. */
  lemma BracketsSplit(inner: string, tail: string)
    requires ']' !in inner
    ensures
      SplitHostPort("[" + inner + "]" + tail)
        == if tail != "" && tail[0] == ':' then Some((inner, tail[1..])) else None
  {
    var rest := inner + "]" + tail;
    assert ("[" + inner + "]" + tail)[1..] == rest;
    assert rest[..|inner|] == inner && rest[|inner| + 1..] == tail;
    FirstIs(rest, ']', |inner|);
  }

  /** An entry that is not split becomes the host as it is, if it may be one. */
  lemma WholeGrows(entry: string, defaultPort: nat)
    requires SplitHostPort(entry).None? && IsTrimmed(entry)
    ensures
      var a := ParseAddress(entry, defaultPort);
      a.Some? ==> a.value == Address(entry, defaultPort) && entry != "" && HasNoneOf(entry, NOT_IN_HOST)
  {
    TrimOfTrimmed(entry);
  }
}
