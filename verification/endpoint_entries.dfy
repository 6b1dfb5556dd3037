/** Which entries the parsers accept, and what they make of them, in the words of the user's own input. */
module EndpointEntries {
  import opened Decimals
  import opened Endpoints
  import opened RustStrings
  import opened ServerOverrides
  import opened Wrappers

  // ---------------------------------------------------------------- hosts and ports

  /** A host is any text of at most 253 bytes without the characters of paths, credentials and queries. */
  lemma HostIff(raw: string, host: string)
    ensures
      ValidHost(raw) == Some(host)
      <==> host == Trim(raw) && host != "" && ByteLength(host) <= 253
           && forall i :: 0 <= i < |host| ==> host[i] !in {'/', '\\', '@', '?', '#', ' '}
  {
    assert NOT_IN_HOST == ['/', '\\', '@', '?', '#', ' '];
  }

  /** A port is written in decimal, with any zeros in front and possibly a plus sign, from 1 to 65535. */
  lemma PortIff(raw: string, port: nat)
    ensures
      PortOf(raw) == Some(port)
      <==> 1 <= port <= 65535
           && exists digits ::
                digits != "" && AllDigits(digits) && Value(digits) == port && Trim(raw) in {digits, "+" + digits}
  {
    var text := Trim(raw);
    if PortOf(raw) == Some(port) {
      var digits := if text[0] == '+' then text[1..] else text;
      assert text == digits || text == "+" + digits;
      assert AllDigits(digits) && Value(digits) == port;
    }
    if digits :|
         1 <= port <= 65535 && digits != "" && AllDigits(digits) && Value(digits) == port
         && text in {digits, "+" + digits}
    {
      if text == "+" + digits { assert text[1..] == digits; } else { assert IsDigit(text[0]); }
    }
  }

  // ---------------------------------------------------------------- addresses

  lemma WholeParses(host: string, defaultPort: nat)
    requires ValidHost(host) == Some(host) && IsPlain(host)
    ensures ParseAddress(host, defaultPort) == Some(Address(host, defaultPort))
  {
  }

  lemma EncryptedParses(rest: string)
    requires IsTrimmed(rest) && rest != ""
    ensures
      var a := ParseAddress(rest, 50004);
      ParseElectrum("wss://" + rest)
        == if a.None? then None else Some(Endpoint(ElectrumTls, a.value.host, a.value.port))
  {
    var entry := "wss://" + rest;
    assert entry[|entry| - 1] == rest[|rest| - 1];
    TrimOfTrimmed(entry);
    assert entry[6..] == rest;
  }

  lemma PlainTextParses(rest: string)
    requires IsTrimmed(rest) && rest != ""
    ensures
      var a := ParseAddress(rest, 50003);
      ParseElectrum("ws://" + rest)
        == if a.None? || !IsLoopback(a.value.host) then None
           else Some(Endpoint(ElectrumTcp, a.value.host, a.value.port))
  {
    var entry := "ws://" + rest;
    assert entry[|entry| - 1] == rest[|rest| - 1];
    TrimOfTrimmed(entry);
    assert entry[5..] == rest && entry[2] == ':';
  }

  /** Without a scheme, or with `wss://`, an address is encrypted, on port 50004 unless it says otherwise. */
  lemma EncryptedAddresses(host: string, port: nat)
    requires ValidHost(host) == Some(host) && IsPlain(host) && 0 < port <= 65535
    ensures ParseElectrum(host) == ParseElectrum("wss://" + host) == Some(Endpoint(ElectrumTls, host, 50004))
    ensures
      var address := host + ":" + Decimal(port);
      ParseElectrum(address) == ParseElectrum("wss://" + address) == Some(Endpoint(ElectrumTls, host, port))
  {
    ValidHostsAreProper(host);
    TextShape(host, port);
    BareEntries(Electrum, host, port);
    WholeParses(host, 50004);
    PlainReparses(Address(host, port), 50004);
    EncryptedParses(host);
    EncryptedParses(Text(host, port));
  }

  /** With `ws://` it is in plain text, on port 50003, and accepted only for this machine. */
  lemma PlainTextAddresses(host: string, port: nat)
    requires ValidHost(host) == Some(host) && IsPlain(host) && 0 < port <= 65535
    ensures
      ParseElectrum("ws://" + host) == if IsLoopback(host) then Some(Endpoint(ElectrumTcp, host, 50003)) else None
    ensures
      var address := host + ":" + Decimal(port);
      ParseElectrum("ws://" + address)
        == if IsLoopback(host) then Some(Endpoint(ElectrumTcp, host, port)) else None
  {
    ValidHostsAreProper(host);
    TextShape(host, port);
    WholeParses(host, 50003);
    PlainReparses(Address(host, port), 50003);
    PlainTextParses(host);
    PlainTextParses(Text(host, port));
  }

  lemma BareEntries(kind: Kind, host: string, port: nat)
    requires kind != Explorer && ValidHost(host) == Some(host) && IsPlain(host) && 0 < port <= 65535
    ensures
      var e := Endpoint(if kind == Electrum then ElectrumTls else BchP2p, host, port);
      Parsed(kind, host + ":" + Decimal(port)) == Some(e) && Parsed(kind, host) == Some(e.(port := DefaultPort(kind)))
  {
    ValidHostsAreProper(host);
    TextShape(host, port);
    WholeParses(host, DefaultPort(kind));
    PlainReparses(Address(host, port), DefaultPort(kind));
    NoSchemeNoDifference(kind, host);
    NoSchemeNoDifference(kind, Text(host, port));
  }

  /** A node is a host and a port, 8333 unless it says otherwise. */
  lemma PeerAddresses(host: string, port: nat)
    requires ValidHost(host) == Some(host) && IsPlain(host) && 0 < port <= 65535
    ensures ParsePeer(host) == Some(Endpoint(BchP2p, host, 8333))
    ensures ParsePeer(host + ":" + Decimal(port)) == Some(Endpoint(BchP2p, host, port))
  {
    BareEntries(Peer, host, port);
  }

  /** No other scheme is taken for a host. */
  lemma OtherSchemesAreRefused(raw: string, i: nat)
    requires i + 3 <= |Trim(raw)| && Trim(raw)[i..i + 3] == "://"
    ensures ParsePeer(raw) == None
    ensures !("wss://" <= Trim(raw)) && !("ws://" <= Trim(raw)) ==> ParseElectrum(raw) == None
  {
    var entry := Trim(raw);
    assert entry[i..][..3] == entry[i..i + 3] == "://";
    assert "://" <= entry[i..];
    assert Contains(entry, "://");
  }

  // ---------------------------------------------------------------- this machine

  lemma SplitsAtFirst(a: string, b: string)
    requires '.' !in a
    ensures Split(a + "." + b, '.') == [a] + Split(b, '.')
  {
    var s := a + "." + b;
    assert s[..|a|] == a && s[|a|] == '.' && s[|a| + 1..] == b;
    FirstIs(s, '.', |a|);
  }

  /** The first part, and what is split further. */
  lemma SplitFront(s: string) returns (rest: string)
    requires |Split(s, '.')| > 1
    ensures Split(s, '.') == [Split(s, '.')[0]] + Split(rest, '.') && s == Split(s, '.')[0] + "." + rest
    ensures '.' !in Split(s, '.')[0]
  {
    var i := First(s, '.');
    rest := s[i + 1..];
    assert s == s[..i] + "." + rest;
  }

  lemma LastPart(s: string)
    requires |Split(s, '.')| == 1
    ensures Split(s, '.') == [s] && '.' !in s
  {
    assert s[..|s|] == s;
  }

  predicate IsDotted(host: string, first: string, a: string, b: string, c: string) {
    host == first + "." + (a + "." + (b + "." + c)) && '.' !in first && '.' !in a && '.' !in b && '.' !in c
  }

  lemma TwoParts(a: string, b: string)
    requires '.' !in a && '.' !in b
    ensures Split(a + "." + b, '.') == [a, b]
  {
    WholeSplits(b);
    SplitsAtFirst(a, b);
  }

  lemma ThreeParts(a: string, b: string, c: string)
    requires '.' !in a && '.' !in b && '.' !in c
    ensures Split(a + "." + (b + "." + c), '.') == [a, b, c]
  {
    TwoParts(b, c);
    SplitsAtFirst(a, b + "." + c);
  }

  lemma DottedSplits(host: string, first: string, a: string, b: string, c: string)
    requires IsDotted(host, first, a, b, c)
    ensures Split(host, '.') == [first, a, b, c]
  {
    ThreeParts(a, b, c);
    OneMorePart(first, a + "." + (b + "." + c), a, b, c);
  }

  lemma OneMorePart(first: string, rest: string, a: string, b: string, c: string)
    requires '.' !in first && Split(rest, '.') == [a, b, c]
    ensures Split(first + "." + rest, '.') == [first, a, b, c]
  {
    SplitsAtFirst(first, rest);
  }

  lemma WholeSplits(s: string)
    requires '.' !in s
    ensures Split(s, '.') == [s]
  {
    assert First(s, '.') == |s|;
  }

  lemma SplitIsDotted(host: string)
    requires |Split(host, '.')| == 4
    ensures var parts := Split(host, '.'); IsDotted(host, parts[0], parts[1], parts[2], parts[3])
  {
    var first := SplitFront(host);
    var second := SplitFront(first);
    var third := SplitFront(second);
    LastPart(third);
  }

  /** A number from 0 to 255, in decimal and possibly after a plus sign. */
  predicate IsByteText(text: string) {
    var digits := if text != "" && text[0] == '+' then text[1..] else text;
    digits != "" && AllDigits(digits) && Value(digits) <= 255
  }

  predicate IsLocalIpv4(host: string, a: string, b: string, c: string) {
    IsDotted(host, "127", a, b, c) && IsByteText(a) && IsByteText(b) && IsByteText(c)
  }

  /** What the loopback test asks of the parts of a host. */
  predicate HasLocalParts(octets: seq<string>) {
    |octets| == 4 && octets[0] == "127" && forall i :: 1 <= i < 4 ==> IsOctet(octets[i])
  }

  lemma LocalPartsAreIpv4(host: string)
    requires HasLocalParts(Split(host, '.'))
    ensures exists a, b, c :: IsLocalIpv4(host, a, b, c)
  {
    var octets := Split(host, '.');
    SplitIsDotted(host);
    assert IsOctet(octets[1]) && IsOctet(octets[2]) && IsOctet(octets[3]);
    assert IsLocalIpv4(host, octets[1], octets[2], octets[3]);
  }

  lemma Ipv4HasLocalParts(host: string, a: string, b: string, c: string)
    requires IsLocalIpv4(host, a, b, c)
    ensures HasLocalParts(Split(host, '.'))
  {
    DottedSplits(host, "127", a, b, c);
    assert IsOctet(a) && IsOctet(b) && IsOctet(c);
  }

  /**
   * This machine is `localhost` in any case, the two spellings of the IPv6 loopback address, and
   * 127.a.b.c with numbers up to 255, whole: neither a longer name nor another first number.
   */
  lemma LoopbackIff(host: string)
    requires IsTrimmed(host) && (host != "" ==> host[0] != '[' && host[|host| - 1] != ']')
    ensures
      IsLoopback(host)
      <==> || LowerCase(host) == "localhost" || host == "::1" || host == "0:0:0:0:0:0:0:1"
           || exists a, b, c :: IsLocalIpv4(host, a, b, c)
  {
    TrimOfTrimmed(host);
    assert TrimEndOf(TrimStartOf(host, '['), ']') == host;
    if HasLocalParts(Split(host, '.')) { LocalPartsAreIpv4(host); }
    if a, b, c :| IsLocalIpv4(host, a, b, c) { Ipv4HasLocalParts(host, a, b, c); }
  }

  // ---------------------------------------------------------------- explorers

  function Slashes(n: nat): (s: string)
    ensures |s| == n && forall i :: 0 <= i < n ==> s[i] == '/'
  {
    seq(n, _ => '/')
  }

  lemma {:induction false} TrimmedSlashes(s: string)
    ensures TrimEndOf(s, '/') <= s && s == TrimEndOf(s, '/') + Slashes(|s| - |TrimEndOf(s, '/')|)
  {
    if s != "" && s[|s| - 1] == '/' { TrimmedSlashes(s[..|s| - 1]); }
  }

  lemma {:induction false} SlashesComeOff(kept: string, n: nat)
    requires kept != "" ==> kept[|kept| - 1] != '/'
    ensures TrimEndOf(kept + Slashes(n), '/') == kept
  {
    if n == 0 {
      assert kept + Slashes(0) == kept;
    } else {
      assert (kept + Slashes(n))[..|kept| + n - 1] == kept + Slashes(n - 1);
      SlashesComeOff(kept, n - 1);
    }
  }

  /** An explorer is kept without the slashes behind it, and is `https://` with something that is no slash after it. */
  lemma ExplorerIff(raw: string, kept: string)
    ensures
      Validated(Explorer, raw) == Canonical(kept)
      <==> && |kept| > 8 && kept[..8] == "https://" && kept[8] != '/' && kept[|kept| - 1] != '/'
           && exists n :: Trim(raw) == kept + Slashes(n)
  {
    var entry := Trim(raw);
    TrimIsTrimmed(raw);
    TrimmedSlashes(entry);
    if |kept| > 8 && kept[..8] == "https://" && kept[8] != '/' && kept[|kept| - 1] != '/' {
      if n :| entry == kept + Slashes(n) {
        SlashesComeOff(kept, n);
        assert HTTPS <= kept;
      }
    }
  }
}
