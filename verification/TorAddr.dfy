/** Addresses that Tor can connect to: classifying a host, parsing and printing, and turning
    an address into instructions for a stream or a lookup. */
module TorAddr {
  import opened Common
  import opened Text

  const TWO_POW_32: nat := 0x1_0000_0000
  const TWO_POW_128: nat := 0x1_0000_0000_0000_0000_0000_0000_0000_0000

  datatype Host = Hostname(name: string) | HostIp(ip: Ip) | Onion(name: string)

  datatype Address = Address(host: Host, port: nat)

  datatype ParseError = InvalidHostname | NoPort | BadPort

  /** Code from outside the repository: the host name validator, the text form of IPv6
      addresses, and the decoder of onion service identities. */
  datatype Net = Net(valid: string -> bool, parse6: string -> Option<nat>, print6: nat -> string,
                     parseHsId: string -> Option<nat>)

  predicate HexColonOrDot(c: char) {
    IsDigit(c) || 'a' <= c <= 'f' || 'A' <= c <= 'F' || c == ':' || c == '.'
  }

  predicate V6Text(s: string) {
    ':' in s && forall i :: 0 <= i < |s| ==> HexColonOrDot(s[i])
  }

  predicate ReadsBack(net: Net, x: nat) {
    net.parse6(net.print6(x)) == Some(x)
  }

  /** What is relied on: host names hold no colon or bracket; IPv6 text reads back as what was
      written, and is made of hex digits, dots and at least one colon. */
  ghost predicate Standard(net: Net) {
    && (forall h :: net.valid(h) ==> ':' !in h && '[' !in h)
    && (forall x: nat :: x < TWO_POW_128 ==> ReadsBack(net, x))
    && (forall s :: net.parse6(s).Some? ==> V6Text(s) && net.parse6(s).value < TWO_POW_128)
  }

  // ---- IP addresses as text ----

  function PrintV4(ip: Ip): string
    requires ip.V4?
  {
    Decimal(ip.a) + ['.'] + (Decimal(ip.b) + ['.'] + (Decimal(ip.c) + ['.'] + Decimal(ip.d)))
  }

  function PrintIp(net: Net, ip: Ip): string {
    if ip.V4? then PrintV4(ip) else net.print6(ip.v)
  }

  /** One to three digits without a leading zero, at most 255. */
  predicate IsOctet(s: string) {
    1 <= |s| <= 3 && AllDigits(s) && (s[0] == '0' ==> |s| == 1) && Value(s) < 256
  }

  function ParseV4(s: string): Option<Ip> {
    var p := Split(s, '.');
    if |p| == 4 && IsOctet(p[0]) && IsOctet(p[1]) && IsOctet(p[2]) && IsOctet(p[3])
    then Some(V4(Value(p[0]), Value(p[1]), Value(p[2]), Value(p[3])))
    else None
  }

  function ParseIp(net: Net, s: string): Option<Ip> {
    match ParseV4(s)
    case Some(ip) => Some(ip)
    case None =>
      match net.parse6(s)
      case Some(x) => Some(V6(x))
      case None => None
  }

  predicate IpInRange(ip: Ip) {
    match ip
    case V4(a, b, c, d) => a < 256 && b < 256 && c < 256 && d < 256
    case V6(v) => v < TWO_POW_128
  }

  // ---- Socket addresses as text ----

  /** A decimal number below `bound`; leading zeros are fine. */
  function ParseNumber(s: string, bound: nat): (r: Option<nat>)
    ensures r.Some? ==> r.value < bound
  {
    if s != [] && AllDigits(s) && Value(s) < bound then Some(Value(s)) else None
  }

  /** IPv6 text, possibly with a numeric scope, which is dropped. */
  function ParseScoped(net: Net, s: string): Option<nat> {
    match LastIndex(s, '%')
    case None => net.parse6(s)
    case Some(i) =>
      if ParseNumber(s[i + 1..], TWO_POW_32).Some? then net.parse6(s[..i]) else None
  }

  function ParseSocketHost(net: Net, s: string): Option<Ip> {
    match ParseV4(s)
    case Some(ip) => Some(ip)
    case None =>
      if |s| >= 2 && s[0] == '[' && s[|s| - 1] == ']' then
        match ParseScoped(net, s[1..|s| - 1])
        case Some(x) => Some(V6(x))
        case None => None
      else None
  }

  /** `SocketAddr::from_str`: address, colon, decimal port. */
  function ParseSocket(net: Net, s: string): Option<(Ip, nat)> {
    match LastIndex(s, ':')
    case None => None
    case Some(i) =>
      match (ParseSocketHost(net, s[..i]), ParseNumber(s[i + 1..], 65536))
      case (Some(ip), Some(port)) => Some((ip, port))
      case _ => None
  }

  // ---- Hosts ----

  predicate EndsOnion(s: string) {
    |s| >= 6 && LowerAll(s[|s| - 6..]) == ".onion"
  }

  predicate OnionText(s: string) {
    |s| >= 6 && SameText(s[|s| - 6..], ".onion")
  }

  lemma EndsOnionIff(s: string)
    ensures EndsOnion(s) <==> OnionText(s)
  {
    if |s| >= 6 {
      LowerIs(s[|s| - 6..], ".onion");
    }
  }

  function ParseHost(net: Net, s: string): Result<Host, ParseError> {
    if EndsOnion(s) && net.valid(s) then Ok(Onion(s))
    else match ParseIp(net, s)
      case Some(ip) => Ok(HostIp(ip))
      case None => if net.valid(s) then Ok(Hostname(s)) else Err(InvalidHostname)
  }

  function PrintHost(net: Net, h: Host): string {
    match h
    case Hostname(s) => s
    case HostIp(ip) => PrintIp(net, ip)
    case Onion(s) => s
  }

  predicate IsLocal(h: Host) {
    match h
    case Hostname(s) => LowerAll(s) == "localhost"
    case HostIp(V4(a, b, c, d)) => a == 127 || a == 10 || (a == 172 && 16 <= b < 32) || (a == 192 && b == 168)
    case HostIp(V6(v)) => v == 1
    case Onion(_) => false
  }

  // ---- Addresses ----

  function New(host: Host, port: nat): Result<Address, ParseError> {
    if port == 0 then Err(BadPort) else Ok(Address(host, port))
  }

  /** `u16::from_str`: like `ParseNumber`, but a plus sign may come first. */
  function ParsePort(s: string): Option<nat> {
    if s != [] && s[0] == '+' then ParseNumber(s[1..], 65536) else ParseNumber(s, 65536)
  }

  function FromParts(net: Net, host: string, port: string): Result<Address, ParseError> {
    match ParseHost(net, host)
    case Err(e) => Err(e)
    case Ok(h) =>
      match ParsePort(port)
      case None => Err(BadPort)
      case Some(p) => New(h, p)
  }

  function FromText(net: Net, s: string): Result<Address, ParseError> {
    match ParseSocket(net, s)
    case Some((ip, port)) => New(HostIp(ip), port)
    case None =>
      match LastIndex(s, ':')
      case None => Err(NoPort)
      case Some(i) => FromParts(net, s[..i], s[i + 1..])
  }

  function FromPair(net: Net, s: string, port: nat): Result<Address, ParseError> {
    match ParseHost(net, s)
    case Err(e) => Err(e)
    case Ok(host) => New(host, port)
  }

  function FromIp(ip: Ip, port: nat): Result<Address, ParseError> {
    New(HostIp(ip), port)
  }

  function Print(net: Net, a: Address): string {
    (if a.host.HostIp? && a.host.ip.V6? then ['['] + net.print6(a.host.ip.v) + [']']
     else PrintHost(net, a.host)) + [':'] + Decimal(a.port)
  }

  /** What holds of every address that can be made. */
  predicate HostOk(net: Net, h: Host) {
    match h
    case Hostname(s) => net.valid(s) && !EndsOnion(s) && ParseIp(net, s).None?
    case HostIp(ip) => IpInRange(ip)
    case Onion(s) => net.valid(s) && EndsOnion(s)
  }

  predicate WellFormed(net: Net, a: Address) {
    HostOk(net, a.host) && 0 < a.port < 65536
  }

  // ---- IPv4 text ----

  lemma DecimalOctet(n: nat)
    requires n < 256
    ensures IsOctet(Decimal(n)) && Value(Decimal(n)) == n && '.' !in Decimal(n)
  {
    DecimalValue(n);
    DecimalShape(n);
  }

  lemma SplitFour(a: string, b: string, c: string, d: string)
    requires '.' !in a && '.' !in b && '.' !in c && '.' !in d
    ensures Split(a + ['.'] + (b + ['.'] + (c + ['.'] + d)), '.') == [a, b, c, d]
  {
    SplitFirst(a, '.', b + ['.'] + (c + ['.'] + d));
    SplitFirst(b, '.', c + ['.'] + d);
    SplitFirst(c, '.', d);
    SplitWhole(d, '.');
  }

  lemma V4RoundTrip(ip: Ip)
    requires ip.V4? && IpInRange(ip)
    ensures ParseV4(PrintV4(ip)) == Some(ip)
  {
    DecimalOctet(ip.a);
    DecimalOctet(ip.b);
    DecimalOctet(ip.c);
    DecimalOctet(ip.d);
    SplitFour(Decimal(ip.a), Decimal(ip.b), Decimal(ip.c), Decimal(ip.d));
  }

  lemma V4Chars(s: string, i: nat)
    requires ParseV4(s).Some? && i < |s|
    ensures IsDigit(s[i]) || s[i] == '.'
  {
    SplitChars(s, '.', i);
  }

  lemma V4InRange(s: string)
    requires ParseV4(s).Some?
    ensures ParseV4(s).value.V4? && IpInRange(ParseV4(s).value)
  {
  }

  /** Text that ends in `.onion` is not IPv4 text. */
  lemma OnionIsNotV4(s: string)
    requires EndsOnion(s)
    ensures ParseV4(s).None?
  {
    LowerAt(s[|s| - 6..], 5);
    if ParseV4(s).Some? {
      V4Chars(s, |s| - 1);
    }
  }

  lemma NotV4(s: string, c: char)
    requires c in s && !IsDigit(c) && c != '.'
    ensures ParseV4(s).None?
  {
    var i :| 0 <= i < |s| && s[i] == c;
    if ParseV4(s).Some? {
      V4Chars(s, i);
    }
  }

  lemma IpRoundTrip(net: Net, ip: Ip)
    requires Standard(net) && IpInRange(ip)
    ensures ParseIp(net, PrintIp(net, ip)) == Some(ip)
  {
    if ip.V4? {
      V4RoundTrip(ip);
    } else {
      assert ReadsBack(net, ip.v);
      NotV4(net.print6(ip.v), ':');
    }
  }

  /** Nor is it IPv6 text. */
  lemma OnionIsNotV6(net: Net, s: string)
    requires Standard(net) && EndsOnion(s)
    ensures net.parse6(s).None?
  {
    LowerAt(s[|s| - 6..], 5);
    assert !HexColonOrDot(s[|s| - 1]);
  }

  lemma OctetText(s: string)
    requires IsOctet(s)
    ensures s == Decimal(Value(s))
  {
    DecimalOfValue(s);
  }

  lemma JoinFour(p: seq<string>)
    requires |p| == 4
    ensures Join(p, '.') == p[0] + ['.'] + (p[1] + ['.'] + (p[2] + ['.'] + p[3]))
  {
    assert p[1..][1..] == p[2..] && p[2..][1..] == p[3..];
    assert Join(p[3..], '.') == p[3];
    assert Join(p[2..], '.') == p[2] + ['.'] + p[3];
    assert Join(p[1..], '.') == p[1] + ['.'] + (p[2] + ['.'] + p[3]);
  }

  /** IPv4 text is exactly the printed form: four octets in decimal, without leading zeros. */
  lemma V4TextIff(s: string, ip: Ip)
    ensures ParseV4(s) == Some(ip) <==> ip.V4? && IpInRange(ip) && s == PrintV4(ip)
  {
    if ParseV4(s) == Some(ip) {
      var p := Split(s, '.');
      JoinSplit(s, '.');
      JoinFour(p);
      OctetText(p[0]);
      OctetText(p[1]);
      OctetText(p[2]);
      OctetText(p[3]);
    }
    if ip.V4? && IpInRange(ip) && s == PrintV4(ip) {
      V4RoundTrip(ip);
    }
  }

  // ---- Classification is canonical ----

  /** Parsing a host only makes well-formed hosts: a host name is never IP text and never
      ends in `.onion`, in any letter case. */
  lemma ParsedHostIsOk(net: Net, s: string)
    requires Standard(net) && ParseHost(net, s).Ok?
    ensures HostOk(net, ParseHost(net, s).value)
  {
    if ParseV4(s).Some? {
      V4InRange(s);
    }
  }

  /** Every well-formed host is what its own text parses to. */
  lemma HostRoundTrip(net: Net, h: Host)
    requires Standard(net) && HostOk(net, h)
    ensures ParseHost(net, PrintHost(net, h)) == Ok(h)
  {
    if h.HostIp? {
      var s := PrintHost(net, h);
      IpRoundTrip(net, h.ip);
      if EndsOnion(s) {
        OnionIsNotV4(s);
        OnionIsNotV6(net, s);
      }
    }
  }

  /** What a host text stands for: an onion name if it is a valid name that ends in `.onion` in
      any case; else an address if it is the text of one; else a host name if it is a valid
      name; else nothing. */
  lemma HostKindIff(net: Net, s: string)
    ensures ParseHost(net, s) == Ok(Onion(s)) <==> net.valid(s) && OnionText(s)
    ensures ParseHost(net, s) == Ok(Hostname(s)) <==> net.valid(s) && !OnionText(s) && ParseIp(net, s).None?
    ensures forall ip :: ParseHost(net, s) == Ok(HostIp(ip)) <==>
              !(net.valid(s) && OnionText(s)) && ParseIp(net, s) == Some(ip)
    ensures ParseHost(net, s).Err? <==> !net.valid(s) && ParseIp(net, s).None?
    ensures ParseHost(net, s).Err? ==> ParseHost(net, s) == Err(InvalidHostname)
  {
    EndsOnionIff(s);
  }

  /** IP text is IPv4 text, or else IPv6 text. */
  lemma IpTextIff(net: Net, s: string, ip: Ip)
    requires Standard(net)
    ensures ParseIp(net, s) == Some(ip) <==>
            (ip.V4? && IpInRange(ip) && s == PrintV4(ip)) || (ip.V6? && net.parse6(s) == Some(ip.v))
  {
    V4TextIff(s, ip);
    if net.parse6(s).Some? {
      NotV4(s, ':');
    }
  }

  // ---- Printing and parsing ----

  lemma PortRoundTrip(port: nat)
    requires port < 65536
    ensures ParseNumber(Decimal(port), 65536) == Some(port) == ParsePort(Decimal(port))
    ensures ':' !in Decimal(port)
  {
    DecimalValue(port);
    assert IsDigit(Decimal(port)[0]);
  }

  /** Text before the last colon, and the port after it. */
  lemma ColonSplits(host: string, port: nat)
    requires port < 65536
    ensures var s := host + [':'] + Decimal(port);
            LastIndex(s, ':') == Some(|host|) && s[..|host|] == host && s[|host| + 1..] == Decimal(port)
  {
    PortRoundTrip(port);
    LastIndexIs(host, ':', Decimal(port));
  }

  lemma BracketedHost(net: Net, x: nat)
    requires Standard(net) && x < TWO_POW_128
    ensures ParseSocketHost(net, ['['] + net.print6(x) + [']']) == Some(V6(x))
  {
    var s := ['['] + net.print6(x) + [']'];
    assert ReadsBack(net, x) && !HexColonOrDot('%');
    assert s[0] == '[';
    NotV4(s, '[');
    assert s[1..|s| - 1] == net.print6(x);
  }

  lemma NamesAreNotSockets(net: Net, h: Host)
    requires Standard(net) && HostOk(net, h) && !h.HostIp?
    ensures ParseSocketHost(net, h.name).None?
  {
    if h.Onion? {
      OnionIsNotV4(h.name);
    }
    assert net.valid(h.name);
  }

  lemma SocketText(net: Net, host: string, ip: Ip, port: nat)
    requires ParseSocketHost(net, host) == Some(ip) && 0 < port < 65536
    ensures FromText(net, host + [':'] + Decimal(port)) == Ok(Address(HostIp(ip), port))
  {
    PortRoundTrip(port);
    ColonSplits(host, port);
  }

  lemma NameText(net: Net, host: string, h: Host, port: nat)
    requires ParseSocketHost(net, host).None? && ParseHost(net, host) == Ok(h) && 0 < port < 65536
    ensures FromText(net, host + [':'] + Decimal(port)) == Ok(Address(h, port))
  {
    PortRoundTrip(port);
    ColonSplits(host, port);
  }

  /** Printing any well-formed address and parsing the text gives the same address. */
  lemma AddressRoundTrip(net: Net, a: Address)
    requires Standard(net) && WellFormed(net, a)
    ensures FromText(net, Print(net, a)) == Ok(a)
  {
    match a.host
    case HostIp(V6(x)) =>
      BracketedHost(net, x);
      SocketText(net, ['['] + net.print6(x) + [']'], V6(x), a.port);
    case HostIp(V4(_, _, _, _)) =>
      V4RoundTrip(a.host.ip);
      SocketText(net, PrintV4(a.host.ip), a.host.ip, a.port);
    case _ =>
      NamesAreNotSockets(net, a.host);
      HostRoundTrip(net, a.host);
      NameText(net, a.host.name, a.host, a.port);
  }

  /** `d` is a decimal numeral for `n`; it may have leading zeros. */
  predicate Numeral(d: string, n: nat) {
    d != [] && AllDigits(d) && Value(d) == n
  }

  /** A port is a numeral below 65536, with or without a plus sign. */
  lemma PortIff(s: string, n: nat)
    ensures ParsePort(s) == Some(n) <==>
            n < 65536 && (Numeral(s, n) || (s != [] && s[0] == '+' && Numeral(s[1..], n)))
  {
  }

  /** The percent sign at `i` separates an IPv6 address from a numeric scope. */
  predicate ScopedAt(net: Net, t: string, x: nat, i: nat) {
    && i < |t| && t[i] == '%' && net.parse6(t[..i]) == Some(x)
    && t[i + 1..] != [] && AllDigits(t[i + 1..]) && Value(t[i + 1..]) < TWO_POW_32
  }

  predicate ScopedText(net: Net, t: string, x: nat) {
    exists i :: 0 <= i < |t| && ScopedAt(net, t, x, i)
  }

  lemma ScopedParses(net: Net, t: string, x: nat, i: nat)
    requires ScopedAt(net, t, x, i)
    ensures ParseScoped(net, t) == Some(x)
  {
    var scope := t[i + 1..];
    assert t == t[..i] + ['%'] + scope;
    LastIndexIs(t[..i], '%', scope);
  }

  lemma PlainParses(net: Net, t: string, x: nat)
    requires Standard(net) && net.parse6(t) == Some(x)
    ensures ParseScoped(net, t) == Some(x)
  {
    assert V6Text(t) && !HexColonOrDot('%');
  }

  lemma ParsedIsScoped(net: Net, t: string, x: nat)
    requires ParseScoped(net, t) == Some(x)
    ensures net.parse6(t) == Some(x) || ScopedText(net, t, x)
  {
    if LastIndex(t, '%').Some? {
      assert ScopedAt(net, t, x, LastIndex(t, '%').value);
    }
  }

  lemma ScopedIff(net: Net, t: string, x: nat)
    requires Standard(net)
    ensures ParseScoped(net, t) == Some(x) <==> net.parse6(t) == Some(x) || ScopedText(net, t, x)
  {
    if ParseScoped(net, t) == Some(x) {
      ParsedIsScoped(net, t, x);
    }
    if net.parse6(t) == Some(x) {
      PlainParses(net, t, x);
    }
    if i :| 0 <= i < |t| && ScopedAt(net, t, x, i) {
      ScopedParses(net, t, x, i);
    }
  }

  /** Where an address in a socket address stands, the text is an IPv4 address, or an IPv6 address
      in brackets with or without a numeric scope. */
  predicate SocketHostText(net: Net, s: string, ip: Ip) {
    if ip.V4? then IpInRange(ip) && s == PrintV4(ip)
    else
      && |s| >= 2 && s[0] == '[' && s[|s| - 1] == ']'
      && var t := s[1..|s| - 1];
         net.parse6(t) == Some(ip.v) || ScopedText(net, t, ip.v)
  }

  lemma SocketHostIff(net: Net, s: string, ip: Ip)
    requires Standard(net)
    ensures ParseSocketHost(net, s) == Some(ip) <==> SocketHostText(net, s, ip)
  {
    V4TextIff(s, ip);
    if |s| >= 2 && s[0] == '[' {
      NotV4(s, '[');
      if ip.V6? {
        ScopedIff(net, s[1..|s| - 1], ip.v);
      }
    }
  }

  function NonZero(h: Host, n: nat): Result<Address, ParseError> {
    if n == 0 then Err(BadPort) else Ok(Address(h, n))
  }

  /** What text comes to: without a colon, no port. Otherwise the part after the last colon is the
      port: if that is a plain numeral and the rest an address as in a socket address, it is
      that address; else the rest must be a host and the port a port, with the host's error
      first; and port 0 is none. */
  lemma TextOutcome(net: Net, host: string, port: string)
    requires ':' !in port
    ensures ':' !in host ==> FromText(net, host) == Err(NoPort)
    ensures FromText(net, host + [':'] + port) ==
            if ParseSocketHost(net, host).Some? && ParseNumber(port, 65536).Some?
            then NonZero(HostIp(ParseSocketHost(net, host).value), ParseNumber(port, 65536).value)
            else if ParseHost(net, host).Err? then Err(InvalidHostname)
            else if ParsePort(port).None? then Err(BadPort)
            else NonZero(ParseHost(net, host).value, ParsePort(port).value)
  {
    var s := host + [':'] + port;
    LastIndexIs(host, ':', port);
    assert s[..|host|] == host && s[|host| + 1..] == port;
    HostKindIff(net, host);
  }

  /** The other constructors: the host's error first, and port 0 is none. */
  lemma PairOutcome(net: Net, s: string, ip: Ip, port: nat)
    ensures FromPair(net, s, port) ==
            if ParseHost(net, s).Err? then Err(InvalidHostname) else NonZero(ParseHost(net, s).value, port)
    ensures FromIp(ip, port) == NonZero(HostIp(ip), port)
  {
    HostKindIff(net, s);
  }

  /** An address is printed as a socket address exactly if its host is an IP address; in
      particular IPv6 addresses are in brackets and the port is a plain numeral. */
  lemma PrintsSocketIff(net: Net, a: Address)
    requires Standard(net) && WellFormed(net, a)
    ensures a.host.HostIp? ==> ParseSocket(net, Print(net, a)) == Some((a.host.ip, a.port))
    ensures !a.host.HostIp? ==> ParseSocket(net, Print(net, a)).None?
  {
    PortRoundTrip(a.port);
    match a.host
    case HostIp(V6(x)) =>
      BracketedHost(net, x);
      ColonSplits(['['] + net.print6(x) + [']'], a.port);
    case HostIp(V4(_, _, _, _)) =>
      V4RoundTrip(a.host.ip);
      ColonSplits(PrintV4(a.host.ip), a.port);
    case _ =>
      NamesAreNotSockets(net, a.host);
      ColonSplits(a.host.name, a.port);
  }

  lemma SocketIpInRange(net: Net, s: string)
    requires Standard(net) && ParseSocketHost(net, s).Some?
    ensures IpInRange(ParseSocketHost(net, s).value)
  {
    if ParseV4(s).Some? {
      V4InRange(s);
    }
  }

  lemma PartsAreSound(net: Net, host: string, port: string)
    requires Standard(net) && FromParts(net, host, port).Ok?
    ensures WellFormed(net, FromParts(net, host, port).value)
  {
    ParsedHostIsOk(net, host);
  }

  /** Every public way of making an address makes a well-formed one: from text, */
  lemma TextIsSound(net: Net, s: string)
    requires Standard(net) && FromText(net, s).Ok?
    ensures WellFormed(net, FromText(net, s).value)
  {
    var i := LastIndex(s, ':').value;
    if ParseSocket(net, s).Some? {
      SocketIpInRange(net, s[..i]);
    } else {
      PartsAreSound(net, s[..i], s[i + 1..]);
    }
  }

  /** and from a host or an IP address with a port number. */
  lemma PairIsSound(net: Net, s: string, ip: Ip, port: nat)
    requires Standard(net) && IpInRange(ip) && port < 65536
    ensures FromPair(net, s, port).Ok? ==> WellFormed(net, FromPair(net, s, port).value)
    ensures FromIp(ip, port).Ok? ==> WellFormed(net, FromIp(ip, port).value)
  {
    if ParseHost(net, s).Ok? {
      ParsedHostIsOk(net, s);
    }
  }

  /** The addresses that text can denote are exactly the well-formed ones. */
  lemma ConstructibleIffWellFormed(net: Net, a: Address)
    requires Standard(net)
    ensures WellFormed(net, a) <==> exists s :: FromText(net, s) == Ok(a)
  {
    if WellFormed(net, a) {
      AddressRoundTrip(net, a);
    }
    if exists s :: FromText(net, s) == Ok(a) {
      var s :| FromText(net, s) == Ok(a);
      TextIsSound(net, s);
    }
  }

  // ---- Instructions ----

  /** `allowOnion` is the configured default; `preferOnion` overrides it when set. */
  datatype Policy = Policy(allowLocal: bool, allowOnion: bool, preferOnion: Option<bool>)

  predicate OnionAllowed(p: Policy) {
    match p.preferOnion
    case Some(b) => b
    case None => p.allowOnion
  }

  datatype Refusal = LocalAddress | BadHostname | OnionNotSupported | OnionDisabled | BadOnion | OnionResolve

  datatype StreamInstructions = Exit(hostname: string, port: nat) | Hs(hsid: nat, hsPort: nat, hsName: string)

  datatype ResolveInstructions = AskExit(hostname: string) | Return(ips: seq<Ip>)

  /** `enforce_config`, with onion service support compiled in. */
  function EnforceConfig(net: Net, a: Address, p: Policy): Option<Refusal> {
    if !p.allowLocal && IsLocal(a.host) then Some(LocalAddress)
    else if a.host.Hostname? && !net.valid(a.host.name) then Some(BadHostname)
    else if a.host.Hostname? && EndsOnion(a.host.name) then Some(OnionNotSupported)
    else if a.host.Onion? && !OnionAllowed(p) then Some(OnionDisabled)
    else None
  }

  /** Where the last two components of a name start. */
  function LastTwoStart(s: string): (k: nat)
    ensures k <= |s|
  {
    match LastIndex(s, '.')
    case None => 0
    case Some(i) =>
      match LastIndex(s[..i], '.')
      case None => 0
      case Some(j) => j + 1
  }

  function ToStream(net: Net, a: Address, p: Policy): Result<StreamInstructions, Refusal> {
    match EnforceConfig(net, a, p)
    case Some(e) => Err(e)
    case None =>
      match a.host
      case Hostname(s) => Ok(Exit(s, a.port))
      case HostIp(ip) => Ok(Exit(PrintIp(net, ip), a.port))
      case Onion(s) =>
        match net.parseHsId(s[LastTwoStart(s)..])
        case None => Err(BadOnion)
        case Some(id) => Ok(Hs(id, a.port, s))
  }

  function ToResolve(net: Net, a: Address, p: Policy): Result<ResolveInstructions, Refusal> {
    if a.host.Onion? then Err(OnionResolve)
    else match EnforceConfig(net, a, p)
      case Some(e) => Err(e)
      case None => if a.host.Hostname? then Ok(AskExit(a.host.name)) else Ok(Return([a.host.ip]))
  }

  /** The branches that "ought not to occur" do not: a well-formed address is refused only for
      being local, or for being an onion address that is switched off, and exactly then. */
  lemma RefusedIff(net: Net, a: Address, p: Policy)
    requires WellFormed(net, a)
    ensures EnforceConfig(net, a, p) ==
            if IsLocal(a.host) && !p.allowLocal then Some(LocalAddress)
            else if a.host.Onion? && !OnionAllowed(p) then Some(OnionDisabled)
            else None
  {
  }

  function AsNumber(ip: Ip): nat
    requires ip.V4?
  {
    ip.a * 0x100_0000 + ip.b * 0x1_0000 + ip.c * 0x100 + ip.d
  }

  /** `ip` is in the network of `size` addresses that starts at `base`. */
  predicate InNetwork(ip: Ip, base: Ip, size: nat)
    requires ip.V4? && base.V4?
  {
    AsNumber(base) <= AsNumber(ip) < AsNumber(base) + size
  }

  lemma LocalNameIff(name: string)
    ensures LowerAll(name) == "localhost" <==> SameText(name, "localhost")
  {
    LowerIs(name, "localhost");
  }

  /** The local IPv4 addresses are 127.0.0.0/8 and the private networks of section 3 of
      RFC 1918; the local IPv6 address is ::1; the local name is "localhost" in any case. */
  lemma LocalIff(h: Host)
    requires h.HostIp? ==> IpInRange(h.ip)
    ensures h.HostIp? && h.ip.V4? ==>
              (IsLocal(h) <==>
               || InNetwork(h.ip, V4(127, 0, 0, 0), 0x100_0000)
               || InNetwork(h.ip, V4(10, 0, 0, 0), 0x100_0000)
               || InNetwork(h.ip, V4(172, 16, 0, 0), 0x10_0000)
               || InNetwork(h.ip, V4(192, 168, 0, 0), 0x1_0000))
    ensures h.HostIp? && h.ip.V6? ==> (IsLocal(h) <==> h.ip == V6(1))
    ensures h.Hostname? ==> (IsLocal(h) <==> SameText(h.name, "localhost"))
    ensures h.Onion? ==> !IsLocal(h)
  {
    if h.Hostname? {
      LocalNameIff(h.name);
    }
  }

  /** `s[k..]` is made of the last two components of `s`. */
  predicate LastTwo(s: string, k: nat)
    requires k <= |s|
  {
    (k == 0 || s[k - 1] == '.') && Count(s[k..], '.') == 1
  }

  /** A dot just before `j` counts from `i` on. */
  lemma TwoDots(s: string, i: nat, j: nat)
    requires i < j <= |s| && s[j - 1] == '.' && Count(s[j..], '.') == 1
    ensures Count(s[i..], '.') >= 2
  {
    CountConcat(s[i..j], s[j..], '.');
    assert s[i..] == s[i..j] + s[j..];
    CountZero(s[i..j], '.');
    assert s[i..j][j - 1 - i] == '.';
  }

  lemma OnionHasDot(s: string)
    requires EndsOnion(s)
    ensures '.' in s
  {
    LowerAt(s[|s| - 6..], 0);
    assert s[|s| - 6] == '.';
  }

  lemma OneDot(a: string, b: string)
    requires '.' !in a && '.' !in b
    ensures Count(a + ['.'] + b, '.') == 1
  {
    CountConcat(a + ['.'], b, '.');
    CountConcat(a, ['.'], '.');
    CountZero(a, '.');
    CountZero(b, '.');
  }

  lemma SuffixWithDot(s: string, k: nat, i: nat)
    requires k <= i < |s| && s[i] == '.' && '.' !in s[..i][k..] && '.' !in s[i + 1..]
    ensures Count(s[k..], '.') == 1
  {
    OneDot(s[..i][k..], s[i + 1..]);
    assert s[k..] == s[..i][k..] + ['.'] + s[i + 1..];
  }

  lemma LastTwoHolds(s: string)
    requires EndsOnion(s)
    ensures LastTwo(s, LastTwoStart(s))
  {
    OnionHasDot(s);
    var i := LastIndex(s, '.').value;
    assert s[..i][0..] == s[..i];
    SuffixWithDot(s, LastTwoStart(s), i);
  }

  /** In an onion name, the part that identifies the service is the last two components: the
      suffix with exactly one dot that starts the name or follows a dot. */
  lemma ServiceIsLastTwo(s: string, k: nat)
    requires EndsOnion(s) && k <= |s|
    ensures LastTwo(s, k) <==> k == LastTwoStart(s)
  {
    var k0 := LastTwoStart(s);
    LastTwoHolds(s);
    if LastTwo(s, k) {
      if k < k0 {
        TwoDots(s, k, k0);
      } else if k0 < k {
        TwoDots(s, k0, k);
      }
    }
  }

  /** An exit is asked for a name that denotes the very same address, never an onion one. */
  lemma ExitMeansAddress(net: Net, a: Address, p: Policy)
    requires Standard(net) && WellFormed(net, a)
    requires ToStream(net, a, p).Ok? && ToStream(net, a, p).value.Exit?
    ensures FromPair(net, ToStream(net, a, p).value.hostname, ToStream(net, a, p).value.port) == Ok(a)
    ensures !EndsOnion(ToStream(net, a, p).value.hostname)
  {
    HostRoundTrip(net, a.host);
    if a.host.HostIp? && EndsOnion(PrintHost(net, a.host)) {
      OnionIsNotV4(PrintHost(net, a.host));
      OnionIsNotV6(net, PrintHost(net, a.host));
      IpRoundTrip(net, a.host.ip);
    }
  }

  /** An onion service is reached only for an onion address that is allowed, by the identity in
      the last two components of its name, on the same port and under the same name. */
  lemma ServiceMeansAddress(net: Net, a: Address, p: Policy)
    requires WellFormed(net, a) && ToStream(net, a, p).Ok? && ToStream(net, a, p).value.Hs?
    ensures var r := ToStream(net, a, p).value;
            && a == Address(Onion(r.hsName), r.hsPort) && OnionAllowed(p)
            && exists k :: 0 <= k <= |r.hsName| && LastTwo(r.hsName, k) && net.parseHsId(r.hsName[k..]) == Some(r.hsid)
  {
    LastTwoHolds(a.host.name);
  }

  /** Resolving: an onion address is always refused as such, an IP address stands for itself,
      and an exit is asked only for a name that denotes the same address. */
  lemma ResolveMeansAddress(net: Net, a: Address, p: Policy)
    requires Standard(net) && WellFormed(net, a)
    ensures ToResolve(net, a, p) == Err(OnionResolve) <==> a.host.Onion?
    ensures !a.host.Onion? && IsLocal(a.host) && !p.allowLocal <==> ToResolve(net, a, p) == Err(LocalAddress)
    ensures ToResolve(net, a, p).Ok? ==>
              match ToResolve(net, a, p).value
              case Return(ips) => |ips| == 1 && FromIp(ips[0], a.port) == Ok(a)
              case AskExit(name) => FromPair(net, name, a.port) == Ok(a) && ParseIp(net, name).None?
    ensures ToResolve(net, a, p).Err? ==> ToResolve(net, a, p).error in {OnionResolve, LocalAddress}
  {
    HostRoundTrip(net, a.host);
  }

  /** The preference if there is one, else the configured default. */
  predicate OnionsWanted(p: Policy) {
    p.preferOnion == Some(true) || (p.preferOnion.None? && p.allowOnion)
  }

  /** Which addresses get a stream, and which one: every well-formed address that is not a local
      one where those are not allowed gets an exit, under its name or address; an onion name
      gets its service if onion services are wanted and its last two components, at `k`, hold
      an identity. */
  lemma StreamIs(net: Net, a: Address, p: Policy, k: nat)
    requires WellFormed(net, a) && (a.host.Onion? ==> k <= |a.host.name| && LastTwo(a.host.name, k))
    ensures ToStream(net, a, p) ==
            if IsLocal(a.host) && !p.allowLocal then Err(LocalAddress)
            else match a.host
              case Hostname(name) => Ok(Exit(name, a.port))
              case HostIp(ip) => Ok(Exit(PrintIp(net, ip), a.port))
              case Onion(name) =>
                if !OnionsWanted(p) then Err(OnionDisabled)
                else match net.parseHsId(name[k..])
                  case None => Err(BadOnion)
                  case Some(id) => Ok(Hs(id, a.port, name))
  {
    if a.host.Onion? {
      ServiceIsLastTwo(a.host.name, k);
    }
  }
}
