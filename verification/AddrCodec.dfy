/** The textual form of a peer address and the two parsers that read it back. */
module AddrCodec {
  import opened Types

  function Digit(d: nat): char
    requires d < 10
  {
    '0' + d as char
  }

  /** The decimal rendering of `%d`. */
  function Decimal(n: nat): (s: string)
    ensures |s| > 0
    ensures forall c | c in s :: '0' <= c <= '9'
  {
    if n < 10 then [Digit(n)] else Decimal(n / 10) + [Digit(n % 10)]
  }

  function FormatNodeAddr(ip: string, port: UInt32): string {
    ip + ":" + Decimal(port)
  }

  function FirstAddr(p: NodeInfo): Option<string> {
    if |p.addrs| == 0 then None else Some(FormatNodeAddr(p.addrs[0].ip, p.addrs[0].port))
  }

  /** The first address as text, empty when there is none. */
  function FirstAddrText(p: NodeInfo): (text: string)
    ensures p.addrs != [] ==> FirstAddr(p) == Some(text)
    ensures p.addrs == [] ==> FirstAddr(p) == None && text == ""
  {
    if FirstAddr(p).Some? then FirstAddr(p).value else ""
  }

  /** Position of the last `c`, or -1. */
  function LastIndex(s: string, c: char): (r: int)
    ensures -1 <= r < |s|
    ensures r >= 0 ==> s[r] == c && forall k | r < k < |s| :: s[k] != c
    ensures r == -1 ==> c !in s
  {
    if s == "" then -1
    else if s[|s| - 1] == c then |s| - 1
    else LastIndex(s[..|s| - 1], c)
  }

  /** Position of the first `c`, or -1. */
  function IndexOf(s: string, c: char): (r: int)
    ensures -1 <= r < |s|
    ensures r >= 0 ==> s[r] == c && forall k | 0 <= k < r :: s[k] != c
    ensures r == -1 ==> c !in s
  {
    if s == "" then -1
    else if s[0] == c then 0
    else
      var r := IndexOf(s[1..], c);
      if r < 0 then -1 else r + 1
  }

  /** Go's `net.SplitHostPort`: bracketed or colon-free host, last colon, port text. Looking
      for a byte beyond a position is asking whether its last occurrence lies beyond it. */
  function SplitHostPort(s: string): Option<(string, string)> {
    var i := LastIndex(s, ':');
    if i < 0 then None
    else if s[0] == '[' then
      var end := IndexOf(s, ']');
      if end < 0 || end + 1 != i then None
      else if LastIndex(s, '[') >= 1 || LastIndex(s, ']') >= end + 1 then None
      else Some((s[1..end], s[i + 1..]))
    else if IndexOf(s, ':') < i || '[' in s || ']' in s then None
    else Some((s[..i], s[i + 1..]))
  }

  datatype Scan = Number(n: nat) | Syntax | Range

  const MAX_UINT64: nat := 0xFFFF_FFFF_FFFF_FFFF
  const MAX_INT64: int := 0x7FFF_FFFF_FFFF_FFFF

  /** Left-to-right scan of `strconv.ParseUint` in base 10: the first fault met decides. */
  function ScanUint(s: string, acc: nat): Scan
    decreases |s|
  {
    if s == "" then Number(acc)
    else if !('0' <= s[0] <= '9') then Syntax
    else
      var next := acc * 10 + (s[0] - '0') as nat;
      if next > MAX_UINT64 then Range else ScanUint(s[1..], next)
  }

  /** `strconv.Atoi`: the value it returns and whether it reports no error. */
  function Atoi(s: string): (int, bool) {
    var negative := s != "" && s[0] == '-';
    var body := if s != "" && (s[0] == '-' || s[0] == '+') then s[1..] else s;
    if body == "" then (0, false)
    else match ScanUint(body, 0)
      case Syntax => (0, false)
      case Range => (if negative then -MAX_INT64 - 1 else MAX_INT64, false)
      case Number(n) =>
        if negative then (if n > MAX_INT64 + 1 then (-MAX_INT64 - 1, false) else (-(n as int), true))
        else (if n > MAX_INT64 then (MAX_INT64, false) else (n, true))
  }

  /** Go's `uint32(p)` of a 64-bit integer: truncation to the low 32 bits. */
  function ToUInt32(p: int): UInt32 {
    p % 0x1_0000_0000
  }

  /** `parseHostPort`: used by the node when it relays a join. */
  function ParseHostPort(addr: string): Option<NodeAddr> {
    match SplitHostPort(addr)
    case None => None
    case Some((h, portText)) =>
      var (p, ok) := Atoi(portText);
      if !ok || p < 0 then None else Some(NodeAddr(h, ToUInt32(p)))
  }

  /** `mustParsePort`: any failure to split yields port 0, a failed Atoi its fallback value. */
  function MustParsePort(addr: string): int {
    match SplitHostPort(addr)
    case None => 0
    case Some((_, portText)) => Atoi(portText).0
  }

  /** The auto-connect subscriber's parser: host up to the last colon, port by `MustParsePort`. */
  function RootParse(addr: string): NodeAddr
    requires ':' in addr
  {
    NodeAddr(addr[..LastIndex(addr, ':')], ToUInt32(MustParsePort(addr)))
  }

  predicate Clean(host: string) {
    ':' !in host && '[' !in host && ']' !in host
  }

  /** A host already written in brackets, such as an IPv6 literal. */
  predicate Bracketed(host: string) {
    |host| >= 2 && host[0] == '[' && host[|host| - 1] == ']'
    && '[' !in host[1..|host| - 1] && ']' !in host[1..|host| - 1]
  }

  // ---- What the two parsers accept, on any text at all -------------------------------------------------

  /** A host and a port text written together: the host plain, or in one pair of brackets. */
  predicate Written(addr: string, host: string, portText: string) {
    && Clean(portText)
    && ((Clean(host) && addr == host + ":" + portText)
        || ('[' !in host && ']' !in host && addr == "[" + host + "]:" + portText))
  }

  lemma SplitSound(addr: string, host: string, portText: string)
    requires SplitHostPort(addr) == Some((host, portText))
    ensures Written(addr, host, portText)
  {
    hide LastIndex, IndexOf;
    var i := LastIndex(addr, ':');
    assert addr == addr[..i] + ":" + portText;
    Apart(addr, i + 1, portText);
    if addr[0] == '[' {
      assert addr == "[" + host + "]:" + portText;
      NoBrackets(addr, host);
    } else {
      assert addr == host + ":" + portText;
      assert forall k | 0 <= k < i :: addr[k] == host[k];
    }
  }

  /** What follows the last colon of a text that splits. */
  lemma Apart(addr: string, j: nat, portText: string)
    requires SplitHostPort(addr).Some? && j == LastIndex(addr, ':') + 1 && portText == addr[j..]
    ensures Clean(portText)
  {
    hide LastIndex, IndexOf;
    assert forall k | 0 <= k < |portText| :: portText[k] == addr[j + k];
  }

  lemma NoBrackets(addr: string, host: string)
    requires addr != "" && addr[0] == '[' && SplitHostPort(addr).Some? && SplitHostPort(addr).value.0 == host
    ensures '[' !in host && ']' !in host
  {
    hide LastIndex, IndexOf;
    assert forall k | 0 <= k < |host| :: host[k] == addr[k + 1];
  }

  lemma SplitPlain(host: string, portText: string)
    requires Clean(host) && Clean(portText)
    ensures SplitHostPort(host + ":" + portText) == Some((host, portText))
  {
    hide LastIndex, IndexOf;
    var s, n := host + ":" + portText, |host|;
    assert s[n] == ':' && s[..n] == host && s[n + 1..] == portText;
    assert forall k | 0 <= k < n :: s[k] in host;
    assert forall k | n < k < |s| :: s[k] in portText;
    assert ':' in s;
  }

  lemma SplitInBrackets(host: string, portText: string)
    requires '[' !in host && ']' !in host && Clean(portText)
    ensures SplitHostPort("[" + host + "]:" + portText) == Some((host, portText))
  {
    hide LastIndex, IndexOf;
    var s, n := "[" + host + "]:" + portText, |host| + 1;
    assert s[0] == '[' && s[n] == ']' && s[n + 1] == ':' && s[1..n] == host && s[n + 2..] == portText;
    assert forall k | 0 < k < n :: s[k] in host;
    assert forall k | n + 1 < k < |s| :: s[k] in portText;
    assert ':' in s && ']' in s;
  }

  /** Splitting succeeds exactly on the two written forms, and gives back what was written. */
  lemma SplitIff(addr: string, host: string, portText: string)
    ensures SplitHostPort(addr) == Some((host, portText)) <==> Written(addr, host, portText)
  {
    hide SplitHostPort;
    if SplitHostPort(addr) == Some((host, portText)) {
      SplitSound(addr, host, portText);
    } else if Written(addr, host, portText) {
      if Clean(host) && addr == host + ":" + portText {
        SplitPlain(host, portText);
      } else {
        SplitInBrackets(host, portText);
      }
    }
  }

  predicate Digits(s: string) {
    forall c | c in s :: '0' <= c <= '9'
  }

  /** The number written by some digits after the digits of `acc`. */
  function Written10(s: string, acc: nat): nat
    requires Digits(s)
  {
    if s == "" then acc
    else
      assert s[0] in s && forall c | c in s[1..] :: c in s;
      Written10(s[1..], acc * 10 + (s[0] - '0') as nat)
  }

  lemma DigitsTail(s: string)
    requires s != ""
    ensures Digits(s) <==> '0' <= s[0] <= '9' && Digits(s[1..])
  {
    assert s[0] in s && (forall c | c in s[1..] :: c in s) && (forall c | c in s :: c == s[0] || c in s[1..]);
  }

  lemma {:induction false} ScanIff(s: string, acc: nat)
    requires acc <= MAX_UINT64
    ensures ScanUint(s, acc).Number? <==> Digits(s) && Written10(s, acc) <= MAX_UINT64
    ensures ScanUint(s, acc).Number? ==> ScanUint(s, acc).n == Written10(s, acc)
    ensures Digits(s) ==> acc <= Written10(s, acc)
    decreases |s|
  {
    if s != "" {
      DigitsTail(s);
      if '0' <= s[0] <= '9' {
        var next := acc * 10 + (s[0] - '0') as nat;
        if next <= MAX_UINT64 {
          ScanIff(s[1..], next);
        } else if Digits(s[1..]) {
          GrowsFrom(s[1..], next);
        }
      } else {
        assert s[0] in s;
      }
    }
  }

  lemma {:induction false} GrowsFrom(s: string, acc: nat)
    requires Digits(s)
    ensures acc <= Written10(s, acc)
    decreases |s|
  {
    if s != "" {
      assert s[0] in s && forall c | c in s[1..] :: c in s;
      GrowsFrom(s[1..], acc * 10 + (s[0] - '0') as nat);
    }
  }

  /** `Atoi` reports no error exactly on an optional sign and some digits whose number fits 64 bits. */
  lemma AtoiIff(s: string)
    ensures var negative := s != "" && s[0] == '-';
            var body := if s != "" && (s[0] == '-' || s[0] == '+') then s[1..] else s;
            && (Atoi(s).1 <==> body != "" && Digits(body) && Written10(body, 0) <= (if negative then MAX_INT64 + 1 else MAX_INT64))
            && (Atoi(s).1 ==> Atoi(s).0 == if negative then -(Written10(body, 0) as int) else Written10(body, 0))
  {
    var body := if s != "" && (s[0] == '-' || s[0] == '+') then s[1..] else s;
    ScanIff(body, 0);
  }

  /** The relay parser accepts exactly a written host with a number that is not negative, and keeps
      the low 32 bits of it. */
  lemma ParseIff(addr: string, a: NodeAddr)
    ensures ParseHostPort(addr) == Some(a) <==>
            exists t :: Written(addr, a.ip, t) && Atoi(t).1 && Atoi(t).0 >= 0 && a.port == Atoi(t).0 % 0x1_0000_0000
  {
    hide SplitHostPort, Atoi, Written;
    if ParseHostPort(addr) == Some(a) {
      var t := SplitHostPort(addr).value.1;
      SplitIff(addr, a.ip, t);
    }
    if t :| Written(addr, a.ip, t) && Atoi(t).1 && Atoi(t).0 >= 0 && a.port == Atoi(t).0 % 0x1_0000_0000 {
      SplitIff(addr, a.ip, t);
    }
  }

  /** The auto-connect parser cuts at the last colon, whatever stands before it, and takes the port of
      what it cannot split to be 0. */
  lemma RootParseCuts(addr: string)
    requires ':' in addr
    ensures var r := RootParse(addr);
            && (exists rest :: addr == r.ip + ":" + rest && ':' !in rest)
            && (forall h, t | Written(addr, h, t) :: r.port == Atoi(t).0 % 0x1_0000_0000)
            && ((forall h, t :: !Written(addr, h, t)) ==> r.port == 0)
  {
    hide SplitHostPort, Atoi, Written;
    var i := LastIndex(addr, ':');
    assert addr == addr[..i] + ":" + addr[i + 1..] && ':' !in addr[i + 1..];
    forall h, t | Written(addr, h, t) ensures SplitHostPort(addr) == Some((h, t)) {
      SplitIff(addr, h, t);
    }
    if SplitHostPort(addr).Some? {
      SplitIff(addr, SplitHostPort(addr).value.0, SplitHostPort(addr).value.1);
    }
  }

  // ---- Decimal numbers ------------------------------------------------------------------

  lemma ScanAppend(s: string, d: nat, acc: nat, n: nat)
    requires d < 10 && n * 10 + d <= MAX_UINT64
    requires ScanUint(s, acc) == Number(n)
    ensures ScanUint(s + [Digit(d)], acc) == Number(n * 10 + d)
    decreases |s|
  {
    if s == "" {
      assert s + [Digit(d)] == [Digit(d)];
      assert [Digit(d)][1..] == "";
    } else {
      assert (s + [Digit(d)])[1..] == s[1..] + [Digit(d)];
      ScanAppend(s[1..], d, acc * 10 + (s[0] - '0') as nat, n);
    }
  }

  lemma {:induction false} ScanDecimal(n: nat)
    requires n <= MAX_UINT64
    ensures ScanUint(Decimal(n), 0) == Number(n)
  {
    if n < 10 {
      assert Decimal(n)[1..] == "";
    } else {
      ScanDecimal(n / 10);
      ScanAppend(Decimal(n / 10), n % 10, 0, n / 10);
    }
  }

  lemma AtoiDecimal(n: nat)
    requires n <= MAX_INT64
    ensures Atoi(Decimal(n)) == (n, true)
  {
    ScanDecimal(n);
    assert Decimal(n)[0] in Decimal(n);
  }

  // ---- Format then parse ------------------------------------------------------------------

  /** The last colon of a formatted address is the one the formatter wrote. */
  lemma LastColonOfFormat(ip: string, port: UInt32)
    ensures var s := FormatNodeAddr(ip, port);
            LastIndex(s, ':') == |ip| && s[..|ip|] == ip && s[|ip|] == ':' && s[|ip| + 1..] == Decimal(port)
  {
    var d := Decimal(port);
    assert ':' !in d;
    var s := ip + ":" + d;
    assert s[|ip| + 1..] == d;
    assert s[|ip|] == ':' && ':' in s;
    assert forall k | |ip| < k < |s| :: s[k] == d[k - |ip| - 1];
  }

  /** Two peers print the same address only when host and port are the same. */
  lemma FormatInjective(ip1: string, p1: UInt32, ip2: string, p2: UInt32)
    requires FormatNodeAddr(ip1, p1) == FormatNodeAddr(ip2, p2)
    ensures ip1 == ip2 && p1 == p2
  {
    LastColonOfFormat(ip1, p1);
    LastColonOfFormat(ip2, p2);
    ScanDecimal(p1);
    ScanDecimal(p2);
  }

  /** The characters of a formatted address: the host's, one colon, then digits. */
  lemma CharsOfFormat(ip: string, port: UInt32)
    ensures var s := FormatNodeAddr(ip, port);
            |s| > |ip| && s[|ip|] == ':' && (forall k | 0 <= k < |ip| :: s[k] == ip[k])
            && (forall k | |ip| < k < |s| :: s[k] != ':' && s[k] != '[' && s[k] != ']')
  {
    var d := Decimal(port);
    var s := ip + ":" + d;
    assert forall k | |ip| < k < |s| :: s[k] == d[k - |ip| - 1] && s[k] in d;
  }

  lemma SplitOfPlain(ip: string, port: UInt32)
    requires ip == "" || ip[0] != '['
    ensures SplitHostPort(FormatNodeAddr(ip, port)) == if Clean(ip) then Some((ip, Decimal(port))) else None
  {
    LastColonOfFormat(ip, port);
    CharsOfFormat(ip, port);
    var s := FormatNodeAddr(ip, port);
    if c :| c in {':', '[', ']'} && c in ip {
      var k :| 0 <= k < |ip| && ip[k] == c;
      assert s[k] == c;
    }
  }

  lemma SplitOfBracketed(ip: string, port: UInt32)
    requires Bracketed(ip)
    ensures SplitHostPort(FormatNodeAddr(ip, port)) == Some((ip[1..|ip| - 1], Decimal(port)))
  {
    LastColonOfFormat(ip, port);
    CharsOfFormat(ip, port);
    var s := FormatNodeAddr(ip, port);
    var n := |ip|;
    assert s[n - 1] == ']' && s[0] == '[';
    assert forall k | 1 <= k < n - 1 :: s[k] == ip[1..n - 1][k - 1];
    assert s[1..n - 1] == ip[1..n - 1];
  }

  lemma SplitNeedsBrackets(ip: string, port: UInt32)
    requires ip != "" && ip[0] == '['
    requires SplitHostPort(FormatNodeAddr(ip, port)).Some?
    ensures Bracketed(ip)
  {
    LastColonOfFormat(ip, port);
    CharsOfFormat(ip, port);
    var s := FormatNodeAddr(ip, port);
    assert IndexOf(s, ']') == |ip| - 1;
    assert forall k | 1 <= k < |ip| - 1 :: s[k] == ip[1..|ip| - 1][k - 1];
  }

  /** What `SplitHostPort` makes of a formatted address, for every host there is. */
  lemma SplitOfFormat(ip: string, port: UInt32)
    ensures SplitHostPort(FormatNodeAddr(ip, port)) ==
            if Clean(ip) then Some((ip, Decimal(port)))
            else if Bracketed(ip) then Some((ip[1..|ip| - 1], Decimal(port)))
            else None
  {
    hide SplitHostPort, FormatNodeAddr;
    if ip == "" || ip[0] != '[' {
      SplitOfPlain(ip, port);
    } else if Bracketed(ip) {
      SplitOfBracketed(ip, port);
    } else if SplitHostPort(FormatNodeAddr(ip, port)).Some? {
      SplitNeedsBrackets(ip, port);
    }
  }

  /** The relay parser on a formatted address: exact on clean hosts, strips one pair of
      brackets, and refuses everything else. The port never changes. */
  lemma ParseOfFormat(ip: string, port: UInt32)
    ensures ParseHostPort(FormatNodeAddr(ip, port)) ==
            if Clean(ip) then Some(NodeAddr(ip, port))
            else if Bracketed(ip) then Some(NodeAddr(ip[1..|ip| - 1], port))
            else None
  {
    hide SplitHostPort, Atoi, FormatNodeAddr;
    SplitOfFormat(ip, port);
    AtoiDecimal(port);
  }

  /** `parseHostPort` inverts `formatNodeAddr` on exactly the hosts free of ':' '[' ']'. */
  lemma ParseInvertsFormatIff(ip: string, port: UInt32)
    ensures ParseHostPort(FormatNodeAddr(ip, port)) == Some(NodeAddr(ip, port)) <==> Clean(ip)
  {
    hide ParseHostPort;
    ParseOfFormat(ip, port);
  }

  /** The auto-connect parser always keeps the host, and keeps the port unless the host made
      `SplitHostPort` fail, when it silently becomes 0. */
  lemma RootParseOfFormat(ip: string, port: UInt32)
    ensures ':' in FormatNodeAddr(ip, port)
    ensures RootParse(FormatNodeAddr(ip, port)) ==
            NodeAddr(ip, if Clean(ip) || Bracketed(ip) then port else 0)
  {
    hide SplitHostPort, Atoi, LastIndex, FormatNodeAddr, Decimal;
    LastColonOfFormat(ip, port);
    assert FormatNodeAddr(ip, port)[|ip|] == ':';
    SplitOfFormat(ip, port);
    AtoiDecimal(port);
  }

  /** The two parsers agree on a formatted address exactly when its host is clean. */
  lemma ParsersAgreeIff(ip: string, port: UInt32)
    ensures ':' in FormatNodeAddr(ip, port)
    ensures ParseHostPort(FormatNodeAddr(ip, port)) == Some(RootParse(FormatNodeAddr(ip, port)))
            <==> Clean(ip)
  {
    hide ParseHostPort, RootParse, FormatNodeAddr;
    ParseOfFormat(ip, port);
    RootParseOfFormat(ip, port);
  }
}
