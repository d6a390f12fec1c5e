/** Endpoint strings: how newBaseEndpointInfo prints "ip:port" and how PortPart reads the
    port back. JoinHostPort, SplitHostPort, Itoa and Atoi follow Go's net and strconv packages. */
module HostPort {
  import opened Basics

  // ----- strconv -----

  predicate IsDigit(c: char) { '0' <= c <= '9' }

  predicate AllDigits(s: string) { forall i :: 0 <= i < |s| ==> IsDigit(s[i]) }

  function DigitChar(d: nat): (c: char)
    requires d < 10
    ensures IsDigit(c) && c as int - '0' as int == d
  {
    ('0' as int + d) as char
  }

  function Digits(n: nat): (s: string)
    ensures s != "" && AllDigits(s)
  {
    if n < 10 then [DigitChar(n)] else Digits(n / 10) + [DigitChar(n % 10)]
  }

  function Itoa(n: int): string {
    if n < 0 then "-" + Digits(-n) else Digits(n)
  }

  function DigitsValue(s: string): int
    requires AllDigits(s)
  {
    if s == "" then 0
    else 10 * DigitsValue(s[..|s| - 1]) + (s[|s| - 1] as int - '0' as int)
  }

  /** The range of Go's int on the 64-bit targets this program is built for. */
  predicate InInt(n: int) { -0x8000_0000_0000_0000 <= n < 0x8000_0000_0000_0000 }

  /** None for a syntax or a range error. */
  function Atoi(s: string): Option<int> {
    var signed := s != "" && (s[0] == '-' || s[0] == '+');
    var digits := if signed then s[1..] else s;
    if digits == "" || !AllDigits(digits) then None
    else
      var n := if signed && s[0] == '-' then -DigitsValue(digits) else DigitsValue(digits);
      if InInt(n) then Some(n) else None
  }

  lemma {:induction false} DigitsValueOfDigits(n: nat)
    ensures DigitsValue(Digits(n)) == n
  {
    if n >= 10 {
      DigitsValueOfDigits(n / 10);
      var s := Digits(n);
      assert s[..|s| - 1] == Digits(n / 10);
    }
  }

  lemma AtoiOfItoa(n: int)
    requires InInt(n)
    ensures Atoi(Itoa(n)) == Some(n)
  {
    var digits := Digits(if n < 0 then -n else n);
    DigitsValueOfDigits(if n < 0 then -n else n);
    assert IsDigit(digits[0]);
    if n < 0 {
      assert Itoa(n)[1..] == digits;
    }
  }

  lemma ItoaChars(n: int)
    ensures ':' !in Itoa(n) && '[' !in Itoa(n) && ']' !in Itoa(n)
  {
  }

  // ----- net.JoinHostPort and net.SplitHostPort -----

  function JoinHostPort(host: string, port: string): string {
    (if ':' in host then "[" + host + "]" else host) + ":" + port
  }

  /** strings.IndexByte: the first occurrence, or -1. */
  function IndexOf(s: string, c: char): (i: int)
    ensures -1 <= i < |s|
    ensures i == -1 <==> c !in s
    ensures i != -1 ==> s[i] == c && forall k :: 0 <= k < i ==> s[k] != c
  {
    if s == "" then -1
    else if s[0] == c then 0
    else
      var i := IndexOf(s[1..], c);
      assert s == [s[0]] + s[1..];
      if i == -1 then -1 else i + 1
  }

  /** strings.LastIndexByte: the last occurrence, or -1. */
  function LastIndexOf(s: string, c: char): (i: int)
    ensures -1 <= i < |s|
    ensures i == -1 <==> c !in s
    ensures i != -1 ==> s[i] == c && forall k :: i < k < |s| ==> s[k] != c
  {
    if s == "" then -1
    else if s[|s| - 1] == c then |s| - 1
    else
      assert s == s[..|s| - 1] + [s[|s| - 1]];
      LastIndexOf(s[..|s| - 1], c)
  }

  datatype AddrError =
    MissingPort | MissingCloseBracket | TooManyColons | UnexpectedOpenBracket | UnexpectedCloseBracket

  datatype Split = Split(host: string, port: string) | SplitError(error: AddrError)

  function SplitHostPort(s: string): Split {
    var i := LastIndexOf(s, ':');
    if i < 0 then SplitError(MissingPort)
    else if s[0] == '[' then
      var end := IndexOf(s, ']');
      if end < 0 then SplitError(MissingCloseBracket)
      else if end + 1 == |s| then SplitError(MissingPort)
      else if end + 1 == i then
        if '[' in s[1..] then SplitError(UnexpectedOpenBracket)
        else if ']' in s[end + 1..] then SplitError(UnexpectedCloseBracket)
        else Split(s[1..end], s[i + 1..])
      else if s[end + 1] == ':' then SplitError(TooManyColons)
      else SplitError(MissingPort)
    else if ':' in s[..i] then SplitError(TooManyColons)
    else if '[' in s then SplitError(UnexpectedOpenBracket)
    else if ']' in s then SplitError(UnexpectedCloseBracket)
    else Split(s[..i], s[i + 1..])
  }

  // ----- the endpoint string and PortPart -----

  /** The Endpoint field newBaseEndpointInfo computes. */
  function EndpointString(ip: string, port: int): string {
    JoinHostPort(ip, Itoa(port))
  }

  datatype PortResult = Port(number: int) | SplitFailed(error: AddrError) | BadNumber

  function PortPart(s: string): PortResult {
    match SplitHostPort(s)
    case SplitError(e) => SplitFailed(e)
    case Split(_, port) =>
      match Atoi(port)
      case None => BadNumber
      case Some(n) => Port(n)
  }

  predicate BracketFree(s: string) { '[' !in s && ']' !in s }

  /** The hosts whose printed form SplitHostPort can take apart again. */
  predicate Splittable(host: string) {
    || BracketFree(host)
    || (':' !in host && |host| >= 2 && host[0] == '[' && host[|host| - 1] == ']' && BracketFree(host[1..|host| - 1]))
  }

  lemma LastColon(prefix: string, port: string)
    requires ':' !in port
    ensures LastIndexOf(prefix + ":" + port, ':') == |prefix|
  {
    var s := prefix + ":" + port;
    assert s[|prefix|] == ':' && s[|prefix| + 1..] == port;
    LastOccurrence(s, ':', |prefix|);
  }

  lemma LastOccurrence(s: string, c: char, i: nat)
    requires i < |s| && s[i] == c && c !in s[i + 1..]
    ensures LastIndexOf(s, c) == i
  {
  }

  lemma FirstOccurrence(s: string, t: string, c: char)
    requires c in s
    ensures IndexOf(s + t, c) == IndexOf(s, c)
  {
    assert forall k :: 0 <= k < |s| ==> (s + t)[k] == s[k];
  }

  /** A host without a colon is printed bare; this one does not open with a bracket. */
  lemma SplitBare(host: string, port: string)
    requires ':' !in host && ':' !in port && BracketFree(port)
    requires host == "" || host[0] != '['
    ensures SplitHostPort(host + ":" + port) ==
      if '[' in host then SplitError(UnexpectedOpenBracket)
      else if ']' in host then SplitError(UnexpectedCloseBracket)
      else Split(host, port)
  {
  }

  lemma InAppend(a: string, b: string, c: char)
    ensures c in a + b <==> c in a || c in b
  {
  }

  lemma FirstClose(x: string, rest: string)
    requires ']' !in x
    ensures IndexOf("[" + x + "]" + rest, ']') == |x| + 1
  {
    var s := "[" + x + "]" + rest;
    assert s[|x| + 1] == ']';
    assert forall k :: 0 <= k < |x| ==> s[k + 1] == x[k];
  }

  lemma BehindBracket(x: string, port: string)
    requires BracketFree(port)
    ensures var s := "[" + x + "]" + (":" + port);
      '[' in s[1..] <==> '[' in x
  {
    var s := "[" + x + "]" + (":" + port);
    InAppend(":", port, '[');
    InAppend("]", ":" + port, '[');
    InAppend(x, "]" + (":" + port), '[');
    assert s[1..] == x + ("]" + (":" + port));
  }

  /** SplitHostPort on a string that opens with a bracket, closed right before the last colon. */
  lemma SplitAtPair(s: string, x: string, port: string)
    requires |s| == |x| + |port| + 3 && s[0] == '[' && s[1..|x| + 1] == x && s[|x| + 3..] == port
    requires LastIndexOf(s, ':') == |x| + 2 && IndexOf(s, ']') == |x| + 1
    requires ('[' in s[1..] <==> '[' in x) && ']' !in s[|x| + 2..]
    ensures SplitHostPort(s) == if '[' in x then SplitError(UnexpectedOpenBracket) else Split(x, port)
  {
  }

  lemma PairIndices(x: string, port: string)
    requires ']' !in x && ':' !in port
    ensures var s := "[" + x + "]" + (":" + port);
      LastIndexOf(s, ':') == |x| + 2 && IndexOf(s, ']') == |x| + 1
  {
    assert "[" + x + "]" + (":" + port) == ("[" + x + "]") + ":" + port;
    LastColon("[" + x + "]", port);
    FirstClose(x, ":" + port);
  }

  lemma PairParts(x: string, port: string)
    requires BracketFree(port)
    ensures var s := "[" + x + "]" + (":" + port);
      && |s| == |x| + |port| + 3 && s[0] == '[' && s[1..|x| + 1] == x && s[|x| + 3..] == port
      && ']' !in s[|x| + 2..]
  {
    var s := "[" + x + "]" + (":" + port);
    assert s[|x| + 2..] == ":" + port;
  }

  /** One bracket pair in front of the port is taken off again. */
  lemma SplitPair(x: string, port: string)
    requires ']' !in x && ':' !in port && BracketFree(port)
    ensures SplitHostPort("[" + x + "]" + (":" + port)) ==
      if '[' in x then SplitError(UnexpectedOpenBracket) else Split(x, port)
  {
    PairIndices(x, port);
    PairParts(x, port);
    BehindBracket(x, port);
    SplitAtPair("[" + x + "]" + (":" + port), x, port);
  }

  /** A closing bracket before the end of the host is an error. */
  lemma SplitClosedEarly(s: string, i: nat)
    requires s != "" && s[0] == '[' && LastIndexOf(s, ':') == i
    requires IndexOf(s, ']') != -1 ==> IndexOf(s, ']') + 1 < i
    ensures SplitHostPort(s).SplitError?
  {
  }

  /** A colon-free host that opens with a bracket splits only as one closed bracket pair. */
  lemma SplitOpened(host: string, port: string)
    requires ':' !in host && ':' !in port && BracketFree(port)
    requires host != "" && host[0] == '['
    ensures match SplitHostPort(host + ":" + port)
            case Split(_, p) => Splittable(host) && p == port
            case SplitError(_) => !Splittable(host)
  {
    var end := IndexOf(host, ']');
    if end == |host| - 1 {
      var x := host[1..end];
      assert forall k :: 0 <= k < |x| ==> x[k] == host[k + 1];
      assert host == "[" + x + "]";
      assert host + ":" + port == host + (":" + port);
      SplitPair(x, port);
    } else {
      SplitUnclosed(host, port);
      NotOnePair(host, end);
    }
  }

  lemma SplitUnclosed(host: string, port: string)
    requires ':' !in host && ':' !in port && BracketFree(port)
    requires host != "" && host[0] == '[' && IndexOf(host, ']') != |host| - 1
    ensures SplitHostPort(host + ":" + port).SplitError?
  {
    var end := IndexOf(host, ']');
    assert host + ":" + port == host + (":" + port);
    LastColon(host, port);
    InAppend(host, ":" + port, ']');
    InAppend(":", port, ']');
    if end != -1 {
      FirstOccurrence(host, ":" + port, ']');
      assert end > 0 && host[1..][end - 1] == ']';
    }
    SplitClosedEarly(host + ":" + port, |host|);
  }

  lemma NotOnePair(host: string, end: int)
    requires host != "" && host[0] == '[' && end == IndexOf(host, ']') != |host| - 1
    ensures !Splittable(host)
  {
  }

  /** A host with a colon (an IPv6 literal) is printed in brackets. */
  lemma SplitBracketed(host: string, port: string)
    requires ':' in host && ':' !in port && BracketFree(port)
    ensures match SplitHostPort(JoinHostPort(host, port))
            case Split(_, p) => Splittable(host) && p == port
            case SplitError(_) => !Splittable(host)
  {
    var s := JoinHostPort(host, port);
    assert s == "[" + host + "]" + (":" + port);
    if ']' in host {
      var front, rest := "[" + host, "]" + (":" + port);
      assert s == front + rest && s == ("[" + host + "]") + ":" + port;
      LastColon("[" + host + "]", port);
      InAppend("[", host, ']');
      FirstOccurrence(front, rest, ']');
      SplitClosedEarly(s, |host| + 2);
    } else {
      SplitPair(host, port);
    }
  }

  /** Port() on a newly built endpoint returns the port it was built with, exactly for
      the hosts that have no brackets (or are one bracketed, colon-free word). */
  lemma PortRoundTrip(ip: string, port: int)
    requires InInt(port)
    ensures PortPart(EndpointString(ip, port)) == Port(port) <==> Splittable(ip)
    ensures BracketFree(ip) ==> PortPart(EndpointString(ip, port)) == Port(port)
  {
    AtoiOfItoa(port);
    ItoaChars(port);
    if ':' in ip {
      SplitBracketed(ip, Itoa(port));
    } else {
      if ip != "" && ip[0] == '[' {
        SplitOpened(ip, Itoa(port));
      } else {
        SplitBare(ip, Itoa(port));
      }
    }
  }

  /** A host without brackets comes back with the printed port. */
  lemma HostRoundTrip(ip: string, port: int)
    requires BracketFree(ip)
    ensures SplitHostPort(EndpointString(ip, port)) == Split(ip, Itoa(port))
  {
    ItoaChars(port);
    if ':' in ip {
      assert EndpointString(ip, port) == "[" + ip + "]" + (":" + Itoa(port));
      SplitPair(ip, Itoa(port));
    } else {
      SplitBare(ip, Itoa(port));
    }
  }

  /** An IPv4 and an IPv6 endpoint as they are printed. */
  lemma PrintedEndpoints()
    ensures EndpointString("10.0.0.1", 80) == "10.0.0.1:80"
    ensures EndpointString("fe80::1", 443) == "[fe80::1]:443"
  {
    assert Digits(80) == Digits(8) + "0" == "80";
    assert Digits(443) == Digits(44) + "3" && Digits(44) == Digits(4) + "4";
    assert "fe80::1"[4] == ':';
  }

  /** A host whose port does not come back. */
  lemma BracketHostLosesPort()
    ensures PortPart(EndpointString("a[", 80)) != Port(80)
  {
    assert "a["[1] == '[';
    PortRoundTrip("a[", 80);
  }

  lemma SplitAtLastColon(a: string, p: string, b: string, q: string)
    requires ':' !in p && ':' !in q
    requires a + ":" + p == b + ":" + q
    ensures a == b && p == q
  {
    var s := a + ":" + p;
    LastColon(a, p);
    LastColon(b, q);
    assert s[..|a|] == a && s[..|a|] == b;
    assert s[|a| + 1..] == p && s[|a| + 1..] == q;
  }

  /** Endpoint strings never confuse two endpoints, whatever the host looks like: the
      deduplication key determines both the address and the port. */
  lemma EndpointStringInjective(ip1: string, port1: int, ip2: string, port2: int)
    requires InInt(port1) && InInt(port2)
    requires EndpointString(ip1, port1) == EndpointString(ip2, port2)
    ensures ip1 == ip2 && port1 == port2
  {
    ItoaChars(port1);
    ItoaChars(port2);
    var h1 := if ':' in ip1 then "[" + ip1 + "]" else ip1;
    var h2 := if ':' in ip2 then "[" + ip2 + "]" else ip2;
    SplitAtLastColon(h1, Itoa(port1), h2, Itoa(port2));
    AtoiOfItoa(port1);
    AtoiOfItoa(port2);
    assert ':' in ip1 <==> ':' in h1;
    assert ':' in ip2 <==> ':' in h2;
    if ':' in ip1 {
      assert h1[1..|h1| - 1] == ip1 && h2[1..|h2| - 1] == ip2;
    }
  }
}
