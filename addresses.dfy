/**
 * `Connection.inetAddress()`: the remote address string is split on ':' the way
 * Java's `String.split(":")` does, the first field is the host and the second
 * field, parsed by `Integer.parseInt`, is the port of a new `InetSocketAddress`.
 * Host names are kept as text: name resolution is not modelled.
 */
module Addresses {
  import opened Exceptions

  const Colon: char := ':'

  /** The fields of `s` between its colons, empty fields and a trailing empty field included. */
  function Fields(s: string): (fs: seq<string>)
    ensures |fs| >= 1
    ensures forall i :: 0 <= i < |fs| ==> Colon !in fs[i]
    decreases |s|
  {
    if |s| == 0 then [""]
    else if s[0] == Colon then [""] + Fields(s[1..])
    else
      var rest := Fields(s[1..]);
      [[s[0]] + rest[0]] + rest[1..]
  }

  /** `split` with limit 0 drops the empty strings at the end of the result. */
  function DropTrailingEmpty(fs: seq<string>): (r: seq<string>)
    ensures |r| <= |fs| && r == fs[..|r|]
    ensures |r| > 0 ==> r[|r| - 1] != ""
    ensures forall i :: |r| <= i < |fs| ==> fs[i] == ""
    decreases |fs|
  {
    if |fs| > 0 && fs[|fs| - 1] == "" then DropTrailingEmpty(fs[..|fs| - 1]) else fs
  }

  /** `s.split(":")`: a string without a colon is its own only field, even when empty. */
  function JavaSplit(s: string): seq<string>
  {
    if Colon !in s then [s] else DropTrailingEmpty(Fields(s))
  }

  const IntMin: int := -0x8000_0000
  const IntMax: int := 0x7fff_ffff

  predicate IsDigit(c: char)
  {
    '0' <= c <= '9'
  }

  predicate AllDigits(s: string)
  {
    forall i :: 0 <= i < |s| ==> IsDigit(s[i])
  }

  /** The value of a string of decimal digits, most significant first. */
  function DigitsValue(ds: string): (v: int)
    ensures AllDigits(ds) ==> v >= 0
    decreases |ds|
  {
    if |ds| == 0 then 0 else DigitsValue(ds[..|ds| - 1]) * 10 + (ds[|ds| - 1] as int - '0' as int)
  }

  /** What follows the optional leading sign. */
  function Unsigned(s: string): string
  {
    if |s| > 0 && (s[0] == '-' || s[0] == '+') then s[1..] else s
  }

  /**
   * `Integer.parseInt(s)`: an optional sign, then at least one digit, and a value
   * that fits in a 32-bit `int`; anything else is NumberFormatException. Only the
   * ASCII digits are accepted.
   */
  function ParseInt(s: string): (r: Result<int>)
    ensures r.Ok? ==> IntMin <= r.value <= IntMax
    ensures r.Err? ==> r == Err(NumberFormat(s))
    ensures r.Ok? ==> |s| > 0 && (IsDigit(s[0]) || s[0] == '-' || s[0] == '+')
    ensures r.Ok? ==> |Unsigned(s)| > 0 && AllDigits(Unsigned(s))
    ensures r.Ok? && r.value < 0 ==> s[0] == '-'
  {
    var digits := Unsigned(s);
    if |digits| == 0 || !AllDigits(digits) then Err(NumberFormat(s))
    else
      var v := if s[0] == '-' then -DigitsValue(digits) else DigitsValue(digits);
      if IntMin <= v <= IntMax then Ok(v) else Err(NumberFormat(s))
  }

  function DigitChar(d: int): (c: char)
    requires 0 <= d < 10
    ensures IsDigit(c) && c as int - '0' as int == d
  {
    ('0' as int + d) as char
  }

  /** `Integer.toString(n)` for a non-negative `n`: the shortest decimal digits. */
  function Decimal(n: nat): (s: string)
    ensures |s| >= 1 && AllDigits(s)
    decreases n
  {
    if n < 10 then [DigitChar(n)] else Decimal(n / 10) + [DigitChar(n % 10)]
  }

  lemma {:induction false} DecimalValue(n: nat)
    ensures DigitsValue(Decimal(n)) == n
    decreases n
  {
    if n >= 10 {
      var s := Decimal(n);
      assert s[..|s| - 1] == Decimal(n / 10);
      DecimalValue(n / 10);
    }
  }

  /** Parsing undoes printing on every non-negative `int`. */
  lemma ParseDecimal(n: nat)
    requires n <= IntMax
    ensures ParseInt(Decimal(n)) == Ok(n)
  {
    DecimalValue(n);
  }

  /** A leading "-" is honoured down to `IntMin`, whose magnitude no positive `int` has. */
  lemma {:induction false} ParseNegativeDecimal(n: nat)
    requires n <= -IntMin
    ensures ParseInt("-" + Decimal(n)) == Ok(-(n as int))
  {
    var d := Decimal(n);
    var s := "-" + d;
    assert s[0] == '-' && s[1..] == d;
    assert Unsigned(s) == d;
    DecimalValue(n);
  }

  /** A leading "+" is accepted and changes nothing. */
  lemma {:induction false} ParsePlusDecimal(n: nat)
    requires n <= IntMax
    ensures ParseInt("+" + Decimal(n)) == Ok(n)
  {
    var d := Decimal(n);
    var s := "+" + d;
    assert s[0] == '+' && s[1..] == d;
    assert Unsigned(s) == d;
    DecimalValue(n);
  }

  /** The host and port of an `InetSocketAddress`. */
  datatype InetAddr = InetAddr(host: string, port: int)

  const MaxPort: int := 0xFFFF

  /** `new InetSocketAddress(host, port)`: a port outside 0..65535 is IllegalArgumentException. */
  function NewInetSocketAddress(host: string, port: int): (r: Result<InetAddr>)
    ensures r.Ok? <==> 0 <= port <= MaxPort
    ensures r.Ok? ==> r.value == InetAddr(host, port)
    ensures r.Err? ==> r.exc == IllegalArgument
  {
    if 0 <= port <= MaxPort then Ok(InetAddr(host, port)) else Err(IllegalArgument)
  }

  /** The socket address for `host` once the port text has been parsed, or the parse error. */
  function WithPort(host: string, port: Result<int>): (r: Result<InetAddr>)
    ensures port.Err? ==> r == Err(port.exc)
    ensures port.Ok? ==> r == NewInetSocketAddress(host, port.value)
  {
    match port
    case Err(e) => Err(e)
    case Ok(p) => NewInetSocketAddress(host, p)
  }

  /**
   * `inetAddress()`: `parts[0]` is the host and `Integer.parseInt(parts[1])` the port,
   * evaluated in that order, so a split with fewer than two parts is an
   * ArrayIndexOutOfBoundsException at the first missing index.
   */
  function InetAddress(remoteAddr: string): (r: Result<InetAddr>)
    ensures r.Ok? ==> 0 <= r.value.port <= MaxPort && Colon !in r.value.host
    ensures r.Ok? ==> |remoteAddr| > |r.value.host| && remoteAddr[..|r.value.host| + 1] == r.value.host + [Colon]
    ensures Colon !in remoteAddr ==> r == Err(ArrayIndexOutOfBounds(1))
  {
    var parts := JavaSplit(remoteAddr);
    if |parts| == 0 then Err(ArrayIndexOutOfBounds(0))
    else if |parts| == 1 then Err(ArrayIndexOutOfBounds(1))
    else
      FieldsHead(remoteAddr);
      WithPort(parts[0], ParseInt(parts[1]))
  }

  /** The first field is the text before the first colon. */
  lemma {:induction false} FieldsHead(s: string)
    requires Colon in s
    ensures |Fields(s)| >= 2
    ensures |s| > |Fields(s)[0]| && s[..|Fields(s)[0]| + 1] == Fields(s)[0] + [Colon]
    decreases |s|
  {
    if s[0] != Colon {
      FieldsHead(s[1..]);
    }
  }

  lemma {:induction false} FieldsNoColon(t: string)
    requires Colon !in t
    ensures Fields(t) == [t]
    decreases |t|
  {
    if |t| > 0 {
      assert Colon !in t[1..];
      FieldsNoColon(t[1..]);
      assert [t[0]] + t[1..] == t;
    }
  }

  lemma {:induction false} FieldsAfterFirstColon(a: string, b: string)
    requires Colon !in a
    ensures Fields(a + [Colon] + b) == [a] + Fields(b)
    decreases |a|
  {
    var s := a + [Colon] + b;
    if |a| > 0 {
      assert s[0] == a[0] && s[1..] == a[1..] + [Colon] + b;
      FieldsAfterFirstColon(a[1..], b);
      assert [a[0]] + a[1..] == a;
    } else {
      assert s[0] == Colon && s[1..] == b;
    }
  }

  /** Dropping the trailing empty strings keeps every field up to the last non-empty one. */
  lemma DropKeeps(fs: seq<string>, k: nat)
    requires k < |fs| && fs[k] != ""
    ensures k < |DropTrailingEmpty(fs)| && DropTrailingEmpty(fs)[k] == fs[k]
  {
  }

  /**
   * Only the first two fields matter: the host is the text before the first colon
   * and the port is parsed from the text up to the next colon; whatever follows is
   * ignored.
   */
  lemma InetAddressFields(host: string, port: string, tail: string)
    requires Colon !in host && Colon !in port && port != ""
    requires tail == [] || tail[0] == Colon
    ensures InetAddress(host + [Colon] + port + tail) == WithPort(host, ParseInt(port))
  {
    var s := host + [Colon] + port + tail;
    assert s == host + [Colon] + (port + tail);
    assert s[|host|] == Colon;
    FieldsAfterFirstColon(host, port + tail);
    if tail == [] {
      assert port + tail == port;
      FieldsNoColon(port);
    } else {
      assert port + tail == port + [Colon] + tail[1..];
      FieldsAfterFirstColon(port, tail[1..]);
    }
    var fs := Fields(s);
    assert fs[0] == host && fs[1] == port;
    DropKeeps(fs, 1);
  }

  /** Fields after the second are never looked at. */
  lemma LaterFieldsIgnored(host: string, port: string, tail: string)
    requires Colon !in host && Colon !in port && port != ""
    requires tail == [] || tail[0] == Colon
    ensures InetAddress(host + [Colon] + port + tail) == InetAddress(host + [Colon] + port)
  {
    InetAddressFields(host, port, tail);
    InetAddressFields(host, port, []);
    assert host + [Colon] + port + [] == host + [Colon] + port;
  }

  /** A host without a colon and a printed port in range come back unchanged. */
  lemma InetAddressRoundTrip(host: string, port: nat)
    requires Colon !in host && port <= MaxPort
    ensures InetAddress(host + [Colon] + Decimal(port)) == Ok(InetAddr(host, port))
  {
    var d := Decimal(port);
    assert Colon !in d by {
      forall i | 0 <= i < |d| ensures d[i] != Colon {
        assert IsDigit(d[i]);
      }
    }
    InetAddressFields(host, d, []);
    assert host + [Colon] + d + [] == host + [Colon] + d;
    ParseDecimal(port);
  }

  /** The IPv4 case of the connection test. */
  lemma Ipv4TestCase()
    ensures InetAddress("4.3.2.1:8000") == Ok(InetAddr("4.3.2.1", 8000))
  {
    assert Decimal(8000) == "8000" by {
      assert Decimal(8) == "8";
      assert Decimal(80) == "80";
      assert Decimal(800) == "800";
    }
    assert "4.3.2.1:8000" == "4.3.2.1" + [Colon] + Decimal(8000);
    InetAddressRoundTrip("4.3.2.1", 8000);
  }

  /** The host of the IPv6 case, 2a00:23c8:a8dd:e501:b02c:ea1a:83cf:395e, written around its first two colons. */
  const Ipv6Host: string := "2a00" + [Colon] + "23c8" + ":a8dd:e501:b02c:ea1a:83cf:395e"

  /** The remote address of the IPv6 case: [2a00:23c8:a8dd:e501:b02c:ea1a:83cf:395e]:64440. */
  const Ipv6Remote: string := "[" + Ipv6Host + "]" + [Colon] + "64440"

  lemma Ipv6RemoteFirstFields()
    ensures Ipv6Remote == "[" + "2a00" + [Colon] + "23c8" + (":a8dd:e501:b02c:ea1a:83cf:395e" + "]" + [Colon] + "64440")
  {
  }

  /** The IPv6 case of the connection test: splitting on every colon takes "23c8" as the port, which does not parse. */
  lemma Ipv6TestCaseAsWritten(remoteAddr: string)
    requires remoteAddr == Ipv6Remote
    ensures InetAddress(remoteAddr) == Err(NumberFormat("23c8"))
  {
    var tail := ":a8dd:e501:b02c:ea1a:83cf:395e" + "]" + [Colon] + "64440";
    Ipv6RemoteFirstFields();
    assert tail[0] == Colon;
    assert Colon !in "[" + "2a00";
    InetAddressFields("[" + "2a00", "23c8", tail);
    assert !IsDigit("23c8"[2]);
  }

  /** The index of the last colon of `s`, or -1. */
  function LastColon(s: string): (i: int)
    ensures -1 <= i < |s|
    ensures i >= 0 ==> s[i] == Colon
    ensures forall j :: i < j < |s| ==> s[j] != Colon
    decreases |s|
  {
    if |s| == 0 then -1
    else if s[|s| - 1] == Colon then |s| - 1
    else LastColon(s[..|s| - 1])
  }

  function StripBrackets(h: string): string
  {
    if |h| >= 2 && h[0] == '[' && h[|h| - 1] == ']' then h[1..|h| - 1] else h
  }

  /**
   * The rule the connection test expects: the port follows the last colon and a
   * bracketed IPv6 host loses its brackets.
   */
  function LastColonAddress(remoteAddr: string): (r: Result<InetAddr>)
    ensures r.Ok? ==> 0 <= r.value.port <= MaxPort
    ensures Colon !in remoteAddr ==> r == Err(ArrayIndexOutOfBounds(1))
  {
    var i := LastColon(remoteAddr);
    if i < 0 then Err(ArrayIndexOutOfBounds(1))
    else WithPort(StripBrackets(remoteAddr[..i]), ParseInt(remoteAddr[i + 1..]))
  }

  lemma {:induction false} LastColonBefore(a: string, b: string)
    requires Colon !in b
    ensures LastColon(a + [Colon] + b) == |a|
    decreases |b|
  {
    var s := a + [Colon] + b;
    if |b| > 0 {
      assert s[..|s| - 1] == a + [Colon] + b[..|b| - 1];
      assert b[|b| - 1] in b;
      LastColonBefore(a, b[..|b| - 1]);
    }
  }

  /** Under the test's rule the port is the text after the last colon. */
  lemma LastColonAddressFields(host: string, port: string)
    requires Colon !in port
    ensures LastColonAddress(host + [Colon] + port) == WithPort(StripBrackets(host), ParseInt(port))
  {
    var s := host + [Colon] + port;
    LastColonBefore(host, port);
    assert s[|host| + 1..] == port && s[..|host|] == host;
  }

  /** Under the test's rule a bracketed host, colons and all, and a printed port in range come back unchanged. */
  lemma BracketedRoundTrip(host: string, port: nat)
    requires port <= MaxPort
    ensures LastColonAddress("[" + host + "]" + [Colon] + Decimal(port)) == Ok(InetAddr(host, port))
  {
    var d := Decimal(port);
    var h := "[" + host + "]";
    assert Colon !in d by {
      forall i | 0 <= i < |d| ensures d[i] != Colon {
        assert IsDigit(d[i]);
      }
    }
    LastColonAddressFields(h, d);
    ParseDecimal(port);
    assert h[1..|h| - 1] == host;
  }

  /** The test's rule gives the test's expectation for the IPv6 case. */
  lemma Ipv6TestCaseLastColon(remoteAddr: string)
    requires remoteAddr == Ipv6Remote
    ensures LastColonAddress(remoteAddr) == Ok(InetAddr(Ipv6Host, 64440))
  {
    assert Decimal(64440) == "64440" by {
      assert Decimal(6) == "6";
      assert Decimal(64) == "64";
      assert Decimal(644) == "644";
      assert Decimal(6444) == "6444";
    }
    BracketedRoundTrip(Ipv6Host, 64440);
  }

  /** On a single-colon address with an unbracketed host the two rules agree whenever either succeeds. */
  lemma SingleColonAgreement(host: string, port: string)
    requires Colon !in host && Colon !in port
    requires !(|host| >= 2 && host[0] == '[' && host[|host| - 1] == ']')
    ensures var s := host + [Colon] + port;
      InetAddress(s).Ok? || LastColonAddress(s).Ok? ==> InetAddress(s) == LastColonAddress(s)
  {
    var s := host + [Colon] + port;
    LastColonAddressFields(host, port);
    if port == "" {
      assert ParseInt(port).Err?;
      assert s[|host|] == Colon;
      FieldsAfterFirstColon(host, port);
      FieldsNoColon(port);
      assert Fields(s) == [host, ""];
      assert |JavaSplit(s)| <= 1;
    } else {
      InetAddressFields(host, port, []);
      assert s + [] == s;
    }
  }
}
