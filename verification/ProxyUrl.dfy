/** Proxy URLs: the percent codec for user names and passwords, the URL that `parse_proxy_line`
    builds, and `parse_proxy_url`. Text is a sequence of UTF-8 bytes, written as characters below 256. */
module ProxyUrl {
  import opened Common

  type Byte = c: char | c as int < 256 witness 'a'

  type Text = seq<Byte>

  // ---- percent codec ----

  predicate Alphanumeric(c: char) {
    'A' <= c <= 'Z' || 'a' <= c <= 'z' || '0' <= c <= '9'
  }

  /** Characters that user information may carry as they are. */
  predicate Unescaped(c: char) {
    Alphanumeric(c) || c in "-_.~!$&'()*+,;="
  }

  function HexDigit(n: nat): (c: Byte)
    requires n < 16
    ensures FromHex(c) == Some(n) && Alphanumeric(c)
  {
    if n < 10 then ('0' as int + n) as char else ('A' as int + n - 10) as char
  }

  function FromHex(c: char): (n: Option<nat>)
    ensures n.Some? ==> n.value < 16
  {
    if '0' <= c <= '9' then Some(c as int - '0' as int)
    else if 'a' <= c <= 'f' then Some(c as int - 'a' as int + 10)
    else if 'A' <= c <= 'F' then Some(c as int - 'A' as int + 10)
    else None
  }

  function EncodeByte(c: Byte): (t: Text)
    ensures t != [] && forall x :: x in t ==> x != ':' && x != '@'
  {
    if Unescaped(c) then [c] else ['%', HexDigit(c as int / 16), HexDigit(c as int % 16)]
  }

  function Encode(s: Text): (t: Text) {
    if s == [] then [] else EncodeByte(s[0]) + Encode(s[1..])
  }

  method PercentEncode(s: Text) returns (out: Text)
    ensures out == Encode(s)
  {
    out := [];
    for i := 0 to |s|
      invariant out + Encode(s[i..]) == Encode(s)
    {
      assert s[i..][1..] == s[i + 1..];
      out := out + EncodeByte(s[i]);
    }
  }

  /** A percent sign followed by two hex digits is one byte; any other stands for itself. */
  predicate Escape(s: Text) {
    |s| >= 3 && s[0] == '%' && FromHex(s[1]).Some? && FromHex(s[2]).Some?
  }

  function Decode(s: Text): (t: Text) {
    if s == [] then []
    else if Escape(s) then [(FromHex(s[1]).value * 16 + FromHex(s[2]).value) as char] + Decode(s[3..])
    else [s[0]] + Decode(s[1..])
  }

  lemma DecodeAt(s: Text, i: nat)
    requires i < |s|
    ensures Decode(s[i..]) ==
            if Escape(s[i..])
            then [(FromHex(s[i + 1]).value * 16 + FromHex(s[i + 2]).value) as char] + Decode(s[i + 3..])
            else [s[i]] + Decode(s[i + 1..])
  {
    assert s[i..][1..] == s[i + 1..];
    if Escape(s[i..]) {
      assert s[i..][3..] == s[i + 3..];
    }
  }

  method PercentDecode(s: Text) returns (out: Text)
    ensures out == Decode(s)
  {
    out := [];
    var i := 0;
    while i < |s|
      invariant i <= |s| && out + Decode(s[i..]) == Decode(s)
    {
      DecodeAt(s, i);
      if s[i] == '%' && i + 2 < |s| {
        var a, b := FromHex(s[i + 1]), FromHex(s[i + 2]);
        if a.Some? && b.Some? {
          var x: Byte := (a.value * 16 + b.value) as char;
          Assoc(out, [x], Decode(s[i + 3..]));
          out := out + [x];
          i := i + 3;
          continue;
        }
      }
      Assoc(out, [s[i]], Decode(s[i + 1..]));
      out := out + [s[i]];
      i := i + 1;
    }
  }

  lemma DecodeOne(c: Byte, rest: Text)
    ensures Decode(EncodeByte(c) + rest) == [c] + Decode(rest)
  {
    var t := EncodeByte(c) + rest;
    if Unescaped(c) {
      assert t[1..] == rest;
    } else {
      assert t[3..] == rest;
    }
  }

  lemma {:induction false} DecodeEncode(s: Text)
    ensures Decode(Encode(s)) == s
  {
    if s != [] {
      DecodeOne(s[0], Encode(s[1..]));
      DecodeEncode(s[1..]);
    }
  }

  lemma {:induction false} EncodedHasNoDelimiter(s: Text)
    ensures ':' !in Encode(s) && '@' !in Encode(s)
  {
    if s != [] {
      EncodedHasNoDelimiter(s[1..]);
    }
  }

  // ---- splitting and trimming ----

  datatype Split = Split(before: Text, after: Text)

  predicate StartsWith(s: Text, t: Text) {
    |t| <= |s| && s[..|t|] == t
  }

  function SplitOnce(s: Text, sep: Text): (r: Option<Split>)
    requires sep != []
  {
    if StartsWith(s, sep) then Some(Split([], s[|sep|..]))
    else if s == [] then None
    else
      match SplitOnce(s[1..], sep)
      case None => None
      case Some(p) => Some(Split([s[0]] + p.before, p.after))
  }

  function SplitLast(s: Text, c: Byte): (r: Option<Split>) {
    if s == [] then None
    else if s[|s| - 1] == c then Some(Split(s[..|s| - 1], []))
    else
      match SplitLast(s[..|s| - 1], c)
      case None => None
      case Some(p) => Some(Split(p.before, p.after + [s[|s| - 1]]))
  }

  predicate Blank(c: char) {
    c == ' ' || 9 <= c as int <= 13
  }

  function TrimStart(s: Text, drop: char): (t: Text) {
    if s != [] && s[0] == drop then TrimStart(s[1..], drop) else s
  }

  function TrimEnd(s: Text, drop: char): (t: Text) {
    if s != [] && s[|s| - 1] == drop then TrimEnd(s[..|s| - 1], drop) else s
  }

  function Trim(s: Text): (t: Text) {
    if s != [] && Blank(s[0]) then Trim(s[1..])
    else if s != [] && Blank(s[|s| - 1]) then Trim(s[..|s| - 1])
    else s
  }

  lemma {:induction false} SplitAtFirst(a: Text, sep: Text, b: Text)
    requires sep != [] && sep[0] !in a
    ensures SplitOnce(a + sep + b, sep) == Some(Split(a, b))
  {
    var s := a + sep + b;
    if a == [] {
      assert s[..|sep|] == sep && s[|sep|..] == b;
    } else {
      assert s[0] == a[0];
      assert !StartsWith(s, sep);
      assert s[1..] == a[1..] + sep + b;
      SplitAtFirst(a[1..], sep, b);
      assert [a[0]] + a[1..] == a;
    }
  }

  lemma SplitLastStep(s: Text, x: Byte, c: Byte, p: Split)
    requires x != c && SplitLast(s, c) == Some(p)
    ensures SplitLast(s + [x], c) == Some(Split(p.before, p.after + [x]))
  {
    assert (s + [x])[..|s|] == s;
  }

  lemma {:induction false} SplitAtLast(a: Text, c: Byte, b: Text)
    requires c !in b
    ensures SplitLast(a + [c] + b, c) == Some(Split(a, b))
  {
    if b == [] {
      assert a + [c] + b == a + [c];
      assert (a + [c])[..|a|] == a;
    } else {
      var front, x := b[..|b| - 1], b[|b| - 1];
      assert b == front + [x];
      SplitAtLast(a, c, front);
      SplitLastStep(a + [c] + front, x, c, Split(a, front));
      assert a + [c] + b == (a + [c] + front) + [x];
    }
  }

  // ---- ports ----

  predicate Digit(c: char) {
    '0' <= c <= '9'
  }

  function DigitValue(c: char): (n: nat)
    requires Digit(c)
  {
    c as int - '0' as int
  }

  function Decimal(n: nat): (t: Text)
    ensures t != [] && forall c :: c in t ==> Digit(c)
  {
    if n < 10 then [HexDigit(n)] else Decimal(n / 10) + [HexDigit(n % 10)]
  }

  function DigitsValue(t: Text): (n: nat)
    requires forall c :: c in t ==> Digit(c)
  {
    if t == [] then 0
    else
      assert t[|t| - 1] in t && Digit(t[|t| - 1]);
      DigitsValue(t[..|t| - 1]) * 10 + DigitValue(t[|t| - 1])
  }

  /** Rust's u16 parser: an optional plus sign, digits only, at most 65535. */
  function ParseU16(t: Text): (n: Option<nat>)
    ensures n.Some? ==> n.value < 65536
  {
    var digits := if |t| > 1 && t[0] == '+' then t[1..] else t;
    if digits == [] || exists c :: c in digits && !Digit(c) then None
    else if DigitsValue(digits) < 65536 then Some(DigitsValue(digits))
    else None
  }

  lemma {:induction false} DecimalValue(n: nat)
    ensures DigitsValue(Decimal(n)) == n
  {
    if n >= 10 {
      DecimalValue(n / 10);
      assert Decimal(n)[..|Decimal(n)| - 1] == Decimal(n / 10);
    }
  }

  lemma PortRoundTrip(n: nat)
    requires n < 65536
    ensures ParseU16(Decimal(n)) == Some(n)
  {
    DecimalValue(n);
    assert Decimal(n)[0] in Decimal(n);
  }

  // ---- URLs ----

  datatype Kind = Http | Https | Socks5

  datatype Proxy = Proxy(host: Text, port: nat, user: Option<Text>, pass: Option<Text>, kind: Kind)

  function Lower(c: Byte): Byte {
    if 'A' <= c <= 'Z' then (c as int + 32) as char else c
  }

  function LowerAll(s: Text): (t: Text) {
    if s == [] then [] else [Lower(s[0])] + LowerAll(s[1..])
  }

  function KindOf(scheme: Text): (k: Option<Kind>) {
    var s := LowerAll(scheme);
    if s == "http" then Some(Http)
    else if s == "https" then Some(Https)
    else if s == "socks5" || s == "socks5h" || s == "socks" then Some(Socks5)
    else None
  }

  function DefaultPort(k: Kind): nat {
    match k case Socks5 => 1080 case Https => 443 case Http => 80
  }

  datatype Endpoint = Endpoint(host: Text, port: nat)

  function ParseEndpoint(hostport: Text, k: Kind): (r: Option<Endpoint>) {
    var hp := TrimEnd(hostport, '/');
    match SplitLast(hp, ':')
    case None => if hp == [] then None else Some(Endpoint(hp, DefaultPort(k)))
    case Some(p) =>
      var host := TrimEnd(TrimStart(p.before, '['), ']');
      var port := ParseU16(p.after);
      if port.None? || host == [] then None else Some(Endpoint(host, port.value))
  }

  /** The credentials part: user and password are each decoded; a missing password is empty. */
  function ParseUser(creds: Text): (r: Split) {
    match SplitOnce(creds, ":")
    case None => Split(Decode(creds), [])
    case Some(p) => Split(Decode(p.before), Decode(p.after))
  }

  /** Everything after the scheme. */
  function ParseRest(rest: Text, k: Kind): (r: Option<Proxy>) {
    match SplitOnce(rest, "@")
    case None => (
      match ParseEndpoint(rest, k)
      case None => None
      case Some(e) => Some(Proxy(e.host, e.port, None, None, k)))
    case Some(p) =>
      match ParseEndpoint(p.after, k)
      case None => None
      case Some(e) =>
        var u := ParseUser(p.before);
        Some(Proxy(e.host, e.port, Some(u.before), Some(u.after), k))
  }

  function Parse(url: Text): (r: Option<Proxy>) {
    match SplitOnce(Trim(url), "://")
    case None => None
    case Some(top) =>
      match KindOf(top.before)
      case None => None
      case Some(k) => ParseRest(top.after, k)
  }

  function SchemeOf(k: Kind): (s: Text) {
    match k case Http => "http" case Https => "https" case Socks5 => "socks5"
  }

  function Credentials(user: Option<Text>, pass: Text): (creds: Text) {
    if user.Some? && user.value != [] then Encode(user.value) + ":" + Encode(pass) + "@" else []
  }

  function Printed(k: Kind, creds: Text, endpoint: Text): (url: Text) {
    SchemeOf(k) + "://" + (creds + endpoint)
  }

  /** The `build` closure: print the URL, then accept it only if it parses. */
  function Build(k: Kind, host: Text, port: Text, user: Option<Text>, pass: Text): (r: Option<Text>) {
    var url := Printed(k, Credentials(user, pass), Trim(host) + ":" + Trim(port));
    if Parse(url).Some? then Some(url) else None
  }

  predicate PlainHost(host: Text) {
    host != [] && forall c :: c in host ==> !Blank(c) && c != '@' && c != '/' && c != ':' && c != '[' && c != ']'
  }

  lemma TrimPlain(s: Text)
    requires s != [] && !Blank(s[0]) && !Blank(s[|s| - 1])
    ensures Trim(s) == s
  {
  }

  lemma {:induction false} LowerKeeps(s: Text)
    requires forall i :: 0 <= i < |s| ==> Lower(s[i]) == s[i]
    ensures LowerAll(s) == s
  {
    if s != [] {
      LowerKeeps(s[1..]);
    }
  }

  lemma SchemeFacts(k: Kind)
    ensures KindOf(SchemeOf(k)) == Some(k) && ':' !in SchemeOf(k)
    ensures SchemeOf(k) != [] && !Blank(SchemeOf(k)[0])
  {
    LowerKeeps(SchemeOf(k));
  }

  lemma DecimalEnds(n: nat)
    ensures Digit(Decimal(n)[0]) && Digit(Decimal(n)[|Decimal(n)| - 1]) && ':' !in Decimal(n) && '@' !in Decimal(n)
  {
    var d := Decimal(n);
    assert d[0] in d && d[|d| - 1] in d;
  }

  lemma PlainEnds(host: Text)
    requires PlainHost(host)
    ensures Trim(host) == host && TrimStart(host, '[') == host && TrimEnd(host, ']') == host
  {
    assert host[0] in host && host[|host| - 1] in host;
  }

  lemma EndpointRoundTrip(host: Text, port: nat, k: Kind)
    requires PlainHost(host) && port < 65536
    ensures ParseEndpoint(host + ":" + Decimal(port), k) == Some(Endpoint(host, port))
  {
    var d := Decimal(port);
    var hp := host + ":" + d;
    DecimalEnds(port);
    assert hp[|hp| - 1] == d[|d| - 1];
    assert TrimEnd(hp, '/') == hp;
    SplitAtLast(host, ':', d);
    PlainEnds(host);
    PortRoundTrip(port);
  }

  lemma UserRoundTrip(user: Text, pass: Text)
    ensures ParseUser(Encode(user) + ":" + Encode(pass)) == Split(user, pass)
  {
    EncodedHasNoDelimiter(user);
    SplitAtFirst(Encode(user), ":", Encode(pass));
    DecodeEncode(user);
    DecodeEncode(pass);
  }

  lemma LoginRoundTrip(user: Text, pass: Text, host: Text, port: nat, k: Kind)
    requires PlainHost(host) && port < 65536
    ensures ParseRest(Encode(user) + ":" + Encode(pass) + "@" + (host + ":" + Decimal(port)), k)
            == Some(Proxy(host, port, Some(user), Some(pass), k))
  {
    EncodedHasNoDelimiter(user);
    EncodedHasNoDelimiter(pass);
    SplitAtFirst(Encode(user) + ":" + Encode(pass), "@", host + ":" + Decimal(port));
    EndpointRoundTrip(host, port, k);
    UserRoundTrip(user, pass);
  }

  /** A URL that ends in a digit goes to the part parser as it was printed. */
  lemma PrintedParses(k: Kind, creds: Text, endpoint: Text)
    requires endpoint != [] && Digit(endpoint[|endpoint| - 1])
    ensures Parse(Printed(k, creds, endpoint)) == ParseRest(creds + endpoint, k)
  {
    var url := Printed(k, creds, endpoint);
    SchemeFacts(k);
    assert url[|url| - 1] == endpoint[|endpoint| - 1] && url[0] == SchemeOf(k)[0];
    TrimPlain(url);
    SplitAtFirst(SchemeOf(k), "://", creds + endpoint);
  }

  lemma BuildIsPrinted(k: Kind, host: Text, port: nat, user: Option<Text>, pass: Text)
    requires PlainHost(host) && port < 65536
    ensures var endpoint := host + ":" + Decimal(port);
            var parsed := ParseRest(Credentials(user, pass) + endpoint, k);
            parsed.Some? ==>
              var url := Build(k, host, Decimal(port), user, pass);
              url.Some? && Parse(url.value) == parsed
  {
    var endpoint := host + ":" + Decimal(port);
    DecimalEnds(port);
    TrimPlain(Decimal(port));
    PlainEnds(host);
    assert endpoint[|endpoint| - 1] == Decimal(port)[|Decimal(port)| - 1];
    PrintedParses(k, Credentials(user, pass), endpoint);
  }

  /** Whatever the user name and password contain, parsing the printed URL gives back user, password,
      host and port. */
  lemma BuildRoundTrip(k: Kind, host: Text, port: nat, user: Text, pass: Text)
    requires PlainHost(host) && port < 65536 && user != []
    ensures var url := Build(k, host, Decimal(port), Some(user), pass);
            url.Some? && Parse(url.value) == Some(Proxy(host, port, Some(user), Some(pass), k))
  {
    LoginRoundTrip(user, pass, host, port, k);
    BuildIsPrinted(k, host, port, Some(user), pass);
  }

  lemma {:induction false} NoAt(s: Text)
    requires '@' !in s
    ensures SplitOnce(s, "@") == None
  {
    if s != [] {
      assert s[0] in s;
      NoAt(s[1..]);
    }
  }

  /** Without a user the URL carries no credentials and parses back to none. */
  lemma BuildAnonymous(k: Kind, host: Text, port: nat, user: Option<Text>, pass: Text)
    requires PlainHost(host) && port < 65536 && (user.None? || user.value == [])
    ensures var url := Build(k, host, Decimal(port), user, pass);
            url.Some? && Parse(url.value) == Some(Proxy(host, port, None, None, k))
  {
    var endpoint := host + ":" + Decimal(port);
    assert [] + endpoint == endpoint;
    DecimalEnds(port);
    NoAt(endpoint);
    EndpointRoundTrip(host, port, k);
    BuildIsPrinted(k, host, port, user, pass);
  }

  // ---- what is escaped, and what is accepted ----

  /** A letter, a digit, or a mark that user information may hold. */
  predicate PlainByte(c: Byte) {
    'A' <= c <= 'Z' || 'a' <= c <= 'z' || '0' <= c <= '9' || c in "-_.~!$&'()*+,;="
  }

  lemma EncodedByte(c: Byte)
    ensures EncodeByte(c) == if PlainByte(c) then [c] else ['%', HexDigit(c as int / 16), HexDigit(c as int % 16)]
  {
  }

  /** Exactly those stay as they are. */
  lemma {:induction false} EncodeLeavesPlain(s: Text)
    ensures |Encode(s)| >= |s|
    ensures Encode(s) == s <==> forall i :: 0 <= i < |s| ==> PlainByte(s[i])
  {
    if s != [] {
      var rest := s[1..];
      EncodeLeavesPlain(rest);
      EncodedByte(s[0]);
      assert (forall i :: 0 <= i < |s| ==> PlainByte(s[i])) <==>
             PlainByte(s[0]) && forall i :: 0 <= i < |rest| ==> PlainByte(rest[i]);
      if PlainByte(s[0]) {
        assert ([s[0]] + Encode(rest))[1..] == Encode(rest);
        assert [s[0]] + rest == s;
      }
    }
  }

  lemma KindOfLower(scheme: Text)
    requires forall i :: 0 <= i < |scheme| ==> Lower(scheme[i]) == scheme[i]
    ensures KindOf(scheme) == if scheme == "http" then Some(Http)
                              else if scheme == "https" then Some(Https)
                              else if scheme in ["socks5", "socks5h", "socks"] then Some(Socks5)
                              else None
  {
    LowerKeeps(scheme);
  }

  lemma {:induction false} NoSplit(s: Text, sep: Text)
    requires sep != [] && sep[0] !in s
    ensures SplitOnce(s, sep) == None
  {
    if s != [] {
      assert s[0] in s;
      NoSplit(s[1..], sep);
    }
  }

  lemma {:induction false} NoLast(s: Text, c: Byte)
    requires c !in s
    ensures SplitLast(s, c) == None
  {
    if s != [] {
      assert s[|s| - 1] in s;
      NoLast(s[..|s| - 1], c);
    }
  }

  /** A URL of a plain scheme and rest goes to the part parser. */
  lemma UrlParses(k: Kind, rest: Text)
    requires rest != [] && !Blank(rest[|rest| - 1])
    ensures Parse(SchemeOf(k) + "://" + rest) == ParseRest(rest, k)
  {
    var url := SchemeOf(k) + "://" + rest;
    SchemeFacts(k);
    assert url[|url| - 1] == rest[|rest| - 1] && url[0] == SchemeOf(k)[0];
    TrimPlain(url);
    SplitAtFirst(SchemeOf(k), "://", rest);
  }

  /** A host alone gets the scheme's own port: 80, 443 or 1080. */
  lemma DefaultPortIsUsed(k: Kind, host: Text)
    requires PlainHost(host)
    ensures Parse(SchemeOf(k) + "://" + host) ==
            Some(Proxy(host, if k.Http? then 80 else if k.Https? then 443 else 1080, None, None, k))
  {
    assert host[|host| - 1] in host;
    UrlParses(k, host);
    NoAt(host);
    NoLast(host, ':');
  }

  function Anonymous(e: Option<Endpoint>, k: Kind): (r: Option<Proxy>) {
    if e.None? then None else Some(Proxy(e.value.host, e.value.port, None, None, k))
  }

  lemma AnonymousUrl(k: Kind, hp: Text)
    requires hp != [] && !Blank(hp[|hp| - 1]) && '@' !in hp
    ensures Parse(SchemeOf(k) + "://" + hp) == Anonymous(ParseEndpoint(hp, k), k)
  {
    UrlParses(k, hp);
    NoAt(hp);
  }

  lemma PlainPair(host: Text, port: Text)
    requires PlainHost(host) && PlainHost(port)
    ensures var hp := host + ":" + port; hp != [] && !Blank(hp[|hp| - 1]) && '@' !in hp
    ensures ':' !in port && port[|port| - 1] != '/' && TrimEnd(TrimStart(host, '['), ']') == host
  {
    assert port[|port| - 1] in port;
    PlainEnds(host);
  }

  lemma EndpointOf(hp: Text, before: Text, port: Text, host: Text, k: Kind)
    requires hp == before + ":" + port && ':' !in port && port != [] && port[|port| - 1] != '/'
    requires host != [] && TrimEnd(TrimStart(before, '['), ']') == host
    ensures ParseEndpoint(hp, k) ==
            if ParseU16(port).Some? then Some(Endpoint(host, ParseU16(port).value)) else None
  {
    assert hp[|hp| - 1] == port[|port| - 1];
    SplitAtLast(before, ':', port);
  }

  /** Ports without a sign are numbers below 65536. */
  lemma PortNumbers(port: Text)
    requires port != [] && port[0] != '+'
    ensures ParseU16(port) == if (forall c :: c in port ==> Digit(c)) && DigitsValue(port) < 65536
                              then Some(DigitsValue(port)) else None
  {
  }

  /** A port is accepted exactly when it is a number below 65536; anything else is refused. */
  lemma OnlyPortsAreAccepted(k: Kind, host: Text, port: Text)
    requires PlainHost(host) && PlainHost(port) && port[0] != '+'
    ensures Parse(SchemeOf(k) + "://" + (host + ":" + port)) ==
            if (forall c :: c in port ==> Digit(c)) && DigitsValue(port) < 65536
            then Some(Proxy(host, DigitsValue(port), None, None, k)) else None
  {
    PlainPair(host, port);
    AnonymousUrl(k, host + ":" + port);
    EndpointOf(host + ":" + port, host, port, host, k);
    PortNumbers(port);
  }

  lemma Unbracketed(address: Text)
    requires address != [] && '[' !in address && ']' !in address
    ensures TrimEnd(TrimStart("[" + address + "]", '['), ']') == address
  {
    assert ("[" + address + "]")[1..] == address + "]" && (address + "]")[..|address|] == address;
    assert address[0] in address && address[|address| - 1] in address;
    assert TrimStart(address + "]", '[') == address + "]";
    assert TrimEnd(address, ']') == address;
  }

  /** An address in brackets loses them and keeps its colons. */
  lemma BracketsComeOff(k: Kind, address: Text, port: nat)
    requires address != [] && port < 65536
    requires forall c :: c in address ==> !Blank(c) && c != '@' && c != '/' && c != '[' && c != ']'
    ensures Parse(SchemeOf(k) + "://" + ("[" + address + "]" + ":" + Decimal(port))) ==
            Some(Proxy(address, port, None, None, k))
  {
    var hp, d := "[" + address + "]" + ":" + Decimal(port), Decimal(port);
    DecimalEnds(port);
    assert hp[|hp| - 1] == d[|d| - 1];
    AnonymousUrl(k, hp);
    Unbracketed(address);
    EndpointOf(hp, "[" + address + "]", d, address, k);
    PortRoundTrip(port);
  }

  /** Without a scheme nothing is accepted. */
  lemma BareUrlIsRefused(url: Text)
    requires ':' !in url
    ensures Parse(url).None?
  {
    TrimKeeps(url);
    NoSplit(Trim(url), "://");
  }

  /** Nor with a scheme, in small letters, other than these five. */
  lemma OtherSchemesAreRefused(scheme: Text, rest: Text)
    requires scheme != [] && !Blank(scheme[0]) && ':' !in scheme && rest != [] && !Blank(rest[|rest| - 1])
    requires forall i :: 0 <= i < |scheme| ==> Lower(scheme[i]) == scheme[i]
    requires scheme !in ["http", "https", "socks5", "socks5h", "socks"]
    ensures Parse(scheme + "://" + rest).None?
  {
    var whole := scheme + "://" + rest;
    assert whole[0] == scheme[0] && whole[|whole| - 1] == rest[|rest| - 1];
    TrimPlain(whole);
    SplitAtFirst(scheme, "://", rest);
    KindOfLower(scheme);
  }

  lemma {:induction false} TrimKeeps(s: Text)
    ensures forall c :: c in Trim(s) ==> c in s
    decreases |s|
  {
    if s != [] && Blank(s[0]) {
      TrimKeeps(s[1..]);
    } else if s != [] && Blank(s[|s| - 1]) {
      TrimKeeps(s[..|s| - 1]);
    }
  }
}
