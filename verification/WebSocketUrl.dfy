/** ParseWebSocketUrl: which URLs it accepts, and the host, port and request target it
    takes from them. */
module WebSocketUrl {
  import opened Bytes
  import opened Options
  import opened UrlCodec

  const MAX_URL := 2048
  const MAX_HOST := 253
  const MAX_TARGET := 1024

  const SLASH: byte := 0x2f
  const COLON: byte := 0x3a
  const QUESTION: byte := 0x3f
  const HASH: byte := 0x23
  const WS: seq<byte> := [0x77, 0x73, COLON, SLASH, SLASH]
  const WSS: seq<byte> := [0x77, 0x73, 0x73, COLON, SLASH, SLASH]

  newtype int32 = x: int | -0x8000_0000 <= x < 0x8000_0000

  datatype Parsed = Parsed(host: seq<byte>, requestTarget: seq<byte>, port: int)

  predicate IsControl(c: byte) { c <= 0x20 || c == 0x7f }

  predicate NoControl(s: seq<byte>) { forall i :: 0 <= i < |s| ==> !IsControl(s[i]) }

  method HasControlChar(value: seq<byte>) returns (found: bool)
    ensures found <==> !NoControl(value)
  {
    var i := 0;
    while i < |value|
      invariant 0 <= i <= |value|
      invariant NoControl(value[..i])
    {
      if value[i] <= 0x20 || value[i] == 0x7f {
        return true;
      }
      i := i + 1;
    }
    assert value[..i] == value;
    return false;
  }

  // ---------------------------------------------------------------- ports

  predicate AllDigits(s: seq<byte>) { forall i :: 0 <= i < |s| ==> 0x30 <= s[i] <= 0x39 }

  /** The decimal value of a digit string. */
  function Value(s: seq<byte>): (v: nat)
    requires AllDigits(s)
  {
    if |s| == 0 then 0 else 10 * Value(s[..|s| - 1]) + (s[|s| - 1] - 0x30)
  }

  lemma {:induction false} ValueGrows(s: seq<byte>, i: nat)
    requires AllDigits(s) && i <= |s|
    ensures Value(s[..i]) <= Value(s)
    decreases |s|
  {
    if i < |s| {
      var t := s[..|s| - 1];
      assert t[..i] == s[..i];
      ValueGrows(t, i);
    } else {
      assert s[..i] == s;
    }
  }

  predicate IsPort(s: seq<byte>) { |s| > 0 && AllDigits(s) && 1 <= Value(s) <= 65535 }

  /** Accepts exactly the decimal numbers from 1 to 65535; the running value stays within
      an int. */
  method ParsePort(text: seq<byte>) returns (port: Option<int32>)
    ensures port.Some? <==> IsPort(text)
    ensures port.Some? ==> port.value as int == Value(text)
  {
    if |text| == 0 {
      return None;
    }
    var parsedPort: int32 := 0;
    var i := 0;
    while i < |text|
      invariant 0 <= i <= |text|
      invariant AllDigits(text[..i]) && parsedPort as int == Value(text[..i]) <= 65535
    {
      if text[i] < 0x30 || text[i] > 0x39 {
        return None;
      }
      assert text[..i + 1][..i] == text[..i];
      parsedPort := parsedPort * 10 + (text[i] - 0x30) as int32;
      if parsedPort > 65535 {
        TooBig(text, i + 1);
        return None;
      }
      i := i + 1;
    }
    assert text[..i] == text;
    if parsedPort <= 0 {
      return None;
    }
    return Some(parsedPort);
  }

  lemma TooBig(text: seq<byte>, i: nat)
    requires i <= |text| && AllDigits(text[..i]) && Value(text[..i]) > 65535
    ensures !IsPort(text)
  {
    if AllDigits(text) {
      ValueGrows(text, i);
    }
  }

  function Digits(n: nat): (r: seq<byte>)
    ensures |r| > 0 && AllDigits(r)
  {
    if n < 10 then [0x30 + n] else Digits(n / 10) + [0x30 + n % 10]
  }

  lemma {:induction false} ValueOfDigits(n: nat)
    ensures Value(Digits(n)) == n
  {
    if n >= 10 {
      ValueOfDigits(n / 10);
      assert Digits(n)[..|Digits(n)| - 1] == Digits(n / 10);
    } else {
      assert Digits(n)[..0] == [];
    }
  }

  // ---------------------------------------------------------------- searching

  /** find_first_of; the length stands for "not found". */
  function Find(s: seq<byte>, stops: seq<byte>, from: nat): (i: nat)
    requires from <= |s|
    ensures from <= i <= |s|
    ensures forall k :: from <= k < i ==> s[k] !in stops
    ensures i < |s| ==> s[i] in stops
    decreases |s| - from
  {
    if from == |s| || s[from] in stops then from else Find(s, stops, from + 1)
  }

  /** rfind of one octet; the length stands for "not found". */
  function FindLast(s: seq<byte>, c: byte, n: nat): (i: nat)
    requires n <= |s|
    ensures i == |s| || i < n
    ensures i < |s| ==> s[i] == c && forall k :: i < k < n ==> s[k] != c
    ensures i == |s| ==> forall k :: 0 <= k < n ==> s[k] != c
  {
    if n == 0 then |s| else if s[n - 1] == c then n - 1 else FindLast(s, c, n - 1)
  }

  predicate Free(s: seq<byte>, stops: seq<byte>) { forall k :: 0 <= k < |s| ==> s[k] !in stops }

  // ---------------------------------------------------------------- parsing

  function Target(path: seq<byte>): (r: seq<byte>) {
    if |path| == 0 then [SLASH] else if path[0] == QUESTION then [SLASH] + path else path
  }

  /** The part from the first of "/?#" on, up to a fragment. */
  function PathAt(url: seq<byte>, end: nat): (r: seq<byte>)
    requires end <= |url|
  {
    if end == |url| || url[end] == HASH then [] else url[end..Find(url, [HASH], end)]
  }

  function ParseAuthority(authority: seq<byte>): (r: Option<(seq<byte>, int)>) {
    var first, last := Find(authority, [COLON], 0), FindLast(authority, COLON, |authority|);
    if first == |authority| then Some((authority, 80))
    else if first != last || !IsPort(authority[first + 1..]) then None
    else Some((authority[..first], Value(authority[first + 1..])))
  }

  function Parse(url: seq<byte>): (r: Option<Parsed>) {
    if |url| == 0 || |url| > MAX_URL || !NoControl(url) || !(WSS <= url || WS <= url) then None
    else
      var start := if WSS <= url then |WSS| else |WS|;
      var end := Find(url, [SLASH, QUESTION, HASH], start);
      var authority, target := url[start..end], Target(PathAt(url, end));
      if |authority| == 0 || |target| > MAX_TARGET || !NoControl(target) then None
      else
        var hp := ParseAuthority(authority);
        if hp.None? || |hp.value.0| == 0 || |hp.value.0| > MAX_HOST || !NoControl(hp.value.0) then None
        else Some(Parsed(hp.value.0, target, hp.value.1))
  }

  method ParseWebSocketUrl(url: seq<byte>) returns (r: Option<Parsed>)
    ensures r == Parse(url)
  {
    var bad := HasControlChar(url);
    if |url| == 0 || |url| > MAX_URL || bad {
      return None;
    }
    var start := 0;
    if WSS <= url {
      start := 6;
    } else if WS <= url {
      start := 5;
    } else {
      return None;
    }
    var end := Find(url, [SLASH, QUESTION, HASH], start);
    var authority := url[start..end];
    var target := [SLASH];
    if end != |url| && url[end] != HASH {
      target := url[end..Find(url, [HASH], end)];
      if |target| > 0 && target[0] == QUESTION {
        target := [SLASH] + target;
      }
    }
    bad := HasControlChar(target);
    if |authority| == 0 || |target| == 0 || |target| > MAX_TARGET || bad {
      return None;
    }
    r := TakeAuthority(authority, target);
  }

  method TakeAuthority(authority: seq<byte>, target: seq<byte>) returns (r: Option<Parsed>)
    ensures var hp := ParseAuthority(authority);
            r == if hp.None? || |hp.value.0| == 0 || |hp.value.0| > MAX_HOST || !NoControl(hp.value.0) then None
                 else Some(Parsed(hp.value.0, target, hp.value.1))
  {
    var first, last := Find(authority, [COLON], 0), FindLast(authority, COLON, |authority|);
    var host, port := authority, 80;
    if first != |authority| {
      if first != last {
        return None;
      }
      host := authority[..first];
      var parsed := ParsePort(authority[first + 1..]);
      if parsed.None? {
        return None;
      }
      port := parsed.value as int;
    }
    var bad := HasControlChar(host);
    if |host| == 0 || |host| > MAX_HOST || bad {
      return None;
    }
    return Some(Parsed(host, target, port));
  }

  // ---------------------------------------------------------------- the grammar

  /** The parts of a URL, as they are written. */
  datatype Url = Url(secure: bool, host: seq<byte>, portText: Option<seq<byte>>, path: seq<byte>, fragment: seq<byte>)

  function Scheme(u: Url): (r: seq<byte>) { if u.secure then WSS else WS }

  function Authority(u: Url): (r: seq<byte>) {
    u.host + (if u.portText.Some? then [COLON] + u.portText.value else [])
  }

  function Text(u: Url): (r: seq<byte>) { Scheme(u) + Authority(u) + u.path + u.fragment }

  predicate ValidAuthority(u: Url) {
    && Free(u.host, [SLASH, QUESTION, HASH, COLON]) && 0 < |u.host| <= 253
    && (u.portText.Some? ==> IsPort(u.portText.value))
  }

  predicate ValidPath(u: Url) {
    && (|u.path| > 0 ==> u.path[0] in [SLASH, QUESTION])
    && Free(u.path, [HASH])
    && (|u.fragment| > 0 ==> u.fragment[0] == HASH)
    && |Target(u.path)| <= 1024
  }

  predicate Valid(u: Url) { ValidAuthority(u) && ValidPath(u) && |Text(u)| <= 2048 && NoControl(Text(u)) }

  function Meaning(u: Url): (r: Parsed)
    requires ValidAuthority(u)
  {
    Parsed(u.host, Target(u.path), if u.portText.Some? then Value(u.portText.value) else 80)
  }

  lemma {:induction false} FindIs(s: seq<byte>, stops: seq<byte>, from: nat, i: nat)
    requires from <= i <= |s| && (forall k :: from <= k < i ==> s[k] !in stops) && (i < |s| ==> s[i] in stops)
    ensures Find(s, stops, from) == i
    decreases i - from
  {
    if from < i {
      FindIs(s, stops, from + 1, i);
    }
  }

  lemma Pieces(a: seq<byte>, b: seq<byte>, c: seq<byte>, d: seq<byte>)
    ensures var t := a + b + c + d;
            var i, j := |a| + |b|, |a| + |b| + |c|;
            && t[|a|..i] == b && t[i..] == c + d && t[i..j] == c && t[j..] == d
            && (forall k :: |a| <= k < i ==> t[k] == b[k - |a|])
            && (forall k :: i <= k < j ==> t[k] == c[k - i])
  {
  }

  lemma BareHostParses(host: seq<byte>)
    requires Free(host, [COLON])
    ensures ParseAuthority(host) == Some((host, 80))
  {
    FindIs(host, [COLON], 0, |host|);
  }

  lemma HostAndPortParse(host: seq<byte>, port: seq<byte>)
    requires Free(host, [COLON]) && IsPort(port)
    ensures ParseAuthority(host + ([COLON] + port)) == Some((host, Value(port)))
  {
    var a, n := host + ([COLON] + port), |host|;
    assert a[n] == COLON && a[..n] == host && a[n + 1..] == port;
    FindIs(a, [COLON], 0, n);
    assert forall k :: n < k < |a| ==> a[k] == port[k - n - 1] != COLON;
    assert FindLast(a, COLON, |a|) == n;
  }

  lemma FreeOfFewer(s: seq<byte>)
    ensures Free(s, [SLASH, QUESTION, HASH, COLON]) <==> Free(s, [SLASH, QUESTION, HASH]) && Free(s, [COLON])
  {
  }

  lemma AuthorityParses(u: Url)
    requires ValidAuthority(u)
    ensures ParseAuthority(Authority(u)) == Some((u.host, Meaning(u).port))
  {
    FreeOfFewer(u.host);
    if u.portText.Some? {
      HostAndPortParse(u.host, u.portText.value);
    } else {
      BareHostParses(u.host);
      assert Authority(u) == u.host;
    }
  }

  lemma AuthorityHasNoDelimiter(u: Url)
    requires ValidAuthority(u)
    ensures Free(Authority(u), [SLASH, QUESTION, HASH])
  {
    var a, n := Authority(u), |u.host|;
    forall k | 0 <= k < |a| ensures a[k] !in [SLASH, QUESTION, HASH] {
      if k > n {
        assert a[k] == u.portText.value[k - n - 1];
      }
    }
  }

  /** Where the authority ends, and the path behind it. */
  lemma EndOfAuthority(u: Url)
    requires ValidAuthority(u) && ValidPath(u)
    ensures var end := |Scheme(u)| + |Authority(u)|;
            Find(Text(u), [SLASH, QUESTION, HASH], |Scheme(u)|) == end && Text(u)[|Scheme(u)|..end] == Authority(u)
  {
    var t, end := Text(u), |Scheme(u)| + |Authority(u)|;
    AuthorityHasNoDelimiter(u);
    Pieces(Scheme(u), Authority(u), u.path, u.fragment);
    assert end < |t| ==> t[end] == (u.path + u.fragment)[0];
    FindIs(t, [SLASH, QUESTION, HASH], |Scheme(u)|, end);
  }

  lemma PathFound(u: Url)
    requires ValidPath(u)
    ensures PathAt(Text(u), |Scheme(u)| + |Authority(u)|) == u.path
  {
    var t, end := Text(u), |Scheme(u)| + |Authority(u)|;
    Pieces(Scheme(u), Authority(u), u.path, u.fragment);
    var stop := end + |u.path|;
    assert stop < |t| ==> t[stop] == u.fragment[0];
    if |u.path| > 0 {
      assert t[end] == u.path[0];
      FindIs(t, [HASH], end, stop);
    }
  }

  lemma SchemeFound(u: Url)
    ensures (WSS <= Text(u) <==> u.secure) && (u.secure || WS <= Text(u))
  {
    var rest := Authority(u) + u.path + u.fragment;
    assert Text(u) == Scheme(u) + rest;
    if !u.secure {
      assert Text(u)[2] == COLON;
    }
  }

  lemma PartsHaveNoControl(u: Url)
    requires NoControl(Text(u))
    ensures NoControl(Target(u.path)) && NoControl(u.host)
  {
    Pieces(Scheme(u), Authority(u), u.path, u.fragment);
    assert forall k :: 0 <= k < |u.host| ==> u.host[k] == Authority(u)[k] == Text(u)[|Scheme(u)| + k];
    assert forall k :: 0 <= k < |u.path| ==> u.path[k] == Text(u)[|Scheme(u)| + |Authority(u)| + k];
  }

  /** Every URL of the grammar is accepted, and taken apart into its parts. */
  lemma AcceptsGrammar(u: Url)
    requires Valid(u)
    ensures Parse(Text(u)) == Some(Meaning(u))
  {
    SchemeFound(u);
    EndOfAuthority(u);
    PathFound(u);
    AuthorityParses(u);
    PartsHaveNoControl(u);
  }

  /** The parts an accepted URL was read as. */
  function Parts(url: seq<byte>): (u: Url)
    requires Parse(url).Some?
  {
    var start := if WSS <= url then |WSS| else |WS|;
    var end := Find(url, [SLASH, QUESTION, HASH], start);
    var authority, path := url[start..end], PathAt(url, end);
    var colon := Find(authority, [COLON], 0);
    Url(WSS <= url, authority[..colon], if colon == |authority| then None else Some(authority[colon + 1..]),
        path, url[end + |path|..])
  }

  lemma SliceIsFree(s: seq<byte>, stops: seq<byte>, from: nat, n: nat)
    requires from <= |s| && from + n <= Find(s, stops, from)
    ensures Free(s[from..from + n], stops)
  {
    var t := s[from..from + n];
    assert forall k :: 0 <= k < n ==> t[k] == s[from + k];
  }

  lemma PrefixIsFree(s: seq<byte>, stops: seq<byte>)
    ensures Free(s[..Find(s, stops, 0)], stops)
  {
  }

  /** An authority is what precedes its first colon, and what follows. */
  lemma CutWhere(a: seq<byte>, c: nat)
    requires c <= |a| && (c < |a| ==> a[c] == COLON)
    ensures a == a[..c] + (if c < |a| then [COLON] + a[c + 1..] else [])
  {
    if c < |a| {
      CutAt(a, c);
    } else {
      assert a[..c] == a && a + [] == a;
    }
  }

  lemma HostOfAuthority(a: seq<byte>)
    requires ParseAuthority(a).Some?
    ensures var c := Find(a, [COLON], 0);
            ParseAuthority(a).value.0 == a[..c] && (c < |a| ==> IsPort(a[c + 1..]))
  {
    assert a[..|a|] == a;
  }

  lemma CutAt(a: seq<byte>, c: nat)
    requires c < |a|
    ensures a == a[..c] + ([a[c]] + a[c + 1..])
  {
  }

  lemma Associate(a: seq<byte>, b: seq<byte>, c: seq<byte>, d: seq<byte>)
    ensures a + b + c + d == a + b + (c + d)
  {
  }

  /** An accepted authority is a valid host, with a valid port behind its first colon if any. */
  lemma AuthorityIs(a: seq<byte>, u: Url)
    requires ParseAuthority(a).Some? && Free(a, [SLASH, QUESTION, HASH])
    requires var c := Find(a, [COLON], 0);
             u.host == a[..c] && u.portText == if c == |a| then None else Some(a[c + 1..])
    requires 0 < |u.host| <= MAX_HOST
    ensures Authority(u) == a && ValidAuthority(u)
  {
    var c := Find(a, [COLON], 0);
    PrefixIsFree(a, [COLON]);
    CutWhere(a, c);
    HostOfAuthority(a);
    PrefixStaysFree(a, c);
    FreeOfFewer(u.host);
  }

  lemma PrefixStaysFree(s: seq<byte>, n: nat)
    requires Free(s, [SLASH, QUESTION, HASH]) && n <= |s|
    ensures Free(s[..n], [SLASH, QUESTION, HASH])
  {
  }

  lemma AuthorityOfParts(url: seq<byte>, start: nat, end: nat)
    requires Parse(url).Some? && start == (if WSS <= url then |WSS| else |WS|)
    requires end == Find(url, [SLASH, QUESTION, HASH], start)
    ensures Authority(Parts(url)) == url[start..end] && ValidAuthority(Parts(url))
  {
    HostOfAuthority(url[start..end]);
    SliceIsFree(url, [SLASH, QUESTION, HASH], start, end - start);
    AuthorityIs(url[start..end], Parts(url));
  }

  lemma PathOfParts(url: seq<byte>, start: nat, end: nat)
    requires Parse(url).Some? && start == (if WSS <= url then |WSS| else |WS|)
    requires end == Find(url, [SLASH, QUESTION, HASH], start)
    ensures ValidPath(Parts(url)) && url[end..] == Parts(url).path + Parts(url).fragment
  {
    PathFacts(url, end);
  }

  lemma PathFacts(url: seq<byte>, end: nat)
    requires end <= |url| && (end < |url| ==> url[end] in [SLASH, QUESTION, HASH])
    ensures var path := PathAt(url, end);
            var stop := end + |path|;
            && (|path| > 0 ==> path[0] in [SLASH, QUESTION]) && Free(path, [HASH])
            && stop <= |url| && url[end..] == path + url[stop..] && (stop < |url| ==> url[stop] == HASH)
  {
    var path := PathAt(url, end);
    assert path == url[end..end + |path|];
    if |path| > 0 {
      SliceIsFree(url, [HASH], end, |path|);
    }
  }

  lemma Reassemble(url: seq<byte>, i: nat, j: nat)
    requires i <= j <= |url|
    ensures url == url[..i] + url[i..j] + url[j..]
  {
  }

  lemma TextOfParts(url: seq<byte>)
    requires Parse(url).Some?
    ensures var u := Parts(url);
            ValidAuthority(u) && ValidPath(u) && Text(u) == url
  {
    var u := Parts(url);
    var start := if WSS <= url then |WSS| else |WS|;
    var end := Find(url, [SLASH, QUESTION, HASH], start);
    AuthorityOfParts(url, start, end);
    PathOfParts(url, start, end);
    assert url[..start] == Scheme(u);
    Reassemble(url, start, end);
    Associate(Scheme(u), Authority(u), u.path, u.fragment);
  }

  /** Whatever is accepted is a URL of the grammar, read as the grammar says. */
  lemma AcceptsOnlyGrammar(url: seq<byte>)
    requires Parse(url).Some?
    ensures var u := Parts(url);
            Valid(u) && Text(u) == url && Meaning(u) == Parse(url).value
  {
    TextOfParts(url);
    AcceptsGrammar(Parts(url));
  }

  /** The parser accepts exactly the grammar, with exactly its meaning. */
  lemma ParseIff(url: seq<byte>, p: Parsed)
    ensures Parse(url) == Some(p) <==> exists u :: Valid(u) && Text(u) == url && Meaning(u) == p
  {
    if Parse(url) == Some(p) {
      AcceptsOnlyGrammar(url);
    }
    forall u | Valid(u) && Text(u) == url && Meaning(u) == p ensures Parse(url) == Some(p) {
      AcceptsGrammar(u);
    }
  }

  /** What is left out of a URL: no path asks for "/", a query alone for "/?...", and no port
      means 80; the fragment and the scheme do not matter. */
  lemma DefaultsOf(u: Url)
    requires Valid(u)
    ensures Parse(Text(u)).Some?
    ensures u.path == [] ==> Parse(Text(u)).value.requestTarget == [0x2f]
    ensures |u.path| > 0 && u.path[0] == 0x3f ==> Parse(Text(u)).value.requestTarget == [0x2f] + u.path
    ensures |u.path| > 0 && u.path[0] == 0x2f ==> Parse(Text(u)).value.requestTarget == u.path
    ensures u.portText.None? ==> Parse(Text(u)).value.port == 80
  {
    AcceptsGrammar(u);
  }

  /** Printing a host, a port and a target and parsing them gives the same three back, also
      when the text was percent-encoded in between. */
  lemma PrintThenParse(host: seq<byte>, port: nat, target: seq<byte>, forms: seq<Form>)
    requires Free(host, [SLASH, QUESTION, HASH, COLON]) && 0 < |host| <= MAX_HOST && 1 <= port <= 65535
    requires 0 < |target| <= MAX_TARGET && target[0] == SLASH && Free(target, [HASH])
    requires NoControl(host) && NoControl(target)
    requires Allowed(WS + host + ([COLON] + Digits(port)) + target, forms)
    ensures var url := WS + host + ([COLON] + Digits(port)) + target;
            && Parse(url) == Some(Parsed(host, target, port))
            && Decode(Encode(url, forms)) == Some(url)
  {
    var u := Url(false, host, Some(Digits(port)), target, []);
    var url := WS + host + ([COLON] + Digits(port)) + target;
    ValueOfDigits(port);
    ShortPort(port);
    assert Text(u) == url;
    AcceptsGrammar(u);
    DecodeUndoesEncode(url, forms);
  }

  function Power10(k: nat): (p: nat) { if k == 0 then 1 else 10 * Power10(k - 1) }

  lemma {:induction false} DigitsFit(n: nat, k: nat)
    requires k > 0 && n < Power10(k)
    ensures |Digits(n)| <= k
    decreases k
  {
    if n >= 10 {
      assert k > 1;
      DigitsFit(n / 10, k - 1);
    }
  }

  lemma ShortPort(port: nat)
    requires port <= 65535
    ensures |Digits(port)| <= 5
  {
    assert Power10(3) == 1000;
    assert Power10(5) == 100000;
    DigitsFit(port, 5);
  }
}
