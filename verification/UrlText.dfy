// The parts of Go's strconv, strings and net/url that the pull-request
// references rely on, for plain text: ASCII without percent escapes and
// without bracketed addresses.
module UrlText {
  import opened Options
  import opened Text

  const MAX_INT: int := 0x7fff_ffff_ffff_ffff
  const SPACES := {'\t', '\n', '\U{B}', '\U{C}', '\r', ' '}

  predicate Digit(c: char) { '0' <= c <= '9' }

  predicate Letter(c: char) { 'a' <= c <= 'z' || 'A' <= c <= 'Z' }

  predicate Control(c: char) { c < ' ' || c == '\U{7F}' }

  predicate SchemeChar(c: char) { Letter(c) || Digit(c) || c in {'+', '-', '.'} }

  predicate UserChar(c: char) {
    Letter(c) || Digit(c) || c in {'-', '.', '_', ':', '~', '!', '$', '&', '\'', '(', ')', '*', '+', ',', ';', '=', '@'}
  }

  predicate HostChar(c: char) {
    || Letter(c) || Digit(c)
    || c in {'-', '_', '.', '~', '!', '$', '&', '\'', '(', ')', '*', '+', ',', ';', '=', ':', ']', '<', '>', '"'}
  }

  // What a path may hold without being escaped.
  predicate PathChar(c: char) {
    Letter(c) || Digit(c) || c in {'-', '_', '.', '~', '$', '&', '+', ',', '/', ':', ';', '=', '@'}
  }

  predicate PlainChar(c: char) { c < '\U{80}' && c != '%' && c != '[' }

  predicate Plain(s: string) { forall c :: c in s ==> PlainChar(c) }

  predicate PathText(s: string) { forall c :: c in s ==> PathChar(c) }

  // ---------- numbers ----------

  predicate AllDigits(s: string) { forall c :: c in s ==> Digit(c) }

  function Value(s: string): nat
    requires AllDigits(s)
  {
    if s == "" then 0
    else
      assert s[|s| - 1] in s;
      10 * Value(s[..|s| - 1]) + (s[|s| - 1] as int - '0' as int)
  }

  // strconv.Atoi on a 64-bit platform.
  function Atoi(s: string): Option<int> {
    var digits := if s != "" && s[0] in {'+', '-'} then s[1..] else s;
    if digits == "" || !AllDigits(digits) then None
    else
      var v: int := Value(digits);
      var n := if s[0] == '-' then -v else v;
      if -MAX_INT - 1 <= n <= MAX_INT then Some(n) else None
  }

  // The %d verb.
  function Itoa(n: nat): (s: string)
    ensures s != "" && AllDigits(s)
  {
    var last := [(n % 10 + '0' as int) as char];
    if n < 10 then last else Itoa(n / 10) + last
  }

  lemma {:induction false} ValueItoa(n: nat)
    ensures Value(Itoa(n)) == n
  {
    var s := Itoa(n);
    if n >= 10 {
      ValueItoa(n / 10);
      assert s[..|s| - 1] == Itoa(n / 10);
    } else {
      assert s[..|s| - 1] == "";
    }
  }

  lemma AtoiItoa(n: nat)
    requires n <= MAX_INT
    ensures Atoi(Itoa(n)) == Some(n)
  {
    var s := Itoa(n);
    assert s[0] in s;
    ValueItoa(n);
  }

  // ---------- trimming and cutting ----------

  function TrimLeft(s: string, cut: set<char>): (t: string)
    ensures t != "" ==> t[0] !in cut
    ensures (Plain(s) ==> Plain(t)) && (PathText(s) ==> PathText(t))
  {
    if s != "" && s[0] in cut then TrimLeft(s[1..], cut) else s
  }

  function TrimRight(s: string, cut: set<char>): (t: string)
    ensures t != "" ==> s != "" && t[0] == s[0] && t[|t| - 1] !in cut
    ensures (Plain(s) ==> Plain(t)) && (PathText(s) ==> PathText(t))
  {
    if s != "" && s[|s| - 1] in cut then TrimRight(s[..|s| - 1], cut) else s
  }

  function Trim(s: string, cut: set<char>): (t: string)
    ensures t != "" ==> t[0] !in cut && t[|t| - 1] !in cut
    ensures (Plain(s) ==> Plain(t)) && (PathText(s) ==> PathText(t))
  {
    TrimRight(TrimLeft(s, cut), cut)
  }

  lemma NothingTrimmed(s: string, cut: set<char>)
    requires s != "" && s[0] !in cut && s[|s| - 1] !in cut
    ensures TrimLeft(s, cut) == s && Trim(s, cut) == s
  {}

  // The text before the first `c`, or all of it.
  function Before(s: string, c: char): (r: string)
    ensures r <= s && c !in r
    ensures c in s ==> |r| < |s| && s[|r|] == c
  {
    if s == "" || s[0] == c then "" else [s[0]] + Before(s[1..], c)
  }

  lemma {:induction false} BeforePiece(a: string, c: char, rest: string)
    requires c !in a
    ensures Before(a + [c] + rest, c) == a
  {
    if a != "" {
      BeforePiece(a[1..], c, rest);
      assert (a + [c] + rest)[1..] == a[1..] + [c] + rest;
      assert [a[0]] + a[1..] == a;
    }
  }

  lemma {:induction false} BeforeWhole(a: string, c: char)
    requires c !in a
    ensures Before(a, c) == a
  {
    if a != "" {
      BeforeWhole(a[1..], c);
      assert [a[0]] + a[1..] == a;
    }
  }

  lemma SplitCons(c: char, t: string, sep: char)
    ensures var rest := Split(t, sep);
      Split([c] + t, sep) == if c == sep then [""] + rest else [[c] + rest[0]] + rest[1..]
  {
    assert ([c] + t)[1..] == t;
  }

  lemma AppendCons(x: string, t: seq<string>, r: seq<string>)
    requires t != []
    ensures [x] + (t + r) == ([x] + t) + r && (t + r)[0] == t[0]
    ensures [x] + (t + r)[1..] == ([x] + t[1..]) + r
  {
    assert (t + r)[1..] == t[1..] + r;
  }

  lemma {:induction false} SplitAppend(a: string, rest: string, sep: char)
    ensures Split(a + [sep] + rest, sep) == Split(a, sep) + Split(rest, sep)
  {
    if a == "" {
      SplitCons(sep, rest, sep);
      assert a + [sep] + rest == [sep] + rest;
    } else {
      var whole := a[1..] + [sep] + rest;
      SplitAppend(a[1..], rest, sep);
      assert a == [a[0]] + a[1..] && a + [sep] + rest == [a[0]] + whole;
      SplitCons(a[0], a[1..], sep);
      SplitCons(a[0], whole, sep);
      var tail := Split(a[1..], sep);
      AppendCons(if a[0] == sep then "" else [a[0]] + tail[0], tail, Split(rest, sep));
    }
  }

  lemma {:induction false} JoinAppend(a: seq<string>, b: seq<string>, sep: char)
    requires a != [] && b != []
    ensures Join(a + b, sep) == Join(a, sep) + [sep] + Join(b, sep)
  {
    if |a| == 1 {
      assert (a + b)[1..] == b;
    } else {
      JoinAppend(a[1..], b, sep);
      assert (a + b)[1..] == a[1..] + b;
    }
  }

  // ---------- URLs ----------

  // `escaped` says that RawPath is set: the path is not in its default encoding.
  datatype Url = Url(scheme: string, user: bool, host: string, path: string, escaped: bool)

  function SchemeLength(s: string): (k: nat)
    ensures k <= |s|
  {
    if s == "" || !SchemeChar(s[0]) then 0 else 1 + SchemeLength(s[1..])
  }

  function SplitScheme(s: string): Option<(string, string)> {
    var k := SchemeLength(s);
    if k == |s| || s[k] != ':' || (k > 0 && !Letter(s[0])) then Some(("", s))
    else if k == 0 then None
    else Some((ToLower(s[..k]), s[k + 1..]))
  }

  // A host whose port, after the last colon, is empty or numeric.
  predicate HostOk(host: string) {
    && (forall c :: c in host ==> HostChar(c))
    && (var parts := Split(host, ':'); |parts| > 1 ==> AllDigits(parts[|parts| - 1]))
  }

  function Hostname(host: string): string {
    var parts := Split(host, ':');
    if |parts| == 1 then host else Join(parts[..|parts| - 1], ':')
  }

  predicate UserText(s: string) { forall c :: c in s ==> UserChar(c) }

  predicate NoControl(s: string) { forall c :: c in s ==> !Control(c) }

  function ParseAuthority(scheme: string, authority: string, path: string): Option<Url> {
    var parts := Split(authority, '@');
    var host := parts[|parts| - 1];
    if !HostOk(host) || (|parts| > 1 && !UserText(Join(parts[..|parts| - 1], '@'))) then None
    else Some(Url(scheme, |parts| > 1, host, path, !PathText(path)))
  }

  function ParseRest(scheme: string, rest: string): Option<Url> {
    if !HasPrefix(rest, "/") then
      if scheme != "" then Some(Url(scheme, false, "", "", false))
      else if ':' in Before(rest, '/') then None
      else Some(Url("", false, "", rest, !PathText(rest)))
    else if HasPrefix(rest, "//") && (scheme != "" || !HasPrefix(rest, "///")) then
      var authority := Before(rest[2..], '/');
      ParseAuthority(scheme, authority, rest[2 + |authority|..])
    else
      Some(Url(scheme, false, "", rest, !PathText(rest)))
  }

  function ParseURL(raw: string): (u: Option<Url>)
    requires Plain(raw)
  {
    var whole := Before(raw, '#');
    if !NoControl(whole) then None
    else match SplitScheme(whole)
      case None => None
      case Some((scheme, body)) => ParseRest(scheme, Before(body, '?'))
  }

  lemma ParsedUrl(raw: string)
    requires Plain(raw) && ParseURL(raw).Some?
    ensures var u := ParseURL(raw).value;
      (u.host == "" || HostOk(u.host)) && (u.escaped <==> !PathText(u.path))
  {}

  lemma {:induction false} SchemeEnds(a: string, rest: string)
    requires forall c :: c in a ==> SchemeChar(c)
    ensures SchemeLength(a + ":" + rest) == |a|
  {
    if a != "" {
      assert a[0] in a;
      assert (a + ":" + rest)[1..] == a[1..] + ":" + rest;
      SchemeEnds(a[1..], rest);
    }
  }

  lemma HttpsScheme(rest: string)
    ensures SplitScheme("https" + ":" + rest) == Some(("https", rest))
  {
    var s := "https" + ":" + rest;
    SchemeEnds("https", rest);
    assert s[..5] == "https" && s[6..] == rest;
    assert ToLower("https") == "https" by { LowerStays("https"); }
  }

  lemma {:induction false} LowerStays(s: string)
    requires forall c :: c in s ==> !('A' <= c <= 'Z')
    ensures ToLower(s) == s
  {
    if s != "" {
      assert forall c :: c in s[1..] ==> c in s;
      LowerStays(s[1..]);
      assert s[0] in s && s == [s[0]] + s[1..];
    }
  }

  lemma BuiltText(host: string, path: string)
    requires HostOk(host) && PathText(path)
    ensures var raw := "https://" + host + path;
      forall c :: c in raw ==> PlainChar(c) && !Control(c) && c != '#' && c != '?'
  {
    var scheme := "https://";
    assert forall c :: c in scheme ==> PathChar(c);
    var raw := scheme + host + path;
    forall c | c in raw ensures HostChar(c) || PathChar(c) {
      assert c in scheme || c in host || c in path;
    }
  }

  lemma BuiltAuthority(host: string, path: string)
    requires HostOk(host) && PathText(path)
    ensures ParseAuthority("https", host, path) == Some(Url("https", false, host, path, false))
  {
    assert !HostChar('@');
    SplitWhole(host, '@');
  }

  lemma BuiltRest(host: string, path: string)
    requires HostOk(host) && PathText(path) && HasPrefix(path, "/")
    ensures ParseRest("https", "//" + host + path) == Some(Url("https", false, host, path, false))
  {
    var rest := "//" + host + path;
    assert !HostChar('/');
    assert path == ['/'] + path[1..];
    assert rest[2..] == host + ['/'] + path[1..];
    BeforePiece(host, '/', path[1..]);
    assert rest[2 + |host|..] == path;
    assert rest[..2] == "//" && rest[0] == '/';
    BuiltAuthority(host, path);
  }

  // An https URL put together from a good host and a plain path comes apart
  // into the same host and path.
  lemma ParseBuilt(host: string, path: string)
    requires HostOk(host) && PathText(path) && HasPrefix(path, "/")
    ensures var raw := "https://" + host + path;
      Plain(raw) && ParseURL(raw) == Some(Url("https", false, host, path, false))
  {
    var raw := "https://" + host + path;
    var rest := "//" + host + path;
    BuiltText(host, path);
    BeforeWhole(raw, '#');
    assert raw == "https" + ":" + rest;
    HttpsScheme(rest);
    assert forall c :: c in rest ==> c in raw;
    BeforeWhole(rest, '?');
    BuiltRest(host, path);
  }
}
