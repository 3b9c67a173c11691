// Which hosts are GitHub's, and what references to them look like in full.
module PullRequestHosts {
  import opened Options
  import opened Text
  import opened UrlText
  import opened PullRequestRef

  // `s` is the lower-case text `low`, in some case.
  predicate InSomeCase(s: string, low: string) {
    && |s| == |low|
    && forall i :: 0 <= i < |s| ==> s[i] == low[i] || ('A' <= s[i] <= 'Z' && low[i] as int == s[i] as int + 32)
  }

  predicate EndsInSomeCase(s: string, low: string) {
    |s| >= |low| && InSomeCase(s[|s| - |low|..], low)
  }

  predicate LowerText(s: string) {
    forall i :: 0 <= i < |s| ==> !('A' <= s[i] <= 'Z')
  }

  lemma LowerIs(s: string, low: string)
    requires LowerText(low)
    ensures ToLower(s) == low <==> InSomeCase(s, low)
  {
    LowerChars(s);
  }

  lemma LowerEnds(s: string, low: string)
    requires LowerText(low)
    ensures HasSuffix(ToLower(s), low) <==> EndsInSomeCase(s, low)
  {
    if |s| >= |low| {
      var k := |s| - |low|;
      LowerChars(s);
      LowerChars(s[k..]);
      assert ToLower(s)[k..] == ToLower(s[k..]);
      LowerIs(s[k..], low);
    }
  }

  lemma KnownNamesEnd(s: string)
    ensures s == "www.github.com" || s == "api.github.com" ==> HasSuffix(s, ".github.com")
  {
    assert "www.github.com"[3..] == ".github.com";
    assert "api.github.com"[3..] == ".github.com";
  }

  // GitHub's hosts are github.com, whatever ends in .github.com and whatever
  // ends in .ghe.io, in any case.
  lemma GitHubHostIff(host: string)
    requires ':' !in host
    ensures GitHubHost(host) <==>
      InSomeCase(host, "github.com") || EndsInSomeCase(host, ".github.com") || EndsInSomeCase(host, ".ghe.io")
  {
    SplitWhole(host, ':');
    LowerIs(host, "github.com");
    LowerEnds(host, ".github.com");
    LowerEnds(host, ".ghe.io");
    KnownNamesEnd(ToLower(host));
  }

  // A port makes no difference.
  lemma PortIsIgnored(host: string, port: string)
    requires ':' !in host && ':' !in port && ']' !in host && ']' !in port
    ensures GitHubHost(host + ":" + port) <==> GitHubHost(host)
  {
    SplitWhole(host, ':');
    SplitWhole(port, ':');
    SplitPiece(host, port, ':');
    assert host + [':'] + port == host + ":" + port;
  }

  // ---------- numbers ----------

  lemma DigitsArePlain(s: string)
    requires s != "" && AllDigits(s)
    ensures Plain(s) && Plain("#" + s) && Trim(s, SPACES) == s && Trim("#" + s, SPACES) == "#" + s
  {
    assert s[0] in s && s[|s| - 1] in s;
    assert forall c :: Digit(c) ==> PlainChar(c);
    NothingTrimmed(s, SPACES);
    var marked := "#" + s;
    assert marked[0] == '#' && marked[|marked| - 1] == s[|s| - 1];
    NothingTrimmed(marked, SPACES);
  }

  lemma NumberReads(n: nat)
    requires 1 <= n <= MAX_INT
    ensures Numeric("#" + Itoa(n)) == Some(n) && Numeric(Itoa(n)) == Some(n)
  {
    var s := Itoa(n);
    DigitsArePlain(s);
    assert s[0] in s;
    assert ("#" + s)[1..] == s;
    AtoiItoa(n);
  }

  lemma SignedDigits(s: string)
    requires s != "" && AllDigits(s)
    ensures Atoi(s) == (if Value(s) <= 9223372036854775807 then Some(Value(s)) else None)
    ensures Atoi("+" + s) == Atoi(s)
    ensures Atoi("-" + s) == (if Value(s) <= 9223372036854775808 then Some(0 - Value(s)) else None)
  {
    assert s[0] in s;
    assert ("+" + s)[1..] == s && ("+" + s)[0] == '+';
    assert ("-" + s)[1..] == s && ("-" + s)[0] == '-';
  }

  lemma MinusIsKept(s: string)
    requires s != "" && AllDigits(s)
    ensures Trim("-" + s, SPACES) == "-" + s && TrimPrefix("-" + s, "#") == "-" + s
  {
    var all := "-" + s;
    assert s[|s| - 1] in s && all[0] == '-' && all[|all| - 1] == s[|s| - 1];
    NothingTrimmed(all, SPACES);
  }

  // A number fits up to 2^63 - 1; a sign counts, and zero, a negative number or
  // one out of range is no reference.
  lemma NumbersInRange(n: nat)
    ensures Numeric(Itoa(n)) == (if 1 <= n <= 9223372036854775807 then Some(n) else None)
    ensures Atoi("+" + Itoa(n)) == Atoi(Itoa(n))
    ensures Atoi("-" + Itoa(n)) == (if n <= 9223372036854775808 then Some(0 - n) else None)
    ensures Numeric("-" + Itoa(n)) == None
  {
    var s := Itoa(n);
    ValueItoa(n);
    SignedDigits(s);
    MinusIsKept(s);
    DigitsArePlain(s);
    assert s[0] in s;
  }

  // What "#n" and "n" stand for on GitHub, and on any other host.
  lemma NumberOnHost(r: Repo, n: nat, suffix: string)
    requires NamesRepo(r) && ':' !in r.host && 1 <= n <= MAX_INT && suffix in {"", ".git"}
    ensures var remote := "git@" + (r.host + ":" + (r.owner + "/" + (r.name + suffix)));
      var url := "https://" + r.host + ("/" + (r.owner + "/" + (r.name + "/" +
                   ((if GitHubHost(r.host) then "pull" else "-/merge_requests") + "/" + Itoa(n)))));
      && Plain(remote) && Plain("#" + Itoa(n)) && Plain(Itoa(n))
      && Resolve("#" + Itoa(n), remote) == Some(url)
      && Resolve(Itoa(n), remote) == Some(url)
  {
    assert r.name + "" == r.name;
    RemoteSpellingsAgree(r, r.name + suffix);
    NumberReads(n);
    DigitsArePlain(Itoa(n));
    KindText(r.host);
  }

  lemma KindText(host: string)
    ensures Join(Kind(host), '/') == if GitHubHost(host) then "pull" else "-/merge_requests"
  {
    assert ["-", "merge_requests"][1..] == ["merge_requests"];
    assert Join(["-", "merge_requests"], '/') == "-" + "/" + "merge_requests";
    assert "-" + "/" + "merge_requests" == "-/merge_requests";
  }

  lemma GitHubText()
    ensures ':' !in "github.com" && forall c :: c in "github.com" ==> HostChar(c)
  {
    var host := "github.com";
    assert forall i :: 0 <= i < |host| ==> host[i] != ':' && HostChar(host[i]);
  }

  lemma GitHubIsGitHub()
    ensures GitHubHost("github.com")
  {
    GitHubText();
    assert InSomeCase("github.com", "github.com");
    GitHubHostIff("github.com");
  }

  lemma GitHubIsHost()
    ensures HostOk("github.com") && Hostname("github.com") != ""
  {
    GitHubText();
    SplitWhole("github.com", ':');
  }

  lemma GitHubRepo(owner: string, name: string)
    requires PathText(owner) && owner != "" && '/' !in owner
    requires PathText(name) && name != "" && '/' !in name && !HasSuffix(name, ".git")
    ensures NamesRepo(Repo("github.com", owner, name))
  {
    GitHubIsHost();
    SplitWhole(owner, '/');
    assert owner[0] in owner;
  }

  // "#5" with the remote git@github.com:o/r.git is https://github.com/o/r/pull/5,
  // and so for every owner, name and number.
  lemma NumberOnGitHub(owner: string, name: string, n: nat)
    requires PathText(owner) && owner != "" && '/' !in owner
    requires PathText(name) && name != "" && '/' !in name && !HasSuffix(name, ".git")
    requires 1 <= n <= MAX_INT
    ensures var remote := "git@" + ("github.com" + ":" + (owner + "/" + (name + ".git")));
      && Plain(remote) && Plain("#" + Itoa(n))
      && Resolve("#" + Itoa(n), remote)
         == Some("https://" + "github.com" + ("/" + (owner + "/" + (name + "/" + ("pull" + "/" + Itoa(n))))))
  {
    GitHubText();
    GitHubIsGitHub();
    GitHubRepo(owner, name);
    DigitsArePlain(Itoa(n));
    NumberOnHost(Repo("github.com", owner, name), n, ".git");
  }

  // ---------- what a reference looks like ----------

  // A fragment or a query after a printed reference is ignored.
  lemma FragmentIsIgnored(p: PullRequest, fragment: string)
    requires Clean(p) && Plain(fragment)
    ensures var raw := Print(p) + "#" + fragment; Plain(raw) && ParseRef(Print(p)).Some? && ParseRef(raw) == ParseRef(Print(p))
  {
    var url := Print(p);
    ReadBack(p);
    PrintedText(p);
    BeforePiece(url, '#', fragment);
    BeforeWhole(url, '#');
    assert url + ['#'] + fragment == url + "#" + fragment;
  }

  lemma PrintedText(p: PullRequest)
    requires Clean(p)
    ensures var rest := "//" + p.host + ("/" + PathOf(p.owner, p.name, Kind(p.host), Itoa(p.number)));
      && Print(p) == "https" + ":" + rest
      && '#' !in Print(p) && '?' !in rest && NoControl(Print(p)) && Plain(Print(p))
  {
    var path := "/" + PathOf(p.owner, p.name, Kind(p.host), Itoa(p.number));
    var rest := "//" + p.host + path;
    PrintedPath(p);
    BuiltText(p.host, path);
    assert Print(p) == "https" + ":" + rest;
    assert forall c :: c in rest ==> c in Print(p);
  }

  lemma HttpsParses(rest: string)
    requires Plain("https" + ":" + rest) && NoControl("https" + ":" + rest) && '#' !in "https" + ":" + rest
    ensures ParseURL("https" + ":" + rest) == ParseRest("https", Before(rest, '?'))
  {
    BeforeWhole("https" + ":" + rest, '#');
    HttpsScheme(rest);
  }

  lemma QueryText(raw: string, query: string)
    requires Plain(raw) && NoControl(raw) && '#' !in raw && Plain(query) && NoControl(query) && '#' !in query
    ensures var all := raw + "?" + query; Plain(all) && NoControl(all) && '#' !in all
  {
    assert forall c :: c in raw + "?" + query ==> c in raw || c == '?' || c in query;
    assert !Control('?') && PlainChar('?');
  }

  lemma QueryIsIgnored(p: PullRequest, query: string)
    requires Clean(p) && Plain(query) && NoControl(query) && '#' !in query
    ensures var raw := Print(p) + "?" + query; Plain(raw) && ParseRef(Print(p)).Some? && ParseRef(raw) == ParseRef(Print(p))
  {
    var rest := "//" + p.host + ("/" + PathOf(p.owner, p.name, Kind(p.host), Itoa(p.number)));
    ReadBack(p);
    PrintedText(p);
    QueryText(Print(p), query);
    QueryGroups(rest, query);
    SameParse(rest, query);
    SameUrlSameRef(Print(p) + "?" + query, Print(p));
  }

  lemma QueryGroups(rest: string, query: string)
    ensures "https" + ":" + rest + "?" + query == "https" + ":" + (rest + "?" + query)
  {}

  lemma SameUrlSameRef(a: string, b: string)
    requires Plain(a) && Plain(b) && ParseURL(a) == ParseURL(b)
    ensures ParseRef(a) == ParseRef(b)
  {}

  lemma SameParse(rest: string, query: string)
    requires '?' !in rest
    requires var raw := "https" + ":" + rest; Plain(raw) && NoControl(raw) && '#' !in raw
    requires var raw := "https" + ":" + (rest + "?" + query); Plain(raw) && NoControl(raw) && '#' !in raw
    ensures ParseURL("https" + ":" + (rest + "?" + query)) == ParseURL("https" + ":" + rest)
  {
    HttpsParses(rest);
    HttpsParses(rest + "?" + query);
    BeforePiece(rest, '?', query);
    BeforeWhole(rest, '?');
    assert rest + ['?'] + query == rest + "?" + query;
  }

  // Whatever parses is written https://, in some case, followed by its host.
  lemma ParsedStartsWithHttps(raw: string)
    requires Plain(raw)
    ensures ParseRef(raw).Some? ==>
      var host := ParseRef(raw).value.host;
      |raw| >= 8 + |host| && InSomeCase(raw[..8], "https://") && raw[8..8 + |host|] == host
  {
    RefIsUrl(raw);
    UrlStartsWithHttps(raw);
  }

  lemma SegmentsKeepHost(host: string, parts: seq<string>)
    ensures FromSegments(host, parts).Some? ==> FromSegments(host, parts).value.host == host
  {}

  lemma RefIsUrl(raw: string)
    requires Plain(raw)
    ensures ParseRef(raw).Some? ==> HttpsUrl(ParseURL(raw)) && ParseRef(raw).value.host == ParseURL(raw).value.host
  {
    SplitWhole("", ':');
    if ParseURL(raw).Some? {
      var u := ParseURL(raw).value;
      SegmentsKeepHost(u.host, Split(Trim(u.path, {'/'}), '/'));
    }
  }

  predicate HttpsUrl(u: Option<Url>) {
    u.Some? && u.value.scheme == "https" && !u.value.user && u.value.host != ""
  }

  lemma UrlStartsWithHttps(raw: string)
    requires Plain(raw)
    ensures HttpsUrl(ParseURL(raw)) ==>
      var host := ParseURL(raw).value.host;
      |raw| >= 8 + |host| && InSomeCase(raw[..8], "https://") && raw[8..8 + |host|] == host
  {
    if HttpsUrl(ParseURL(raw)) {
      var whole := Before(raw, '#');
      var (scheme, body) := SplitScheme(whole).value;
      var rest := Before(body, '?');
      var host := ParseURL(raw).value.host;
      SchemeStays(scheme, rest);
      SchemeText(whole);
      RestText(scheme, rest);
      Assembled(raw, whole, rest, host);
    }
  }

  lemma SchemeStays(scheme: string, rest: string)
    requires ParseRest(scheme, rest).Some?
    ensures ParseRest(scheme, rest).value.scheme == scheme
  {}

  lemma Assembled(raw: string, whole: string, rest: string, host: string)
    requires whole <= raw && |whole| > 5 && ToLower(whole[..5]) == "https" && whole[5] == ':' && rest <= whole[6..]
    requires |rest| >= 2 + |host| && rest[..2 + |host|] == "//" + host
    ensures |raw| >= 8 + |host| && InSomeCase(raw[..8], "https://") && raw[8..8 + |host|] == host
  {
    LowerIs(whole[..5], "https");
    assert forall i :: 0 <= i < 5 ==> whole[..5][i] == raw[i];
    assert forall i :: 0 <= i < |rest| ==> rest[i] == whole[6..][i] && whole[6..][i] == raw[i + 6];
    assert forall i :: 0 <= i < |host| ==> rest[..2 + |host|][i + 2] == host[i];
    assert forall i :: 0 <= i < 5 ==> "https://"[i] == "https"[i];
    assert rest[..2 + |host|][0] == '/' && rest[..2 + |host|][1] == '/';
  }

  lemma SchemeText(s: string)
    requires SplitScheme(s).Some? && SplitScheme(s).value.0 == "https"
    ensures |s| > 5 && ToLower(s[..5]) == "https" && s[5] == ':' && SplitScheme(s).value.1 == s[6..]
  {}

  lemma RestText(scheme: string, rest: string)
    requires ParseRest(scheme, rest).Some? && scheme != ""
    requires var u := ParseRest(scheme, rest).value; !u.user && u.host != ""
    ensures var u := ParseRest(scheme, rest).value;
      u.scheme == scheme && |rest| >= 2 + |u.host| && rest[..2 + |u.host|] == "//" + u.host
  {
    var authority := Before(rest[2..], '/');
    JoinSplit(authority, '@');
    assert Join([authority], '@') == authority;
  }

  // A control character before any fragment makes the text no reference.
  lemma ControlIsRefused(raw: string, i: nat)
    requires Plain(raw) && i < |raw| && '#' !in raw && (raw[i] < ' ' || raw[i] == '\U{7F}')
    ensures ParseRef(raw).None? && ParseURL(raw).None?
  {
    BeforeWhole(raw, '#');
    assert raw[i] in raw && Control(raw[i]);
  }

  // A remote names a repository only if no segment of its owner is empty.
  lemma OwnerHasNoEmptySegment(remote: string)
    requires Plain(remote)
    ensures ParseRepo(remote).Some? ==> var r := ParseRepo(remote).value; r.owner != "" && "" !in Split(r.owner, '/')
  {
    var raw := Trim(remote, SPACES);
    if ParseRepo(remote).Some? {
      if HasPrefix(raw, "git@") {
        var rest := raw[4..];
        OwnerSegments(Before(rest, ':'), TrimSuffix(rest[|Before(rest, ':')| + 1..], ".git"), "");
      } else {
        var u := ParseURL(raw).value;
        OwnerSegments(u.host, Trim(u.path, {'/'}), ".git");
      }
    }
  }

  lemma OwnerSegments(host: string, path: string, suffix: string)
    requires RepoFromSegments(host, Split(path, '/'), suffix).Some?
    ensures var r := RepoFromSegments(host, Split(path, '/'), suffix).value; r.owner != "" && "" !in Split(r.owner, '/')
  {
    var parts := Split(path, '/');
    var owner := parts[..|parts| - 1];
    assert forall i :: 0 <= i < |owner| ==> owner[i] == parts[i] && parts[i] in parts && '/' !in owner[i];
    SplitJoin(owner, '/');
    SplitWhole("", '/');
    assert "" !in owner;
  }
}
