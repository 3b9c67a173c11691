// Pull and merge request references (backend/internal/cli/pr_ref.go).
module PullRequestRef {
  import opened Options
  import opened Text
  import opened UrlText

  datatype PullRequest = PullRequest(host: string, owner: string, name: string, number: nat)
  datatype Repo = Repo(host: string, owner: string, name: string)

  predicate GitHubHost(host: string) {
    var parts := Split(host, ':');
    var name := ToLower(if |parts| == 2 && ']' !in host then parts[0] else host);
    || name == "github.com" || name == "www.github.com" || name == "api.github.com"
    || HasSuffix(name, ".github.com") || HasSuffix(name, ".ghe.io")
  }

  function Kind(host: string): seq<string> {
    if GitHubHost(host) then ["pull"] else ["-", "merge_requests"]
  }

  function PathOf(owner: string, name: string, kind: seq<string>, number: string): string {
    owner + "/" + (name + "/" + (Join(kind, '/') + "/" + number))
  }

  // cliPRURLFromParts
  function Print(p: PullRequest): string {
    "https://" + p.host + ("/" + PathOf(p.owner, p.name, Kind(p.host), Itoa(p.number)))
  }

  function WithNumber(host: string, owner: string, name: string, number: string): Option<PullRequest> {
    match Atoi(number)
    case None => None
    case Some(n) => if n <= 0 then None else Some(PullRequest(host, owner, TrimSuffix(name, ".git"), n))
  }

  function FromGitHub(host: string, parts: seq<string>): Option<PullRequest> {
    if |parts| == 4 && parts[2] == "pull" then WithNumber(host, parts[0], parts[1], parts[3]) else None
  }

  function FromGitLab(host: string, parts: seq<string>): Option<PullRequest> {
    var k := |parts|;
    if k >= 5 && parts[k - 2] == "merge_requests" && parts[k - 3] == "-" then
      WithNumber(host, Join(parts[..k - 4], '/'), parts[k - 4], parts[k - 1])
    else None
  }

  function FromSegments(host: string, parts: seq<string>): Option<PullRequest> {
    if GitHubHost(host) then FromGitHub(host, parts) else FromGitLab(host, parts)
  }

  // cliParsePRURL
  function ParseRef(raw: string): Option<PullRequest>
    requires Plain(raw)
  {
    match ParseURL(raw)
    case None => None
    case Some(u) =>
      if u.scheme != "https" || Hostname(u.host) == "" || u.user || u.escaped then None
      else FromSegments(u.host, Split(Trim(u.path, {'/'}), '/'))
  }

  function RepoFromSegments(host: string, parts: seq<string>, suffix: string): Option<Repo> {
    if |parts| < 2 || "" in parts then None
    else Some(Repo(host, Join(parts[..|parts| - 1], '/'), TrimSuffix(parts[|parts| - 1], suffix)))
  }

  function ParseScp(rest: string): Option<Repo> {
    if ':' !in rest then None
    else
      var host := Before(rest, ':');
      RepoFromSegments(host, Split(TrimSuffix(rest[|host| + 1..], ".git"), '/'), "")
  }

  function ParseUrlRemote(raw: string): Option<Repo>
    requires Plain(raw)
  {
    match ParseURL(raw)
    case None => None
    case Some(u) => RepoFromSegments(u.host, Split(Trim(u.path, {'/'}), '/'), ".git")
  }

  // cliRepoFromURL
  function ParseRepo(text: string): Option<Repo>
    requires Plain(text)
  {
    var raw := Trim(text, SPACES);
    if raw == "" then None
    else if HasPrefix(raw, "git@") then ParseScp(raw[4..])
    else ParseUrlRemote(raw)
  }

  // isNumericPRRef, with the number
  function Numeric(ref: string): Option<nat> {
    match Atoi(TrimPrefix(Trim(ref, SPACES), "#"))
    case None => None
    case Some(n) => if n > 0 then Some(n) else None
  }

  // resolvePRRef, once the project's remote is known.
  function Resolve(text: string, remote: string): Option<string>
    requires Plain(text) && Plain(remote)
  {
    var ref := Trim(text, SPACES);
    if ref == "" then None
    else if Numeric(ref).Some? then
      match ParseRepo(remote)
      case None => None
      case Some(r) => Some(Print(PullRequest(r.host, r.owner, r.name, Numeric(ref).value)))
    else match ParseRef(ref)
      case None => None
      case Some(p) => if p.host == "" || p.owner == "" || p.name == "" || p.number == 0 then None else Some(Print(p))
  }

  // ---------- what can be printed and read back ----------

  predicate CleanRepo(host: string, owner: string, name: string) {
    && HostOk(host) && Hostname(host) != ""
    && PathText(owner) && owner != "" && owner[0] != '/' && (GitHubHost(host) ==> '/' !in owner)
    && PathText(name) && '/' !in name
  }

  predicate Clean(p: PullRequest) {
    CleanRepo(p.host, p.owner, p.name) && 1 <= p.number <= MAX_INT
  }

  function Segments(p: PullRequest): seq<string> {
    Split(p.owner, '/') + ([p.name] + (Kind(p.host) + [Itoa(p.number)]))
  }

  predicate Segment(s: string) { PathText(s) && '/' !in s }

  lemma KindIsPlain(host: string)
    ensures forall i :: 0 <= i < |Kind(host)| ==> Segment(Kind(host)[i])
  {
    assert Segment("pull") && Segment("-") && Segment("merge_requests");
  }

  lemma NumberIsPlain(n: nat)
    ensures Segment(Itoa(n))
  {
    assert !Digit('/');
  }

  lemma {:induction false} SplitStays(s: string, sep: char)
    ensures forall i, c :: 0 <= i < |Split(s, sep)| && c in Split(s, sep)[i] ==> c in s
  {
    if s != "" {
      SplitStays(s[1..], sep);
      assert forall c :: c in s[1..] ==> c in s;
    }
  }

  lemma SegmentsArePlain(p: PullRequest)
    requires Clean(p)
    ensures forall i :: 0 <= i < |Segments(p)| ==> Segment(Segments(p)[i])
  {
    SplitStays(p.owner, '/');
    KindIsPlain(p.host);
    NumberIsPlain(p.number);
    assert Segment(p.name);
    var tail := Kind(p.host) + [Itoa(p.number)];
    assert forall i :: 0 <= i < |tail| ==> Segment(tail[i]);
  }

  lemma {:induction false} JoinIsPlain(parts: seq<string>)
    requires forall i :: 0 <= i < |parts| ==> Segment(parts[i])
    ensures PathText(Join(parts, '/'))
  {
    if |parts| > 1 {
      JoinIsPlain(parts[1..]);
      assert Segment(parts[0]);
    }
  }

  lemma PathJoins(owner: string, name: string, kind: seq<string>, number: string)
    requires kind != []
    ensures PathOf(owner, name, kind, number) == Join(Split(owner, '/') + ([name] + (kind + [number])), '/')
  {
    JoinAppend(kind, [number], '/');
    JoinAppend([name], kind + [number], '/');
    JoinAppend(Split(owner, '/'), [name] + (kind + [number]), '/');
    JoinSplit(owner, '/');
  }

  lemma LeadingSlashTrims(path: string)
    requires path != "" && path[0] != '/' && path[|path| - 1] != '/'
    ensures Trim("/" + path, {'/'}) == path
  {
    assert ("/" + path)[1..] == path;
    NothingTrimmed(path, {'/'});
  }

  // Only the leading slash is trimmed off a printed path.
  lemma PathTrims(owner: string, name: string, kind: seq<string>, number: string)
    requires owner != "" && owner[0] != '/' && number != "" && '/' !in number
    ensures var path := PathOf(owner, name, kind, number); Trim("/" + path, {'/'}) == path
  {
    var path := PathOf(owner, name, kind, number);
    var rest := name + "/" + (Join(kind, '/') + "/" + number);
    assert path == owner + "/" + rest && rest[|rest| - 1] == number[|number| - 1];
    assert path[0] == owner[0] && path[|path| - 1] == number[|number| - 1];
    LeadingSlashTrims(path);
  }

  lemma SegmentsBack(p: PullRequest)
    requires Clean(p)
    ensures FromSegments(p.host, Segments(p)) == Some(p.(name := TrimSuffix(p.name, ".git")))
  {
    var owner := Split(p.owner, '/');
    var parts := Segments(p);
    AtoiItoa(p.number);
    if GitHubHost(p.host) {
      SplitWhole(p.owner, '/');
    } else {
      assert parts[..|parts| - 4] == owner;
      JoinSplit(p.owner, '/');
    }
  }

  // The printed path is plain text that splits into the segments it was made of.
  lemma PrintedPath(p: PullRequest)
    requires Clean(p)
    ensures var path := PathOf(p.owner, p.name, Kind(p.host), Itoa(p.number));
      PathText("/" + path) && Split(Trim("/" + path, {'/'}), '/') == Segments(p)
  {
    SegmentsArePlain(p);
    JoinIsPlain(Segments(p));
    PathJoins(p.owner, p.name, Kind(p.host), Itoa(p.number));
    NumberIsPlain(p.number);
    PathTrims(p.owner, p.name, Kind(p.host), Itoa(p.number));
    SplitJoin(Segments(p), '/');
  }

  // A printed reference reads back as itself, but for one ".git" suffix.
  lemma ReadBack(p: PullRequest)
    requires Clean(p)
    ensures Plain(Print(p)) && ParseRef(Print(p)) == Some(p.(name := TrimSuffix(p.name, ".git")))
  {
    PrintedPath(p);
    ParseBuilt(p.host, "/" + PathOf(p.owner, p.name, Kind(p.host), Itoa(p.number)));
    SegmentsBack(p);
  }

  // ---------- what a parse can yield ----------

  // The first segments of a text, joined again, are the front of the text.
  lemma FrontOfSplit(s: string, sep: char, k: nat)
    requires 0 < k < |Split(s, sep)|
    ensures Join(Split(s, sep)[..k], sep) <= s
  {
    var parts := Split(s, sep);
    JoinSplit(s, sep);
    assert parts == parts[..k] + parts[k..];
    JoinAppend(parts[..k], parts[k..], sep);
  }

  lemma {:induction false} FirstSegment(s: string, sep: char)
    requires s != "" && s[0] != sep
    ensures Split(s, sep)[0] != ""
  {}

  lemma PartIsPlain(path: string, i: nat)
    requires PathText(path) && i < |Split(path, '/')|
    ensures var part := TrimSuffix(Split(path, '/')[i], ".git"); PathText(part) && '/' !in part
  {
    SplitStays(path, '/');
    var part := Split(path, '/')[i];
    assert forall c :: c in TrimSuffix(part, ".git") ==> c in part;
  }

  lemma OwnerIsPlain(path: string, k: nat)
    requires PathText(path) && path != "" && path[0] != '/' && 0 < k < |Split(path, '/')|
    ensures var owner := Join(Split(path, '/')[..k], '/'); PathText(owner) && owner != "" && owner[0] != '/'
    ensures k == 1 ==> Join(Split(path, '/')[..k], '/') == Split(path, '/')[0]
  {
    FrontOfSplit(path, '/', k);
    var parts := Split(path, '/')[..k];
    var owner := Join(parts, '/');
    FirstSegment(path, '/');
    assert parts[0] != "";
    assert owner[0] == path[0];
  }

  lemma NumberedIsClean(host: string, owner: string, name: string, number: string)
    requires CleanRepo(host, owner, TrimSuffix(name, ".git")) && WithNumber(host, owner, name, number).Some?
    ensures Clean(WithNumber(host, owner, name, number).value)
  {}

  lemma GitHubSegmentsAreClean(host: string, path: string)
    requires HostOk(host) && Hostname(host) != "" && PathText(path) && path != "" && path[0] != '/'
    requires GitHubHost(host) && FromGitHub(host, Split(path, '/')).Some?
    ensures Clean(FromGitHub(host, Split(path, '/')).value)
  {
    var parts := Split(path, '/');
    PartIsPlain(path, 1);
    OwnerIsPlain(path, 1);
    NumberedIsClean(host, parts[0], parts[1], parts[3]);
  }

  lemma GitLabRepoIsClean(host: string, path: string, k: nat)
    requires HostOk(host) && Hostname(host) != "" && PathText(path) && path != "" && path[0] != '/'
    requires !GitHubHost(host) && 0 < k < |Split(path, '/')|
    ensures var parts := Split(path, '/'); CleanRepo(host, Join(parts[..k], '/'), TrimSuffix(parts[k], ".git"))
  {
    PartIsPlain(path, k);
    OwnerIsPlain(path, k);
  }

  lemma GitLabIsNumbered(host: string, parts: seq<string>)
    requires FromGitLab(host, parts).Some?
    ensures var k := |parts|;
      k >= 5 && FromGitLab(host, parts) == WithNumber(host, Join(parts[..k - 4], '/'), parts[k - 4], parts[k - 1])
  {}

  lemma GitLabSegmentsAreClean(host: string, path: string)
    requires HostOk(host) && Hostname(host) != "" && PathText(path) && path != "" && path[0] != '/'
    requires !GitHubHost(host) && FromGitLab(host, Split(path, '/')).Some?
    ensures Clean(FromGitLab(host, Split(path, '/')).value)
  {
    var parts := Split(path, '/');
    var k := |parts|;
    GitLabIsNumbered(host, parts);
    GitLabRepoIsClean(host, path, k - 4);
    NumberedIsClean(host, Join(parts[..k - 4], '/'), parts[k - 4], parts[k - 1]);
  }

  lemma SegmentsAreClean(host: string, path: string)
    requires HostOk(host) && Hostname(host) != "" && PathText(path) && (path != "" ==> path[0] != '/')
    requires FromSegments(host, Split(path, '/')).Some?
    ensures Clean(FromSegments(host, Split(path, '/')).value)
  {
    SplitWhole("", '/');
    if GitHubHost(host) { GitHubSegmentsAreClean(host, path); } else { GitLabSegmentsAreClean(host, path); }
  }

  // Whatever parses is clean: a host with a name and a well-formed port, an
  // owner and a name that need no escaping, a positive number.
  lemma ParsedIsClean(raw: string)
    requires Plain(raw)
    ensures ParseRef(raw).Some? ==> Clean(ParseRef(raw).value)
  {
    if ParseRef(raw).Some? {
      ParsedUrl(raw);
      var u := ParseURL(raw).value;
      SplitWhole("", ':');
      SegmentsAreClean(u.host, Trim(u.path, {'/'}));
    }
  }

  // The parts that survive printing and parsing are exactly the clean ones
  // whose name does not end in ".git".
  lemma RoundTripIff(p: PullRequest)
    requires Plain(Print(p))
    ensures ParseRef(Print(p)) == Some(p) <==> Clean(p) && !HasSuffix(p.name, ".git")
  {
    if ParseRef(Print(p)).Some? { ParsedIsClean(Print(p)); }
    if Clean(p) { ReadBack(p); }
  }

  // ---------- resolving ----------

  // The one text the resolver leaves alone for each request it can name.
  predicate Canonical(p: PullRequest) {
    Clean(p) && p.name != "" && !HasSuffix(p.name, ".git")
  }

  lemma LooksLikeUrl(url: string)
    requires |url| > 1 && url[0] == 'h' && url[|url| - 1] !in SPACES
    ensures Trim(url, SPACES) == url && Numeric(url) == None && !HasPrefix(url, "git@")
  {
    NothingTrimmed(url, SPACES);
    assert url[0] in url && !Digit(url[0]);
  }

  // A printed reference is neither padded nor a number.
  lemma PrintedIsUrl(p: PullRequest)
    ensures var url := Print(p); url != "" && url[0] == 'h' && Trim(url, SPACES) == url && Numeric(url) == None
  {
    var url := Print(p);
    var number := Itoa(p.number);
    var path := PathOf(p.owner, p.name, Kind(p.host), number);
    assert path[|path| - 1] == number[|number| - 1] && number[|number| - 1] in number;
    assert url[0] == "https://"[0] && url[|url| - 1] == path[|path| - 1];
    LooksLikeUrl(url);
  }

  lemma ResolvePrinted(p: PullRequest, remote: string)
    requires Clean(p) && Plain(remote)
    ensures var q := p.(name := TrimSuffix(p.name, ".git"));
      && Plain(Print(p))
      && Resolve(Print(p), remote) == if q.name == "" then None else Some(Print(q))
  {
    PrintedIsUrl(p);
    ReadBack(p);
    SplitWhole("", ':');
  }

  lemma PrintLength(p: PullRequest, name: string)
    ensures |Print(p.(name := name))| == |Print(p)| - |p.name| + |name|
  {}

  // Resolving a URL a second time changes nothing, unless the name still ends
  // in ".git" after one such suffix was taken off.
  lemma ResolvingTwiceIff(text: string, remote: string, later: string)
    requires Plain(text) && Plain(remote) && Plain(later)
    ensures Numeric(Trim(text, SPACES)) == None && Resolve(text, remote).Some? ==>
      var ref := Trim(text, SPACES); var url := Resolve(text, remote).value;
      && ParseRef(ref).Some? && Plain(url)
      && (Resolve(url, later) == Some(url) <==> !HasSuffix(ParseRef(ref).value.name, ".git"))
  {
    if Numeric(Trim(text, SPACES)) == None && Resolve(text, remote).Some? {
      var p := ParseRef(Trim(text, SPACES)).value;
      ParsedIsClean(Trim(text, SPACES));
      ResolvePrinted(p, later);
      PrintLength(p, TrimSuffix(p.name, ".git"));
    }
  }

  lemma SuffixedName(name: string)
    requires PathText(name) && '/' !in name
    ensures var longer := name + ".git";
      PathText(longer) && '/' !in longer && HasSuffix(longer, ".git") && TrimSuffix(longer, ".git") == name
  {
    var suffix := ".git";
    var longer := name + suffix;
    assert PathText(suffix) && '/' !in suffix;
    assert longer[..|name|] == name && longer[|name|..] == suffix;
    assert forall c :: c in longer ==> c in name || c in suffix;
  }

  // So resolving is not idempotent: a doubled suffix takes two rounds.
  lemma DoubledSuffixTakesTwoRounds(p: PullRequest, remote: string)
    requires Canonical(p) && Plain(remote)
    ensures var once := p.(name := p.name + ".git"); var twice := p.(name := p.name + ".git" + ".git");
      && Plain(Print(twice)) && Plain(Print(once))
      && Resolve(Print(twice), remote) == Some(Print(once))
      && Resolve(Print(once), remote) == Some(Print(p))
      && Print(once) != Print(p)
  {
    SuffixedName(p.name);
    SuffixedName(p.name + ".git");
    ResolvePrinted(p.(name := p.name + ".git" + ".git"), remote);
    ResolvePrinted(p.(name := p.name + ".git"), remote);
    PrintLength(p, p.name + ".git");
  }

  lemma OneIsCanonical()
    ensures Canonical(PullRequest("h", "o", "r", 1))
  {
    SplitWhole("h", ':');
    SplitWhole("o", '/');
    LowerStays("h");
  }

  lemma FixedPointIsPrinted(text: string, remote: string)
    requires Plain(text) && Plain(remote)
    ensures Resolve(text, remote) == Some(text) ==>
      && Trim(text, SPACES) == text && Numeric(text) == None && ParseRef(text).Some?
      && text == Print(ParseRef(text).value) && ParseRef(text).value.name != ""
  {
    var ref := Trim(text, SPACES);
    if Resolve(text, remote) == Some(text) {
      if Numeric(ref).Some? {
        var r := ParseRepo(remote).value;
        PrintedIsUrl(PullRequest(r.host, r.owner, r.name, Numeric(ref).value));
      } else {
        PrintedIsUrl(ParseRef(ref).value);
      }
    }
  }

  // What the resolver leaves alone is exactly the canonical URLs.
  lemma FixedPointsAreCanonical(text: string, remote: string)
    requires Plain(text) && Plain(remote)
    ensures Resolve(text, remote) == Some(text) <==> exists p :: Canonical(p) && text == Print(p)
  {
    if p :| Canonical(p) && text == Print(p) {
      ResolvePrinted(p, remote);
    }
    if Resolve(text, remote) == Some(text) {
      FixedPointIsPrinted(text, remote);
      var p := ParseRef(text).value;
      ParsedIsClean(text);
      ReadBack(p);
      assert Canonical(p) && text == Print(p);
    }
  }

  // "#N" and "N" stand for the full URL of request N in the project's remote.
  lemma NumberMeansFullUrl(text: string, remote: string, later: string)
    requires Plain(text) && Plain(remote) && Plain(later)
    ensures Trim(text, SPACES) != "" && Numeric(Trim(text, SPACES)).Some? && ParseRepo(remote).Some? ==>
      var r := ParseRepo(remote).value;
      var p := PullRequest(r.host, r.owner, r.name, Numeric(Trim(text, SPACES)).value);
      && Resolve(text, remote) == Some(Print(p))
      && (CleanRepo(r.host, r.owner, r.name) && r.name != "" && !HasSuffix(r.name, ".git") ==>
            Plain(Print(p)) && Resolve(Print(p), later) == Some(Print(p)))
  {
    if Numeric(Trim(text, SPACES)).Some? && ParseRepo(remote).Some? {
      var r := ParseRepo(remote).value;
      var p := PullRequest(r.host, r.owner, r.name, Numeric(Trim(text, SPACES)).value);
      if Canonical(p) { ResolvePrinted(p, later); }
    }
  }

  // ---------- the spellings of a remote ----------

  predicate NamesRepo(r: Repo) {
    && CleanRepo(r.host, r.owner, r.name) && r.name != "" && !HasSuffix(r.name, ".git")
    && "" !in Split(r.owner, '/')
  }

  lemma RepoSegments(r: Repo, name: string, suffix: string)
    requires NamesRepo(r) && name != "" && '/' !in name && TrimSuffix(name, suffix) == r.name
    ensures RepoFromSegments(r.host, Split(r.owner + "/" + name, '/'), suffix) == Some(r)
  {
    var parts := Split(r.owner, '/') + [name];
    SplitAppend(r.owner, name, '/');
    SplitWhole(name, '/');
    assert parts[..|parts| - 1] == Split(r.owner, '/');
    JoinSplit(r.owner, '/');
  }

  lemma RemoteName(r: Repo, name: string)
    requires NamesRepo(r) && name in {r.name, r.name + ".git"}
    ensures name != "" && PathText(name) && '/' !in name && TrimSuffix(name, ".git") == r.name
  {
    var dotGit := ".git";
    assert PathText(dotGit) && '/' !in dotGit;
    assert (r.name + dotGit)[..|r.name|] == r.name;
  }

  // The path of a remote is plain, and only its leading slash is trimmed.
  lemma RemotePath(owner: string, name: string)
    requires PathText(owner) && owner != "" && owner[0] != '/' && PathText(name) && name != "" && '/' !in name
    ensures var path := owner + "/" + name;
      PathText("/" + path) && path[|path| - 1] !in SPACES && Trim("/" + path, {'/'}) == path
  {
    var path := owner + "/" + name;
    assert path[0] == owner[0] && path[|path| - 1] == name[|name| - 1] && name[|name| - 1] in name;
    assert !PathChar(' ') && forall c :: c in SPACES ==> !PathChar(c);
    LeadingSlashTrims(path);
  }

  lemma HttpsRemote(r: Repo, name: string)
    requires NamesRepo(r) && name in {r.name, r.name + ".git"}
    ensures var remote := "https://" + r.host + ("/" + (r.owner + "/" + name));
      Plain(remote) && ParseRepo(remote) == Some(r)
  {
    var path := r.owner + "/" + name;
    var remote := "https://" + r.host + ("/" + path);
    RemoteName(r, name);
    RemotePath(r.owner, name);
    ParseBuilt(r.host, "/" + path);
    RepoSegments(r, name, ".git");
    assert remote[0] == "https://"[0] && remote[|remote| - 1] == path[|path| - 1];
    LooksLikeUrl(remote);
  }

  lemma ScpPath(r: Repo, name: string)
    requires NamesRepo(r) && name in {r.name, r.name + ".git"}
    ensures RepoFromSegments(r.host, Split(TrimSuffix(r.owner + "/" + name, ".git"), '/'), "") == Some(r)
  {
    var path := r.owner + "/" + name;
    var bare := r.owner + "/" + r.name;
    assert bare[|bare| - |r.name|..] == r.name && bare[|r.owner|] == '/';
    assert '/' !in ".git";
    if |r.name| < 4 <= |bare| {
      assert bare[|bare| - 4..][3 - |r.name|] == '/';
    } else if |bare| >= 4 {
      assert bare[|bare| - 4..] == r.name[|r.name| - 4..];
    }
    assert (bare + ".git")[..|bare|] == bare;
    assert r.owner + "/" + (r.name + ".git") == bare + ".git";
    RepoSegments(r, r.name, "");
  }

  lemma ScpRest(r: Repo, name: string)
    requires NamesRepo(r) && ':' !in r.host && name in {r.name, r.name + ".git"}
    ensures ParseScp(r.host + ":" + (r.owner + "/" + name)) == Some(r)
  {
    var path := r.owner + "/" + name;
    var rest := r.host + ":" + path;
    ScpPath(r, name);
    BeforePiece(r.host, ':', path);
    assert rest[|r.host| + 1..] == path && rest[|r.host|] == ':';
  }

  lemma ScpBranch(raw: string)
    requires Plain(raw) && HasPrefix(raw, "git@") && Trim(raw, SPACES) == raw
    ensures ParseRepo(raw) == ParseScp(raw[4..])
  {}

  lemma ScpRemote(r: Repo, name: string)
    requires NamesRepo(r) && ':' !in r.host && name in {r.name, r.name + ".git"}
    ensures var remote := "git@" + (r.host + ":" + (r.owner + "/" + name));
      Plain(remote) && ParseRepo(remote) == Some(r)
  {
    var rest := r.host + ":" + (r.owner + "/" + name);
    RemoteName(r, name);
    RemotePath(r.owner, name);
    ScpText(r.host, r.owner + "/" + name);
    assert ("git@" + rest)[4..] == rest;
    ScpBranch("git@" + rest);
    ScpRest(r, name);
  }

  lemma ScpText(host: string, path: string)
    requires HostOk(host) && PathText(path) && path != "" && path[|path| - 1] !in SPACES
    ensures var remote := "git@" + (host + ":" + path); Plain(remote) && Trim(remote, SPACES) == remote
  {
    var prefix := "git@";
    var remote := prefix + (host + ":" + path);
    assert Plain(prefix);
    forall c | c in remote ensures PlainChar(c) {
      assert c in prefix || c in host || c == ':' || c in path;
    }
    assert remote[0] == prefix[0] && remote[|remote| - 1] == path[|path| - 1];
    NothingTrimmed(remote, SPACES);
  }

  // The https and the scp-style remote of a repository, with or without
  // ".git", name the same repository, so a number resolves alike under each.
  lemma RemoteSpellingsAgree(r: Repo, name: string)
    requires NamesRepo(r) && ':' !in r.host && name in {r.name, r.name + ".git"}
    ensures var https := "https://" + r.host + ("/" + (r.owner + "/" + name));
      var scp := "git@" + (r.host + ":" + (r.owner + "/" + name));
      && Plain(https) && Plain(scp)
      && ParseRepo(https) == ParseRepo(scp) == Some(r)
  {
    HttpsRemote(r, name);
    ScpRemote(r, name);
  }
}
