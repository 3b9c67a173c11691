// Finding the project of the working directory (backend/internal/cli/spawn.go).
module ProjectMatch {
  import opened Options
  import opened Text

  // A clean absolute Unix path, by its segments.
  predicate CleanSegment(s: string) { s != "" && '/' !in s && s != "." && s != ".." }

  type Path = p: seq<string> | forall i :: 0 <= i < |p| ==> CleanSegment(p[i])

  // The text of a path; its length is what the search compares.
  function Render(p: Path): string {
    if p == [] then "/" else "/" + Join(p, '/')
  }

  // filepath.Rel: up to the common front, then down.
  function Common(a: Path, b: Path): (k: nat)
    ensures k <= |a| && k <= |b| && a[..k] == b[..k]
    ensures k < |a| && k < |b| ==> a[k] != b[k]
  {
    if a == [] || b == [] || a[0] != b[0] then 0
    else
      var k := Common(a[1..], b[1..]);
      assert a[..k + 1] == [a[0]] + a[1..][..k] && b[..k + 1] == [b[0]] + b[1..][..k];
      k + 1
  }

  function Rel(root: Path, child: Path): string {
    if root == child then "."
    else
      var k := Common(root, child);
      Join(seq(|root| - k, _ => "..") + child[k..], '/')
  }

  predicate PathContains(root: Path, child: Path) {
    || root == child
    || (var rel := Rel(root, child); rel != "." && rel != ".." && !HasPrefix(rel, "../"))
  }

  lemma JoinStarts(parts: seq<string>)
    requires parts != []
    ensures var s := Join(parts, '/');
      if |parts| == 1 then s == parts[0] else HasPrefix(s, parts[0] + "/")
  {}

  // A name such as "..data" starts with two dots and is still inside.
  lemma CleanNameIsInside(name: string, rel: string)
    requires CleanSegment(name) && (rel == name || HasPrefix(rel, name + "/"))
    ensures rel != "." && rel != ".." && !HasPrefix(rel, "../")
  {
    var up := "../";
    assert up[0] == up[1] == '.' && up[2] == '/' && '/' !in "." && '/' !in "..";
    assert forall i :: 0 <= i < |name| ==> rel[i] == name[i] && name[i] in name;
    if rel != name {
      assert rel[|name|] == (name + "/")[|name|] == '/';
      assert |name| == 2 && name[0] == name[1] == '.' ==> name == "..";
    }
  }

  // The test on text is containment on segments.
  lemma ContainsIsPrefix(root: Path, child: Path)
    ensures PathContains(root, child) <==> root <= child
  {
    var k := Common(root, child);
    if root != child {
      var parts := seq(|root| - k, _ => "..") + child[k..];
      if root <= child {
        assert k == |root|;
        assert parts == child[k..];
        JoinStarts(parts);
        CleanNameIsInside(child[k], Rel(root, child));
      } else {
        assert k < |root|;
        assert parts[0] == "..";
        JoinStarts(parts);
      }
    }
  }

  // ---------- lengths ----------

  lemma {:induction false} JoinGrows(p: seq<string>, q: seq<string>)
    requires p != [] && q != []
    ensures |Join(p + q, '/')| > |Join(p, '/')|
  {
    if |p| == 1 {
      assert (p + q)[1..] == q;
    } else {
      assert (p + q)[1..] == p[1..] + q;
      JoinGrows(p[1..], q);
    }
  }

  // Of two ancestors of one directory the deeper has the longer text.
  lemma DeeperIsLonger(p: Path, q: Path, child: Path)
    requires p <= child && q <= child
    ensures |Render(p)| <= |Render(q)| <==> p <= q
    ensures |Render(p)| == |Render(q)| ==> p == q
  {
    assert p == child[..|p|] && q == child[..|q|];
    if |p| < |q| {
      assert q == p + q[|p|..];
      LongerText(p, q[|p|..]);
    } else if |q| < |p| {
      assert p == q + p[|q|..];
      LongerText(q, p[|q|..]);
    }
  }

  lemma LongerText(p: Path, more: Path)
    requires more != []
    ensures var q: seq<string> := p + more; |Render(q)| > |Render(p)|
  {
    if p == [] {
      assert p + more == more;
      assert more[0] != "";
      JoinStarts(more);
    } else {
      JoinGrows(p, more);
    }
  }

  // ---------- the search ----------

  // One project of the listing: its details could not be fetched, or it has a
  // path, or none that can be made absolute and clean.
  datatype Detail = Unfetched | Project(id: string, path: Option<Path>)
  datatype Outcome = FetchFailed | NoProject | SeveralProjects | Found(project: Detail)

  predicate At(p: Detail, path: Path) {
    p.Project? && p.path == Some(path)
  }

  predicate Matches(p: Detail, cwd: Path) {
    p.Project? && p.path.Some? && p.path.value <= cwd
  }

  // The projects registered at one path.
  function Registered(ps: seq<Detail>, path: Path): seq<Detail> {
    if ps == [] then []
    else
      var rest := Registered(ps[..|ps| - 1], path);
      if At(ps[|ps| - 1], path) then rest + [ps[|ps| - 1]] else rest
  }

  predicate NothingMatches(ps: seq<Detail>, cwd: Path) {
    forall p :: p in ps ==> !Matches(p, cwd)
  }

  // `best` is the deepest registered ancestor of the working directory.
  predicate Deepest(ps: seq<Detail>, cwd: Path, best: Path) {
    && best <= cwd
    && (exists p :: p in ps && At(p, best))
    && (forall p :: p in ps && Matches(p, cwd) ==> p.path.value <= best)
  }

  // What the search must answer, whatever the order of the listing.
  ghost predicate Answer(ps: seq<Detail>, cwd: Path, r: Outcome) {
    match r
    case FetchFailed => Unfetched in ps
    case NoProject => Unfetched !in ps && NothingMatches(ps, cwd)
    case SeveralProjects =>
      Unfetched !in ps && exists best: Path :: Deepest(ps, cwd, best) && |Registered(ps, best)| > 1
    case Found(p) =>
      && Unfetched !in ps && p.Project? && p.path.Some?
      && Deepest(ps, cwd, p.path.value) && Registered(ps, p.path.value) == [p]
  }

  // What the loop knows of the projects seen so far.
  predicate Track(seen: seq<Detail>, cwd: Path, best: Option<Detail>, ambiguous: bool) {
    if best.None? then NothingMatches(seen, cwd) && !ambiguous
    else
      && best.value.Project? && best.value.path.Some?
      && Deepest(seen, cwd, best.value.path.value)
      && (var at := Registered(seen, best.value.path.value);
          at != [] && at[0] == best.value && (ambiguous <==> |at| > 1))
  }

  lemma {:induction false} RegisteredIn(ps: seq<Detail>, path: Path)
    ensures (exists p :: p in ps && At(p, path)) <==> Registered(ps, path) != []
    ensures forall p :: p in Registered(ps, path) ==> p in ps && At(p, path)
  {
    if ps != [] {
      RegisteredIn(ps[..|ps| - 1], path);
      assert ps == ps[..|ps| - 1] + [ps[|ps| - 1]];
    }
  }

  lemma RegisteredSnoc(seen: seq<Detail>, p: Detail, path: Path)
    ensures Registered(seen + [p], path) == Registered(seen, path) + if At(p, path) then [p] else []
  {
    assert (seen + [p])[..|seen|] == seen;
  }

  lemma TrackSkips(seen: seq<Detail>, cwd: Path, best: Option<Detail>, ambiguous: bool, p: Detail)
    requires Track(seen, cwd, best, ambiguous)
    requires Matches(p, cwd) ==> best.Some? && p.path.value < best.value.path.value
    ensures Track(seen + [p], cwd, best, ambiguous)
  {
    if best.Some? {
      RegisteredSnoc(seen, p, best.value.path.value);
      var q :| q in seen && At(q, best.value.path.value);
      assert q in seen + [p];
    }
  }

  lemma TrackTies(seen: seq<Detail>, cwd: Path, best: Detail, ambiguous: bool, p: Detail)
    requires Track(seen, cwd, Some(best), ambiguous) && Matches(p, cwd) && p.path == best.path
    ensures Track(seen + [p], cwd, Some(best), true)
  {
    RegisteredSnoc(seen, p, best.path.value);
    assert p in seen + [p] && At(p, best.path.value);
  }

  lemma TrackDeepens(seen: seq<Detail>, cwd: Path, best: Option<Detail>, ambiguous: bool, p: Detail)
    requires Track(seen, cwd, best, ambiguous) && Matches(p, cwd)
    requires best.Some? ==> best.value.path.value < p.path.value
    ensures Track(seen + [p], cwd, Some(p), false)
  {
    var path := p.path.value;
    RegisteredSnoc(seen, p, path);
    RegisteredIn(seen, path);
    assert p in seen + [p] && At(p, path);
    if q :| q in seen && At(q, path) {
      assert Matches(q, cwd);
    }
  }

  // resolveProjectFromCWD, after the working directory is known.
  method ResolveProject(cwd: Path, listing: seq<Detail>) returns (r: Outcome)
    ensures Answer(listing, cwd, r)
  {
    var best: Option<Detail> := None;
    var bestLen := -1;
    var ambiguous := false;
    var i := 0;
    while i < |listing|
      invariant 0 <= i <= |listing|
      invariant Unfetched !in listing[..i]
      invariant Track(listing[..i], cwd, best, ambiguous)
      invariant bestLen == if best.None? then -1 else |Render(best.value.path.value)|
    {
      var project := listing[i];
      ghost var seen := listing[..i];
      assert listing[..i + 1] == seen + [project];
      if project.Unfetched? {
        return FetchFailed;
      }
      i := i + 1;
      if project.path.None? {
        TrackSkips(seen, cwd, best, ambiguous, project);
        continue;
      }
      var projectPath := project.path.value;
      ContainsIsPrefix(projectPath, cwd);
      if !PathContains(projectPath, cwd) {
        TrackSkips(seen, cwd, best, ambiguous, project);
        continue;
      }
      if best.Some? { DeeperIsLonger(projectPath, best.value.path.value, cwd); }
      if best.Some? { DeeperIsLonger(best.value.path.value, projectPath, cwd); }
      var pathLen := |Render(projectPath)|;
      if pathLen > bestLen {
        TrackDeepens(seen, cwd, best, ambiguous, project);
        best, bestLen, ambiguous := Some(project), pathLen, false;
      } else if pathLen == bestLen {
        TrackTies(seen, cwd, best.value, ambiguous, project);
        ambiguous := true;
      } else {
        TrackSkips(seen, cwd, best, ambiguous, project);
      }
    }
    assert listing[..i] == listing;
    if bestLen == -1 {
      return NoProject;
    }
    var path := best.value.path.value;
    if ambiguous {
      assert Deepest(listing, cwd, path) && |Registered(listing, path)| > 1;
      return SeveralProjects;
    }
    return Found(best.value);
  }

  // ---------- the answer does not depend on the order ----------

  lemma {:induction false} RegisteredCounts(ps: seq<Detail>, path: Path, p: Detail)
    ensures multiset(Registered(ps, path))[p] == if At(p, path) then multiset(ps)[p] else 0
  {
    if ps != [] {
      RegisteredCounts(ps[..|ps| - 1], path, p);
      assert ps == ps[..|ps| - 1] + [ps[|ps| - 1]];
    }
  }

  lemma RegisteredIgnoresOrder(a: seq<Detail>, b: seq<Detail>, path: Path)
    requires multiset(a) == multiset(b)
    ensures multiset(Registered(a, path)) == multiset(Registered(b, path))
  {
    forall p ensures multiset(Registered(a, path))[p] == multiset(Registered(b, path))[p] {
      RegisteredCounts(a, path, p);
      RegisteredCounts(b, path, p);
    }
  }

  lemma DeepestIsOne(ps: seq<Detail>, cwd: Path, a: Path, b: Path)
    requires Deepest(ps, cwd, a) && Deepest(ps, cwd, b)
    ensures a == b
  {
    var p :| p in ps && At(p, a);
    var q :| q in ps && At(q, b);
    assert Matches(p, cwd) && Matches(q, cwd);
  }

  lemma SameMembers(a: seq<Detail>, b: seq<Detail>, cwd: Path, path: Path)
    requires multiset(a) == multiset(b)
    ensures forall p :: p in a <==> p in b
    ensures Deepest(a, cwd, path) <==> Deepest(b, cwd, path)
  {
    assert forall p :: (p in a <==> p in multiset(a)) && (p in b <==> p in multiset(b));
  }

  lemma BestOf(ps: seq<Detail>, cwd: Path, r: Outcome) returns (best: Path)
    requires Answer(ps, cwd, r) && (r.SeveralProjects? || r.Found?)
    ensures Deepest(ps, cwd, best) && !NothingMatches(ps, cwd)
    ensures if r.Found? then Registered(ps, best) == [r.project] else |Registered(ps, best)| > 1
  {
    if r.Found? {
      best := r.project.path.value;
    } else {
      best :| Deepest(ps, cwd, best) && |Registered(ps, best)| > 1;
    }
    var p :| p in ps && At(p, best);
    assert Matches(p, cwd);
  }

  // One listing has one answer, and it is the same for every order of it.
  lemma AnswerIgnoresOrder(a: seq<Detail>, b: seq<Detail>, cwd: Path, r: Outcome, s: Outcome)
    requires multiset(a) == multiset(b) && Answer(a, cwd, r) && Answer(b, cwd, s)
    ensures r == s
  {
    SameMembers(a, b, cwd, cwd);
    if (r.SeveralProjects? || r.Found?) && (s.SeveralProjects? || s.Found?) {
      var best := BestOf(a, cwd, r);
      var other := BestOf(b, cwd, s);
      SameMembers(a, b, cwd, best);
      DeepestIsOne(b, cwd, best, other);
      RegisteredIgnoresOrder(a, b, best);
      assert |Registered(a, best)| == |multiset(Registered(a, best))| == |Registered(b, best)|;
      if r.Found? && s.Found? {
        assert multiset(Registered(b, best))[s.project] == 1;
      }
    } else if r.SeveralProjects? || r.Found? {
      var best := BestOf(a, cwd, r);
    } else if s.SeveralProjects? || s.Found? {
      var best := BestOf(b, cwd, s);
    }
  }

  // The search reports an ambiguity exactly when two projects are registered
  // at the deepest path, and picks a project exactly when one is.
  lemma AmbiguousIffShared(ps: seq<Detail>, cwd: Path, best: Path, r: Outcome)
    requires Answer(ps, cwd, r) && Unfetched !in ps && Deepest(ps, cwd, best)
    ensures r.SeveralProjects? <==> |Registered(ps, best)| > 1
    ensures r.Found? <==> |Registered(ps, best)| == 1
    ensures r.Found? ==> At(r.project, best)
  {
    var p :| p in ps && At(p, best);
    assert Matches(p, cwd);
    var own := BestOf(ps, cwd, r);
    DeepestIsOne(ps, cwd, best, own);
    RegisteredIn(ps, best);
  }
}
