// Rewriting PATH for a launched agent (backend/internal/agentlaunch/env.go).
module LaunchPath {
  import opened Options
  import opened Text

  // ---------- the rewriting as a function of the entry list ----------

  // Each launch directory that is missing goes in front, the last one first.
  function Prepended(dirs: seq<string>, parts: seq<string>): seq<string> {
    if dirs == [] then parts
    else
      var rest := Prepended(dirs[1..], parts);
      if dirs[0] in rest then rest else [dirs[0]] + rest
  }

  // The first occurrence of `dir` taken out.
  function Removed(parts: seq<string>, dir: string): seq<string>
    requires dir in parts
  {
    if parts[0] == dir then parts[1..] else [parts[0]] + Removed(parts[1..], dir)
  }

  function Restored(parts: seq<string>, pin: string): seq<string> {
    if pin == "" || pin !in parts || parts[0] == pin then parts else [pin] + Removed(parts, pin)
  }

  function Entries(path: string): seq<string> {
    if path == "" then [] else Split(path, ':')
  }

  function Rewritten(dirs: seq<string>, pin: string, path: string): string {
    Join(Restored(Prepended(dirs, Entries(path)), pin), ':')
  }

  // restorePinnedDir
  method RestorePinnedDir(parts: seq<string>, dir: string) returns (out: seq<string>)
    ensures out == Restored(parts, dir)
  {
    if dir == "" || |parts| == 0 || parts[0] == dir {
      return parts;
    }
    var i := 0;
    while i < |parts|
      invariant 0 <= i <= |parts|
      invariant dir !in parts[..i]
    {
      if parts[i] == dir {
        RemovedAt(parts, dir, i);
        return [dir] + parts[..i] + parts[i + 1..];
      }
      i := i + 1;
    }
    assert parts[..i] == parts;
    out := parts;
  }

  lemma {:induction false} RemovedAt(parts: seq<string>, dir: string, i: nat)
    requires i < |parts| && parts[i] == dir && dir !in parts[..i]
    ensures dir in parts && Removed(parts, dir) == parts[..i] + parts[i + 1..]
  {
    if i > 0 {
      assert parts[..i][0] == parts[0];
      assert parts[1..][..i - 1] == parts[..i][1..];
      RemovedAt(parts[1..], dir, i - 1);
      assert parts[..i] == [parts[0]] + parts[1..][..i - 1];
      assert parts[1..][i..] == parts[i + 1..];
    }
  }

  // The environment the child process will get.
  class Environment {
    var vars: map<string, string>

    constructor (vars: map<string, string>)
      ensures this.vars == vars
    {
      this.vars := vars;
    }

    // AugmentRuntimePATHForLaunchBinary, once the launch binary's directory
    // and, for a Node script, the Node directory are known.
    method AugmentRuntimePath(dirs: seq<string>, pinnedDir: string)
      modifies this
      ensures vars == if dirs == [] then old(vars) else
        old(vars)["PATH" := Rewritten(dirs, pinnedDir, if "PATH" in old(vars) then old(vars)["PATH"] else "")]
    {
      if dirs == [] {
        return;
      }
      var path := if "PATH" in vars then vars["PATH"] else "";
      var parts := Entries(path);
      assert dirs[|dirs|..] == [];
      var i := |dirs|;
      while i > 0
        invariant 0 <= i <= |dirs|
        invariant parts == Prepended(dirs[i..], Entries(path))
        invariant vars == old(vars)
      {
        i := i - 1;
        assert dirs[i..][1..] == dirs[i + 1..];
        if dirs[i] !in parts {
          parts := [dirs[i]] + parts;
        }
      }
      assert dirs[0..] == dirs;
      parts := RestorePinnedDir(parts, pinnedDir);
      vars := vars["PATH" := Join(parts, ':')];
    }
  }

  // ---------- order and contents ----------

  // The directories the rewriting puts in front.
  function Added(dirs: seq<string>, parts: seq<string>): seq<string> {
    if dirs == [] then []
    else
      var rest := Added(dirs[1..], parts);
      if dirs[0] in rest || dirs[0] in parts then rest else [dirs[0]] + rest
  }

  function Without(parts: seq<string>, dir: string): seq<string> {
    if parts == [] then []
    else if parts[0] == dir then Without(parts[1..], dir)
    else [parts[0]] + Without(parts[1..], dir)
  }

  predicate Distinct(s: seq<string>) {
    forall i, j :: 0 <= i < j < |s| ==> s[i] != s[j]
  }

  // What is put in front is each missing directory, once, and the old entries
  // follow as they were.
  lemma {:induction false} OnlyMissingDirsAreAdded(dirs: seq<string>, parts: seq<string>)
    ensures Prepended(dirs, parts) == Added(dirs, parts) + parts
    ensures Distinct(Added(dirs, parts))
    ensures forall d :: d in Added(dirs, parts) <==> d in dirs && d !in parts
  {
    if dirs != [] {
      OnlyMissingDirsAreAdded(dirs[1..], parts);
      var rest := Added(dirs[1..], parts);
      assert dirs == [dirs[0]] + dirs[1..];
      assert [dirs[0]] + (rest + parts) == ([dirs[0]] + rest) + parts;
    }
  }

  lemma {:induction false} RemovedKeepsOrder(parts: seq<string>, dir: string)
    requires dir in parts
    ensures Without(Removed(parts, dir), dir) == Without(parts, dir)
    ensures multiset(parts) == multiset(Removed(parts, dir)) + multiset{dir}
  {
    assert parts == [parts[0]] + parts[1..];
    if parts[0] != dir {
      RemovedKeepsOrder(parts[1..], dir);
      var rest := Removed(parts[1..], dir);
      assert ([parts[0]] + rest)[1..] == rest;
    }
  }

  // Restoring the pin moves the pin alone: it comes first if it is there at
  // all, nothing is lost or repeated, and the rest keeps its order.
  lemma RestoringMovesOnlyThePin(parts: seq<string>, pin: string)
    ensures var out := Restored(parts, pin);
      && multiset(out) == multiset(parts)
      && Without(out, pin) == Without(parts, pin)
      && (pin != "" && pin in parts ==> out[0] == pin)
  {
    if pin != "" && pin in parts && parts[0] != pin {
      RemovedKeepsOrder(parts, pin);
      var rest := Removed(parts, pin);
      assert ([pin] + rest)[1..] == rest;
    }
  }

  // ---------- idempotence ----------

  predicate SeparatorFree(dirs: seq<string>) {
    forall d :: d in dirs ==> ':' !in d
  }

  // What Join writes for a list, with one separator too many.
  function Size(parts: seq<string>): nat {
    if parts == [] then 0 else |parts[0]| + 1 + Size(parts[1..])
  }

  lemma {:induction false} JoinSize(parts: seq<string>)
    requires parts != []
    ensures |Join(parts, ':')| + 1 == Size(parts)
  {
    if |parts| > 1 { JoinSize(parts[1..]); }
  }

  lemma {:induction false} SizeAppend(a: seq<string>, b: seq<string>)
    ensures Size(a + b) == Size(a) + Size(b)
  {
    if a == [] {
      assert a + b == b;
    } else {
      SizeAppend(a[1..], b);
      assert (a + b)[1..] == a[1..] + b;
    }
  }

  lemma {:induction false} RemovedSize(parts: seq<string>, dir: string)
    requires dir in parts
    ensures Size(parts) == Size(Removed(parts, dir)) + |dir| + 1
  {
    if parts[0] != dir {
      RemovedSize(parts[1..], dir);
      var rest := Removed(parts[1..], dir);
      assert ([parts[0]] + rest)[1..] == rest;
    }
  }

  lemma RestoredSize(parts: seq<string>, pin: string)
    ensures Size(Restored(parts, pin)) == Size(parts)
  {
    if pin in parts {
      RemovedSize(parts, pin);
      assert ([pin] + Removed(parts, pin))[1..] == Removed(parts, pin);
    }
  }

  lemma InMultiset(parts: seq<string>, out: seq<string>, d: string)
    requires multiset(out) == multiset(parts)
    ensures d in out <==> d in parts
  {
    assert d in out <==> d in multiset(out);
    assert d in parts <==> d in multiset(parts);
  }

  // The list a rewriting leaves behind.
  lemma RewrittenEntries(dirs: seq<string>, pin: string, path: string)
    requires dirs != []
    ensures var out := Restored(Prepended(dirs, Entries(path)), pin);
      out != [] && forall d :: d in dirs || d in Entries(path) <==> d in out
  {
    var parts := Entries(path);
    var mid := Prepended(dirs, parts);
    OnlyMissingDirsAreAdded(dirs, parts);
    RestoringMovesOnlyThePin(mid, pin);
    forall d ensures d in dirs || d in parts <==> d in Restored(mid, pin) {
      InMultiset(mid, Restored(mid, pin), d);
    }
    assert dirs[0] in dirs;
  }

  lemma {:induction false} NothingMissing(dirs: seq<string>, parts: seq<string>)
    requires forall d :: d in dirs ==> d in parts
    ensures Prepended(dirs, parts) == parts
  {
    if dirs != [] { NothingMissing(dirs[1..], parts); }
  }

  lemma SettledPath(dirs: seq<string>, pin: string, path: string)
    requires dirs != [] && "" !in dirs && SeparatorFree(dirs)
    ensures var again := Rewritten(dirs, pin, path); Rewritten(dirs, pin, again) == again
  {
    var out := Restored(Prepended(dirs, Entries(path)), pin);
    var again := Join(out, ':');
    RewrittenEntries(dirs, pin, path);
    forall i | 0 <= i < |out| ensures ':' !in out[i] {
      assert out[i] in out;
    }
    SplitJoin(out, ':');
    SplitWhole("", ':');
    assert dirs[0] in dirs && dirs[0] in out;
    assert Entries(again) == out;
    NothingMissing(dirs, out);
    RestoringMovesOnlyThePin(Prepended(dirs, Entries(path)), pin);
  }

  lemma GrowingPath(dirs: seq<string>, pin: string, path: string)
    requires dirs != [] && !SeparatorFree(dirs)
    ensures |Rewritten(dirs, pin, path)| > |path|
  {
    var d :| d in dirs && ':' in d;
    var parts := Entries(path);
    var mid := Prepended(dirs, parts);
    OnlyMissingDirsAreAdded(dirs, parts);
    assert d !in parts;
    var added := Added(dirs, parts);
    assert d in added;
    SizeOfOne(added, d);
    SizeAppend(added, parts);
    RestoredSize(mid, pin);
    JoinSize(Restored(mid, pin));
    if path != "" {
      JoinSplit(path, ':');
      JoinSize(parts);
    }
  }

  lemma {:induction false} SizeOfOne(parts: seq<string>, d: string)
    requires d in parts
    ensures Size(parts) >= |d| + 1
  {
    if parts[0] != d { SizeOfOne(parts[1..], d); }
  }

  // Rewriting twice is rewriting once exactly when no launch directory holds
  // the list separator; one that does is added again on every launch.
  lemma IdempotentIff(dirs: seq<string>, pin: string, path: string)
    requires dirs != [] && "" !in dirs
    ensures var once := Rewritten(dirs, pin, path);
      Rewritten(dirs, pin, once) == once <==> SeparatorFree(dirs)
  {
    if SeparatorFree(dirs) {
      SettledPath(dirs, pin, path);
    } else {
      GrowingPath(dirs, pin, Rewritten(dirs, pin, path));
    }
  }

  // The entries of the rewritten PATH, told of the text itself: what is missing
  // in front, in the order of the launch directories, then the old entries, but
  // for the pin, which comes first if it is there at all.
  lemma RewrittenReads(dirs: seq<string>, pin: string, path: string)
    requires dirs != [] && "" !in dirs && SeparatorFree(dirs)
    ensures var out := Entries(Rewritten(dirs, pin, path)); var all := Added(dirs, Entries(path)) + Entries(path);
      && multiset(out) == multiset(all)
      && Without(out, pin) == Without(all, pin)
      && (pin != "" && (pin in dirs || pin in Entries(path)) ==> out != [] && out[0] == pin)
      && (pin == "" || (pin !in dirs && pin !in Entries(path)) ==> out == all)
  {
    var parts := Entries(path);
    var mid := Prepended(dirs, parts);
    var out := Restored(mid, pin);
    RewrittenSplits(dirs, pin, path);
    OnlyMissingDirsAreAdded(dirs, parts);
    RestoringMovesOnlyThePin(mid, pin);
  }

  lemma RewrittenSplits(dirs: seq<string>, pin: string, path: string)
    requires dirs != [] && "" !in dirs && SeparatorFree(dirs)
    ensures Entries(Rewritten(dirs, pin, path)) == Restored(Prepended(dirs, Entries(path)), pin)
  {
    var out := Restored(Prepended(dirs, Entries(path)), pin);
    RewrittenEntries(dirs, pin, path);
    forall i | 0 <= i < |out| ensures ':' !in out[i] {
      assert out[i] in out;
    }
    SplitJoin(out, ':');
    SplitWhole("", ':');
    assert dirs[0] in dirs && dirs[0] in out;
  }

  // A missing launch directory goes before a missing Node directory.
  lemma {:induction false} AddedKeepsOrder(dirs: seq<string>, parts: seq<string>, i: nat, j: nat) returns (a: nat, b: nat)
    requires i < j < |Added(dirs, parts)|
    ensures a < b < |dirs| && dirs[a] == Added(dirs, parts)[i] && dirs[b] == Added(dirs, parts)[j]
  {
    var rest := Added(dirs[1..], parts);
    if Added(dirs, parts) == rest {
      a, b := AddedKeepsOrder(dirs[1..], parts, i, j);
      a, b := a + 1, b + 1;
    } else if i > 0 {
      a, b := AddedKeepsOrder(dirs[1..], parts, i - 1, j - 1);
      a, b := a + 1, b + 1;
    } else {
      OnlyMissingDirsAreAdded(dirs[1..], parts);
      assert rest[j - 1] in rest;
      b :| 0 <= b < |dirs[1..]| && dirs[1..][b] == rest[j - 1];
      a, b := 0, b + 1;
    }
  }

  // ---------- command lookup ----------

  // Which commands each directory holds.
  type Commands = map<string, set<string>>

  predicate Holds(at: Commands, dir: string, command: string) {
    dir in at && command in at[dir]
  }

  // The directory a shell would take the command from.
  function Lookup(parts: seq<string>, at: Commands, command: string): Option<string> {
    if parts == [] then None
    else if Holds(at, parts[0], command) then Some(parts[0])
    else Lookup(parts[1..], at, command)
  }

  lemma {:induction false} LookupSkips(parts: seq<string>, at: Commands, command: string, dir: string)
    requires !Holds(at, dir, command)
    ensures Lookup(parts, at, command) == Lookup(Without(parts, dir), at, command)
  {
    if parts != [] {
      LookupSkips(parts[1..], at, command, dir);
      var rest := Without(parts[1..], dir);
      assert ([parts[0]] + rest)[1..] == rest;
    }
  }

  // Moving the pin to the front changes no command the pin does not hold.
  lemma PinHidesNothing(parts: seq<string>, pin: string, at: Commands, command: string)
    requires !Holds(at, pin, command)
    ensures Lookup(Restored(parts, pin), at, command) == Lookup(parts, at, command)
  {
    RestoringMovesOnlyThePin(parts, pin);
    LookupSkips(parts, at, command, pin);
    LookupSkips(Restored(parts, pin), at, command, pin);
  }

  lemma {:induction false} LookupPast(front: seq<string>, parts: seq<string>, at: Commands, command: string)
    requires forall d :: d in front ==> !Holds(at, d, command)
    ensures Lookup(front + parts, at, command) == Lookup(parts, at, command)
  {
    if front == [] {
      assert front + parts == parts;
    } else {
      LookupPast(front[1..], parts, at, command);
      assert (front + parts)[1..] == front[1..] + parts;
    }
  }

  // A command that neither a launch directory nor the pin holds is found
  // where it was found before.
  lemma OtherCommandsStay(dirs: seq<string>, pin: string, path: string, at: Commands, command: string)
    requires dirs != [] && "" !in dirs && SeparatorFree(dirs)
    requires !Holds(at, pin, command) && forall d :: d in dirs ==> !Holds(at, d, command)
    ensures Lookup(Entries(Rewritten(dirs, pin, path)), at, command) == Lookup(Entries(path), at, command)
  {
    var parts := Entries(path);
    var mid := Prepended(dirs, parts);
    RewrittenSplits(dirs, pin, path);
    PinHidesNothing(mid, pin, at, command);
    OnlyMissingDirsAreAdded(dirs, parts);
    LookupPast(Added(dirs, parts), parts, at, command);
  }
}
