// The importer's loop over a store that can fail, and the store itself.
module ImporterRuntime {
  import opened Options
  import opened ProjectRegistry
  import opened ImporterModel
  import opened ImporterTheorems
  import opened ImporterContents

  // Every call may fail for reasons of its own; a failed write is rolled back.
  datatype Answer<T> = Ok(value: T) | IoError | Rejected(conflict: Conflict)

  // `faults` counts the calls that failed for such reasons.
  class Store {
    var db: Db
    ghost var faults: nat

    constructor (db: Db)
      ensures this.db == db
    {
      this.db := db;
    }

    method Pass() returns (ok: bool)
      modifies this`faults
      ensures faults == old(faults) + if ok then 0 else 1
    {
      ok := *;
      faults := faults + if ok then 0 else 1;
    }

    method ListProjects() returns (r: Answer<seq<Record>>)
      modifies this`faults
      ensures r == Ok(Listing(db.rows)) || r.IoError?
      ensures faults == old(faults) + if r.IoError? then 1 else 0
    {
      var ok := Pass();
      r := if ok then Ok(Listing(db.rows)) else IoError;
    }

    method GetProject(id: string) returns (r: Answer<Option<Record>>)
      modifies this`faults
      ensures r == Ok(FindById(db.rows, id)) || r.IoError?
      ensures faults == old(faults) + if r.IoError? then 1 else 0
    {
      var ok := Pass();
      r := if ok then Ok(FindById(db.rows, id)) else IoError;
    }

    method ListWorkspaceRepos(id: string) returns (r: Answer<seq<Repo>>)
      modifies this`faults
      ensures r == Ok(if id in db.children then db.children[id] else []) || r.IoError?
      ensures faults == old(faults) + if r.IoError? then 1 else 0
    {
      var ok := Pass();
      r := if ok then Ok(ChildrenOf(db.children, id)) else IoError;
    }

    method ImportWorkspaceProject(r: Record, repos: seq<Repo>) returns (a: Answer<()>)
      modifies this
      ensures a.IoError? ==> db == old(db)
      ensures a.Rejected? ==> db == old(db) && LiveConflict(db.rows, r) == Some(a.conflict)
      ensures a.Ok? ==> LiveConflict(old(db).rows, r).None? && db == Write(old(db), r, repos)
      ensures a.Ok? ==> Holds(db, r, repos) && forall id :: id != r.id ==> Untouched(old(db), db, id)
      ensures faults == old(faults) + if a.IoError? then 1 else 0
    {
      var ok := Pass();
      if !ok { return IoError; }
      var c := LiveConflict(db.rows, r);
      if c.Some? { return Rejected(c.value); }
      forall id { WriteHolds(db, r, repos, id); }
      WriteHolds(db, r, repos, r.id);
      db := Write(db, r, repos);
      a := Ok(());
    }
  }

  ghost function Faults(source: Store, target: Store): nat
    reads source, target
  {
    source.faults + target.faults
  }

  method BuildIndexes(list: seq<Record>) returns (byId: Index, byPath: Index)
    ensures byId == IndexById(list) && byPath == IndexByPath(list)
  {
    byId, byPath := map[], map[];
    for i := 0 to |list|
      invariant byId == IndexById(list[..i]) && byPath == IndexByPath(list[..i])
    {
      assert list[..i + 1][..i] == list[..i];
      byId := byId[list[i].id := list[i]];
      byPath := byPath[list[i].path := list[i]];
    }
    assert list[..|list|] == list;
  }

  // What the loop carries from row to row.
  datatype Cursor = Cursor(db: Db, byId: Index, byPath: Index, verdicts: seq<Verdict>)

  function Advance(c: Cursor, src: Record, children: Children, dry: bool): Cursor {
    var v := Decide(c.db.rows, c.byId, c.byPath, src, dry);
    Cursor(AfterRow(c.db, src, children, v, dry), AfterIndex(c.byId, src.id, src, v),
           AfterIndex(c.byPath, src.path, src, v), c.verdicts + [v])
  }

  function AdvanceAll(c: Cursor, list: seq<Record>, children: Children, dry: bool): Cursor
    decreases |list|
  {
    if list == [] then c else AdvanceAll(Advance(c, list[0], children, dry), list[1..], children, dry)
  }

  lemma {:induction false} AdvanceSnoc(c: Cursor, list: seq<Record>, src: Record, children: Children, dry: bool)
    ensures AdvanceAll(c, list + [src], children, dry) == Advance(AdvanceAll(c, list, children, dry), src, children, dry)
    decreases |list|
  {
    if list == [] {
      assert [src][1..] == [];
    } else {
      assert (list + [src])[1..] == list[1..] + [src];
      AdvanceSnoc(Advance(c, list[0], children, dry), list[1..], src, children, dry);
    }
  }

  lemma {:induction false} AdvanceIsImport(c: Cursor, list: seq<Record>, children: Children, dry: bool)
    ensures var o := Import(c.db, c.byId, c.byPath, list, children, dry); var t := AdvanceAll(c, list, children, dry);
      t.db == o.db && t.verdicts == c.verdicts + o.verdicts
    decreases |list|
  {
    if list != [] { AdvanceIsImport(Advance(c, list[0], children, dry), list[1..], children, dry); }
  }

  // One source row.  `v` is None when a store call failed.
  method ImportRow(source: Store, target: Store, byId: Index, byPath: Index, src: Record, dryRun: bool) returns (v: Option<Verdict>)
    requires source != target
    modifies source`faults, target
    ensures v.None? ==> target.db == old(target.db)
    ensures Faults(source, target) == old(Faults(source, target)) + if v.None? then 1 else 0
    ensures v.Some? ==>
      && v.value == Decide(old(target.db).rows, byId, byPath, src, dryRun)
      && target.db == AfterRow(old(target.db), src, source.db.children, v.value, dryRun)
  {
    var existingById := Lookup(byId, src.id);
    var existingByPath := Lookup(byPath, src.path);
    if existingById.None? {
      var got := target.GetProject(src.id);
      if !got.Ok? { return None; }
      if got.value.Some? && got.value.value.archived {
        var live := got.value.value;
        return Some(Skip(Conflict(src.id, src.path, ArchivedTarget, live.id, live.path)));
      }
      existingById := got.value;
    }
    if existingById.Some? && existingById.value.path != src.path {
      return Some(Skip(Conflict(src.id, src.path, DifferentActivePath, existingById.value.id, existingById.value.path)));
    }
    if existingByPath.Some? && existingByPath.value.id != src.id {
      return Some(Skip(Conflict(src.id, src.path, DifferentActiveId, existingByPath.value.id, existingByPath.value.path)));
    }
    var repos := source.ListWorkspaceRepos(src.id);
    if !repos.Ok? { return None; }
    if !dryRun {
      var done := target.ImportWorkspaceProject(src, repos.value);
      if done.IoError? { return None; }
      if done.Rejected? { return Some(Skip(done.conflict)); }
    }
    v := Some(if existingById.Some? && existingByPath.Some? then Update else Insert);
  }

  // One turn of the loop: decide the row, keep the indexes and the report.
  method Turn(source: Store, target: Store, byId: Index, byPath: Index, rep: Report, src: Record, dryRun: bool, ghost at: Cursor)
    returns (ok: bool, byId': Index, byPath': Index, rep': Report)
    requires source != target
    requires at.db == target.db && at.byId == byId && at.byPath == byPath && rep == Tally(at.verdicts)
    modifies source`faults, target
    ensures Faults(source, target) == old(Faults(source, target)) + if ok then 0 else 1
    ensures var to := if ok then Advance(at, src, source.db.children, dryRun) else at;
      to.db == target.db && to.byId == byId' && to.byPath == byPath' && rep' == Tally(to.verdicts)
  {
    byId', byPath', rep' := byId, byPath, rep;
    var v := ImportRow(source, target, byId, byPath, src, dryRun);
    if v.None? {
      return false, byId, byPath, rep;
    }
    if v.value.Insert? {
      byId' := byId[src.id := src];
      byPath' := byPath[src.path := src];
    }
    rep' := AddVerdict(rep, v.value);
    TallySnoc(at.verdicts, v.value);
    ok := true;
  }

  lemma PrefixStep(start: Cursor, list: seq<Record>, i: nat, children: Children, dry: bool)
    requires i < |list|
    ensures AdvanceAll(start, list[..i + 1], children, dry) == Advance(AdvanceAll(start, list[..i], children, dry), list[i], children, dry)
  {
    AdvanceSnoc(start, list[..i], list[i], children, dry);
    assert list[..i + 1] == list[..i] + [list[i]];
  }

  // The loop over the source rows; it stops early when a store call fails.
  method ImportRows(source: Store, target: Store, list: seq<Record>, index: Index, pathIndex: Index, dryRun: bool)
    returns (ok: bool, rep: Report, ghost done: nat)
    requires source != target
    modifies source`faults, target
    ensures done <= |list| && (ok <==> done == |list|)
    ensures ok <==> Faults(source, target) == old(Faults(source, target))
    ensures var o := Import(old(target.db), index, pathIndex, list[..done], source.db.children, dryRun);
      rep == Tally(o.verdicts) && target.db == o.db
  {
    ok, rep := true, EMPTY_REPORT;
    var byId, byPath := index, pathIndex;
    ghost var start := Cursor(target.db, byId, byPath, []);
    ghost var children := source.db.children;
    ghost var at := start;
    var i := 0;
    while i < |list| && ok
      invariant i <= |list| && source.db.children == children && (i == |list| ==> ok)
      invariant Faults(source, target) == old(Faults(source, target)) + if ok then 0 else 1
      invariant at == AdvanceAll(start, list[..i], children, dryRun)
      invariant at.db == target.db && at.byId == byId && at.byPath == byPath && rep == Tally(at.verdicts)
      decreases |list| - i, ok
    {
      ghost var before := at;
      ok, byId, byPath, rep := Turn(source, target, byId, byPath, rep, list[i], dryRun, before);
      if ok {
        PrefixStep(start, list, i, children, dryRun);
        at := Advance(before, list[i], children, dryRun);
        i := i + 1;
      }
    }
    done := i;
    AdvanceIsImport(start, list[..i], children, dryRun);
    assert at.verdicts == Import(start.db, index, pathIndex, list[..i], children, dryRun).verdicts;
  }

  // Run.  The target and the report are those of the plan for the first `done`
  // source rows; all of them exactly if no store call failed.
  method Run(source: Store, target: Store, dryRun: bool) returns (ok: bool, rep: Report, ghost done: nat)
    requires source != target
    modifies source`faults, target
    ensures ok <==> Faults(source, target) == old(Faults(source, target))
    ensures done <= |SortById(Listing(old(source.db).rows))| && (ok ==> done == |SortById(Listing(old(source.db).rows))|)
    ensures var list := SortById(Listing(old(source.db).rows));
            var o := ImportInto(old(target.db), list[..done], old(source.db).children, dryRun);
      rep == Tally(o.verdicts) && target.db == o.db
    ensures !dryRun && DistinctIds(old(source.db).rows) && DistinctIds(old(target.db).rows) ==>
      Copied(old(target.db), target.db, SortById(Listing(old(source.db).rows))[..done], old(source.db).children, rep)
    ensures dryRun ==> target.db == old(target.db)
  {
    ghost var rows, before, children := source.db.rows, target.db, source.db.children;
    PlanCopies(rows, before, 0, children, dryRun);
    var listed := source.ListProjects();
    if !listed.Ok? { return false, EMPTY_REPORT, 0; }
    var existing := target.ListProjects();
    if !existing.Ok? { return false, EMPTY_REPORT, 0; }
    var byId, byPath := BuildIndexes(existing.value);
    ok, rep, done := ImportRows(source, target, SortById(listed.value), byId, byPath, dryRun);
    PlanCopies(rows, before, done, children, dryRun);
  }
}
