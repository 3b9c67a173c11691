// What an import promises: the indexes mirror the live rows, a dry run tells
// the truth, nothing is lost, and running it again changes nothing.
module ImporterTheorems {
  import opened Options
  import opened ProjectRegistry
  import opened ImporterModel

  // ---------- the indexes mirror the live active rows ----------

  predicate ActiveAt(rows: seq<Record>, id: string, path: string) {
    var f := FindById(rows, id);
    f.Some? && !f.value.archived && f.value.path == path
  }

  predicate IdOk(rows: seq<Record>, byId: Index, id: string) {
    && (id in byId <==> FindById(rows, id).Some? && !FindById(rows, id).value.archived)
    && (id in byId ==> byId[id].id == id && ActiveAt(rows, id, byId[id].path))
  }

  predicate PathOk(rows: seq<Record>, byPath: Index, path: string) {
    && (path in byPath <==> FindActiveByPath(rows, path).Some?)
    && (path in byPath ==> byPath[path].path == path && ActiveAt(rows, byPath[path].id, path))
  }

  ghost predicate Mirrors(rows: seq<Record>, byId: Index, byPath: Index) {
    (forall id :: IdOk(rows, byId, id)) && (forall path :: PathOk(rows, byPath, path))
  }

  lemma ListingMirrors(rows: seq<Record>)
    requires DistinctIds(rows)
    ensures Mirrors(rows, IndexById(Listing(rows)), IndexByPath(Listing(rows)))
  {
    var list := Listing(rows);
    forall x ensures x in list <==> x in rows && !x.archived { ListingMembers(rows, x); }
    forall id ensures IdOk(rows, IndexById(list), id) {
      IndexByIdHolds(list, id);
      FindByIdFinds(rows, id);
      if id in IndexById(list) { RowIsFound(rows, IndexById(list)[id]); }
    }
    forall path ensures PathOk(rows, IndexByPath(list), path) {
      IndexByPathHolds(list, path);
      FindActiveByPathFinds(rows, path);
      if path in IndexByPath(list) { RowIsFound(rows, IndexByPath(list)[path]); }
    }
  }

  // Under the mirror each verdict means what it says about the live rows.
  lemma CheckMeans(rows: seq<Record>, byId: Index, byPath: Index, src: Record)
    requires DistinctIds(rows) && Mirrors(rows, byId, byPath)
    ensures Check(rows, byId, byPath, src).Insert? ==> FindById(rows, src.id).None? && FindActiveByPath(rows, src.path).None?
    ensures Check(rows, byId, byPath, src).Update? ==>
      ActiveAt(rows, src.id, src.path) && src.path in byPath && byPath[src.path].id == src.id
  {
    assert IdOk(rows, byId, src.id) && PathOk(rows, byPath, src.path);
    if ActiveAt(rows, src.id, src.path) {
      FindByIdFinds(rows, src.id);
      FindActiveByPathFinds(rows, src.path);
    }
  }

  lemma WriteKeepsMirror(db: Db, byId: Index, byPath: Index, src: Record, children: Children, v: Verdict)
    requires DistinctIds(db.rows) && Mirrors(db.rows, byId, byPath) && !src.archived
    requires v == Decide(db.rows, byId, byPath, src, false)
    ensures var rows := AfterRow(db, src, children, v, false).rows;
      DistinctIds(rows) && Mirrors(rows, AfterIndex(byId, src.id, src, v), AfterIndex(byPath, src.path, src, v))
  {
    if !v.Skip? {
      CheckMeans(db.rows, byId, byPath, src);
      var r := Stored(src);
      var rows := Upsert(db.rows, r);
      UpsertKeepsDistinctIds(db.rows, r);
      forall id ensures IdOk(rows, AfterIndex(byId, src.id, src, v), id) {
        assert IdOk(db.rows, byId, id);
        UpsertFindById(db.rows, r, id);
      }
      forall path ensures PathOk(rows, AfterIndex(byPath, src.path, src, v), path) {
        assert PathOk(db.rows, byPath, path);
        UpsertKeepsOwners(db.rows, r, path);
        UpsertFindById(db.rows, r, src.id);
        if path in byPath { UpsertFindById(db.rows, r, byPath[path].id); }
      }
    }
  }

  // ---------- dry run against real run ----------

  predicate DistinctSources(list: seq<Record>) {
    DistinctIds(list) && forall i :: 0 <= i < |list| ==> !list[i].archived
  }

  // The row would be updated, but the live lookup by path finds another active
  // row that shares the path.
  predicate Divergent(rows: seq<Record>, byPath: Index, src: Record) {
    && ActiveAt(rows, src.id, src.path)
    && src.path in byPath && byPath[src.path].id == src.id
    && FindActiveByPath(rows, src.path).Some? && FindActiveByPath(rows, src.path).value.id != src.id
  }

  // What the rest of the run sees of a row it has not reached is unchanged.
  lemma StepLeavesLaterRows(db: Db, byId: Index, byPath: Index, src: Record, children: Children, later: Record)
    requires DistinctIds(db.rows) && Mirrors(db.rows, byId, byPath) && !src.archived && later.id != src.id
    ensures var v := Decide(db.rows, byId, byPath, src, false); var rows := AfterRow(db, src, children, v, false).rows;
      && FindById(rows, later.id) == FindById(db.rows, later.id)
      && (Divergent(rows, AfterIndex(byPath, src.path, src, v), later) <==> Divergent(db.rows, byPath, later))
  {
    var v := Decide(db.rows, byId, byPath, src, false);
    if !v.Skip? {
      CheckMeans(db.rows, byId, byPath, src);
      UpsertFindById(db.rows, Stored(src), later.id);
      UpsertKeepsOwners(db.rows, Stored(src), later.path);
      assert PathOk(db.rows, byPath, later.path);
    }
  }

  lemma RowVerdicts(rows: seq<Record>, dryRows: seq<Record>, byId: Index, byPath: Index, src: Record)
    requires DistinctIds(rows) && Mirrors(rows, byId, byPath)
    requires FindById(dryRows, src.id) == FindById(rows, src.id)
    ensures var d := Decide(dryRows, byId, byPath, src, true); var v := Decide(rows, byId, byPath, src, false);
      if Divergent(rows, byPath, src) then d.Update? && v.Skip? else v == d
  {
    assert Check(dryRows, byId, byPath, src) == Check(rows, byId, byPath, src);
    assert IdOk(rows, byId, src.id) && PathOk(rows, byPath, src.path);
    CheckMeans(rows, byId, byPath, src);
  }

  lemma StepLeavesLater(db: Db, byId: Index, byPath: Index, list: seq<Record>, children: Children)
    requires DistinctIds(db.rows) && Mirrors(db.rows, byId, byPath) && DistinctSources(list) && list != []
    ensures var v := Decide(db.rows, byId, byPath, list[0], false); var rows := AfterRow(db, list[0], children, v, false).rows;
      forall i :: 1 <= i < |list| ==>
        && FindById(rows, list[i].id) == FindById(db.rows, list[i].id)
        && (Divergent(rows, AfterIndex(byPath, list[0].path, list[0], v), list[i]) <==> Divergent(db.rows, byPath, list[i]))
  {
    forall i | 1 <= i < |list| { StepLeavesLaterRows(db, byId, byPath, list[0], children, list[i]); }
  }

  // Both runs give the same verdict on every row but the divergent ones, which
  // the dry run counts as updates and the real run reports as conflicts.
  lemma {:induction false} VerdictsAgree(db: Db, dry: Db, byId: Index, byPath: Index, list: seq<Record>, children: Children)
    requires DistinctIds(db.rows) && Mirrors(db.rows, byId, byPath) && DistinctSources(list)
    requires forall i :: 0 <= i < |list| ==> FindById(dry.rows, list[i].id) == FindById(db.rows, list[i].id)
    ensures var d := Import(dry, byId, byPath, list, children, true); var r := Import(db, byId, byPath, list, children, false);
      && d.db == dry
      && |d.verdicts| == |r.verdicts| == |list|
      && forall i :: 0 <= i < |list| ==>
           if Divergent(db.rows, byPath, list[i]) then d.verdicts[i].Update? && r.verdicts[i].Skip? else d.verdicts[i] == r.verdicts[i]
    decreases |list|
  {
    if list != [] {
      var src := list[0];
      RowVerdicts(db.rows, dry.rows, byId, byPath, src);
      var d := Decide(dry.rows, byId, byPath, src, true);
      var v := Decide(db.rows, byId, byPath, src, false);
      var db1 := AfterRow(db, src, children, v, false);
      assert AfterIndex(byId, src.id, src, d) == AfterIndex(byId, src.id, src, v);
      assert AfterIndex(byPath, src.path, src, d) == AfterIndex(byPath, src.path, src, v);
      WriteKeepsMirror(db, byId, byPath, src, children, v);
      StepLeavesLater(db, byId, byPath, list, children);
      VerdictsAgree(db1, dry, AfterIndex(byId, src.id, src, v), AfterIndex(byPath, src.path, src, v), list[1..], children);
      var dr := Import(dry, byId, byPath, list, children, true);
      var rr := Import(db, byId, byPath, list, children, false);
      forall i | 0 <= i < |list|
        ensures if Divergent(db.rows, byPath, list[i]) then dr.verdicts[i].Update? && rr.verdicts[i].Skip? else dr.verdicts[i] == rr.verdicts[i]
      {
        if i > 0 { assert list[i] == list[1..][i - 1]; }
      }
    }
  }

  // Turning updates into skips is visible in the counts.
  lemma {:induction false} TallyDrops(d: seq<Verdict>, r: seq<Verdict>)
    requires |d| == |r| && forall i :: 0 <= i < |d| ==> d[i] == r[i] || (d[i].Update? && r[i].Skip?)
    ensures Tally(r).updated <= Tally(d).updated
    ensures Tally(d) == Tally(r) <==> d == r
    ensures Tally(d).updated == Tally(r).updated ==> d == r
  {
    if d != [] {
      var n := |d| - 1;
      var d', r' := d[..n], r[..n];
      TallyDrops(d', r');
      assert d == d' + [d[n]] && r == r' + [r[n]];
      TallySnoc(d', d[n]);
      TallySnoc(r', r[n]);
      assert d == r <==> d' == r' && d[n] == r[n];
    }
  }

  // A dry run and a real run with no concurrent writer give the same counts and
  // the same conflict list exactly if no source row is divergent.
  lemma DryRunAgreesIff(target: Db, list: seq<Record>, children: Children)
    requires DistinctIds(target.rows) && DistinctSources(list)
    ensures ImportInto(target, list, children, true).db == target
    ensures Tally(ImportInto(target, list, children, true).verdicts) == Tally(ImportInto(target, list, children, false).verdicts) <==>
      forall i :: 0 <= i < |list| ==> !Divergent(target.rows, IndexByPath(Listing(target.rows)), list[i])
  {
    var active := Listing(target.rows);
    ListingMirrors(target.rows);
    VerdictsAgree(target, target, IndexById(active), IndexByPath(active), list, children);
    TallyDrops(ImportInto(target, list, children, true).verdicts, ImportInto(target, list, children, false).verdicts);
  }

  lemma DistinctPathsNeverDiverge(rows: seq<Record>, byPath: Index, src: Record)
    requires DistinctActivePaths(rows)
    ensures !Divergent(rows, byPath, src)
  {
    if ActiveAt(rows, src.id, src.path) {
      FindByIdFinds(rows, src.id);
      DistinctPathsOwner(rows, FindById(rows, src.id).value);
    }
  }

  // In particular on every target whose active paths are distinct.
  lemma DryRunAgrees(target: Db, list: seq<Record>, children: Children)
    requires DistinctIds(target.rows) && DistinctActivePaths(target.rows) && DistinctSources(list)
    ensures Tally(ImportInto(target, list, children, true).verdicts) == Tally(ImportInto(target, list, children, false).verdicts)
  {
    forall i | 0 <= i < |list| { DistinctPathsNeverDiverge(target.rows, IndexByPath(Listing(target.rows)), list[i]); }
    DryRunAgreesIff(target, list, children);
  }

  // ---------- conservation ----------

  lemma {:induction false} TallyConserves(vs: seq<Verdict>)
    ensures var rep := Tally(vs); rep.inserted + rep.updated + rep.skipped == |vs| && rep.skipped == |rep.conflicts|
  {
    if vs != [] { TallyConserves(vs[..|vs| - 1]); }
  }

  lemma {:induction false} OneVerdictEach(db: Db, byId: Index, byPath: Index, list: seq<Record>, children: Children, dry: bool)
    ensures |Import(db, byId, byPath, list, children, dry).verdicts| == |list|
    decreases |list|
  {
    if list != [] {
      var src := list[0];
      var v := Decide(db.rows, byId, byPath, src, dry);
      OneVerdictEach(AfterRow(db, src, children, v, dry), AfterIndex(byId, src.id, src, v),
                     AfterIndex(byPath, src.path, src, v), list[1..], children, dry);
    }
  }

  // Every source row is inserted, updated or skipped, and every skip is a
  // reported conflict; on any target, dry or real.
  lemma ReportConserves(target: Db, list: seq<Record>, children: Children, dry: bool)
    ensures var rep := Tally(ImportInto(target, list, children, dry).verdicts);
      rep.inserted + rep.updated + rep.skipped == |list| && rep.skipped == |rep.conflicts|
  {
    var active := Listing(target.rows);
    OneVerdictEach(target, IndexById(active), IndexByPath(active), list, children, dry);
    TallyConserves(ImportInto(target, list, children, dry).verdicts);
  }

  // ---------- what Run is called with ----------

  lemma {:induction false} InsertKeepsDistinct(list: seq<Record>, r: Record)
    requires DistinctIds(list) && forall x :: x in list ==> x.id != r.id
    ensures DistinctIds(InsertById(list, r))
  {
    var n := |list| - 1;
    if list != [] && LexLess(r.id, list[n].id) {
      InsertKeepsDistinct(list[..n], r);
      InsertMembers(list[..n], r);
      var front := InsertById(list[..n], r);
      forall i | 0 <= i < |front|
        ensures front[i].id != list[n].id
      {
        assert front[i] in multiset(front);
        assert front[i] in list[..n] || front[i] == r;
      }
    }
  }

  lemma {:induction false} SortKeepsDistinct(list: seq<Record>)
    requires DistinctIds(list)
    ensures DistinctIds(SortById(list))
  {
    if list != [] {
      var n := |list| - 1;
      SortKeepsDistinct(list[..n]);
      SortMembers(list[..n]);
      forall x | x in SortById(list[..n])
        ensures x.id != list[n].id
      {
        assert x in multiset(SortById(list[..n]));
        assert x in list[..n];
      }
      InsertKeepsDistinct(SortById(list[..n]), list[n]);
    }
  }

  lemma {:induction false} ActiveKeepsDistinct(rows: seq<Record>)
    requires DistinctIds(rows)
    ensures DistinctIds(Active(rows))
  {
    if rows != [] {
      var n := |rows| - 1;
      ActiveKeepsDistinct(rows[..n]);
      forall x | x in Active(rows[..n])
        ensures x.id != rows[n].id
      {
        ActiveMembers(rows[..n], x);
      }
    }
  }

  // The list Run walks over meets what the theorems ask, for every source store.
  lemma SourceListIsDistinct(rows: seq<Record>)
    requires DistinctIds(rows)
    ensures DistinctSources(SortById(Listing(rows)))
  {
    var list := SortById(Listing(rows));
    ActiveKeepsDistinct(rows);
    SortKeepsDistinct(Active(rows));
    SortKeepsDistinct(Listing(rows));
    forall i | 0 <= i < |list|
      ensures !list[i].archived
    {
      SortMembers(Listing(rows));
      assert list[i] in multiset(list);
      assert list[i] in Listing(rows);
      ListingMembers(rows, list[i]);
    }
  }

  // The condition of DryRunAgreesIff can fail: two active target rows share a
  // path, and the source holds the one that is later in the table.
  lemma SharedPathMakesRunsDisagree(a: Record, b: Record, children: Children)
    requires a.id == "a" && b.id == "b" && a.path == b.path && !a.archived && !b.archived
    ensures var target := Db([a, b], map[]);
      Tally(ImportInto(target, [b], children, true).verdicts) != Tally(ImportInto(target, [b], children, false).verdicts)
  {
    var rows := [a, b];
    assert rows[..1] == [a] && rows[1..] == [b] && [a][..0] == [] && [b][..0] == [];
    assert Active([a]) == [a] && Active(rows) == [a, b];
    assert SortById([a]) == [a];
    assert !LexLess(b.id, a.id);
    assert SortById(rows) == [a] + [b];
    assert IndexByPath([a, b]) == IndexByPath([a])[b.path := b];
    assert FindActiveByPath([a], a.path) == Some(a);
    assert FindActiveByPath(rows, b.path) == Some(a);
    assert a.id != b.id by { assert a.id[0] != b.id[0]; }
    assert Divergent(rows, IndexByPath(Listing(rows)), b);
    DryRunAgreesIff(Db(rows, map[]), [b], children);
  }
}
