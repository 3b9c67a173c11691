// Running a real import again changes nothing, on every target.
//
// Active target rows may share a path, and then the path index and the live
// lookup can name different owners.  So the argument is made against an import
// that rebuilds both indexes before every row.
module ImporterRerun {
  import opened Options
  import opened ProjectRegistry
  import opened ImporterModel
  import opened ImporterTheorems
  import opened ImporterSafety

  // ---------- whom the path index names ----------

  function Owner(index: Index, path: string): Option<string> {
    if path in index then Some(index[path].id) else None
  }

  function OwnerId(rows: seq<Record>, path: string): Option<string> {
    Owner(IndexByPath(Listing(rows)), path)
  }

  ghost predicate Greatest(rows: seq<Record>, path: string, id: string) {
    ActiveAt(rows, id, path) && forall k :: ActiveAt(rows, k, path) ==> !LexLess(id, k)
  }

  lemma {:induction false} LexTotal(a: string, b: string)
    requires !LexLess(a, b) && !LexLess(b, a)
    ensures a == b
  {
    if a != [] && b != [] {
      LexTotal(a[1..], b[1..]);
      assert a == [a[0]] + a[1..] && b == [b[0]] + b[1..];
    }
  }

  lemma {:induction false} IndexTakesLast(list: seq<Record>, i: nat)
    requires SortedById(list) && i < |list|
    ensures list[i].path in IndexByPath(list) && !LexLess(IndexByPath(list)[list[i].path].id, list[i].id)
  {
    var n := |list| - 1;
    LexAsymmetric(list[i].id, list[i].id);
    if i < n { IndexTakesLast(list[..n], i); }
  }

  // The index names, of the active rows at a path, the one with the greatest id.
  lemma OwnerIsGreatest(rows: seq<Record>, path: string)
    requires DistinctIds(rows)
    ensures OwnerId(rows, path).Some? ==> Greatest(rows, path, OwnerId(rows, path).value)
    ensures OwnerId(rows, path).None? ==> forall k :: !ActiveAt(rows, k, path)
  {
    var list := Listing(rows);
    ListingMirrors(rows);
    assert PathOk(rows, IndexByPath(list), path);
    SortSorts(Active(rows));
    forall k | ActiveAt(rows, k, path)
      ensures path in IndexByPath(list) && !LexLess(IndexByPath(list)[path].id, k)
    {
      FindByIdFinds(rows, k);
      var x := FindById(rows, k).value;
      ListingMembers(rows, x);
      var i :| 0 <= i < |list| && list[i] == x;
      IndexTakesLast(list, i);
    }
  }

  lemma OwnerIs(rows: seq<Record>, path: string, id: string)
    requires DistinctIds(rows) && Greatest(rows, path, id)
    ensures OwnerId(rows, path) == Some(id)
  {
    OwnerIsGreatest(rows, path);
    assert ActiveAt(rows, id, path);
    LexTotal(OwnerId(rows, path).value, id);
  }

  // ---------- what one write does to the owners ----------

  // The row is new at a path nobody owns, or rewrites itself.
  predicate SafeWrite(rows: seq<Record>, src: Record) {
    var f := FindById(rows, src.id);
    !src.archived && if f.Some? then !f.value.archived && f.value.path == src.path else OwnerId(rows, src.path).None?
  }

  lemma WriteActiveAt(rows: seq<Record>, src: Record, id: string, path: string)
    requires SafeWrite(rows, src)
    ensures ActiveAt(Upsert(rows, Stored(src)), id, path) <==> ActiveAt(rows, id, path) || (id == src.id && path == src.path)
  {
    UpsertFindById(rows, Stored(src), id);
  }

  lemma WriteOwners(rows: seq<Record>, src: Record, path: string)
    requires DistinctIds(rows) && SafeWrite(rows, src)
    ensures OwnerId(Upsert(rows, Stored(src)), path) ==
      if OwnerId(rows, path).None? && path == src.path then Some(src.id) else OwnerId(rows, path)
  {
    var after := Upsert(rows, Stored(src));
    UpsertKeepsDistinctIds(rows, Stored(src));
    OwnerIsGreatest(rows, path);
    OwnerIsGreatest(after, path);
    forall k ensures ActiveAt(after, k, path) <==> ActiveAt(rows, k, path) || (k == src.id && path == src.path) {
      WriteActiveAt(rows, src, k, path);
    }
    if OwnerId(rows, path).Some? {
      OwnerIs(after, path, OwnerId(rows, path).value);
    } else if path == src.path {
      LexAsymmetric(src.id, src.id);
      OwnerIs(after, path, src.id);
    }
  }

  // ---------- the same import with fresh indexes ----------

  function FreshVerdict(rows: seq<Record>, src: Record): Verdict {
    Decide(rows, IndexById(Listing(rows)), IndexByPath(Listing(rows)), src, false)
  }

  function FreshImport(db: Db, list: seq<Record>, children: Children): Outcome
    decreases |list|
  {
    if list == [] then Outcome([], db)
    else
      var v := FreshVerdict(db.rows, list[0]);
      var rest := FreshImport(AfterRow(db, list[0], children, v, false), list[1..], children);
      Outcome([v] + rest.verdicts, rest.db)
  }

  ghost predicate Fresh(rows: seq<Record>, byPath: Index) {
    forall path :: Owner(byPath, path) == OwnerId(rows, path)
  }

  // What a check reads of the indexes: paths by id, ids by path.
  lemma CheckReads(rows: seq<Record>, byId: Index, byPath: Index, byId': Index, byPath': Index, src: Record)
    requires IdOk(rows, byId, src.id) && IdOk(rows, byId', src.id)
    requires PathOk(rows, byPath, src.path) && PathOk(rows, byPath', src.path)
    requires Owner(byPath, src.path) == Owner(byPath', src.path)
    ensures Check(rows, byId, byPath, src) == Check(rows, byId', byPath', src)
  {
    if src.id in byId { assert byId[src.id].path == byId'[src.id].path; }
  }

  lemma DecideIsFresh(rows: seq<Record>, byId: Index, byPath: Index, src: Record)
    requires DistinctIds(rows) && Mirrors(rows, byId, byPath) && Fresh(rows, byPath)
    ensures Decide(rows, byId, byPath, src, false) == FreshVerdict(rows, src)
  {
    ListingMirrors(rows);
    assert Owner(byPath, src.path) == OwnerId(rows, src.path);
    CheckReads(rows, byId, byPath, IndexById(Listing(rows)), IndexByPath(Listing(rows)), src);
  }

  lemma WritesAreSafe(rows: seq<Record>, src: Record)
    requires DistinctIds(rows) && !src.archived && !FreshVerdict(rows, src).Skip?
    ensures SafeWrite(rows, src)
    ensures FreshVerdict(rows, src).Update? <==> FindById(rows, src.id).Some?
    ensures FreshVerdict(rows, src).Insert? ==> OwnerId(rows, src.path).None?
  {
    ListingMirrors(rows);
    CheckMeans(rows, IndexById(Listing(rows)), IndexByPath(Listing(rows)), src);
    assert PathOk(rows, IndexByPath(Listing(rows)), src.path);
  }

  lemma {:induction false} ImportIsFresh(db: Db, byId: Index, byPath: Index, list: seq<Record>, children: Children)
    requires DistinctIds(db.rows) && Mirrors(db.rows, byId, byPath) && Fresh(db.rows, byPath) && DistinctSources(list)
    ensures Import(db, byId, byPath, list, children, false) == FreshImport(db, list, children)
    decreases |list|
  {
    if list != [] {
      var src := list[0];
      var v := FreshVerdict(db.rows, src);
      DecideIsFresh(db.rows, byId, byPath, src);
      WriteKeepsMirror(db, byId, byPath, src, children, v);
      var db1 := AfterRow(db, src, children, v, false);
      var byPath1 := AfterIndex(byPath, src.path, src, v);
      if !v.Skip? { WritesAreSafe(db.rows, src); OwnerIsGreatest(db.rows, src.path); }
      forall path ensures Owner(byPath1, path) == OwnerId(db1.rows, path) {
        assert Owner(byPath, path) == OwnerId(db.rows, path);
        if !v.Skip? { WriteOwners(db.rows, src, path); }
      }
      ImportIsFresh(db1, AfterIndex(byId, src.id, src, v), byPath1, list[1..], children);
    }
  }

  // The indexes that one run keeps up to date decide as freshly built ones would.
  lemma IndexedImportIsFresh(target: Db, list: seq<Record>, children: Children)
    requires DistinctIds(target.rows) && DistinctSources(list)
    ensures ImportInto(target, list, children, false) == FreshImport(target, list, children)
  {
    ListingMirrors(target.rows);
    ImportIsFresh(target, IndexById(Listing(target.rows)), IndexByPath(Listing(target.rows)), list, children);
  }

  // ---------- running it again ----------

  function Again(v: Verdict): Verdict {
    if v.Skip? then v else Update
  }

  // The store already holds what verdict `v` on `src` led to.
  predicate Settled(db: Db, src: Record, children: Children, v: Verdict) {
    && FreshVerdict(db.rows, src) == Again(v)
    && (!v.Skip? ==>
          && FindById(db.rows, src.id) == Some(Stored(src))
          && src.id in db.children && db.children[src.id] == StoredRepos(src.id, ChildrenOf(children, src.id)))
  }

  // The verdict on a row rests on three lookups, and of the two by path only on
  // whom they name.
  lemma SameLookupsSameCheck(rows: seq<Record>, after: seq<Record>, src: Record)
    requires DistinctIds(rows) && DistinctIds(after)
    requires FindById(after, src.id) == FindById(rows, src.id) && OwnerId(after, src.path) == OwnerId(rows, src.path)
    ensures Check(after, IndexById(Listing(after)), IndexByPath(Listing(after)), src)
         == Check(rows, IndexById(Listing(rows)), IndexByPath(Listing(rows)), src)
  {
    ListingMirrors(rows);
    ListingMirrors(after);
    assert IdOk(rows, IndexById(Listing(rows)), src.id) && IdOk(after, IndexById(Listing(after)), src.id);
    assert PathOk(rows, IndexByPath(Listing(rows)), src.path) && PathOk(after, IndexByPath(Listing(after)), src.path);
  }

  lemma SameLookupsSameVerdict(rows: seq<Record>, after: seq<Record>, src: Record)
    requires DistinctIds(rows) && DistinctIds(after)
    requires FindById(after, src.id) == FindById(rows, src.id) && OwnerId(after, src.path) == OwnerId(rows, src.path)
    requires FindActiveByPath(rows, src.path).Some? && FindActiveByPath(after, src.path).Some?
    requires FindActiveByPath(after, src.path).value.id == FindActiveByPath(rows, src.path).value.id
    ensures FreshVerdict(after, src) == FreshVerdict(rows, src)
  {
    SameLookupsSameCheck(rows, after, src);
    FindActiveByPathFinds(rows, src.path);
    FindActiveByPathFinds(after, src.path);
    assert LiveConflict(after, src) == LiveConflict(rows, src);
  }

  // A row that is archived, or active elsewhere, is skipped whoever owns the path.
  lemma SkippedById(rows: seq<Record>, src: Record)
    requires DistinctIds(rows) && FindById(rows, src.id).Some?
    requires FindById(rows, src.id).value.archived || FindById(rows, src.id).value.path != src.path
    ensures var f := FindById(rows, src.id).value;
      FreshVerdict(rows, src) ==
        Skip(Conflict(src.id, src.path, if f.archived then ArchivedTarget else DifferentActivePath, src.id, f.path))
  {
    ListingMirrors(rows);
    assert IdOk(rows, IndexById(Listing(rows)), src.id);
    FindByIdFinds(rows, src.id);
  }

  lemma UpdatedWhenOwned(rows: seq<Record>, src: Record)
    requires DistinctIds(rows) && ActiveAt(rows, src.id, src.path) && OwnerId(rows, src.path) == Some(src.id)
    requires FindActiveByPath(rows, src.path).Some? && FindActiveByPath(rows, src.path).value.id == src.id
    ensures FreshVerdict(rows, src) == Update
  {
    ListingMirrors(rows);
    assert IdOk(rows, IndexById(Listing(rows)), src.id) && PathOk(rows, IndexByPath(Listing(rows)), src.path);
  }

  lemma StepSettles(db: Db, src: Record, children: Children)
    requires DistinctIds(db.rows) && !src.archived
    ensures var v := FreshVerdict(db.rows, src); Settled(AfterRow(db, src, children, v, false), src, children, v)
  {
    var v := FreshVerdict(db.rows, src);
    if !v.Skip? {
      var rows := Upsert(db.rows, Stored(src));
      ListingMirrors(db.rows);
      CheckMeans(db.rows, IndexById(Listing(db.rows)), IndexByPath(Listing(db.rows)), src);
      WritesAreSafe(db.rows, src);
      WriteOwners(db.rows, src, src.path);
      UpsertKeepsDistinctIds(db.rows, Stored(src));
      UpsertFindById(db.rows, Stored(src), src.id);
      UpsertKeepsOwners(db.rows, Stored(src), src.path);
      UpdatedWhenOwned(rows, src);
    }
  }

  lemma StepKeepsSettled(db: Db, next: Record, children: Children, src: Record, v: Verdict)
    requires DistinctIds(db.rows) && !next.archived && next.id != src.id && Settled(db, src, children, v)
    ensures Settled(AfterRow(db, next, children, FreshVerdict(db.rows, next), false), src, children, v)
  {
    if !FreshVerdict(db.rows, next).Skip? {
      var rows := Upsert(db.rows, Stored(next));
      WritesAreSafe(db.rows, next);
      UpsertKeepsDistinctIds(db.rows, Stored(next));
      UpsertFindById(db.rows, Stored(next), src.id);
      ListingMirrors(db.rows);
      assert PathOk(db.rows, IndexByPath(Listing(db.rows)), src.path);
      assert IdOk(db.rows, IndexById(Listing(db.rows)), src.id);
      if FindActiveByPath(db.rows, src.path).Some? {
        WriteOwners(db.rows, next, src.path);
        UpsertKeepsOwners(db.rows, Stored(next), src.path);
        SameLookupsSameVerdict(db.rows, rows, src);
      } else {
        FindByIdFinds(db.rows, src.id);
        FindActiveByPathFinds(db.rows, src.path);
        SkippedById(db.rows, src);
        SkippedById(rows, src);
      }
    }
  }

  lemma {:induction false} RestKeepsSettled(db: Db, list: seq<Record>, children: Children, src: Record, v: Verdict)
    requires DistinctIds(db.rows) && DistinctSources(list) && Settled(db, src, children, v)
    requires forall i :: 0 <= i < |list| ==> list[i].id != src.id
    ensures Settled(FreshImport(db, list, children).db, src, children, v)
    decreases |list|
  {
    if list != [] {
      StepKeepsSettled(db, list[0], children, src, v);
      UpsertKeepsDistinctIds(db.rows, Stored(list[0]));
      RestKeepsSettled(AfterRow(db, list[0], children, FreshVerdict(db.rows, list[0]), false), list[1..], children, src, v);
    }
  }

  lemma {:induction false} ImportSettles(db: Db, list: seq<Record>, children: Children)
    requires DistinctIds(db.rows) && DistinctSources(list)
    ensures var o := FreshImport(db, list, children);
      |o.verdicts| == |list| && forall i :: 0 <= i < |list| ==> Settled(o.db, list[i], children, o.verdicts[i])
    decreases |list|
  {
    if list != [] {
      var v := FreshVerdict(db.rows, list[0]);
      var db1 := AfterRow(db, list[0], children, v, false);
      StepSettles(db, list[0], children);
      UpsertKeepsDistinctIds(db.rows, Stored(list[0]));
      ImportSettles(db1, list[1..], children);
      RestKeepsSettled(db1, list[1..], children, list[0], v);
      var o := FreshImport(db, list, children);
      forall i | 0 <= i < |list|
        ensures Settled(o.db, list[i], children, o.verdicts[i])
      {
        if i > 0 { assert list[i] == list[1..][i - 1]; }
      }
    }
  }

  lemma {:induction false} SettledRunChangesNothing(db: Db, list: seq<Record>, children: Children, vs: seq<Verdict>)
    requires |vs| == |list| && forall i :: 0 <= i < |list| ==> Settled(db, list[i], children, vs[i])
    ensures var o := FreshImport(db, list, children);
      o.db == db && |o.verdicts| == |list| && forall i :: 0 <= i < |list| ==> o.verdicts[i] == Again(vs[i])
    decreases |list|
  {
    if list != [] {
      var src := list[0];
      var v := FreshVerdict(db.rows, src);
      assert Settled(db, src, children, vs[0]) && v == Again(vs[0]);
      if !v.Skip? {
        UpsertSame(db.rows, Stored(src));
        assert db.children[src.id := StoredRepos(src.id, ChildrenOf(children, src.id))] == db.children;
      }
      assert AfterRow(db, src, children, v, false) == db;
      SettledRunChangesNothing(db, list[1..], children, vs[1..]);
    }
  }

  lemma {:induction false} TallyAgain(vs: seq<Verdict>, ws: seq<Verdict>)
    requires |vs| == |ws| && forall i :: 0 <= i < |vs| ==> ws[i] == Again(vs[i])
    ensures Tally(ws).inserted == 0 && Tally(ws).updated == Tally(vs).inserted + Tally(vs).updated
    ensures Tally(ws).skipped == Tally(vs).skipped && Tally(ws).conflicts == Tally(vs).conflicts
  {
    if vs != [] { TallyAgain(vs[..|vs| - 1], ws[..|ws| - 1]); }
  }

  // A second run leaves the store as the first left it, inserts nothing, updates
  // exactly the rows the first inserted or updated, and reports the same
  // conflicts; on every target, whether or not its active paths are distinct.
  lemma RerunIsStable(target: Db, list: seq<Record>, children: Children)
    requires DistinctIds(target.rows) && DistinctSources(list)
    ensures var first := ImportInto(target, list, children, false);
            var second := ImportInto(first.db, list, children, false);
      && second.db == first.db
      && |first.verdicts| == |second.verdicts| == |list|
      && (forall i :: 0 <= i < |list| ==> second.verdicts[i] == Again(first.verdicts[i]))
      && Tally(second.verdicts).inserted == 0
      && Tally(second.verdicts).updated == Tally(first.verdicts).inserted + Tally(first.verdicts).updated
      && Tally(second.verdicts).conflicts == Tally(first.verdicts).conflicts
  {
    IndexedImportIsFresh(target, list, children);
    NothingIsLost(target, list, children);
    var first := ImportInto(target, list, children, false);
    ImportSettles(target, list, children);
    IndexedImportIsFresh(first.db, list, children);
    SettledRunChangesNothing(first.db, list, children, first.verdicts);
    TallyAgain(first.verdicts, ImportInto(first.db, list, children, false).verdicts);
  }
}
