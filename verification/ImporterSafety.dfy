// A real import loses nothing, keeps paths one-to-one, and refines the plain
// loop over live lookups.
module ImporterSafety {
  import opened Options
  import opened ProjectRegistry
  import opened ImporterModel
  import opened ImporterTheorems

  // ---------- nothing is lost ----------

  // Every row of `rows` is still there, under its id and path and as active or
  // archived as before; archived rows are untouched.
  ghost predicate Preserved(rows: seq<Record>, rows': seq<Record>) {
    forall id :: FindById(rows, id).Some? ==> RowPreserved(FindById(rows, id).value, FindById(rows', id))
  }

  predicate RowPreserved(r: Record, now: Option<Record>) {
    now.Some? && now.value.path == r.path && now.value.archived == r.archived && (r.archived ==> now.value == r)
  }

  ghost predicate OwnersOk(rows: seq<Record>) {
    forall x :: x in rows && !x.archived ==> FindActiveByPath(rows, x.path).Some? && FindActiveByPath(rows, x.path).value.id == x.id
  }

  lemma OwnersMeanDistinctPaths(rows: seq<Record>)
    requires DistinctIds(rows)
    ensures OwnersOk(rows) <==> DistinctActivePaths(rows)
  {
    if DistinctActivePaths(rows) {
      forall x | x in rows && !x.archived { DistinctPathsOwner(rows, x); }
    }
    if OwnersOk(rows) {
      forall i, j | 0 <= i < j < |rows| && !rows[i].archived && !rows[j].archived
        ensures rows[i].path != rows[j].path
      {
        assert rows[i] in rows && rows[j] in rows;
      }
    }
  }

  lemma StepPreserves(db: Db, byId: Index, byPath: Index, src: Record, children: Children)
    requires DistinctIds(db.rows) && Mirrors(db.rows, byId, byPath) && !src.archived
    ensures var v := Decide(db.rows, byId, byPath, src, false);
            var rows := AfterRow(db, src, children, v, false).rows;
      Preserved(db.rows, rows) && (DistinctActivePaths(db.rows) ==> DistinctActivePaths(rows))
  {
    var v := Decide(db.rows, byId, byPath, src, false);
    if !v.Skip? {
      CheckMeans(db.rows, byId, byPath, src);
      var r := Stored(src);
      var rows := Upsert(db.rows, r);
      UpsertKeepsDistinctIds(db.rows, r);
      forall id | FindById(db.rows, id).Some? ensures RowPreserved(FindById(db.rows, id).value, FindById(rows, id)) {
        UpsertFindById(db.rows, r, id);
      }
      if DistinctActivePaths(db.rows) {
        OwnersMeanDistinctPaths(db.rows);
        forall x | x in rows && !x.archived
          ensures FindActiveByPath(rows, x.path).Some? && FindActiveByPath(rows, x.path).value.id == x.id
        {
          UpsertMembers(db.rows, r, x);
          UpsertKeepsOwners(db.rows, r, x.path);
          if x == r && FindById(db.rows, r.id).Some? {
            FindByIdFinds(db.rows, r.id);
          }
        }
        OwnersMeanDistinctPaths(rows);
      }
    }
  }

  lemma {:induction false} ImportPreserves(db: Db, byId: Index, byPath: Index, list: seq<Record>, children: Children)
    requires DistinctIds(db.rows) && Mirrors(db.rows, byId, byPath) && DistinctSources(list)
    ensures var t := Import(db, byId, byPath, list, children, false).db;
      && DistinctIds(t.rows) && Preserved(db.rows, t.rows)
      && (DistinctActivePaths(db.rows) ==> DistinctActivePaths(t.rows))
    decreases |list|
  {
    if list != [] {
      var src := list[0];
      var v := Decide(db.rows, byId, byPath, src, false);
      var db1 := AfterRow(db, src, children, v, false);
      WriteKeepsMirror(db, byId, byPath, src, children, v);
      StepPreserves(db, byId, byPath, src, children);
      ImportPreserves(db1, AfterIndex(byId, src.id, src, v), AfterIndex(byPath, src.path, src, v), list[1..], children);
    }
  }

  // No target row is removed, moved, archived or revived, and active paths stay
  // one-to-one if they were.
  lemma NothingIsLost(target: Db, list: seq<Record>, children: Children)
    requires DistinctIds(target.rows) && DistinctSources(list)
    ensures var t := ImportInto(target, list, children, false).db;
      && DistinctIds(t.rows) && Preserved(target.rows, t.rows)
      && (DistinctActivePaths(target.rows) ==> DistinctActivePaths(t.rows))
  {
    ListingMirrors(target.rows);
    ImportPreserves(target, IndexById(Listing(target.rows)), IndexByPath(Listing(target.rows)), list, children);
  }

  // ---------- the indexes only save lookups ----------

  function LiveVerdict(rows: seq<Record>, src: Record): Verdict {
    var c := LiveConflict(rows, src);
    if c.Some? then Skip(c.value) else if FindById(rows, src.id).Some? then Update else Insert
  }

  // The same import without indexes: ask the live store about every row.
  function LiveImport(db: Db, list: seq<Record>, children: Children): Outcome
    decreases |list|
  {
    if list == [] then Outcome([], db)
    else
      var v := LiveVerdict(db.rows, list[0]);
      var rest := LiveImport(AfterRow(db, list[0], children, v, false), list[1..], children);
      Outcome([v] + rest.verdicts, rest.db)
  }

  lemma DecideIsLive(rows: seq<Record>, byId: Index, byPath: Index, src: Record)
    requires DistinctIds(rows) && Mirrors(rows, byId, byPath) && DistinctActivePaths(rows)
    ensures Decide(rows, byId, byPath, src, false) == LiveVerdict(rows, src)
  {
    assert IdOk(rows, byId, src.id) && PathOk(rows, byPath, src.path);
    FindByIdFinds(rows, src.id);
    FindActiveByPathFinds(rows, src.path);
    if src.path in byPath {
      var o := byPath[src.path].id;
      FindByIdFinds(rows, o);
      DistinctPathsOwner(rows, FindById(rows, o).value);
    }
  }

  lemma {:induction false} ImportIsLive(db: Db, byId: Index, byPath: Index, list: seq<Record>, children: Children)
    requires DistinctIds(db.rows) && Mirrors(db.rows, byId, byPath) && DistinctActivePaths(db.rows) && DistinctSources(list)
    ensures Import(db, byId, byPath, list, children, false) == LiveImport(db, list, children)
    decreases |list|
  {
    if list != [] {
      var src := list[0];
      DecideIsLive(db.rows, byId, byPath, src);
      var v := LiveVerdict(db.rows, src);
      WriteKeepsMirror(db, byId, byPath, src, children, v);
      StepPreserves(db, byId, byPath, src, children);
      ImportIsLive(AfterRow(db, src, children, v, false), AfterIndex(byId, src.id, src, v),
                   AfterIndex(byPath, src.path, src, v), list[1..], children);
    }
  }

  lemma IndexedImportIsLive(target: Db, list: seq<Record>, children: Children)
    requires DistinctIds(target.rows) && DistinctActivePaths(target.rows) && DistinctSources(list)
    ensures ImportInto(target, list, children, false) == LiveImport(target, list, children)
  {
    ListingMirrors(target.rows);
    ImportIsLive(target, IndexById(Listing(target.rows)), IndexByPath(Listing(target.rows)), list, children);
  }
}
