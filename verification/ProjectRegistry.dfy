// The project registry as the importer uses it: the rows of the projects table
// in insertion order, active and archived, and the child repositories of each
// project (backend/internal/storage/sqlite/store/project_store.go).
module ProjectRegistry {
  import opened Options

  datatype Details = Details(displayName: string, repoOriginURL: string, registeredAt: int, kind: string, config: string)
  datatype Record = Record(id: string, path: string, archived: bool, details: Details)
  datatype Repo = Repo(projectId: string, name: string, relativePath: string, repoOriginURL: string,
                       defaultBranch: string, registeredAt: int, gitStatus: string)

  datatype Reason = ArchivedTarget | DifferentActivePath | DifferentActiveId
  datatype Conflict = Conflict(projectId: string, path: string, reason: Reason, targetId: string, targetPath: string)

  datatype Db = Db(rows: seq<Record>, children: map<string, seq<Repo>>)

  function FindById(rows: seq<Record>, id: string): Option<Record> {
    if rows == [] then None else if rows[0].id == id then Some(rows[0]) else FindById(rows[1..], id)
  }

  // The first active row at the path, in table order.
  function FindActiveByPath(rows: seq<Record>, path: string): Option<Record> {
    if rows == [] then None
    else if rows[0].path == path && !rows[0].archived then Some(rows[0])
    else FindActiveByPath(rows[1..], path)
  }

  // INSERT ... ON CONFLICT (id) DO UPDATE keeps the row where it was.
  function Upsert(rows: seq<Record>, r: Record): seq<Record> {
    if rows == [] then [r] else if rows[0].id == r.id then [r] + rows[1..] else [rows[0]] + Upsert(rows[1..], r)
  }

  // The id is the primary key.
  predicate DistinctIds(rows: seq<Record>) {
    forall i, j :: 0 <= i < j < |rows| ==> rows[i].id != rows[j].id
  }

  // Nothing in the schema makes active paths unique.
  predicate DistinctActivePaths(rows: seq<Record>) {
    forall i, j :: 0 <= i < j < |rows| && !rows[i].archived && !rows[j].archived ==> rows[i].path != rows[j].path
  }

  function Stored(r: Record): Record {
    if r.details.kind == "" then r.(details := r.details.(kind := "single_repo")) else r
  }

  function StoredRepos(id: string, repos: seq<Repo>): seq<Repo> {
    seq(|repos|, i requires 0 <= i < |repos| =>
      repos[i].(projectId := id, gitStatus := if repos[i].gitStatus == "" then "ready" else repos[i].gitStatus))
  }

  // The checks importProject makes against the live rows.
  function LiveConflict(rows: seq<Record>, r: Record): Option<Conflict> {
    var byId := FindById(rows, r.id);
    if byId.Some? && byId.value.archived then
      Some(Conflict(r.id, r.path, ArchivedTarget, byId.value.id, byId.value.path))
    else if byId.Some? && byId.value.path != r.path then
      Some(Conflict(r.id, r.path, DifferentActivePath, byId.value.id, byId.value.path))
    else
      var byPath := FindActiveByPath(rows, r.path);
      if byPath.Some? && byPath.value.id != r.id then
        Some(Conflict(r.id, r.path, DifferentActiveId, byPath.value.id, byPath.value.path))
      else None
  }

  function Write(db: Db, r: Record, repos: seq<Repo>): Db {
    Db(Upsert(db.rows, Stored(r)), db.children[r.id := StoredRepos(r.id, repos)])
  }

  // ---------- facts about the table ----------

  lemma {:induction false} FindByIdFinds(rows: seq<Record>, id: string)
    ensures FindById(rows, id).Some? ==> FindById(rows, id).value in rows && FindById(rows, id).value.id == id
    ensures FindById(rows, id).None? ==> forall r :: r in rows ==> r.id != id
  {
    if rows != [] && rows[0].id != id {
      FindByIdFinds(rows[1..], id);
      assert rows == [rows[0]] + rows[1..];
    }
  }

  lemma RowIsFound(rows: seq<Record>, r: Record)
    requires DistinctIds(rows) && r in rows
    ensures FindById(rows, r.id) == Some(r)
  {
    FindByIdFinds(rows, r.id);
    var i :| 0 <= i < |rows| && rows[i] == r;
    var j :| 0 <= j < |rows| && rows[j] == FindById(rows, r.id).value;
    assert i == j;
  }

  lemma {:induction false} FindActiveByPathFinds(rows: seq<Record>, path: string)
    ensures var f := FindActiveByPath(rows, path);
      && (f.Some? ==> f.value in rows && f.value.path == path && !f.value.archived)
      && (f.None? ==> forall r :: r in rows && !r.archived ==> r.path != path)
  {
    if rows != [] && !(rows[0].path == path && !rows[0].archived) {
      FindActiveByPathFinds(rows[1..], path);
      assert rows == [rows[0]] + rows[1..];
    }
  }

  lemma {:induction false} UpsertFindById(rows: seq<Record>, r: Record, id: string)
    ensures FindById(Upsert(rows, r), id) == if id == r.id then Some(r) else FindById(rows, id)
  {
    if rows != [] {
      var u := Upsert(rows, r);
      if rows[0].id == r.id {
        assert u[1..] == rows[1..];
      } else {
        UpsertFindById(rows[1..], r, id);
        assert u[1..] == Upsert(rows[1..], r);
      }
    }
  }

  lemma {:induction false} UpsertMembers(rows: seq<Record>, r: Record, x: Record)
    requires DistinctIds(rows)
    ensures x in Upsert(rows, r) <==> x == r || (x in rows && x.id != r.id)
    ensures |Upsert(rows, r)| == |rows| + if FindById(rows, r.id).Some? then 0 else 1
  {
    if rows != [] {
      var u := Upsert(rows, r);
      assert rows == [rows[0]] + rows[1..];
      if rows[0].id == r.id {
        assert u[1..] == rows[1..];
        assert x in rows[1..] ==> x.id != r.id;
      } else {
        assert DistinctIds(rows[1..]);
        UpsertMembers(rows[1..], r, x);
        assert u[1..] == Upsert(rows[1..], r);
      }
    }
  }

  lemma {:induction false} UpsertKeepsDistinctIds(rows: seq<Record>, r: Record)
    requires DistinctIds(rows)
    ensures DistinctIds(Upsert(rows, r))
  {
    if rows != [] {
      var u := Upsert(rows, r);
      if rows[0].id == r.id {
        assert u[1..] == rows[1..];
      } else {
        assert DistinctIds(rows[1..]);
        UpsertKeepsDistinctIds(rows[1..], r);
        forall j | 1 <= j < |u| ensures u[j].id != u[0].id {
          UpsertMembers(rows[1..], r, u[j]);
          assert u[j] in Upsert(rows[1..], r);
        }
      }
    }
  }

  // Rewriting an active row at its own path, or adding one at a free path,
  // leaves the owner of every path that had one.
  lemma {:induction false} UpsertKeepsOwners(rows: seq<Record>, r: Record, path: string)
    requires DistinctIds(rows) && !r.archived
    requires FindById(rows, r.id).Some? ==> FindById(rows, r.id).value.path == r.path && !FindById(rows, r.id).value.archived
    ensures FindActiveByPath(rows, path).Some? ==>
      FindActiveByPath(Upsert(rows, r), path).Some? && FindActiveByPath(Upsert(rows, r), path).value.id == FindActiveByPath(rows, path).value.id
    ensures FindActiveByPath(rows, path).None? ==>
      FindActiveByPath(Upsert(rows, r), path) == if path == r.path then Some(r) else None
  {
    if rows != [] {
      var u := Upsert(rows, r);
      if rows[0].id == r.id {
        assert u[1..] == rows[1..];
      } else {
        assert DistinctIds(rows[1..]);
        UpsertKeepsOwners(rows[1..], r, path);
        assert u[1..] == Upsert(rows[1..], r);
      }
    }
  }

  lemma DistinctPathsOwner(rows: seq<Record>, r: Record)
    requires DistinctActivePaths(rows) && r in rows && !r.archived
    ensures FindActiveByPath(rows, r.path) == Some(r)
  {
    FindActiveByPathFinds(rows, r.path);
    var i :| 0 <= i < |rows| && rows[i] == r;
    var j :| 0 <= j < |rows| && rows[j] == FindActiveByPath(rows, r.path).value;
    assert i == j;
  }

  lemma {:induction false} UpsertSame(rows: seq<Record>, r: Record)
    requires FindById(rows, r.id) == Some(r)
    ensures Upsert(rows, r) == rows
  {
    if rows[0].id == r.id {
      assert [r] + rows[1..] == rows;
    } else {
      UpsertSame(rows[1..], r);
      assert [rows[0]] + rows[1..] == rows;
    }
  }
}
