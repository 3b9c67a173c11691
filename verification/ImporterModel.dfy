// The dev project importer (backend/internal/devimport/importer.go) as a pure
// plan: one verdict for each source row, decided on the two cached indexes.
module ImporterModel {
  import opened Options
  import opened ProjectRegistry

  type Index = map<string, Record>
  type Children = map<string, seq<Repo>>

  datatype Verdict = Skip(conflict: Conflict) | Update | Insert
  datatype Report = Report(inserted: nat, updated: nat, skipped: nat, conflicts: seq<Conflict>)

  const EMPTY_REPORT := Report(0, 0, 0, [])

  function AddVerdict(rep: Report, v: Verdict): Report {
    match v
    case Skip(c) => rep.(skipped := rep.skipped + 1, conflicts := rep.conflicts + [c])
    case Update => rep.(updated := rep.updated + 1)
    case Insert => rep.(inserted := rep.inserted + 1)
  }

  function Tally(vs: seq<Verdict>): Report {
    if vs == [] then EMPTY_REPORT else AddVerdict(Tally(vs[..|vs| - 1]), vs[|vs| - 1])
  }

  lemma TallySnoc(vs: seq<Verdict>, v: Verdict)
    ensures Tally(vs + [v]) == AddVerdict(Tally(vs), v)
  {
    assert (vs + [v])[..|vs|] == vs;
  }

  // ---------- listings and indexes ----------

  predicate LexLess(a: string, b: string) {
    if b == [] then false
    else if a == [] then true
    else if a[0] != b[0] then a[0] < b[0]
    else LexLess(a[1..], b[1..])
  }

  function Active(rows: seq<Record>): seq<Record> {
    if rows == [] then []
    else if rows[|rows| - 1].archived then Active(rows[..|rows| - 1])
    else Active(rows[..|rows| - 1]) + [rows[|rows| - 1]]
  }

  function InsertById(list: seq<Record>, r: Record): seq<Record> {
    if list == [] || !LexLess(r.id, list[|list| - 1].id) then list + [r]
    else InsertById(list[..|list| - 1], r) + [list[|list| - 1]]
  }

  function SortById(list: seq<Record>): seq<Record> {
    if list == [] then [] else InsertById(SortById(list[..|list| - 1]), list[|list| - 1])
  }

  // ListProjects: the active rows ordered by id.
  function Listing(rows: seq<Record>): seq<Record> {
    SortById(Active(rows))
  }

  function IndexById(list: seq<Record>): Index {
    if list == [] then map[] else IndexById(list[..|list| - 1])[list[|list| - 1].id := list[|list| - 1]]
  }

  function IndexByPath(list: seq<Record>): Index {
    if list == [] then map[] else IndexByPath(list[..|list| - 1])[list[|list| - 1].path := list[|list| - 1]]
  }

  function Lookup(index: Index, key: string): Option<Record> {
    if key in index then Some(index[key]) else None
  }

  // ---------- one source row ----------

  // What the checks before any write say.
  function Check(rows: seq<Record>, byId: Index, byPath: Index, src: Record): Verdict {
    var live := if src.id in byId then None else FindById(rows, src.id);
    if live.Some? && live.value.archived then
      Skip(Conflict(src.id, src.path, ArchivedTarget, live.value.id, live.value.path))
    else
      var existingById := if src.id in byId then Some(byId[src.id]) else live;
      var existingByPath := Lookup(byPath, src.path);
      if existingById.Some? && existingById.value.path != src.path then
        Skip(Conflict(src.id, src.path, DifferentActivePath, existingById.value.id, existingById.value.path))
      else if existingByPath.Some? && existingByPath.value.id != src.id then
        Skip(Conflict(src.id, src.path, DifferentActiveId, existingByPath.value.id, existingByPath.value.path))
      else if existingById.Some? && existingByPath.Some? then Update
      else Insert
  }

  // A real run then writes, and the store may still report a live conflict.
  function Decide(rows: seq<Record>, byId: Index, byPath: Index, src: Record, dry: bool): Verdict {
    var v := Check(rows, byId, byPath, src);
    if dry || v.Skip? || LiveConflict(rows, src).None? then v else Skip(LiveConflict(rows, src).value)
  }

  function ChildrenOf(children: Children, id: string): seq<Repo> {
    if id in children then children[id] else []
  }

  function AfterRow(db: Db, src: Record, children: Children, v: Verdict, dry: bool): Db {
    if dry || v.Skip? then db else Write(db, src, ChildrenOf(children, src.id))
  }

  function AfterIndex(index: Index, key: string, src: Record, v: Verdict): Index {
    if v.Insert? then index[key := src] else index
  }

  datatype Outcome = Outcome(verdicts: seq<Verdict>, db: Db)

  function Import(db: Db, byId: Index, byPath: Index, list: seq<Record>, children: Children, dry: bool): Outcome
    decreases |list|
  {
    if list == [] then Outcome([], db)
    else
      var src := list[0];
      var v := Decide(db.rows, byId, byPath, src, dry);
      var rest := Import(AfterRow(db, src, children, v, dry), AfterIndex(byId, src.id, src, v), AfterIndex(byPath, src.path, src, v),
                         list[1..], children, dry);
      Outcome([v] + rest.verdicts, rest.db)
  }

  // The whole run against a target.
  function ImportInto(target: Db, list: seq<Record>, children: Children, dry: bool): Outcome {
    var active := Listing(target.rows);
    Import(target, IndexById(active), IndexByPath(active), list, children, dry)
  }

  // ---------- facts about listings and indexes ----------

  lemma {:induction false} ActiveMembers(rows: seq<Record>, x: Record)
    ensures x in Active(rows) <==> x in rows && !x.archived
  {
    if rows != [] {
      ActiveMembers(rows[..|rows| - 1], x);
      assert rows == rows[..|rows| - 1] + [rows[|rows| - 1]];
    }
  }

  lemma {:induction false} InsertMembers(list: seq<Record>, r: Record)
    ensures multiset(InsertById(list, r)) == multiset(list) + multiset{r}
  {
    if list != [] {
      var n := |list| - 1;
      assert list == list[..n] + [list[n]];
      if LexLess(r.id, list[n].id) {
        InsertMembers(list[..n], r);
      }
    }
  }

  lemma {:induction false} SortMembers(list: seq<Record>)
    ensures multiset(SortById(list)) == multiset(list)
  {
    if list != [] {
      var n := |list| - 1;
      assert list == list[..n] + [list[n]];
      SortMembers(list[..n]);
      InsertMembers(SortById(list[..n]), list[n]);
    }
  }

  lemma ListingMembers(rows: seq<Record>, x: Record)
    ensures x in Listing(rows) <==> x in rows && !x.archived
  {
    ActiveMembers(rows, x);
    SortMembers(Active(rows));
    assert x in Listing(rows) <==> x in multiset(Listing(rows));
    assert x in Active(rows) <==> x in multiset(Active(rows));
  }

  lemma {:induction false} IndexByIdHolds(list: seq<Record>, id: string)
    ensures id in IndexById(list) ==> IndexById(list)[id] in list && IndexById(list)[id].id == id
    ensures id !in IndexById(list) ==> forall r :: r in list ==> r.id != id
  {
    if list != [] {
      IndexByIdHolds(list[..|list| - 1], id);
      assert list == list[..|list| - 1] + [list[|list| - 1]];
    }
  }

  lemma {:induction false} IndexByPathHolds(list: seq<Record>, path: string)
    ensures path in IndexByPath(list) ==> IndexByPath(list)[path] in list && IndexByPath(list)[path].path == path
    ensures path !in IndexByPath(list) ==> forall r :: r in list ==> r.path != path
  {
    if list != [] {
      IndexByPathHolds(list[..|list| - 1], path);
      assert list == list[..|list| - 1] + [list[|list| - 1]];
    }
  }

  lemma {:induction false} LexNotLessTransitive(a: string, b: string, c: string)
    requires !LexLess(b, a) && !LexLess(c, b)
    ensures !LexLess(c, a)
  {
    if a != [] && b != [] && c != [] && a[0] == b[0] == c[0] {
      LexNotLessTransitive(a[1..], b[1..], c[1..]);
    }
  }

  lemma {:induction false} LexAsymmetric(a: string, b: string)
    ensures !(LexLess(a, b) && LexLess(b, a))
  {
    if a != [] && b != [] && a[0] == b[0] { LexAsymmetric(a[1..], b[1..]); }
  }

  predicate SortedById(list: seq<Record>) {
    forall i, j :: 0 <= i < j < |list| ==> !LexLess(list[j].id, list[i].id)
  }

  lemma {:induction false} InsertKeepsSorted(list: seq<Record>, r: Record)
    requires SortedById(list)
    ensures SortedById(InsertById(list, r))
  {
    var n := |list| - 1;
    if list == [] {
    } else if LexLess(r.id, list[n].id) {
      InsertKeepsSorted(list[..n], r);
      var front := InsertById(list[..n], r);
      LexAsymmetric(r.id, list[n].id);
      forall i | 0 <= i < |front|
        ensures !LexLess(list[n].id, front[i].id)
      {
        InsertMembers(list[..n], r);
        assert front[i] in multiset(front);
        assert front[i] in list[..n] || front[i] == r;
      }
    } else {
      forall i | 0 <= i < n { LexNotLessTransitive(list[i].id, list[n].id, r.id); }
    }
  }

  // The order the import decides in: by id, whatever order rows were listed in.
  lemma {:induction false} SortSorts(list: seq<Record>)
    ensures SortedById(SortById(list)) && multiset(SortById(list)) == multiset(list)
  {
    SortMembers(list);
    if list != [] {
      SortSorts(list[..|list| - 1]);
      InsertKeepsSorted(SortById(list[..|list| - 1]), list[|list| - 1]);
    }
  }
}
