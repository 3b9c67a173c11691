// What a real import leaves in the store and in its report, field by field.
module ImporterContents {
  import opened Options
  import opened ProjectRegistry
  import opened ImporterModel
  import opened ImporterTheorems
  import opened ImporterSafety
  import opened ImporterRerun

  // ---------- the rows and children that were written ----------

  // The row is the source's, with an empty kind read as a single repository.
  predicate SameProject(row: Record, src: Record) {
    && row.id == src.id && row.path == src.path && row.archived == src.archived
    && row.details.displayName == src.details.displayName
    && row.details.repoOriginURL == src.details.repoOriginURL
    && row.details.registeredAt == src.details.registeredAt
    && row.details.config == src.details.config
    && row.details.kind == if src.details.kind == "" then "single_repo" else src.details.kind
  }

  // The child is the source's, under the project's id, with an empty status read
  // as ready.
  predicate SameChild(child: Repo, id: string, src: Repo) {
    && child.projectId == id
    && child.name == src.name && child.relativePath == src.relativePath
    && child.repoOriginURL == src.repoOriginURL && child.defaultBranch == src.defaultBranch
    && child.registeredAt == src.registeredAt
    && child.gitStatus == if src.gitStatus == "" then "ready" else src.gitStatus
  }

  predicate SameChildren(kids: seq<Repo>, id: string, src: seq<Repo>) {
    |kids| == |src| && forall k :: 0 <= k < |src| ==> SameChild(kids[k], id, src[k])
  }

  // The store holds the project as the source has it.
  predicate Holds(db: Db, src: Record, kids: seq<Repo>) {
    && FindById(db.rows, src.id).Some? && SameProject(FindById(db.rows, src.id).value, src)
    && src.id in db.children && SameChildren(db.children[src.id], src.id, kids)
  }

  // The same with whatever child repositories the source has for it.
  predicate HoldsAll(db: Db, src: Record, children: Children) {
    if src.id in children then Holds(db, src, children[src.id]) else Holds(db, src, [])
  }

  // Nothing is known to have changed about the project with this id.
  predicate Untouched(db: Db, db': Db, id: string) {
    && FindById(db'.rows, id) == FindById(db.rows, id)
    && (id in db'.children <==> id in db.children)
    && (id in db.children ==> db'.children[id] == db.children[id])
  }

  // One write puts the project in as the source has it and touches no other.
  lemma WriteHolds(db: Db, src: Record, kids: seq<Repo>, id: string)
    ensures Holds(Write(db, src, kids), src, kids)
    ensures id != src.id ==> Untouched(db, Write(db, src, kids), id)
  {
    UpsertFindById(db.rows, Stored(src), src.id);
    UpsertFindById(db.rows, Stored(src), id);
  }

  // Whatever a run reports as inserted or updated is in the target afterwards as
  // the source has it, with all its child repositories in order.
  lemma WrittenRowsHold(target: Db, list: seq<Record>, children: Children)
    requires DistinctIds(target.rows) && DistinctSources(list)
    ensures var o := ImportInto(target, list, children, false);
      && |o.verdicts| == |list|
      && forall i :: 0 <= i < |list| && !o.verdicts[i].Skip? ==> HoldsAll(o.db, list[i], children)
  {
    IndexedImportIsFresh(target, list, children);
    ImportSettles(target, list, children);
    var o := ImportInto(target, list, children, false);
    forall i | 0 <= i < |list| && !o.verdicts[i].Skip?
      ensures HoldsAll(o.db, list[i], children)
    {
      assert ImporterRerun.Settled(o.db, list[i], children, o.verdicts[i]);
    }
  }

  ghost predicate Written(list: seq<Record>, verdicts: seq<Verdict>, id: string) {
    exists i :: 0 <= i < |list| && i < |verdicts| && list[i].id == id && !verdicts[i].Skip?
  }

  lemma {:induction false} UnwrittenStays(db: Db, byId: Index, byPath: Index, list: seq<Record>, children: Children, dry: bool, id: string)
    requires !Written(list, Import(db, byId, byPath, list, children, dry).verdicts, id)
    ensures Untouched(db, Import(db, byId, byPath, list, children, dry).db, id)
    decreases |list|
  {
    if list != [] {
      var src := list[0];
      var v := Decide(db.rows, byId, byPath, src, dry);
      var db1 := AfterRow(db, src, children, v, dry);
      var byId1, byPath1 := AfterIndex(byId, src.id, src, v), AfterIndex(byPath, src.path, src, v);
      var rest := Import(db1, byId1, byPath1, list[1..], children, dry);
      var all := Import(db, byId, byPath, list, children, dry);
      assert all.verdicts[0] == v;
      UnwrittenStays(db1, byId1, byPath1, list[1..], children, dry, id);
      if !dry && !v.Skip? { WriteHolds(db, src, ChildrenOf(children, src.id), id); }
    }
  }

  // A project that was not reported as inserted or updated keeps its row and its
  // children, or its absence.
  lemma OthersAreUntouched(target: Db, list: seq<Record>, children: Children, id: string)
    requires !Written(list, ImportInto(target, list, children, false).verdicts, id)
    ensures Untouched(target, ImportInto(target, list, children, false).db, id)
  {
    var active := Listing(target.rows);
    UnwrittenStays(target, IndexById(active), IndexByPath(active), list, children, false, id);
  }

  // What a real run owes its two stores, told without the plan: every listed
  // source project is in the target as the source has it, or is one of the
  // skipped ones, each of which a row of the target stands in the way of.
  ghost predicate Copied(before: Db, after: Db, list: seq<Record>, children: Children, rep: Report) {
    exists vs: seq<Verdict> :: CopiedBy(before, after, list, children, rep, vs)
  }

  ghost predicate CopiedBy(before: Db, after: Db, list: seq<Record>, children: Children, rep: Report, vs: seq<Verdict>) {
    && |vs| == |list|
    && (forall i :: 0 <= i < |list| ==>
          if vs[i].Skip? then TrueConflict(after.rows, list[i], vs[i].conflict)
          else
            && HoldsAll(after, list[i], children)
            && (vs[i].Insert? <==> FindById(before.rows, list[i].id).None?))
    && (forall id :: !Written(list, vs, id) ==> Untouched(before, after, id))
    && rep.inserted == |Positions(vs, Inserted)| && rep.updated == |Positions(vs, Updated)|
    && rep.skipped == |Positions(vs, Skipped)| && rep.conflicts == ConflictsOf(vs)
  }

  lemma ImportCopies(target: Db, list: seq<Record>, children: Children)
    requires DistinctIds(target.rows) && DistinctSources(list)
    ensures var o := ImportInto(target, list, children, false);
      Copied(target, o.db, list, children, Tally(o.verdicts))
  {
    var o := ImportInto(target, list, children, false);
    WrittenRowsHold(target, list, children);
    SkipsAreJustified(target, list, children);
    InsertedWasNew(target, list, children);
    ReportIsTheVerdicts(o.verdicts);
    forall id | !Written(list, o.verdicts, id) { OthersAreUntouched(target, list, children, id); }
    assert CopiedBy(target, o.db, list, children, Tally(o.verdicts), o.verdicts);
  }

  lemma {:induction false} DryChangesNothing(db: Db, byId: Index, byPath: Index, list: seq<Record>, children: Children)
    ensures Import(db, byId, byPath, list, children, true).db == db
    decreases |list|
  {
    if list != [] {
      var v := Decide(db.rows, byId, byPath, list[0], true);
      DryChangesNothing(db, AfterIndex(byId, list[0].id, list[0], v), AfterIndex(byPath, list[0].path, list[0], v), list[1..], children);
    }
  }

  // The same for the first n rows of the source listing, where a run may end early.
  lemma PlanCopies(source: seq<Record>, target: Db, n: nat, children: Children, dry: bool)
    requires n <= |SortById(Listing(source))|
    ensures var list := SortById(Listing(source))[..n]; var o := ImportInto(target, list, children, dry);
      && (!dry && DistinctIds(source) && DistinctIds(target.rows) ==> Copied(target, o.db, list, children, Tally(o.verdicts)))
      && (dry ==> o.db == target)
  {
    var list := SortById(Listing(source))[..n];
    if dry {
      DryChangesNothing(target, IndexById(Listing(target.rows)), IndexByPath(Listing(target.rows)), list, children);
    } else if DistinctIds(source) && DistinctIds(target.rows) {
      SourceListIsDistinct(source);
      ImportCopies(target, list, children);
    }
  }

  // ---------- the verdicts tell the truth ----------

  // An inserted project was not in the target before, an updated one was active
  // there at the same path.
  lemma {:induction false} VerdictsFit(db: Db, byId: Index, byPath: Index, list: seq<Record>, children: Children)
    requires DistinctIds(db.rows) && Mirrors(db.rows, byId, byPath) && DistinctSources(list)
    ensures var o := Import(db, byId, byPath, list, children, false);
      |o.verdicts| == |list| && forall i :: 0 <= i < |list| ==>
        && (o.verdicts[i].Insert? ==> FindById(db.rows, list[i].id).None?)
        && (o.verdicts[i].Update? ==> ActiveAt(db.rows, list[i].id, list[i].path))
    decreases |list|
  {
    if list != [] {
      var src := list[0];
      var v := Decide(db.rows, byId, byPath, src, false);
      CheckMeans(db.rows, byId, byPath, src);
      WriteKeepsMirror(db, byId, byPath, src, children, v);
      StepLeavesLater(db, byId, byPath, list, children);
      VerdictsFit(AfterRow(db, src, children, v, false), AfterIndex(byId, src.id, src, v),
                  AfterIndex(byPath, src.path, src, v), list[1..], children);
      forall i | 1 <= i < |list| ensures list[i] == list[1..][i - 1] {}
    }
  }

  lemma InsertedWasNew(target: Db, list: seq<Record>, children: Children)
    requires DistinctIds(target.rows) && DistinctSources(list)
    ensures var o := ImportInto(target, list, children, false);
      |o.verdicts| == |list| && forall i :: 0 <= i < |list| ==>
        && (o.verdicts[i].Insert? ==> FindById(target.rows, list[i].id).None?)
        && (o.verdicts[i].Update? ==> ActiveAt(target.rows, list[i].id, list[i].path))
  {
    ListingMirrors(target.rows);
    VerdictsFit(target, IndexById(Listing(target.rows)), IndexByPath(Listing(target.rows)), list, children);
  }

  // The conflict names a row of the table, and the reason fits it.
  predicate TrueConflict(rows: seq<Record>, src: Record, c: Conflict) {
    && c.projectId == src.id && c.path == src.path
    && exists x :: x in rows && x.id == c.targetId && x.path == c.targetPath && Fits(x, src, c.reason)
  }

  predicate Fits(x: Record, src: Record, reason: Reason) {
    match reason
    case ArchivedTarget => x.archived && x.id == src.id
    case DifferentActivePath => !x.archived && x.id == src.id && x.path != src.path
    case DifferentActiveId => !x.archived && x.id != src.id && x.path == src.path
  }

  lemma LiveConflictIsTrue(rows: seq<Record>, src: Record)
    requires LiveConflict(rows, src).Some?
    ensures TrueConflict(rows, src, LiveConflict(rows, src).value)
  {
    FindByIdFinds(rows, src.id);
    FindActiveByPathFinds(rows, src.path);
  }

  lemma CheckIsTrue(rows: seq<Record>, byId: Index, byPath: Index, src: Record)
    requires DistinctIds(rows) && Mirrors(rows, byId, byPath) && Check(rows, byId, byPath, src).Skip?
    ensures TrueConflict(rows, src, Check(rows, byId, byPath, src).conflict)
  {
    assert IdOk(rows, byId, src.id) && PathOk(rows, byPath, src.path);
    FindByIdFinds(rows, src.id);
    if src.path in byPath { FindByIdFinds(rows, byPath[src.path].id); }
  }

  lemma TrueConflictStays(rows: seq<Record>, after: seq<Record>, src: Record, c: Conflict)
    requires DistinctIds(rows) && Preserved(rows, after) && TrueConflict(rows, src, c)
    ensures TrueConflict(after, src, c)
  {
    var x :| x in rows && x.id == c.targetId && x.path == c.targetPath && Fits(x, src, c.reason);
    RowIsFound(rows, x);
    assert RowPreserved(x, FindById(after, x.id));
    FindByIdFinds(after, x.id);
    assert Fits(FindById(after, x.id).value, src, c.reason);
  }

  lemma {:induction false} ConflictsAreTrue(db: Db, byId: Index, byPath: Index, list: seq<Record>, children: Children)
    requires DistinctIds(db.rows) && Mirrors(db.rows, byId, byPath) && DistinctSources(list)
    ensures var o := Import(db, byId, byPath, list, children, false);
      |o.verdicts| == |list| && forall i :: 0 <= i < |list| && o.verdicts[i].Skip? ==>
        TrueConflict(o.db.rows, list[i], o.verdicts[i].conflict)
    decreases |list|
  {
    if list != [] {
      var src := list[0];
      var v := Decide(db.rows, byId, byPath, src, false);
      var db1 := AfterRow(db, src, children, v, false);
      WriteKeepsMirror(db, byId, byPath, src, children, v);
      ConflictsAreTrue(db1, AfterIndex(byId, src.id, src, v), AfterIndex(byPath, src.path, src, v), list[1..], children);
      var o := Import(db, byId, byPath, list, children, false);
      if v.Skip? {
        if Check(db.rows, byId, byPath, src).Skip? { CheckIsTrue(db.rows, byId, byPath, src); } else { LiveConflictIsTrue(db.rows, src); }
        ImportPreserves(db, byId, byPath, list, children);
        TrueConflictStays(db.rows, o.db.rows, src, v.conflict);
      }
      forall i | 1 <= i < |list| ensures list[i] == list[1..][i - 1] {}
    }
  }

  // Every reported conflict is about the skipped source row and names a row that
  // really stands in its way.
  lemma SkipsAreJustified(target: Db, list: seq<Record>, children: Children)
    requires DistinctIds(target.rows) && DistinctSources(list)
    ensures var o := ImportInto(target, list, children, false);
      |o.verdicts| == |list| && forall i :: 0 <= i < |list| && o.verdicts[i].Skip? ==>
        TrueConflict(o.db.rows, list[i], o.verdicts[i].conflict)
  {
    ListingMirrors(target.rows);
    ConflictsAreTrue(target, IndexById(Listing(target.rows)), IndexByPath(Listing(target.rows)), list, children);
  }

  // ---------- the report ----------

  // The conflicts of the skipped rows, in the order of the rows.
  function ConflictsOf(vs: seq<Verdict>): seq<Conflict> {
    if vs == [] then []
    else (if vs[0].Skip? then [vs[0].conflict] else []) + ConflictsOf(vs[1..])
  }

  lemma {:induction false} ConflictsOfSnoc(vs: seq<Verdict>, v: Verdict)
    ensures ConflictsOf(vs + [v]) == ConflictsOf(vs) + if v.Skip? then [v.conflict] else []
  {
    if vs == [] {
      assert [v][1..] == [];
    } else {
      ConflictsOfSnoc(vs[1..], v);
      assert (vs + [v])[1..] == vs[1..] + [v] && (vs + [v])[0] == vs[0];
      var head := if vs[0].Skip? then [vs[0].conflict] else [];
      var last := if v.Skip? then [v.conflict] else [];
      assert head + (ConflictsOf(vs[1..]) + last) == (head + ConflictsOf(vs[1..])) + last;
    }
  }

  datatype Kind = Inserted | Updated | Skipped

  predicate Is(v: Verdict, kind: Kind) {
    match kind
    case Inserted => v.Insert?
    case Updated => v.Update?
    case Skipped => v.Skip?
  }

  // The positions of the rows with one kind of verdict.
  function Positions(vs: seq<Verdict>, kind: Kind): set<nat> {
    set i: nat | i < |vs| && Is(vs[i], kind)
  }

  lemma PositionsSnoc(vs: seq<Verdict>, v: Verdict, kind: Kind)
    ensures |Positions(vs + [v], kind)| == |Positions(vs, kind)| + if Is(v, kind) then 1 else 0
  {
    var all := vs + [v];
    assert forall i: nat :: i < |vs| ==> all[i] == vs[i];
    assert Positions(all, kind) == Positions(vs, kind) + if Is(v, kind) then {|vs|} else {};
  }

  // The counters count the rows by verdict, and the conflicts are listed in order.
  lemma {:induction false} ReportIsTheVerdicts(vs: seq<Verdict>)
    ensures var rep := Tally(vs);
      && rep.inserted == |Positions(vs, Inserted)|
      && rep.updated == |Positions(vs, Updated)|
      && rep.skipped == |Positions(vs, Skipped)|
      && rep.conflicts == ConflictsOf(vs)
  {
    if vs == [] {
      assert Positions(vs, Inserted) == Positions(vs, Updated) == Positions(vs, Skipped) == {};
    } else {
      var front, v := vs[..|vs| - 1], vs[|vs| - 1];
      ReportIsTheVerdicts(front);
      assert vs == front + [v];
      ConflictsOfSnoc(front, v);
      PositionsSnoc(front, v, Inserted);
      PositionsSnoc(front, v, Updated);
      PositionsSnoc(front, v, Skipped);
    }
  }

  // Rows are taken in the order of their ids, character by character.
  lemma {:induction false} LexLessIff(a: string, b: string)
    ensures LexLess(a, b) <==> exists k: nat :: k < |b| && k <= |a| && a[..k] == b[..k] && (k == |a| || a[k] < b[k])
  {
    if a != [] && b != [] {
      LexLessIff(a[1..], b[1..]);
      if a[0] == b[0] && LexLess(a[1..], b[1..]) {
        var k: nat :| k < |b[1..]| && k <= |a[1..]| && a[1..][..k] == b[1..][..k] && (k == |a[1..]| || a[1..][k] < b[1..][k]);
        assert a[..k + 1] == [a[0]] + a[1..][..k] && b[..k + 1] == [b[0]] + b[1..][..k];
      }
      if a[0] < b[0] { assert a[..0] == b[..0]; }
      if k: nat :| k < |b| && k <= |a| && a[..k] == b[..k] && (k == |a| || a[k] < b[k]) {
        if k > 0 {
          assert a[..k][0] == b[..k][0];
          assert a[1..][..k - 1] == a[..k][1..] && b[1..][..k - 1] == b[..k][1..];
        }
      }
    } else if b != [] {
      assert a[..0] == b[..0];
    }
  }
}
