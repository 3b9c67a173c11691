// What any sequence of attachment operations keeps, with any step failing.
module AttachmentTheorems {
  import opened Options
  import opened AttachmentNames
  import opened AttachmentModel

  datatype Dirs = Dirs(canonical: Folder, worktree: Folder)

  // The agent owns the worktree and may do anything to it between operations,
  // including losing it.
  datatype Op =
    | PutOp(name: string, data: Bytes, put: PutResult)
    | ImportOp(ok: bool)
    | MaterializeOp(ok: bool, materialized: bool)
    | AgentOp

  ghost predicate OpRel(d: Dirs, d': Dirs, op: Op) {
    match op
    case PutOp(name, data, r) => PutRel(d.canonical, d'.canonical, d.worktree, d'.worktree, name, data, r)
    case ImportOp(ok) => ImportRel(d.canonical, d'.canonical, d.worktree, ok) && d'.worktree == d.worktree
    case MaterializeOp(ok, m) => MaterializeRel(d.canonical, d.worktree, d'.worktree, ok, m) && d'.canonical == d.canonical
    case AgentOp => d'.canonical == d.canonical
  }

  ghost predicate IsRun(states: seq<Dirs>, ops: seq<Op>) {
    && |states| == |ops| + 1
    && forall i :: 0 <= i < |ops| ==> OpRel(states[i], states[i + 1], ops[i])
  }

  // Every name canonical storage would serve holds a regular file of 1 byte to 10 MiB.
  ghost predicate GoodStore(f: Folder) {
    forall n :: n in f && ValidName(n) ==> GoodNode(f[n])
  }

  lemma ValidIsLasting(n: string)
    ensures ValidName(n) ==> !IsTemp(n)
  {
    if IsTemp(n) { TempsAreNeverValid(n); }
  }

  lemma ImportKeeps(d: Dirs, d': Dirs, ok: bool, n: string)
    requires OpRel(d, d', ImportOp(ok)) && ValidName(n)
    ensures n in d.canonical ==> Get(d'.canonical, n) == Get(d.canonical, n)
    ensures n !in d.canonical && n in d'.canonical ==> GoodNode(d'.canonical[n])
  {
    ValidIsLasting(n);
    var done := d.worktree.Keys;
    if !ok { done :| Imported(d.canonical, d'.canonical, d.worktree, done); }
    assert Imported(d.canonical, d'.canonical, d.worktree, done);
    assert Get(d'.canonical, n) == ImportGet(d.canonical, d.worktree, done, n);
  }

  lemma PutKeeps(d: Dirs, d': Dirs, name: string, data: Bytes, r: PutResult, n: string)
    requires OpRel(d, d', PutOp(name, data, r)) && ValidName(n)
    ensures n in d.canonical ==> Get(d'.canonical, n) == Get(d.canonical, n)
    ensures n !in d.canonical && n in d'.canonical ==> GoodNode(d'.canonical[n])
  {
    ValidIsLasting(n);
    assert Get(d'.canonical, n) == Get(d.canonical, n) || (n == name && n !in d.canonical);
  }

  lemma OpKeeps(d: Dirs, d': Dirs, op: Op, n: string)
    requires OpRel(d, d', op) && ValidName(n)
    ensures n in d.canonical ==> Get(d'.canonical, n) == Get(d.canonical, n)
    ensures n !in d.canonical && n in d'.canonical ==> GoodNode(d'.canonical[n])
  {
    match op
    case PutOp(name, data, r) => PutKeeps(d, d', name, data, r, n);
    case ImportOp(ok) => ImportKeeps(d, d', ok, n);
    case _ =>
  }

  // A canonical attachment keeps its exact bytes for good, and an empty store
  // grows into one that holds usable files only.
  lemma {:induction false} CanonicalFilesAreForever(states: seq<Dirs>, ops: seq<Op>, i: nat, n: string)
    requires IsRun(states, ops) && i < |states| && ValidName(n)
    ensures n in states[i].canonical ==> Get(states[|ops|].canonical, n) == Get(states[i].canonical, n)
    ensures GoodStore(states[i].canonical) && n in states[|ops|].canonical ==> GoodNode(states[|ops|].canonical[n])
    decreases |ops| - i
  {
    if i < |ops| {
      OpKeeps(states[i], states[i + 1], ops[i], n);
      if GoodStore(states[i].canonical) {
        forall k | k in states[i + 1].canonical && ValidName(k) ensures GoodNode(states[i + 1].canonical[k]) {
          OpKeeps(states[i], states[i + 1], ops[i], k);
        }
      }
      CanonicalFilesAreForever(states, ops, i + 1, n);
    }
  }

  lemma ReachableStoresAreGood(states: seq<Dirs>, ops: seq<Op>)
    requires IsRun(states, ops) && states[0].canonical == map[]
    ensures GoodStore(states[|ops|].canonical)
  {
    forall n | n in states[|ops|].canonical && ValidName(n)
      ensures GoodNode(states[|ops|].canonical[n])
    {
      CanonicalFilesAreForever(states, ops, 0, n);
    }
  }

  // What a Put leaves behind, as a reader of either directory sees it.
  lemma PutOutcome(d: Dirs, d': Dirs, name: string, data: Bytes, r: PutResult, n: string)
    requires OpRel(d, d', PutOp(name, data, r))
    ensures r.Stored? ==> Opened(d'.canonical, name) == Some(data) && Opened(d'.worktree, name) == Some(data)
    ensures !r.Stored? ==> Opened(d'.worktree, n) == Opened(d.worktree, n)
    ensures !r.Stored? && !r.RollbackFailed? ==> Opened(d'.canonical, n) == Opened(d.canonical, n)
    ensures n != name ==> Opened(d'.canonical, n) == Opened(d.canonical, n) && Opened(d'.worktree, n) == Opened(d.worktree, n)
    ensures r.RollbackFailed? ==> Opened(d.canonical, name).None? && Opened(d'.canonical, name) == Some(data)
  {
    ValidIsLasting(n);
    ValidIsLasting(name);
  }

  // A leftover temporary is never served, whatever it holds.
  lemma TemporariesAreInvisible(f: Folder, tmp: string, node: Node, n: string)
    requires IsTemp(tmp)
    ensures Opened(f, tmp).None?
    ensures Opened(f[tmp := node], n) == Opened(f, n) && Opened(f - {tmp}, n) == Opened(f, n)
  {
    TempsAreNeverValid(tmp);
  }

  // ---------- import, lose the worktree, materialize ----------

  // `back` is the rebuilt projection.  Every usable file the lost worktree held
  // is there again, with canonical bytes winning on a name clash, and nothing is
  // projected that is not canonical.
  lemma LostWorktreeIsRestored(c: Folder, w: Folder, c': Folder, back: Folder, materialized: bool, n: string)
    requires GoodStore(c) && ImportRel(c, c', w, true) && MaterializeRel(c', map[], back, true, materialized)
    requires ValidName(n)
    ensures Opened(back, n) == if n in c then Opened(c, n) else Opened(w, n)
    ensures Opened(back, n) == Opened(c', n)
    ensures Opened(back, n).Some? ==> materialized
  {
    ValidIsLasting(n);
    assert Get(c', n) == ImportGet(c, w, w.Keys, n);
    assert Get(back, n) == ProjectGet(c', map[], c'.Keys, n);
  }

  // The flag says exactly whether a reader now finds something.
  lemma FlagMeansProjected(c: Folder, w: Folder, w': Folder, materialized: bool)
    requires MaterializeRel(c, w, w', true, materialized)
    ensures materialized <==> exists n :: Opened(c, n).Some? && Opened(w', n) == Opened(c, n)
  {
    if materialized {
      var n :| Usable(c, n);
      ValidIsLasting(n);
      assert Get(w', n) == ProjectGet(c, w, c.Keys, n);
      assert Opened(c, n).Some? && Opened(w', n) == Opened(c, n);
    }
    if n :| Opened(c, n).Some? && Opened(w', n) == Opened(c, n) { assert Usable(c, n); }
  }

  // Doing both again changes neither directory, and the flag comes out the same.
  lemma SecondRoundChangesNothing(c: Folder, w: Folder, c': Folder, w': Folder, c'': Folder, w'': Folder, m: bool, m': bool)
    requires ImportRel(c, c', w, true) && MaterializeRel(c', w, w', true, m)
    requires ImportRel(c', c'', w', true) && MaterializeRel(c'', w', w'', true, m')
    ensures Same(c', c'') && Same(w', w'') && m == m'
  {
    forall n | !IsTemp(n) ensures Get(c'', n) == Get(c', n) {
      assert Get(c', n) == ImportGet(c, w, w.Keys, n);
      assert Get(w', n) == ProjectGet(c', w, c'.Keys, n);
      assert Get(c'', n) == ImportGet(c', w', w'.Keys, n);
    }
    forall n | !IsTemp(n) ensures Get(w'', n) == Get(w', n) {
      assert Get(c'', n) == Get(c', n);
      assert Get(w', n) == ProjectGet(c', w, c'.Keys, n);
      assert Get(w'', n) == ProjectGet(c'', w', c''.Keys, n);
    }
    forall n ensures Usable(c'', n) <==> Usable(c', n) {
      ValidIsLasting(n);
      if !IsTemp(n) { assert Get(c'', n) == Get(c', n); }
    }
  }
}
