// What the answers a start receives lead to, told by the events of the run and
// the children spawned.
module SupervisorAnswers {
  import opened Options
  import opened SupervisorModel
  import opened SupervisorSafety
  import opened SupervisorTheorems

  // Event i gives start `id` the answer `a`.
  ghost predicate AnsweredAt(es: seq<Event>, i: nat, id: StartId, a: Answer) {
    i < |es| && es[i] == Resume(id, a) && Enabled(Run(es[..i]), es[i])
  }

  // No stop or restart has overtaken start `id` when event i comes.
  ghost predicate CurrentAt(es: seq<Event>, i: nat, id: StartId) {
    i < |es| && id < |Run(es[..i]).starts| && Run(es[..i]).starts[id].epoch == Run(es[..i]).epoch
  }

  // ---------- what ends a start ----------

  // No launch command, a healthy daemon to attach to, a failed takeover, or
  // giving up.
  predicate Ends(a: Answer) {
    a == Configured(false) || a == Found(Attach) || a == Replaced(false) || a == GiveUp
  }

  predicate Over(s: State, id: StartId) {
    id < |s.starts| && s.starts[id].pc == Done
  }

  lemma EndingStep(s: State, id: StartId, a: Answer)
    requires Enabled(s, Resume(id, a)) && Ends(a)
    ensures var t := Step(s, Resume(id, a));
      Over(t, id) && t.spawned == s.spawned && t.daemonProcess == s.daemonProcess
  {}

  // Nothing wakes a start that is over.
  lemma OverStep(s: State, e: Event, id: StartId)
    requires Over(s, id)
    ensures var t := Step(s, e);
      && Over(t, id)
      && (t.spawned == s.spawned || exists k :: k != id && t.spawned == s.spawned + [k])
  {
    if Enabled(s, e) && e.Exit? { ExitIsClearThenStart(s, e.c); }
    if Enabled(s, e) && e.Resume? { assert e.id != id; }
  }

  lemma {:induction false} OverStays(s: State, es: seq<Event>, id: StartId)
    requires Over(s, id) && id !in s.spawned
    ensures Over(RunFrom(s, es), id) && id !in RunFrom(s, es).spawned
  {
    if es != [] {
      OverStays(s, es[..|es| - 1], id);
      OverStep(RunFrom(s, es[..|es| - 1]), es[|es| - 1], id);
    }
  }

  lemma UnfinishedHasNotSpawned(es: seq<Event>, id: StartId)
    requires id < |Run(es).starts| && Run(es).starts[id].pc != Done
    ensures id !in Run(es).spawned
  {
    RunKeepsStarts(es);
  }

  // A start that is answered so, current or superseded, first probe or second,
  // is over at once and never spawns, whatever happens afterwards.
  lemma EndedStartsNeverSpawn(es: seq<Event>, i: nat, id: StartId, a: Answer)
    requires AnsweredAt(es, i, id, a) && Ends(a)
    ensures Over(Run(es[..i + 1]), id) && Run(es[..i + 1]).spawned == Run(es[..i]).spawned
    ensures Over(Run(es), id) && id !in Run(es).spawned
  {
    var before, after := es[..i], es[..i + 1];
    assert after == before + [es[i]] && es == after + es[i + 1..];
    RunSnoc(Init(), before, es[i]);
    EndingStep(Run(before), id, a);
    UnfinishedHasNotSpawned(before, id);
    RunSplit(Init(), after, es[i + 1..]);
    OverStays(Run(after), es[i + 1..], id);
  }

  // ---------- what a start went through ----------

  // The answers of a start so far, each with whether the start was still current.
  type Trace = seq<(Answer, bool)>

  function TraceOf(es: seq<Event>, id: StartId): Trace {
    if es == [] then []
    else
      var front, e := es[..|es| - 1], es[|es| - 1];
      var s := Run(front);
      if e.Resume? && e.id == id && Enabled(s, e) then TraceOf(front, id) + [(e.answer, s.starts[id].epoch == s.epoch)]
      else TraceOf(front, id)
  }

  predicate Launched(t: Trace) { |t| == 1 && t[0].0 == Configured(true) }

  // Told, while current, to take over from another daemon.
  predicate TakingOver(t: Trace) {
    |t| == 2 && Launched(t[..1]) && t[1] == (Found(Replace), true)
  }

  // Cleared to probe the port: nothing was found, or the takeover succeeded.
  predicate Probing(t: Trace) {
    || (|t| == 2 && Launched(t[..1]) && t[1] == (Found(NotFound), true))
    || (|t| == 3 && TakingOver(t[..2]) && t[2].0 == Replaced(true))
  }

  // Cleared by the port probe too: nothing to attach to, while current; any
  // number of further waits may follow.
  predicate Cleared(t: Trace) {
    exists n :: 2 <= n < |t| && ClearedBy(t, n)
  }

  predicate ClearedBy(t: Trace, n: nat)
    requires n < |t|
  {
    && Probing(t[..n])
    && (t[n] == (Found(NotFound), true) || t[n] == (Found(Replace), true))
    && forall k :: n < k < |t| ==> t[k].0 == AwaitMore
  }

  predicate HasSpawned(t: Trace) {
    |t| > 0 && Cleared(t[..|t| - 1]) && t[|t| - 1].0 == SpawnChild
  }

  // Where a start is suspended and whether it has spawned follow from its trace.
  ghost predicate Told(s: State, id: StartId, t: Trace) {
    if id >= |s.starts| then t == [] && id !in s.spawned
    else
      var pc := s.starts[id].pc;
      && (pc == ShellEnv <==> t == [])
      && (pc == Inspect <==> Launched(t))
      && (pc == Replacing <==> TakingOver(t))
      && (pc == PortProbe <==> Probing(t))
      && (pc == Late <==> Cleared(t))
      && (id in s.spawned <==> HasSpawned(t))
  }

  lemma ClearedSnoc(t: Trace, x: (Answer, bool))
    ensures Cleared(t + [x]) <==>
      (Probing(t) && (x == (Found(NotFound), true) || x == (Found(Replace), true))) || (Cleared(t) && x.0 == AwaitMore)
  {
    var all := t + [x];
    assert all[..|t|] == t;
    forall n | 2 <= n < |t|
      ensures ClearedBy(all, n) <==> ClearedBy(t, n) && x.0 == AwaitMore
    {
      assert all[..n] == t[..n];
      assert all[|t|] == x;
    }
    if Probing(t) && (x == (Found(NotFound), true) || x == (Found(Replace), true)) { assert ClearedBy(all, |t|); }
    if Cleared(t) && x.0 == AwaitMore {
      var n :| 2 <= n < |t| && ClearedBy(t, n);
      assert ClearedBy(all, n);
    }
  }

  lemma EarlierSnoc(t: Trace, x: (Answer, bool))
    ensures Launched(t + [x]) <==> t == [] && x.0 == Configured(true)
    ensures TakingOver(t + [x]) <==> Launched(t) && x == (Found(Replace), true)
    ensures Probing(t + [x]) <==> (Launched(t) && x == (Found(NotFound), true)) || (TakingOver(t) && x.0 == Replaced(true))
    ensures HasSpawned(t + [x]) <==> Cleared(t) && x.0 == SpawnChild
  {
    var all := t + [x];
    assert all[..|t|] == t;
    if |t| == 1 { assert all[..1] == t && t[..1] == t; }
    if |t| == 2 { assert all[..2] == t; assert all[..1] == t[..1]; }
  }

  lemma AnswerTold(s: State, id: StartId, a: Answer, t: Trace)
    requires Told(s, id, t) && Enabled(s, Resume(id, a))
    ensures Told(Step(s, Resume(id, a)), id, t + [(a, s.starts[id].epoch == s.epoch)])
  {
    var x := (a, s.starts[id].epoch == s.epoch);
    EarlierSnoc(t, x);
    ClearedSnoc(t, x);
    SpawnedBy(s, id, a);
  }

  lemma SpawnedBy(s: State, id: StartId, a: Answer)
    requires Enabled(s, Resume(id, a))
    ensures id in Step(s, Resume(id, a)).spawned <==> id in s.spawned || (s.starts[id].pc == Late && a == SpawnChild)
  {}

  // Events of others leave a start and its spawn alone; a new one begins afresh.
  lemma OthersLeave(s: State, e: Event, id: StartId)
    requires !(e.Resume? && e.id == id && Enabled(s, e))
    ensures var t := Step(s, e);
      && (id in t.spawned <==> id in s.spawned)
      && |s.starts| <= |t.starts|
      && (id < |s.starts| ==> t.starts[id].pc == s.starts[id].pc)
      && (|s.starts| <= id < |t.starts| ==> t.starts[id].pc == ShellEnv)
  {
    if Enabled(s, e) && e.Exit? { ExitIsClearThenStart(s, e.c); }
  }

  lemma NothingToldYet()
    ensures !Launched([]) && !TakingOver([]) && !Probing([]) && !Cleared([]) && !HasSpawned([])
  {}

  // The trace of a start says where it is suspended and whether it has spawned:
  // it waits for the port probe only once nothing was found or a takeover
  // succeeded, it may spawn only once both probes, answered while it was
  // current, let it, and it has spawned exactly if it was then told to.
  lemma {:induction false} TraceTellsAll(es: seq<Event>, id: StartId)
    ensures Told(Run(es), id, TraceOf(es, id))
  {
    NothingToldYet();
    if es != [] {
      var front, e := es[..|es| - 1], es[|es| - 1];
      TraceTellsAll(front, id);
      if e.Resume? && e.id == id && Enabled(Run(front), e) {
        AnswerTold(Run(front), id, e.answer, TraceOf(front, id));
      } else {
        OthersLeave(Run(front), e, id);
      }
    }
  }

  // ---------- the trace in events ----------

  // The event that gave start `id` its answer number n.
  ghost function IndexOf(es: seq<Event>, id: StartId, n: nat): nat
    requires n < |TraceOf(es, id)|
  {
    if n < |TraceOf(es[..|es| - 1], id)| then IndexOf(es[..|es| - 1], id, n) else |es| - 1
  }

  lemma {:induction false} IndexAnswers(es: seq<Event>, id: StartId, n: nat)
    requires n < |TraceOf(es, id)|
    ensures var i := IndexOf(es, id, n);
      && AnsweredAt(es, i, id, TraceOf(es, id)[n].0)
      && (TraceOf(es, id)[n].1 <==> CurrentAt(es, i, id))
  {
    var front := es[..|es| - 1];
    if n < |TraceOf(front, id)| {
      IndexAnswers(front, id, n);
      assert front[..IndexOf(front, id, n)] == es[..IndexOf(front, id, n)];
    }
  }

  lemma {:induction false} IndexesAscend(es: seq<Event>, id: StartId, m: nat, n: nat)
    requires m < n < |TraceOf(es, id)|
    ensures IndexOf(es, id, m) < IndexOf(es, id, n) < |es|
  {
    var front := es[..|es| - 1];
    if n < |TraceOf(front, id)| {
      IndexesAscend(front, id, m, n);
    } else {
      IndexAnswers(front, id, m);
    }
  }

  // A start that is told to take over probes the port only after the takeover
  // succeeded: two answers back it was told so, and the last answer says it did.
  lemma TakeoverComesFirst(es: seq<Event>, id: StartId)
    requires id < |Run(es).starts| && Run(es).starts[id].pc == PortProbe
    ensures exists i: nat :: AnsweredAt(es, i, id, Configured(true))
    ensures || (exists i: nat :: AnsweredAt(es, i, id, Found(NotFound)) && CurrentAt(es, i, id))
            || (exists i: nat, j: nat :: i < j && AnsweredAt(es, i, id, Found(Replace)) && CurrentAt(es, i, id)
                                         && AnsweredAt(es, j, id, Replaced(true)))
  {
    TraceTellsAll(es, id);
    var t := TraceOf(es, id);
    IndexAnswers(es, id, 0);
    IndexAnswers(es, id, 1);
    if |t| == 3 {
      IndexAnswers(es, id, 2);
      IndexesAscend(es, id, 1, 2);
    }
  }

  lemma SpawnTrace(t: Trace) returns (n: nat)
    requires HasSpawned(t)
    ensures 2 <= n < |t| - 1 && t[0].0 == Configured(true)
    ensures t[n - 1] == (Found(NotFound), true) || t[n - 1].0 == Replaced(true)
    ensures t[n] == (Found(NotFound), true) || t[n] == (Found(Replace), true)
    ensures t[|t| - 1].0 == SpawnChild
  {
    var front := t[..|t| - 1];
    n :| 2 <= n < |front| && ClearedBy(front, n);
    assert front[..n][0] == t[0] && front[..n][n - 1] == t[n - 1] && front[n] == t[n];
    if n == 3 { assert Launched(front[..n][..2][..1]); }
  }

  // The four answers of a start that spawned, in order: it had a launch command,
  // the first probe found nothing or its takeover succeeded, the port probe left
  // nothing to attach to while the start was current, and it was told to spawn.
  ghost predicate WentThrough(es: seq<Event>, id: StartId, c: nat, p: nat, q: nat, k: nat) {
    && c < p < q < k
    && AnsweredAt(es, c, id, Configured(true))
    && ((AnsweredAt(es, p, id, Found(NotFound)) && CurrentAt(es, p, id)) || AnsweredAt(es, p, id, Replaced(true)))
    && (AnsweredAt(es, q, id, Found(NotFound)) || AnsweredAt(es, q, id, Found(Replace))) && CurrentAt(es, q, id)
    && AnsweredAt(es, k, id, SpawnChild)
  }

  lemma GoneThrough(es: seq<Event>, id: StartId, c: nat, p: nat, q: nat, k: nat, x: (Answer, bool), y: (Answer, bool))
    requires c < p < q < k && AnsweredAt(es, c, id, Configured(true)) && AnsweredAt(es, k, id, SpawnChild)
    requires AnsweredAt(es, p, id, x.0) && (x.1 <==> CurrentAt(es, p, id))
    requires AnsweredAt(es, q, id, y.0) && (y.1 <==> CurrentAt(es, q, id))
    requires x == (Found(NotFound), true) || x.0 == Replaced(true)
    requires y == (Found(NotFound), true) || y == (Found(Replace), true)
    ensures WentThrough(es, id, c, p, q, k)
  {}

  lemma SpawnsWereCleared(es: seq<Event>, id: StartId)
    requires id in Run(es).spawned
    ensures exists c: nat, p: nat, q: nat, k: nat :: WentThrough(es, id, c, p, q, k)
  {
    TraceTellsAll(es, id);
    var t := TraceOf(es, id);
    var n := SpawnTrace(t);
    IndexAnswers(es, id, 0);
    IndexAnswers(es, id, n - 1);
    IndexAnswers(es, id, n);
    IndexAnswers(es, id, |t| - 1);
    IndexesAscend(es, id, 0, n - 1);
    IndexesAscend(es, id, n - 1, n);
    IndexesAscend(es, id, n, |t| - 1);
    GoneThrough(es, id, IndexOf(es, id, 0), IndexOf(es, id, n - 1), IndexOf(es, id, n), IndexOf(es, id, |t| - 1), t[n - 1], t[n]);
  }

  // A current start with a launch command that finds nothing twice can spawn,
  // and the spawn it then makes is its own.
  lemma NothingFoundTwiceCanSpawn(es: seq<Event>, id: StartId)
    requires id < |Run(es).starts| && Run(es).starts[id].epoch == Run(es).epoch && TraceOf(es, id) == []
    ensures var es1 := es + [Resume(id, Configured(true))] + [Resume(id, Found(NotFound))] + [Resume(id, Found(NotFound))];
      && Enabled(Run(es1), Resume(id, SpawnChild))
      && Run(es1 + [Resume(id, SpawnChild)]).spawned == Run(es).spawned + [id]
      && Run(es1 + [Resume(id, SpawnChild)]).daemonProcess == Some(|Run(es).spawned|)
  {
    TraceTellsAll(es, id);
    var a, b, c := Resume(id, Configured(true)), Resume(id, Found(NotFound)), Resume(id, SpawnChild);
    RunSnoc(Init(), es, a);
    RunSnoc(Init(), es + [a], b);
    RunSnoc(Init(), es + [a] + [b], b);
    RunSnoc(Init(), es + [a] + [b] + [b], c);
    var s := Run(es);
    assert Step(s, a).starts[id].pc == Inspect;
    assert Step(Step(s, a), b).starts[id].pc == PortProbe;
  }
}
