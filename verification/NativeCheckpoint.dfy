// Native checkpoint evidence (backend/internal/domain/native_checkpoint.go): a
// bounded fold over hook observations that fails closed.
module NativeCheckpoint {
  const MAX_EVENTS := 512

  datatype Observation = Observation(generation: string, promptId: string, submissionId: string,
                                     submission: bool, text: string, coordination: bool)
  datatype Evidence = Evidence(nativeId: string, events: seq<Observation>, invalid: bool)

  // The persisted text: nothing yet, a decodable record, or text that does not
  // decode (json.Unmarshal may have filled part of the record before failing).
  datatype Encoded = Blank | Record(evidence: Evidence) | Garbage(partial: Evidence)

  predicate Malformed(o: Observation) {
    o.generation == "" || (o.submission && o.submissionId == "") || (!o.submission && o.promptId == "")
  }

  function Decode(encoded: Encoded, nativeId: string): Evidence {
    match encoded
    case Blank => Evidence(nativeId, [], false)
    case Record(e) => e
    case Garbage(e) => e.(invalid := true)
  }

  function Append(encoded: Encoded, nativeId: string, o: Observation): Encoded {
    var e := Decode(encoded, nativeId);
    if e.invalid || e.nativeId != nativeId || Malformed(o) then Record(e.(invalid := true))
    else if o in e.events then Record(e)
    else if |e.events| >= MAX_EVENTS then Record(e.(invalid := true))
    else Record(e.(events := e.events + [o]))
  }

  // AppendNativeCheckpoint with its scan for a duplicate.
  method AppendNativeCheckpoint(encoded: Encoded, nativeId: string, o: Observation) returns (r: Encoded)
    ensures r == Append(encoded, nativeId, o)
  {
    var e := Decode(encoded, nativeId);
    if e.nativeId != nativeId || Malformed(o) {
      e := e.(invalid := true);
    }
    if !e.invalid {
      var duplicate := false;
      var i := 0;
      while i < |e.events| && !duplicate
        invariant 0 <= i <= |e.events|
        invariant duplicate ==> o in e.events
        invariant !duplicate ==> o !in e.events[..i]
        decreases |e.events| - i, !duplicate
      {
        if e.events[i] == o {
          duplicate := true;
        } else {
          i := i + 1;
        }
      }
      if !duplicate {
        assert e.events[..|e.events|] == e.events;
        if |e.events| >= MAX_EVENTS {
          e := e.(invalid := true);
        } else {
          e := e.(events := e.events + [o]);
        }
      }
    }
    r := Record(e);
  }

  // ---------- every sequence of observations ----------

  datatype Call = Call(nativeId: string, o: Observation)

  function Fold(from: Encoded, calls: seq<Call>): Encoded {
    if calls == [] then from
    else Append(Fold(from, calls[..|calls| - 1]), calls[|calls| - 1].nativeId, calls[|calls| - 1].o)
  }

  function Observations(calls: seq<Call>): seq<Observation> {
    seq(|calls|, i requires 0 <= i < |calls| => calls[i].o)
  }

  // The distinct elements in order of first occurrence.
  function Distinct(os: seq<Observation>): seq<Observation> {
    if os == [] then []
    else
      var front := os[..|os| - 1];
      if os[|os| - 1] in front then Distinct(front) else Distinct(front) + [os[|os| - 1]]
  }

  // Call k is foreign, malformed, or one distinct observation too many.
  predicate Bad(calls: seq<Call>, k: nat)
    requires k < |calls|
  {
    || calls[k].nativeId != calls[0].nativeId
    || Malformed(calls[k].o)
    || (calls[k].o !in Observations(calls[..k]) && |Distinct(Observations(calls[..k]))| >= MAX_EVENTS)
  }

  lemma {:induction false} DistinctMembers(os: seq<Observation>, o: Observation)
    ensures o in Distinct(os) <==> o in os
  {
    if os != [] {
      DistinctMembers(os[..|os| - 1], o);
      assert os == os[..|os| - 1] + [os[|os| - 1]];
    }
  }

  lemma {:induction false} DistinctIsDistinct(os: seq<Observation>)
    ensures var d := Distinct(os); forall i, j :: 0 <= i < j < |d| ==> d[i] != d[j]
  {
    if os != [] {
      var front := os[..|os| - 1];
      DistinctIsDistinct(front);
      DistinctMembers(front, os[|os| - 1]);
    }
  }

  lemma DistinctOne(o: Observation)
    ensures Distinct([] + [o]) == [o]
  {
    assert ([] + [o])[..0] == [];
  }

  // The evidence is the first-occurrence-ordered distinct list of everything
  // before the first bad call, and is invalid exactly if there is a bad call.
  lemma {:induction false} FoldIsDistinctPrefix(calls: seq<Call>, k: nat)
    requires calls != [] && k <= |calls|
    requires forall i :: 0 <= i < k ==> !Bad(calls, i)
    requires k < |calls| ==> Bad(calls, k)
    ensures Fold(Blank, calls) == Record(Evidence(calls[0].nativeId, Distinct(Observations(calls[..k])), k < |calls|))
    decreases |calls|
  {
    var n := |calls| - 1;
    var front, last := calls[..n], calls[n];
    assert Observations(calls[..0]) == [];
    if n == 0 {
      assert front == [] && Fold(Blank, front) == Blank;
      assert Distinct(Observations(calls[..0])) == [];
      if k == 1 {
        assert Observations(calls[..1]) == [] + [last.o];
        DistinctOne(last.o);
        assert !Bad(calls, 0);
      }
    } else {
      forall i: nat | i < n
        ensures Bad(calls, i) <==> Bad(front, i)
      {
        assert front[..i] == calls[..i];
      }
      var j := if k <= n then k else n;
      FoldIsDistinctPrefix(front, j);
      assert front[..j] == calls[..j];
      assert calls[..n] == front && front[..n] == front && calls[..|calls|] == calls;
      if k == |calls| {
        var os := Observations(calls);
        assert os[..n] == Observations(front) && os[n] == last.o && |os| == n + 1;
        DistinctMembers(os[..n], last.o);
        assert !Bad(calls, n);
      } else if k == n {
        DistinctMembers(Observations(calls[..n]), last.o);
      }
    }
  }

  // Never more than the bound, nothing twice, nothing evicted, and an invalid
  // record stays what it is whatever comes next.
  lemma AppendIsMonotone(encoded: Encoded, nativeId: string, o: Observation)
    requires encoded.Record?
    ensures var e, f := encoded.evidence, Append(encoded, nativeId, o).evidence;
      && f.nativeId == e.nativeId && e.events <= f.events && |f.events| <= |e.events| + 1
      && (e.invalid ==> f == e)
      && (|e.events| <= MAX_EVENTS ==> |f.events| <= MAX_EVENTS)
      && (f.events != e.events ==> o !in e.events && nativeId == e.nativeId && !Malformed(o))
  {
  }

  lemma {:induction false} InvalidityIsPermanent(e: Evidence, calls: seq<Call>)
    requires e.invalid
    ensures Fold(Record(e), calls) == Record(e)
  {
    if calls != [] { InvalidityIsPermanent(e, calls[..|calls| - 1]); }
  }

  lemma {:induction false} FoldStaysBounded(calls: seq<Call>)
    requires calls != []
    ensures Fold(Blank, calls).Record? && |Fold(Blank, calls).evidence.events| <= MAX_EVENTS
  {
    if |calls| > 1 { FoldStaysBounded(calls[..|calls| - 1]); }
  }

  lemma {:induction false} RecordedAreWellFormed(calls: seq<Call>, o: Observation)
    requires calls != [] && Fold(Blank, calls).Record? && o in Fold(Blank, calls).evidence.events
    ensures !Malformed(o)
  {
    var front := calls[..|calls| - 1];
    if front != [] {
      FoldStaysBounded(front);
      if o in Fold(Blank, front).evidence.events { RecordedAreWellFormed(front, o); }
    }
  }

  lemma {:induction false} FoldKeepsFirstId(calls: seq<Call>)
    requires calls != []
    ensures Fold(Blank, calls).Record? && Fold(Blank, calls).evidence.nativeId == calls[0].nativeId
  {
    if |calls| > 1 { FoldKeepsFirstId(calls[..|calls| - 1]); }
  }

  // Replaying recorded observations on valid evidence, in any order and number,
  // changes nothing.
  lemma {:induction false} ReplayIsANoOp(calls: seq<Call>, again: seq<Call>)
    requires calls != []
    requires !Decode(Fold(Blank, calls), "").invalid
    requires forall i :: 0 <= i < |again| ==>
      again[i].nativeId == calls[0].nativeId && again[i].o in Decode(Fold(Blank, calls), "").events
    ensures Fold(Fold(Blank, calls), again) == Fold(Blank, calls)
  {
    FoldStaysBounded(calls);
    FoldKeepsFirstId(calls);
    if again != [] {
      ReplayIsANoOp(calls, again[..|again| - 1]);
      RecordedAreWellFormed(calls, again[|again| - 1].o);
    }
  }

  // A first observation is refused exactly if it names no generation, or is a
  // submission without its id, or something else without a prompt.
  lemma RefusedWhen(id: string, o: Observation)
    ensures Append(Blank, id, o) ==
      Record(Evidence(id,
        if o.generation == "" || (if o.submission then o.submissionId == "" else o.promptId == "") then [] else [o],
        o.generation == "" || (if o.submission then o.submissionId == "" else o.promptId == "")))
  {
    assert [] + [o] == [o];
  }

  // Text that does not decode is invalid for good: nothing is ever added to what
  // was read of it.
  lemma {:induction false} UndecodableStaysInvalid(partial: Evidence, calls: seq<Call>)
    requires calls != []
    ensures Fold(Garbage(partial), calls) == Record(Evidence(partial.nativeId, partial.events, true))
  {
    var front := calls[..|calls| - 1];
    if front == [] {
      assert Fold(Garbage(partial), front) == Garbage(partial);
    } else {
      UndecodableStaysInvalid(partial, front);
    }
  }

  // A new well-formed observation is kept as long as fewer than 512 are, and the
  // 513th makes the evidence invalid without evicting any.
  lemma RoomFor512(id: string, events: seq<Observation>, o: Observation)
    requires o !in events && !Append(Blank, id, o).evidence.invalid
    ensures Append(Record(Evidence(id, events, false)), id, o) ==
      if |events| < 512 then Record(Evidence(id, events + [o], false)) else Record(Evidence(id, events, true))
  {}
}
