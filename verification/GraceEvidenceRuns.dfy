// Every run of the evidence journal: records arriving, requests answered or not, writes that fail,
// crashes, restarts and power failures.
module GraceEvidenceRuns {
  import opened Wrappers
  import opened GraceEvidence

  // `kept` holds the records the agent promised to keep, `settled` the ids that were acknowledged
  // exactly, after the ticket cutoff was persisted.
  datatype World = World(store: Store, agent: Option<Agent>, sent: Option<Evidence>, kept: set<Evidence>, settled: set<string>)

  const INITIAL := World(Store(None, None), None, None, {}, {})

  datatype Step =
    | Starts(readable: bool, preflight: bool)
    | Crashes
    | Flushes
    | PowerFails
    | Ticks(readable: bool)      // every tick of the agent begins by reading the journal again
    | Arrives(e: Option<Evidence>, first: bool, io: Io, again: bool)
    | Submits
    | GoesUnanswered
    | IsAnswered(ack: Option<string>, cutoff: bool, io: Io, again: bool)

  function Next(w: World, step: Step): World {
    match step
    case Starts(readable, preflight) =>
      if w.agent.Some? then w else w.(agent := Some(Started(w.store, readable, preflight)), sent := None)
    case Crashes => w.(agent := None)
    case Flushes => w.(store := Store(w.store.visible, w.store.visible))
    case PowerFails => w.(agent := None, store := Store(w.store.synced, w.store.synced))
    case Ticks(readable) =>
      if w.agent.None? then w else w.(agent := Some(Refreshed(w.agent.value, w.store, readable).0))
    case Arrives(e, first, io, again) =>
      if w.agent.None? then w
      else
        var (a, st, kept) := Recorded(w.agent.value, w.store, e, first, io, again);
        w.(agent := Some(a), store := st, kept := if kept && e.Some? then w.kept + {e.value} else w.kept)
    case Submits =>
      if w.agent.None? || w.sent.Some? || w.agent.value.evidences == [] then w
      else w.(sent := Some(w.agent.value.evidences[0]))
    case GoesUnanswered => w.(sent := None)
    case IsAnswered(ack, cutoff, io, again) =>
      if w.agent.None? then w
      else
        var (a, st) := Answered(w.agent.value, w.store, w.sent, ack, cutoff, io, again);
        w.(agent := Some(a), store := st, sent := None,
           settled := if w.sent.Some? && ack == Some(w.sent.value.id) && cutoff then w.settled + {w.sent.value.id} else w.settled)
  }

  function Run(w: World, steps: seq<Step>): World {
    if steps == [] then w else Next(Run(w, steps[..|steps| - 1]), steps[|steps| - 1])
  }

  // ---- the file ----

  function In(f: Option<File>): seq<Evidence> {
    if f.Some? && f.value.Records? then f.value.evidences else []
  }

  ghost predicate Sound(f: Option<File>) {
    f.Some? ==> f.value.Records? && DistinctIds(f.value.evidences)
  }

  ghost predicate SoundStore(st: Store) {
    Sound(st.visible) && Sound(st.synced)
  }

  // Nothing but the record of `gone` leaves either side of the file, and everything there stays as
  // it is.
  ghost predicate Loses(st: Store, st': Store, gone: Option<string>) {
    && (forall e :: e in In(st.visible) && e in In(st.synced) && Some(e.id) != gone ==> e in In(st'.visible) && e in In(st'.synced))
    && (forall e :: e in In(st.visible) && Some(e.id) != gone ==> e in In(st'.visible))
  }

  lemma ReadIs(st: Store, readable: bool)
    requires SoundStore(st)
    ensures Read(st, readable) == if readable then Some(In(st.visible)) else None
    ensures DistinctIds(In(st.visible))
  {
  }

  lemma {:induction false} WithoutDistinct(es: seq<Evidence>, id: string)
    requires DistinctIds(es)
    ensures DistinctIds(Without(es, id)) && !Holds(Without(es, id), id)
  {
    if es != [] {
      WithoutDistinct(es[1..], id);
      var r := Without(es[1..], id);
      forall j | 0 <= j < |r|
        ensures r[j].id != es[0].id && r[j].id != id
      {
        assert r[j] in r;
        assert r[j] in es[1..];
      }
    }
  }

  lemma AddedDistinct(es: seq<Evidence>, e: Evidence)
    requires DistinctIds(es) && !Holds(es, e.id)
    ensures DistinctIds(es + [e])
  {
  }

  lemma ChangeEffect(st: Store, es: seq<Evidence>, o: Outcome, gone: Option<string>)
    requires SoundStore(st) && DistinctIds(es)
    requires forall e :: e in In(st.visible) && Some(e.id) != gone ==> e in es
    ensures var (st', r) := Replace(st, es, o);
            SoundStore(st') && Loses(st, st', gone) && (r.Some? ==> r.value == es && In(st'.visible) == es && In(st'.synced) == es)
    ensures var (st', r) := Changed(st, None, o);
            es == [] ==> SoundStore(st') && Loses(st, st', gone) && (r ==> In(st'.visible) == [] == In(st'.synced))
  {
    hide DistinctIds;
  }

  lemma AppendEffect(st: Store, e: Option<Evidence>, io: Io)
    requires SoundStore(st)
    ensures var (st', r) := Appended(st, e, io);
            && SoundStore(st') && Loses(st, st', None)
            && (r.Some? ==> e.Some? && r.value == In(st'.visible) && e.value in In(st'.visible) && e.value in In(st'.synced))
  {
    hide DistinctIds, Replace;
    ReadIs(st, io.readable);
    if e.Some? && io.readable && !Holds(In(st.visible), e.value.id) {
      AddedDistinct(In(st.visible), e.value);
      ChangeEffect(st, In(st.visible) + [e.value], io.outcome, None);
    }
  }

  lemma RemoveEffect(st: Store, id: string, io: Io)
    requires SoundStore(st)
    ensures var (st', r) := Removed(st, id, io);
            SoundStore(st') && Loses(st, st', Some(id)) && (r.Some? ==> r.value == In(st'.visible))
  {
    hide DistinctIds, Replace, Changed;
    ReadIs(st, io.readable);
    var current := In(st.visible);
    WithoutDistinct(current, id);
    ChangeEffect(st, Without(current, id), io.outcome, Some(id));
  }

  lemma RotateEffect(st: Store, id: string, io: Io)
    requires SoundStore(st)
    ensures var (st', r) := Rotated(st, id, io);
            SoundStore(st') && Loses(st, st', None) && (r.Some? ==> r.value == In(st'.visible))
  {
    hide DistinctIds, Replace;
    ReadIs(st, io.readable);
    var current := In(st.visible);
    if Holds(current, id) {
      var e := Find(current, id);
      WithoutDistinct(current, id);
      AddedDistinct(Without(current, id), e);
      OneOfAnId(current, id);
      ChangeEffect(st, Without(current, id) + [e], io.outcome, None);
    }
  }

  lemma OneOfAnId(es: seq<Evidence>, id: string)
    requires DistinctIds(es) && Holds(es, id)
    ensures forall e :: e in es && e.id == id ==> e == Find(es, id)
  {
    forall e | e in es && e.id == id
      ensures e == Find(es, id)
    {
      var i :| 0 <= i < |es| && es[i] == e;
      var j :| 0 <= j < |es| && es[j] == Find(es, id);
    }
  }

  // ---- the invariant ----

  // An agent that is not blocked holds what the file holds.
  ghost predicate InStep(a: Agent, st: Store) {
    !a.blocked ==> a.evidences == In(st.visible)
  }

  ghost predicate Inv(w: World) {
    && SoundStore(w.store)
    && (w.agent.Some? ==> InStep(w.agent.value, w.store))
    && (forall e :: e in w.kept && e.id !in w.settled ==> e in In(w.store.visible) && e in In(w.store.synced))
  }

  lemma RefreshInStep(a: Agent, st: Store, readable: bool)
    requires SoundStore(st)
    ensures InStep(Refreshed(a, st, readable).0, st)
  {
  }

  lemma ArriveKeeps(w: World, e: Option<Evidence>, first: bool, io: Io, again: bool)
    requires Inv(w)
    ensures Inv(Next(w, Arrives(e, first, io, again)))
  {
    hide SoundStore, In, Appended, Refreshed;
    if w.agent.Some? {
      var a := w.agent.value;
      RefreshInStep(a, w.store, first);
      var a1 := if a.blocked then Refreshed(a, w.store, first).0 else a;
      AppendEffect(w.store, e, io);
      RefreshInStep(a1, Appended(w.store, e, io).0, again);
    }
  }

  lemma AnswerKeeps(w: World, ack: Option<string>, cutoff: bool, io: Io, again: bool)
    requires Inv(w)
    ensures Inv(Next(w, IsAnswered(ack, cutoff, io, again)))
  {
    hide SoundStore, In, Removed, Rotated, Refreshed, Holds;
    if w.agent.Some? && w.sent.Some? {
      var id := w.sent.value.id;
      RemoveEffect(w.store, id, io);
      RotateEffect(w.store, id, io);
      RefreshInStep(w.agent.value, Removed(w.store, id, io).0, again);
      RefreshInStep(w.agent.value, Rotated(w.store, id, io).0, again);
    }
  }

  lemma NextKeeps(w: World, step: Step)
    requires Inv(w)
    ensures Inv(Next(w, step))
  {
    hide SoundStore, In, Recorded, Answered, DistinctIds, Refreshed;
    match step
    case Starts(readable, preflight) =>
      if w.agent.None? {
        StartInStep(w.store, readable, preflight);
      }
    case Flushes => SyncKeeps(w, w.store.visible);
    case PowerFails => SyncKeeps(w, w.store.synced);
    case Ticks(readable) =>
      if w.agent.Some? {
        RefreshInStep(w.agent.value, w.store, readable);
      }
    case Arrives(e, first, io, again) => ArriveKeeps(w, e, first, io, again);
    case IsAnswered(ack, cutoff, io, again) => AnswerKeeps(w, ack, cutoff, io, again);
    case _ =>
  }

  lemma SyncKeeps(w: World, f: Option<File>)
    requires Inv(w) && (f == w.store.visible || f == w.store.synced)
    ensures SoundStore(Store(f, f))
  {
  }

  lemma StartInStep(st: Store, readable: bool, preflight: bool)
    requires SoundStore(st)
    ensures InStep(Started(st, readable, preflight), st)
  {
  }

  lemma {:induction false} Reached(steps: seq<Step>)
    ensures Inv(Run(INITIAL, steps))
  {
    hide Next;
    if steps != [] {
      Reached(steps[..|steps| - 1]);
      NextKeeps(Run(INITIAL, steps[..|steps| - 1]), steps[|steps| - 1]);
    }
  }

  // Over every run: ids are unique, memory is what the file holds unless the agent has marked the
  // journal blocked, and a record the agent promised to keep is in the file, and would survive a
  // power failure, until it is acknowledged by its exact id after a persisted cutoff.
  lemma EvidenceIsKept(steps: seq<Step>, e: Evidence)
    ensures var w := Run(INITIAL, steps);
            && DistinctIds(In(w.store.visible))
            && (w.agent.Some? && !w.agent.value.blocked ==> w.agent.value.evidences == In(w.store.visible))
            && (e in w.kept && e.id !in w.settled ==> e in In(w.store.visible) && e in In(w.store.synced))
  {
    hide Run, Next;
    Reached(steps);
    ReadIs(Run(INITIAL, steps).store, true);
  }

  // One step takes a record out of the file only by a power failure, or by the acknowledgement of
  // exactly the submitted id with the cutoff persisted.
  lemma LeavesOnlyWhenSettled(steps: seq<Step>, step: Step, e: Evidence)
    requires var w := Run(INITIAL, steps); e in In(w.store.visible) && e !in In(Next(w, step).store.visible)
    ensures var w := Run(INITIAL, steps);
            step.PowerFails?
            || (step.IsAnswered? && w.sent.Some? && w.sent.value.id == e.id && step.ack == Some(e.id) && step.cutoff)
  {
    hide Run, In, Appended, Removed, Rotated, Refreshed, Inspect, SoundStore, Holds;
    Reached(steps);
    var w := Run(INITIAL, steps);
    match step
    case Arrives(x, first, io, again) => AppendEffect(w.store, x, io);
    case IsAnswered(ack, cutoff, io, again) =>
      if w.sent.Some? {
        RemoveEffect(w.store, w.sent.value.id, io);
        RotateEffect(w.store, w.sent.value.id, io);
      }
    case _ =>
  }

  // ---- taking turns ----

  // What a completed attempt with the first record does to the journal.
  function Turn(es: seq<Evidence>, acknowledged: bool): seq<Evidence> {
    if es == [] then es else if acknowledged then es[1..] else es[1..] + [es[0]]
  }

  lemma {:induction false} WithoutFirst(es: seq<Evidence>, id: string)
    requires forall i :: 0 <= i < |es| ==> es[i].id != id
    ensures Without(es, id) == es
  {
    if es != [] {
      WithoutFirst(es[1..], id);
    }
  }

  lemma FirstLeaves(es: seq<Evidence>)
    requires DistinctIds(es) && es != []
    ensures Holds(es, es[0].id) && Find(es, es[0].id) == es[0] && Without(es, es[0].id) == es[1..]
    ensures |es| > 1 ==> es[|es| - 1].id != es[0].id
  {
    assert es[0].id == es[0].id;
    forall i | 0 <= i < |es[1..]|
      ensures es[1..][i].id != es[0].id
    {
      assert es[1..][i] == es[i + 1];
    }
    WithoutFirst(es[1..], es[0].id);
  }

  // An answer to a submission of the first record is a turn, when the file can be read and written
  // and, for an acknowledgement, the cutoff persisted; failing that the file is not changed.
  lemma AnswerIsTurn(a: Agent, st: Store, ack: Option<string>, cutoff: bool, io: Io, again: bool)
    requires SoundStore(st) && In(st.visible) != []
    ensures var es := In(st.visible);
            var acknowledged := ack == Some(es[0].id);
            var st' := Answered(a, st, Some(es[0]), ack, cutoff, io, again).1;
            if io.readable && !io.outcome.Lost? && (acknowledged ==> cutoff)
            then In(st'.visible) == Turn(es, acknowledged)
            else In(st'.visible) == es
  {
    hide Refreshed, Without, Find, DistinctIds, Read;
    ReadIs(st, io.readable);
    var es := In(st.visible);
    FirstLeaves(es);
    if |es| == 1 {
      assert es[1..] + [es[0]] == es;
    } else {
      assert es[|es| - 1].id != es[0].id;
    }
  }

  // ---- turns over runs ----

  // A record is submitted only by an agent that is not blocked, and the power does not fail.
  predicate Steady(w: World, step: Step) {
    match step
    case Submits => w.agent.Some? ==> !w.agent.value.blocked
    case PowerFails => false
    case _ => true
  }

  // The step is an answer to a submitted record that can be acted on: the file can be read and
  // written and, for an acknowledgement, the cutoff persisted.
  predicate Completes(w: World, step: Step) {
    && step.IsAnswered? && w.agent.Some? && w.sent.Some?
    && step.io.readable && !step.io.outcome.Lost? && (step.ack == Some(w.sent.value.id) ==> step.cutoff)
  }

  predicate AllSteady(w: World, steps: seq<Step>) {
    steps == [] || (AllSteady(w, steps[..|steps| - 1]) && Steady(Run(w, steps[..|steps| - 1]), steps[|steps| - 1]))
  }

  // The completed attempts of a run.
  function Attempts(w: World, steps: seq<Step>): nat {
    if steps == [] then 0
    else
      Attempts(w, steps[..|steps| - 1]) + if Completes(Run(w, steps[..|steps| - 1]), steps[|steps| - 1]) then 1 else 0
  }

  // A record that was submitted is still the first of the file.
  ghost predicate SentIsFirst(w: World) {
    w.sent.Some? ==> In(w.store.visible) != [] && w.sent.value == In(w.store.visible)[0]
  }

  lemma AppendedIsLast(st: Store, e: Option<Evidence>, io: Io)
    requires SoundStore(st)
    ensures In(st.visible) <= In(Appended(st, e, io).0.visible)
  {
    hide Find, Holds;
    ReadIs(st, io.readable);
  }

  // What a steady step does to the file: a completed attempt is a turn; else it stays, or records are
  // appended.
  lemma SteadyStep(w: World, step: Step)
    requires Inv(w) && SentIsFirst(w) && Steady(w, step)
    ensures SentIsFirst(Next(w, step))
    ensures var es, es' := In(w.store.visible), In(Next(w, step).store.visible);
            if Completes(w, step) then es != [] && es' == Turn(es, step.ack == Some(es[0].id)) else es <= es'
    ensures !Completes(w, step) && !step.Arrives? ==> In(Next(w, step).store.visible) == In(w.store.visible)
  {
    hide In, Appended, Answered, Refreshed, DistinctIds, Turn, SoundStore;
    match step
    case Arrives(e, first, io, again) =>
      if w.agent.Some? {
        AppendedIsLast(w.store, e, io);
        RecordedStore(w.agent.value, w.store, e, first, io, again);
      }
    case IsAnswered(ack, cutoff, io, again) =>
      if w.agent.Some? && w.sent.Some? {
        AnswerIsTurn(w.agent.value, w.store, ack, cutoff, io, again);
      } else if w.agent.Some? {
        NothingAnswered(w.agent.value, w.store, ack, cutoff, io, again);
      }
    case _ =>
  }

  lemma NothingAnswered(a: Agent, st: Store, ack: Option<string>, cutoff: bool, io: Io, again: bool)
    ensures Answered(a, st, None, ack, cutoff, io, again) == (a, st)
  {
  }

  lemma RecordedStore(a: Agent, st: Store, e: Option<Evidence>, first: bool, io: Io, again: bool)
    ensures Recorded(a, st, e, first, io, again).1 == st || Recorded(a, st, e, first, io, again).1 == Appended(st, e, io).0
  {
    hide Appended, Refreshed;
  }

  // However many records arrive in between, after k completed attempts the file begins with what it
  // held from position k on.
  lemma {:induction false} TurnsPass(w: World, more: seq<Step>)
    requires Inv(w) && SentIsFirst(w) && AllSteady(w, more) && Attempts(w, more) <= |In(w.store.visible)|
    ensures Inv(Run(w, more)) && SentIsFirst(Run(w, more))
    ensures In(w.store.visible)[Attempts(w, more)..] <= In(Run(w, more).store.visible)
  {
    hide Inv, SentIsFirst, In, Next, Completes, Steady;
    if more != [] {
      var front, last := more[..|more| - 1], more[|more| - 1];
      TurnsPass(w, front);
      NextKeeps(Run(w, front), last);
      SteadyStep(Run(w, front), last);
      if Completes(Run(w, front), last) {
        TurnDropsFirst(In(w.store.visible), Attempts(w, front), In(Run(w, front).store.visible), In(Run(w, more).store.visible));
      }
    }
  }

  lemma TurnDropsFirst(es: seq<Evidence>, k: nat, before: seq<Evidence>, after: seq<Evidence>)
    requires k < |es| && es[k..] <= before && before != []
    requires after == Turn(before, true) || after == Turn(before, false)
    ensures es[k + 1..] <= after
  {
    assert before[1..][..|es| - k - 1] == es[k + 1..];
  }

  // Over every run: a record at position i of the file is the one submitted next, by an agent that is
  // not blocked, after i completed attempts.
  lemma SubmittedInTurn(steps: seq<Step>, more: seq<Step>, i: nat)
    requires var w := Run(INITIAL, steps);
             && w.sent.None? && i < |In(w.store.visible)| && AllSteady(w, more) && Attempts(w, more) == i
             && Run(w, more).sent.None? && Run(w, more).agent.Some? && !Run(w, more).agent.value.blocked
    ensures var w := Run(INITIAL, steps);
            Next(Run(w, more), Submits).sent == Some(In(w.store.visible)[i])
  {
    hide Run, AllSteady, Attempts, SoundStore;
    Reached(steps);
    var w := Run(INITIAL, steps);
    TurnsPass(w, more);
    var left := In(w.store.visible)[i..];
    assert left[0] == In(w.store.visible)[i];
  }

  // No record arrives, and none is acknowledged.
  predicate Quiet(w: World, step: Step) {
    !step.Arrives? && (Completes(w, step) ==> step.ack != Some(w.sent.value.id))
  }

  predicate AllQuiet(w: World, steps: seq<Step>) {
    steps == [] || (AllQuiet(w, steps[..|steps| - 1]) && Quiet(Run(w, steps[..|steps| - 1]), steps[|steps| - 1]))
  }

  lemma {:induction false} AttemptsRotate(w: World, more: seq<Step>)
    requires Inv(w) && SentIsFirst(w) && AllSteady(w, more) && AllQuiet(w, more)
    requires Attempts(w, more) <= |In(w.store.visible)|
    ensures Inv(Run(w, more)) && SentIsFirst(Run(w, more))
    ensures var es, k := In(w.store.visible), Attempts(w, more);
            In(Run(w, more).store.visible) == es[k..] + es[..k]
  {
    hide Inv, In, Next, Steady;
    var es := In(w.store.visible);
    if more == [] {
      assert es[0..] + es[..0] == es;
    } else {
      var front, last := more[..|more| - 1], more[|more| - 1];
      var before := Run(w, front);
      AttemptsRotate(w, front);
      NextKeeps(before, last);
      SteadyStep(before, last);
      if Completes(before, last) {
        OneTurn(es, Attempts(w, more));
      }
    }
  }

  lemma OneTurn(es: seq<Evidence>, k: nat)
    requires 1 <= k <= |es|
    ensures Turn(es[k - 1..] + es[..k - 1], false) == es[k..] + es[..k]
  {
    var before := es[k - 1..] + es[..k - 1];
    assert before[0] == es[k - 1];
    assert before[1..] == es[k..] + es[..k - 1];
    assert es[..k - 1] + [es[k - 1]] == es[..k];
  }

  // Over every run: without arrivals or acknowledgements, k completed attempts move the first k
  // records of the file to its end; as many attempts as records restore the file.
  lemma TurnsRotate(steps: seq<Step>, more: seq<Step>)
    requires var w := Run(INITIAL, steps);
             w.sent.None? && AllSteady(w, more) && AllQuiet(w, more) && Attempts(w, more) <= |In(w.store.visible)|
    ensures var w := Run(INITIAL, steps);
            var es, k := In(w.store.visible), Attempts(w, more);
            && In(Run(w, more).store.visible) == es[k..] + es[..k]
            && (k == |es| ==> In(Run(w, more).store.visible) == es)
  {
    hide Run, AllSteady, AllQuiet, Attempts, Inv, In;
    Reached(steps);
    var w := Run(INITIAL, steps);
    AttemptsRotate(w, more);
    var es := In(w.store.visible);
    assert es[|es|..] + es[..|es|] == es;
  }
}
