// What each call on the evidence journal does, decided from the file, the record and the outcome of
// the reads and writes.
module GraceEvidenceAnswers {
  import opened Wrappers
  import opened GraceEvidence
  import opened GraceEvidenceRuns

  // A file in order: records with different ids.
  predicate InOrder(f: Option<File>) {
    f.Some? && f.value.Records?
    && forall i, j :: 0 <= i < j < |f.value.evidences| ==> f.value.evidences[i].id != f.value.evidences[j].id
  }

  // ---- the agent's copy ----

  // A start takes over a file in order; it is blocked by one that is not, or cannot be read, or is
  // missing though it was expected.
  lemma StartIs(st: Store, readable: bool, preflight: bool)
    ensures var a := Started(st, readable, preflight);
            && (a.blocked <==> !(readable && (InOrder(st.visible) || (st.visible.None? && !preflight))))
            && a.evidences == if readable && InOrder(st.visible) then st.visible.value.evidences else []
  {
  }

  // Reading again lifts a block exactly by a file in order. A missing file blocks an agent that holds
  // records, or was blocked.
  lemma RefreshIs(a: Agent, st: Store, readable: bool)
    ensures var (a', healthy) := Refreshed(a, st, readable);
            && (healthy <==> !a'.blocked)
            && (a'.blocked <==> !(readable && (InOrder(st.visible) || (st.visible.None? && !a.blocked && a.evidences == []))))
            && a'.evidences == if readable && InOrder(st.visible) then st.visible.value.evidences else a.evidences
  {
  }

  // ---- arrivals ----

  // Another record holds the id.
  predicate Collides(es: seq<Evidence>, e: Evidence) {
    exists i :: 0 <= i < |es| && es[i].id == e.id && es[i] != e
  }

  lemma HoldsIs(es: seq<Evidence>, e: Evidence)
    requires DistinctIds(es)
    ensures Holds(es, e.id) <==> e in es || Collides(es, e)
    ensures Holds(es, e.id) ==> (Find(es, e.id) == e <==> !Collides(es, e))
    ensures e in es ==> !Collides(es, e)
  {
    if Holds(es, e.id) {
      var j :| 0 <= j < |es| && es[j] == Find(es, e.id);
      var i :| 0 <= i < |es| && es[i].id == e.id;
    }
    if e in es {
      var k :| 0 <= k < |es| && es[k] == e;
      assert es[k].id == e.id;
    }
  }

  // A record that arrives is kept exactly when it is in order, the journal can be read, no other record
  // holds its id, and the write, or for a known record the sync, is complete. It is then in the file,
  // synced, once, behind the others; a record that is not kept may be there all the same if its write
  // landed, and changes nothing else.
  lemma ArrivalExactlyWhen(a: Agent, st: Store, e: Option<Evidence>, first: bool, io: Io, again: bool)
    requires SoundStore(st)
    ensures var (a', st', kept) := Recorded(a, st, e, first, io, again);
            var tried := e.Some? && (a.blocked ==> first && st.visible.Some?) && io.readable && !Collides(In(st.visible), e.value);
            && (kept <==> tried && io.outcome.Landed?)
            && In(st'.visible) == (if tried && !io.outcome.Lost? && e.value !in In(st.visible) then In(st.visible) + [e.value]
                                   else In(st.visible))
            && (kept ==> In(st'.synced) == In(st'.visible) && a' == Agent(In(st'.visible), false))
            && (!kept ==> In(st'.synced) == In(st.synced))
            && (!kept && !a'.blocked ==> a'.evidences == In(st'.visible) || a' == a)
  {
    hide Refreshed, DistinctIds, Holds;
    ReadIs(st, io.readable);
    RefreshIs(a, st, first);
    SoundIsInOrder(st);
    var (a1, healthy) := if a.blocked then Refreshed(a, st, first) else (a, true);
    var st' := Appended(st, e, io).0;
    RefreshIs(a1, st', again);
    AppendEffect(st, e, io);
    SoundIsInOrder(st');
    if e.Some? {
      HoldsIs(In(st.visible), e.value);
    }
  }

  lemma SoundIsInOrder(st: Store)
    requires SoundStore(st)
    ensures st.visible.Some? ==> InOrder(st.visible) && st.visible.value.evidences == In(st.visible)
    ensures st.visible.None? ==> In(st.visible) == []
  {
  }

  // ---- answers ----

  // A removal leaves the other records, in order, and no file at all without a record; an id that is not
  // there changes nothing.
  lemma RemovalExactly(st: Store, id: string, io: Io)
    requires io.readable && (st.visible.None? || InOrder(st.visible))
    ensures var es := if st.visible.None? then [] else st.visible.value.evidences;
            var file := if Without(es, id) == [] then None else Some(Records(Without(es, id)));
            if !(exists i :: 0 <= i < |es| && es[i].id == id) then Removed(st, id, io) == (st, Some(es))
            else
              && (Removed(st, id, io).1 == if io.outcome.Landed? then Some(Without(es, id)) else None)
              && Removed(st, id, io).0 == match io.outcome { case Lost => st case LandedUnsynced => st.(visible := file)
                                                             case Landed => Store(file, file) }
  {
    hide Without;
  }

  // An answer to the first record that can be acted on leaves an agent in step with the file: it is
  // without the record, or has it last. If that is synced it is certain to survive.
  lemma AnswerIsCopied(a: Agent, st: Store, ack: Option<string>, cutoff: bool, io: Io, again: bool)
    requires SoundStore(st) && In(st.visible) != [] && !a.blocked && a.evidences == In(st.visible)
    requires io.readable && io.outcome.Landed? && (ack == Some(In(st.visible)[0].id) ==> cutoff)
    ensures var es := In(st.visible);
            var (a', st') := Answered(a, st, Some(es[0]), ack, cutoff, io, again);
            && a' == Agent(if ack == Some(es[0].id) then es[1..] else es[1..] + [es[0]], false)
            && In(st'.visible) == a'.evidences
            && (|es| > 1 || ack == Some(es[0].id) ==> In(st'.synced) == a'.evidences)
  {
    hide Refreshed, DistinctIds, Without, Find;
    ReadIs(st, io.readable);
    var es := In(st.visible);
    FirstLeaves(es);
    AnswerIsTurn(a, st, ack, cutoff, io, again);
    FirstIsGone(es);
    if |es| == 1 {
      assert es[1..] + [es[0]] == es;
    }
  }

  lemma FirstIsGone(es: seq<Evidence>)
    requires DistinctIds(es) && es != []
    ensures !Holds(es[1..], es[0].id)
  {
    forall i | 0 <= i < |es[1..]|
      ensures es[1..][i].id != es[0].id
    {
      assert es[1..][i] == es[i + 1];
    }
  }

  // When it cannot be acted on, or nothing was submitted, the agent keeps its copy, or reads the file again.
  lemma AnswerOtherwise(a: Agent, st: Store, submitted: Option<Evidence>, ack: Option<string>, cutoff: bool, io: Io, again: bool)
    ensures submitted.None? || (ack == Some(submitted.value.id) && !cutoff) ==>
              Answered(a, st, submitted, ack, cutoff, io, again) == (a, st)
    ensures submitted.Some? && !io.readable ==>
              && Answered(a, st, submitted, ack, cutoff, io, again).1 == st
              && (Answered(a, st, submitted, ack, cutoff, io, again).0 == a
                  || Answered(a, st, submitted, ack, cutoff, io, again).0 == Refreshed(a, st, again).0)
  {
    hide Refreshed;
  }
}
