// Every run of the journal: connections that record, uploads, failed writes, crashes and restarts.
module CodecEvidenceRuns {
  import opened Wrappers
  import opened CodecEvidenceJournals

  // A crash inside a write is that write, replacing the file or not, followed by a crash.
  // `sequences` is what each connection of this process has counted up to, `sent` the batch being
  // uploaded.
  datatype Live = Live(journal: Journal, sequences: map<nat, nat>, sent: Option<seq<Evidence>>)

  // `ever` lists everything that was ever put into the file, in order, and `gone` the ids of the
  // events whose removal was persisted.
  datatype World = World(disk: Option<File>, live: Option<Live>, ever: seq<Evidence>, gone: set<nat>, next: nat)

  const INITIAL := World(None, None, [], {}, 0)

  datatype Step =
    | Starts(readable: bool, write: Write)
    | Crashes
    | Connects
    | Records(connection: nat, request: string, eventType: string, write: Write)
    | Sends
    | SendFails
    | Replies(ids: set<nat>, write: Write)

  function WithJournal(w: World, j: Journal): World
    requires w.live.Some?
  {
    w.(disk := j.disk, live := Some(w.live.value.(journal := j)))
  }

  function Recorded(w: World, capacity: nat, c: nat, request: string, eventType: string, write: Write): World
    requires w.live.Some? && c in w.live.value.sequences
  {
    var e := Evidence(w.next, c, w.live.value.sequences[c] + 1, request, eventType);
    var (j, ok) := Appended(w.live.value.journal, capacity, e, write);
    var w' := WithJournal(w, j).(next := w.next + 1);
    if ok then w'.(live := Some(w'.live.value.(sequences := w.live.value.sequences[c := w.live.value.sequences[c] + 1])),
                   ever := w.ever + [e])
    else w'
  }

  function Next(w: World, capacity: nat, step: Step): World {
    match step
    case Starts(readable, write) =>
      if w.live.Some? then w
      else
        var j := Opened(w.disk, capacity, readable, write);
        w.(disk := j.disk, live := Some(Live(j, map[], None)))
    case Crashes => w.(live := None)
    case Connects =>
      if w.live.None? then w
      else w.(live := Some(w.live.value.(sequences := w.live.value.sequences[w.next := 0])), next := w.next + 1)
    case Records(c, request, eventType, write) =>
      if w.live.None? || c !in w.live.value.sequences then w else Recorded(w, capacity, c, request, eventType, write)
    case Sends =>
      if w.live.None? || w.live.value.sent.Some? then w
      else w.(live := Some(w.live.value.(sent := Some(Batch(w.live.value.journal)))))
    case SendFails => if w.live.None? then w else w.(live := Some(w.live.value.(sent := None)))
    case Replies(ids, write) =>
      if w.live.None? || w.live.value.sent.None? then w
      else
        var idle := w.(live := Some(w.live.value.(sent := None)));
        if exists id :: id in ids && id !in Ids(w.live.value.sent.value) then idle
        else
          var (j, ok) := Acknowledged(w.live.value.journal, ids, write);
          var w' := WithJournal(idle, j);
          if ok then w'.(gone := w.gone + ids * Ids(w.live.value.journal.events)) else w'
  }

  function Ids(events: seq<Evidence>): set<nat> {
    set e | e in events :: e.eventId
  }

  function Run(w: World, capacity: nat, steps: seq<Step>): World {
    if steps == [] then w else Next(Run(w, capacity, steps[..|steps| - 1]), capacity, steps[|steps| - 1])
  }

  // The events of one connection.
  function Of(events: seq<Evidence>, c: nat): seq<Evidence> {
    if events == [] then []
    else Of(events[..|events| - 1], c) + if events[|events| - 1].connection == c then [events[|events| - 1]] else []
  }

  // Numbered 1, 2, 3, ...
  ghost predicate Counted(events: seq<Evidence>) {
    forall i :: 0 <= i < |events| ==> events[i].sequence == i + 1
  }

  // ---- the invariant ----

  ghost predicate DiskIs(disk: Option<File>, events: seq<Evidence>) {
    if disk.None? then events == [] else disk.value == File(Items(events))
  }

  ghost predicate Fresh(w: World) {
    && (forall e :: e in w.ever ==> e.eventId < w.next && e.connection < w.next && e.sequence >= 1)
    && (forall id :: id in w.gone ==> id < w.next)
    && (w.live.Some? ==> forall c :: c in w.live.value.sequences ==> c < w.next)
  }

  ghost predicate Numbered(w: World) {
    && (forall c: nat :: Counted(Of(w.ever, c)))
    && (w.live.Some? ==> forall c :: c in w.live.value.sequences ==> |Of(w.ever, c)| == w.live.value.sequences[c])
  }

  // The file holds exactly what was recorded and not acknowledged, in order. A process that did
  // not refuse the file at its start has the same in memory; one that did holds nothing.
  ghost predicate Inv(w: World, capacity: nat) {
    && Fresh(w) && Numbered(w)
    && DiskIs(w.disk, Unacknowledged(w.ever, w.gone)) && |Unacknowledged(w.ever, w.gone)| <= capacity
    && (w.live.Some? ==>
          w.live.value.journal.disk == w.disk
          && (w.live.value.journal.events == Unacknowledged(w.ever, w.gone)
              || (w.live.value.journal.failed && w.live.value.journal.events == [])))
  }

  lemma {:induction false} UnacknowledgedAre(events: seq<Evidence>, ids: set<nat>)
    ensures forall e :: e in Unacknowledged(events, ids) <==> e in events && e.eventId !in ids
    ensures |Unacknowledged(events, ids)| == |events| ==> Unacknowledged(events, ids) == events
  {
    if events != [] {
      var front, last := events[..|events| - 1], events[|events| - 1];
      UnacknowledgedAre(front, ids);
      assert events == front + [last];
    }
  }

  lemma UnacknowledgedSnoc(events: seq<Evidence>, e: Evidence, ids: set<nat>)
    ensures Unacknowledged(events + [e], ids) == Unacknowledged(events, ids) + if e.eventId in ids then [] else [e]
  {
    assert (events + [e])[..|events|] == events;
  }

  lemma {:induction false} UnacknowledgedMore(events: seq<Evidence>, a: set<nat>, b: set<nat>)
    ensures Unacknowledged(Unacknowledged(events, a), b) == Unacknowledged(events, a + b)
  {
    if events == [] {
      NothingLeft(a);
      NothingLeft(b);
      NothingLeft(a + b);
    } else {
      hide Unacknowledged;
      var front, last := events[..|events| - 1], events[|events| - 1];
      UnacknowledgedMore(front, a, b);
      assert events == front + [last];
      UnacknowledgedSnoc(front, last, a);
      UnacknowledgedSnoc(front, last, a + b);
      var kept := Unacknowledged(front, a);
      if last.eventId in a {
        assert Unacknowledged(events, a) == kept;
      } else {
        UnacknowledgedSnoc(kept, last, b);
      }
    }
  }

  lemma {:induction false} UnacknowledgedRelevant(events: seq<Evidence>, a: set<nat>, b: set<nat>)
    requires forall e :: e in events ==> (e.eventId in a <==> e.eventId in b)
    ensures Unacknowledged(events, a) == Unacknowledged(events, b)
  {
    if events != [] {
      var front, last := events[..|events| - 1], events[|events| - 1];
      assert last in events;
      UnacknowledgedRelevant(front, a, b);
    }
  }

  lemma OfSnoc(events: seq<Evidence>, e: Evidence, c: nat)
    ensures Of(events + [e], c) == Of(events, c) + if e.connection == c then [e] else []
  {
    assert (events + [e])[..|events|] == events;
  }

  lemma {:induction false} OfNone(events: seq<Evidence>, c: nat)
    requires forall e :: e in events ==> e.connection != c
    ensures Of(events, c) == []
  {
    if events != [] {
      var front, last := events[..|events| - 1], events[|events| - 1];
      assert last in events;
      OfNone(front, c);
    }
  }

  lemma ItemsRead(events: seq<Evidence>, capacity: nat)
    requires |events| <= capacity && forall e :: e in events ==> e.sequence >= 1
    ensures Readable(File(Items(events)), capacity) && Events(Items(events)) == events
  {
    forall i | 0 <= i < |events|
      ensures events[i].sequence >= 1
    {
      assert events[i] in events;
    }
  }

  lemma StartKeeps(w: World, capacity: nat, readable: bool, write: Write)
    requires Inv(w, capacity)
    ensures Inv(Next(w, capacity, Starts(readable, write)), capacity)
    // its own file is refused only when it cannot be read at all
    ensures w.live.None? && readable ==>
              Next(w, capacity, Starts(readable, write)).live.value.journal.events == Unacknowledged(w.ever, w.gone)
  {
    hide Unacknowledged, Items, Events, Readable;
    UnacknowledgedAre(w.ever, w.gone);
    ItemsRead(Unacknowledged(w.ever, w.gone), capacity);
  }

  lemma RecordKeeps(w: World, capacity: nat, c: nat, request: string, eventType: string, write: Write)
    requires Inv(w, capacity) && w.live.Some? && c in w.live.value.sequences
    ensures Inv(Recorded(w, capacity, c, request, eventType, write), capacity)
  {
    hide Unacknowledged, Items, Of;
    var e := Evidence(w.next, c, w.live.value.sequences[c] + 1, request, eventType);
    UnacknowledgedSnoc(w.ever, e, w.gone);
    forall d: nat
      ensures Of(w.ever + [e], d) == Of(w.ever, d) + if e.connection == d then [e] else []
    {
      OfSnoc(w.ever, e, d);
    }
    assert Counted(Of(w.ever, c));
  }

  lemma ReplyKeeps(w: World, capacity: nat, ids: set<nat>, write: Write)
    requires Inv(w, capacity)
    ensures Inv(Next(w, capacity, Replies(ids, write)), capacity)
  {
    hide Unacknowledged, Items, Of, Counted;
    if w.live.Some? && w.live.value.sent.Some? {
      var events := w.live.value.journal.events;
      var held := ids * Ids(events);
      var kept := Unacknowledged(w.ever, w.gone);
      UnacknowledgedAre(w.ever, w.gone);
      UnacknowledgedAre(events, ids);
      UnacknowledgedMore(w.ever, w.gone, held);
      UnacknowledgedRelevant(events, ids, held);
      forall id | id in held
        ensures id < w.next
      {
        var e :| e in events && e.eventId == id;
        assert e in kept;
      }
      if events != kept {
        assert events == [] && held == {};
        assert w.gone + held == w.gone;
        NothingLeft(ids);
      } else {
        assert Unacknowledged(events, ids) == Unacknowledged(w.ever, w.gone + held);
      }
    }
  }

  lemma NothingLeft(ids: set<nat>)
    ensures Unacknowledged([], ids) == []
  {
  }

  lemma ConnectKeeps(w: World, capacity: nat)
    requires Inv(w, capacity)
    ensures Inv(Next(w, capacity, Connects), capacity)
  {
    hide Unacknowledged, Items, Of, Counted, DiskIs;
    OfNone(w.ever, w.next);
  }

  lemma NextKeeps(w: World, capacity: nat, step: Step)
    requires Inv(w, capacity)
    ensures Inv(Next(w, capacity, step), capacity)
  {
    hide Unacknowledged, Items, Of, Counted, DiskIs, Recorded, Opened, Acknowledged, Batch;
    match step
    case Starts(readable, write) => StartKeeps(w, capacity, readable, write);
    case Connects => ConnectKeeps(w, capacity);
    case Records(c, request, eventType, write) =>
      if w.live.Some? && c in w.live.value.sequences {
        RecordKeeps(w, capacity, c, request, eventType, write);
      }
    case Replies(ids, write) => ReplyKeeps(w, capacity, ids, write);
    case _ =>
  }

  lemma {:induction false} Reached(capacity: nat, steps: seq<Step>)
    ensures Inv(Run(INITIAL, capacity, steps), capacity)
  {
    hide Next;
    if steps == [] {
      assert Of([], 0) == [];
    } else {
      Reached(capacity, steps[..|steps| - 1]);
      NextKeeps(Run(INITIAL, capacity, steps[..|steps| - 1]), capacity, steps[|steps| - 1]);
    }
  }

  // Over every run, whatever writes fail and whenever the process crashes: the evidence of each
  // connection is numbered from 1 without gap or repeat, and the file holds exactly what was
  // recorded and not acknowledged, within its capacity.
  lemma EvidenceIsComplete(capacity: nat, steps: seq<Step>, c: nat)
    ensures Counted(Of(Run(INITIAL, capacity, steps).ever, c))
    ensures var w := Run(INITIAL, capacity, steps);
            DiskIs(w.disk, Unacknowledged(w.ever, w.gone)) && |Unacknowledged(w.ever, w.gone)| <= capacity
  {
    hide Run, Unacknowledged, Of, Counted, DiskIs;
    Reached(capacity, steps);
  }

  // Whether the process that is running, or was last, could read the file when it started.
  predicate ReadAtStart(capacity: nat, steps: seq<Step>) {
    if steps == [] then true
    else
      var front, last := steps[..|steps| - 1], steps[|steps| - 1];
      if last.Starts? && Run(INITIAL, capacity, front).live.None? then last.readable else ReadAtStart(capacity, front)
  }

  // A process that could not read the file holds nothing, records nothing and acknowledges nothing;
  // any other holds what was recorded and not acknowledged.
  ghost predicate Holds(w: World, read: bool) {
    w.live.Some? ==>
      if read then w.live.value.journal.events == Unacknowledged(w.ever, w.gone)
      else w.live.value.journal.events == [] && w.live.value.journal.failed
  }

  lemma StepHolds(w: World, capacity: nat, step: Step, read: bool)
    requires Inv(w, capacity) && Holds(w, read)
    ensures Holds(Next(w, capacity, step), if step.Starts? && w.live.None? then step.readable else read)
  {
    hide Unacknowledged, Items, Of, Counted, DiskIs, Opened, Batch;
    match step
    case Starts(readable, write) =>
      if w.live.None? {
        StartKeeps(w, capacity, readable, write);
        RefusedIsEmpty(w.disk, capacity, write);
      }
    case Records(c, request, eventType, write) =>
      if w.live.Some? && c in w.live.value.sequences {
        UnacknowledgedSnoc(w.ever, Evidence(w.next, c, w.live.value.sequences[c] + 1, request, eventType), w.gone);
      }
    case Replies(ids, write) =>
      if w.live.Some? && w.live.value.sent.Some? {
        ReplyHolds(w, capacity, ids, write, read);
      }
    case _ =>
  }

  lemma RefusedIsEmpty(disk: Option<File>, capacity: nat, write: Write)
    ensures Opened(disk, capacity, false, write) == Journal([], true, disk)
  {
  }

  lemma ReplyHolds(w: World, capacity: nat, ids: set<nat>, write: Write, read: bool)
    requires Inv(w, capacity) && Holds(w, read) && w.live.Some? && w.live.value.sent.Some?
    ensures Holds(Next(w, capacity, Replies(ids, write)), read)
  {
    hide Unacknowledged, Items, Of, Counted, DiskIs;
    var events := w.live.value.journal.events;
    if read {
      UnacknowledgedAre(w.ever, w.gone);
      UnacknowledgedAre(events, ids);
      UnacknowledgedMore(w.ever, w.gone, ids * Ids(events));
      UnacknowledgedRelevant(events, ids, ids * Ids(events));
      if |Unacknowledged(events, ids)| == |events| {
        NoneHeld(events, ids);
        assert w.gone + ids * Ids(events) == w.gone;
      }
    } else {
      NothingLeft(ids);
    }
  }

  lemma NoneHeld(events: seq<Evidence>, ids: set<nat>)
    requires Unacknowledged(events, ids) == events
    ensures ids * Ids(events) == {}
  {
    UnacknowledgedAre(events, ids);
    assert forall e :: e in events ==> e.eventId !in ids;
  }

  lemma {:induction false} RunHolds(capacity: nat, steps: seq<Step>)
    ensures Holds(Run(INITIAL, capacity, steps), ReadAtStart(capacity, steps))
  {
    hide Next, Holds;
    if steps == [] {
      assert Holds(INITIAL, true) by { NobodyHolds(); }
    } else {
      var front := steps[..|steps| - 1];
      RunHolds(capacity, front);
      Reached(capacity, front);
      StepHolds(Run(INITIAL, capacity, front), capacity, steps[|steps| - 1], ReadAtStart(capacity, front));
    }
  }

  lemma NobodyHolds()
    ensures Holds(INITIAL, true)
  {
  }

  // Over every run, the memory of a running process is what the file holds exactly if it could read
  // the file when it started, or nothing is unacknowledged.
  lemma MemoryIsDiskExactlyWhen(capacity: nat, steps: seq<Step>)
    requires Run(INITIAL, capacity, steps).live.Some?
    ensures var w := Run(INITIAL, capacity, steps);
            DiskIs(w.disk, w.live.value.journal.events)
            <==> ReadAtStart(capacity, steps) || Unacknowledged(w.ever, w.gone) == []
  {
    hide Run, Unacknowledged, Of, Counted;
    Reached(capacity, steps);
    RunHolds(capacity, steps);
  }

  // A run in which they differ: a file with an event in it cannot be read at the next start.
  lemma MemoryWithoutDisk(capacity: nat, request: string, eventType: string)
    requires capacity > 0
    ensures var steps := [Starts(true, Replaced), Connects, Records(0, request, eventType, Replaced), Crashes, Starts(false, Replaced)];
            var w := Run(INITIAL, capacity, steps);
            w.live.Some? && w.live.value.journal.events == [] && w.disk == Some(File(Items([Evidence(1, 0, 1, request, eventType)])))
  {
    hide Next, Items;
    var steps := [Starts(true, Replaced), Connects, Records(0, request, eventType, Replaced), Crashes, Starts(false, Replaced)];
    forall i | 0 <= i < 5
      ensures Run(INITIAL, capacity, steps[..i + 1]) == Next(Run(INITIAL, capacity, steps[..i]), capacity, steps[i])
    {
      assert steps[..i + 1][..i] == steps[..i];
    }
    assert steps[..5] == steps;
    Written(INITIAL, capacity, request, eventType);
    CannotRead(Next(Next(Next(INITIAL, capacity, steps[0]), capacity, steps[1]), capacity, steps[2]), capacity);
  }

  lemma Written(w0: World, capacity: nat, request: string, eventType: string)
    requires capacity > 0 && w0 == INITIAL
    ensures Next(Next(Next(w0, capacity, Starts(true, Replaced)), capacity, Connects), capacity,
                 Records(0, request, eventType, Replaced)).disk == Some(File(Items([Evidence(1, 0, 1, request, eventType)])))
  {
    hide Items, Readable, Events;
    var w2 := Next(Next(w0, capacity, Starts(true, Replaced)), capacity, Connects);
    assert w2.live.value.journal == Journal([], false, Some(File(Items([])))) && w2.next == 1;
    assert 0 in w2.live.value.sequences && w2.live.value.sequences[0] == 0;
    assert [] + [Evidence(1, 0, 1, request, eventType)] == [Evidence(1, 0, 1, request, eventType)];
  }

  lemma CannotRead(w: World, capacity: nat)
    ensures var after := Next(Next(w, capacity, Crashes), capacity, Starts(false, Replaced));
            after.live == Some(Live(Journal([], true, w.disk), map[], None)) && after.disk == w.disk
  {
    var crashed := Next(w, capacity, Crashes);
    assert crashed == w.(live := None);
    assert Opened(w.disk, capacity, false, Replaced) == Journal([], true, w.disk);
  }

  // Twenty more events fit a journal that says it is ready.
  lemma {:induction false} ReadyHasRoom(j: Journal, capacity: nat, more: seq<Evidence>)
    requires Ready(j, capacity) && |more| <= RESERVE
    ensures AllAppended(j, capacity, more) == (Journal(j.events + more, false, if more == [] then j.disk else Some(File(Items(j.events + more)))), true)
  {
    if more != [] {
      var front, last := more[..|more| - 1], more[|more| - 1];
      ReadyHasRoom(j, capacity, front);
      assert j.events + front + [last] == j.events + more;
    } else {
      assert j.events + more == j.events;
    }
  }

  function AllAppended(j: Journal, capacity: nat, more: seq<Evidence>): (Journal, bool) {
    if more == [] then (j, true)
    else
      var (j1, ok) := AllAppended(j, capacity, more[..|more| - 1]);
      if ok then Appended(j1, capacity, more[|more| - 1], Replaced) else (j1, false)
  }
}
