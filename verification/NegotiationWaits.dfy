// What the accumulated time means: the length of the union of the intervals in which somebody
// waited, counted once however many waited at a time.
module NegotiationWaits {
  import opened Wrappers
  import opened NegotiationRecoveries

  // A player of one record starts or stops waiting.
  datatype Event = Event(time: int, starts: bool, player: string)

  // ---- the reference ----

  // Started at or before t, and not abandoned since, up to t.
  ghost predicate WaitsFrom(events: seq<Event>, i: nat, player: string, t: int) {
    && i < |events| && events[i].starts && events[i].player == player && events[i].time <= t
    && forall j :: i < j < |events| && events[j].player == player && !events[j].starts ==> events[j].time > t
  }

  ghost predicate Waits(events: seq<Event>, player: string, t: int) {
    exists i: nat :: WaitsFrom(events, i, player, t)
  }

  ghost predicate SomeoneWaits(events: seq<Event>, t: int) {
    exists player: string :: Waits(events, player, t)
  }

  // The number of milliseconds from `first` up to `last` in which someone waits.
  ghost function Waited(events: seq<Event>, first: int, last: int): nat
    decreases last - first
  {
    if last <= first then 0 else Waited(events, first, last - 1) + if SomeoneWaits(events, last - 1) then 1 else 0
  }

  // ---- the reference and new events ----

  ghost predicate UpTo(events: seq<Event>, clock: int) {
    forall i :: 0 <= i < |events| ==> events[i].time <= clock
  }

  lemma LaterEvent(events: seq<Event>, e: Event, player: string, t: int)
    requires t < e.time
    ensures Waits(events + [e], player, t) <==> Waits(events, player, t)
  {
    var more := events + [e];
    if i: nat :| WaitsFrom(events, i, player, t) {
      assert WaitsFrom(more, i, player, t);
    }
    if i: nat :| WaitsFrom(more, i, player, t) {
      assert more[i] == events[i];
      forall j | i < j < |events| && events[j].player == player && !events[j].starts
        ensures events[j].time > t
      {
        assert more[j] == events[j];
      }
      assert WaitsFrom(events, i, player, t);
    }
  }

  lemma {:induction false} LaterEventCounts(events: seq<Event>, e: Event, first: int, last: int)
    requires last <= e.time
    ensures Waited(events + [e], first, last) == Waited(events, first, last)
    decreases last - first
  {
    hide Waits;
    if last > first {
      LaterEventCounts(events, e, first, last - 1);
      var t := last - 1;
      var more := events + [e];
      forall player: string
        ensures Waits(more, player, t) <==> Waits(events, player, t)
      {
        LaterEvent(events, e, player, t);
      }
    }
  }

  // Once the events are past, whoever waits keeps waiting.
  lemma {:induction false} QuietCounts(events: seq<Event>, first: int, clock: int, now: int, waiting: bool)
    requires first <= clock <= now
    requires forall t :: t >= clock ==> (SomeoneWaits(events, t) <==> waiting)
    ensures Waited(events, first, now) == Waited(events, first, clock) + if waiting then now - clock else 0
    decreases now - clock
  {
    hide SomeoneWaits;
    if now > clock {
      QuietCounts(events, first, clock, now - 1, waiting);
      assert SomeoneWaits(events, now - 1) <==> waiting;
    }
  }

  // ---- a record and its history ----

  datatype History = History(created: int, events: seq<Event>, raised: nat, due: bool)

  // The players of the record are those who wait by the reference, and its time is the length of
  // the union.
  ghost predicate Matches(r: Record, h: History, clock: int) {
    && h.created <= clock && UpTo(h.events, clock) && r.since <= clock && r.lastSeen <= clock
    && (forall p: string, t: int :: t >= r.lastSeen ==> (Waits(h.events, p, t) <==> p in r.players))
    && r.elapsed + (if r.players != {} then clock - r.since else 0) == Waited(h.events, h.created, clock)
    && (r.reported <==> h.due) && h.raised == (if r.reported then 1 else 0)
  }

  lemma MatchedTime(r: Record, h: History, clock: int, now: int)
    requires Matches(r, h, clock) && clock <= now
    ensures Matches(r, h, now)
    ensures SomeoneWaits(h.events, now) <==> r.players != {}
  {
    hide Waits, Waited;
    forall t: int | t >= clock
      ensures SomeoneWaits(h.events, t) <==> r.players != {}
    {
      if r.players != {} {
        var p :| p in r.players;
        assert Waits(h.events, p, t);
      }
    }
    QuietCounts(h.events, h.created, clock, now, r.players != {});
  }

  lemma StartedWaits(events: seq<Event>, player: string, now: int, p: string, t: int)
    requires UpTo(events, now) && t >= now
    ensures Waits(events + [Event(now, true, player)], p, t) <==> p == player || Waits(events, p, t)
  {
    var more := events + [Event(now, true, player)];
    if p == player {
      assert WaitsFrom(more, |events|, p, t);
    }
    if i: nat :| WaitsFrom(events, i, p, t) {
      assert WaitsFrom(more, i, p, t);
    }
    if i: nat :| WaitsFrom(more, i, p, t) {
      if p != player {
        assert i < |events| && more[i] == events[i];
        assert forall j :: i < j < |events| ==> more[j] == events[j];
        assert WaitsFrom(events, i, p, t);
      }
    }
  }

  lemma AbandonedWaits(events: seq<Event>, player: string, now: int, p: string, t: int)
    requires UpTo(events, now) && t >= now
    ensures Waits(events + [Event(now, false, player)], p, t) <==> p != player && Waits(events, p, t)
  {
    var more := events + [Event(now, false, player)];
    if i: nat :| WaitsFrom(events, i, p, t) && p != player {
      assert WaitsFrom(more, i, p, t);
    }
    if i: nat :| WaitsFrom(more, i, p, t) {
      assert i < |events| && more[i] == events[i];
      assert p != player by {
        assert more[|events|] == Event(now, false, player);
      }
      assert forall j :: i < j < |events| ==> more[j] == events[j];
      assert WaitsFrom(events, i, p, t);
    }
  }

  lemma JoinedMatches(r: Record, h: History, now: int, player: string)
    requires Matches(r, h, now)
    ensures Matches(Joined(r, player, now), h.(events := h.events + [Event(now, true, player)]), now)
  {
    hide Waits, Waited;
    var e := Event(now, true, player);
    LaterEventCounts(h.events, e, h.created, now);
    forall p: string, t: int | t >= now
      ensures Waits(h.events + [e], p, t) <==> p in Joined(r, player, now).players
    {
      StartedWaits(h.events, player, now, p, t);
    }
  }

  lemma LeftMatches(r: Record, h: History, now: int, player: string)
    requires Matches(r, h, now) && player in r.players
    ensures Matches(Left(r, player, now), h.(events := h.events + [Event(now, false, player)]), now)
  {
    hide Waits, Waited;
    var e := Event(now, false, player);
    LaterEventCounts(h.events, e, h.created, now);
    forall p: string, t: int | t >= now
      ensures Waits(h.events + [e], p, t) <==> p in Left(r, player, now).players
    {
      AbandonedWaits(h.events, player, now, p, t);
    }
  }

  lemma NewMatches(now: int, player: string)
    ensures Matches(Record(0, now, now, {}, false), History(now, [], 0, false), now)
  {
  }

  // ---- every run ----

  datatype Step =
    | Starts(k: Key, player: string, now: int)
    | Abandons(k: Key, player: string, now: int)
    | Responds(k: Key, now: int)
    | Removes(streamer: nat, now: int)
    | Checks(now: int)

  // `hist` is kept from the reference alone: when each record was created, who came and went, how
  // often it raised its fault, and whether some check found it due.
  datatype System = System(records: Records, hist: map<Key, History>, clock: int)

  ghost predicate FoundDue(h: History, now: int) {
    SomeoneWaits(h.events, now) && Waited(h.events, h.created, now) >= FAULT_AFTER
  }

  ghost function AfterCheck(hist: map<Key, History>, left: Records, faults: set<Key>, now: int): map<Key, History>
  {
    map k | k in left && k in hist :: hist[k].(raised := hist[k].raised + (if k in faults then 1 else 0),
                                  due := hist[k].due || FoundDue(hist[k], now))
  }

  ghost function WithEvent(hist: map<Key, History>, k: Key, e: Event): map<Key, History> {
    var h := if k in hist then hist[k] else History(e.time, [], 0, false);
    hist[k := h.(events := h.events + [e])]
  }

  ghost function Next(s: System, step: Step): System {
    match step
    case Starts(k, player, now) =>
      var (rs, faults) := Started(s.records, k, player, now);
      if k.request == [] || player == [] then System(rs, s.hist, now)
      else
        var kept := map x | x in s.hist && x in Pruned(s.records, now) :: s.hist[x];
        System(rs, AfterCheck(WithEvent(kept, k, Event(now, true, player)), rs, faults, now), now)
    case Abandons(k, player, now) =>
      System(Abandoned(s.records, k, player, now),
             if k in s.hist && Waits(s.hist[k].events, player, now) then WithEvent(s.hist, k, Event(now, false, player)) else s.hist,
             now)
    case Responds(k, now) => System(Responded(s.records, k), s.hist - {k}, now)
    case Removes(streamer, now) =>
      System(Removed(s.records, streamer), map k | k in s.hist && k.streamer != streamer :: s.hist[k], now)
    case Checks(now) =>
      var (rs, faults) := Checked(s.records, now);
      System(rs, AfterCheck(s.hist, rs, faults, now), now)
  }

  ghost predicate Inv(s: System) {
    && s.records.Keys == s.hist.Keys
    && forall k :: k in s.records ==> Matches(s.records[k], s.hist[k], s.clock)
  }

  ghost function Run(s: System, steps: seq<Step>): System {
    if steps == [] then s else Next(Run(s, steps[..|steps| - 1]), steps[|steps| - 1])
  }

  ghost predicate Monotone(s: System, steps: seq<Step>) {
    && (steps != [] ==> s.clock <= steps[0].now)
    && forall i :: 0 <= i < |steps| - 1 ==> steps[i].now <= steps[i + 1].now
  }

  // A check reports exactly the records whose waiting, by the reference, has reached a minute.
  lemma CheckMatches(r: Record, h: History, now: int)
    requires Matches(r, h, now)
    ensures IsDue(r, now) <==> !r.reported && FoundDue(h, now)
    ensures var due := IsDue(r, now);
            Matches(if due then r.(reported := true) else r,
                    h.(raised := h.raised + (if due then 1 else 0), due := h.due || FoundDue(h, now)), now)
  {
    hide Waits, Waited, SomeoneWaits;
    MatchedTime(r, h, now, now);
  }

  lemma CheckedKeeps(rs: Records, hist: map<Key, History>, now: int)
    requires rs.Keys <= hist.Keys && forall k :: k in rs ==> Matches(rs[k], hist[k], now)
    ensures var (left, faults) := Checked(rs, now);
            Inv(System(left, AfterCheck(hist, left, faults, now), now))
  {
    hide Matches, FoundDue, IsDue;
    var (left, faults) := Checked(rs, now);
    forall k | k in left
      ensures Matches(left[k], AfterCheck(hist, left, faults, now)[k], now)
    {
      CheckMatches(rs[k], hist[k], now);
    }
  }

  lemma NextKeepsInv(s: System, step: Step)
    requires Inv(s) && s.clock <= step.now
    ensures Inv(Next(s, step)) && Next(s, step).clock == step.now
  {
    hide Matches, FoundDue, IsDue, Joined, Left, Checked, Waits;
    forall k | k in s.records
      ensures Matches(s.records[k], s.hist[k], step.now)
    {
      MatchedTime(s.records[k], s.hist[k], s.clock, step.now);
    }
    match step
    case Starts(k, player, now) =>
      if k.request != [] && player != [] {
        var pruned := Pruned(s.records, now);
        var kept := map x | x in s.hist && x in pruned :: s.hist[x];
        var e := Event(now, true, player);
        NewMatches(now, player);
        var r := if k in pruned then pruned[k] else Record(0, now, now, {}, false);
        var h := if k in kept then kept[k] else History(now, [], 0, false);
        JoinedMatches(r, h, now, player);
        CheckedKeeps(Waiting(pruned, k, player, now), WithEvent(kept, k, e), now);
      }
    case Abandons(k, player, now) =>
      if k in s.records {
        WaitsByRecord(s.records[k], s.hist[k], now, player);
        if player in s.records[k].players {
          LeftMatches(s.records[k], s.hist[k], now, player);
        }
      }
    case Responds(k, now) =>
    case Removes(streamer, now) =>
    case Checks(now) => CheckedKeeps(s.records, s.hist, now);
  }

  lemma WaitsByRecord(r: Record, h: History, now: int, player: string)
    requires Matches(r, h, now)
    ensures Waits(h.events, player, now) <==> player in r.players
  {
    hide Waits, Waited;
  }

  lemma {:induction false} RunKeepsInv(s: System, steps: seq<Step>)
    requires Inv(s) && Monotone(s, steps)
    ensures Inv(Run(s, steps))
    ensures Run(s, steps).clock == if steps == [] then s.clock else steps[|steps| - 1].now
  {
    hide Inv, Next;
    if steps != [] {
      var front, last := steps[..|steps| - 1], steps[|steps| - 1];
      assert front != [] ==> front[0] == steps[0] && front[|front| - 1] == steps[|steps| - 2];
      RunKeepsInv(s, front);
      NextKeepsInv(Run(s, front), last);
    }
  }

  // Under a monotone clock, over every run: the time of a record is the length of the union of the
  // intervals with someone waiting since it was created, and its fault has been raised once if
  // some check found that length at a minute or more while someone waited, and never otherwise.
  lemma WaitIsUnion(steps: seq<Step>, start: int, k: Key)
    requires Monotone(System(map[], map[], start), steps)
    ensures var s := Run(System(map[], map[], start), steps);
            k in s.records ==>
              && k in s.hist
              && (forall t :: t >= s.clock ==> (SomeoneWaits(s.hist[k].events, t) <==> s.records[k].players != {}))
              && s.records[k].elapsed + (if s.records[k].players == {} then 0 else s.clock - s.records[k].since)
                 == Waited(s.hist[k].events, s.hist[k].created, s.clock)
              && s.hist[k].raised == if s.hist[k].due then 1 else 0
  {
    hide Waits, Waited, SomeoneWaits, Monotone, Run;
    var init := System(map[], map[], start);
    RunKeepsInv(init, steps);
    var s := Run(init, steps);
    if k in s.records {
      assert Matches(s.records[k], s.hist[k], s.clock);
      forall t | t >= s.clock
        ensures SomeoneWaits(s.hist[k].events, t) <==> s.records[k].players != {}
      {
        MatchedTime(s.records[k], s.hist[k], s.clock, t);
      }
    }
  }

  // From `since` to `now` nobody waits.
  ghost predicate IdleFrom(events: seq<Event>, since: int, now: int) {
    forall t :: since <= t <= now ==> !SomeoneWaits(events, t)
  }

  // A record ends with a step, or begins anew.
  ghost predicate Ends(s: System, step: Step, k: Key)
    requires k in s.hist
  {
    k !in Next(s, step).records || k !in Next(s, step).hist || Next(s, step).hist[k].created != s.hist[k].created
  }

  lemma EndsBecause(s: System, step: Step, k: Key)
    requires k in s.records && k in s.hist && Ends(s, step, k)
    ensures step == Responds(k, step.now) || (step.Removes? && step.streamer == k.streamer)
            || Forgettable(s.records[k], step.now)
  {
    hide FoundDue, IsDue, Joined, Left, Forgettable;
    match step
    case Starts(x, player, now) => StartEnds(s, x, player, now, k);
    case _ =>
  }

  lemma StartEnds(s: System, x: Key, player: string, now: int, k: Key)
    requires k in s.records && k in s.hist && Ends(s, Starts(x, player, now), k)
    ensures Forgettable(s.records[k], now)
  {
    hide FoundDue, IsDue, Left;
  }

  // Over every run under a monotone clock: a record ends, or begins anew, only because the streamer
  // responded or was removed, or because nobody waited for more than five minutes.
  lemma ForgottenOnlyWhenIdle(steps: seq<Step>, start: int, step: Step, k: Key)
    requires Monotone(System(map[], map[], start), steps)
    requires var s := Run(System(map[], map[], start), steps); k in s.records && k in s.hist && Ends(s, step, k) && s.clock <= step.now
    ensures var s := Run(System(map[], map[], start), steps);
            || step == Responds(k, step.now) || (step.Removes? && step.streamer == k.streamer)
            || exists since :: since < step.now - FORGET_AFTER && IdleFrom(s.hist[k].events, since, step.now)
  {
    hide Matches, Monotone, Run, Ends, SomeoneWaits;
    var init := System(map[], map[], start);
    RunKeepsInv(init, steps);
    var s := Run(init, steps);
    EndsBecause(s, step, k);
    var r := s.records[k];
    if Forgettable(r, step.now) {
      forall t | r.lastSeen <= t <= step.now
        ensures !SomeoneWaits(s.hist[k].events, t)
      {
        NobodyWaits(r, s.hist[k], s.clock, t);
      }
      assert IdleFrom(s.hist[k].events, r.lastSeen, step.now);
    }
  }

  lemma NobodyWaits(r: Record, h: History, clock: int, t: int)
    requires Matches(r, h, clock) && r.players == {} && t >= r.lastSeen
    ensures !SomeoneWaits(h.events, t)
  {
    hide Waits, Waited;
  }
}
