// Unanswered waiting for a streamer, added up over the sockets of one signed request, and the
// fault raised once it reaches a minute.
module NegotiationRecoveries {
  import opened Wrappers

  const FAULT_AFTER := 60_000
  const FORGET_AFTER := 300_000

  // A streamer, and the session request that waits for it. Times are in milliseconds.
  datatype Key = Key(streamer: nat, request: string)

  datatype Record = Record(elapsed: int, since: int, lastSeen: int, players: set<string>, reported: bool)

  type Records = map<Key, Record>

  predicate Forgettable(r: Record, now: int) {
    r.players == {} && now - r.lastSeen > FORGET_AFTER
  }

  predicate IsDue(r: Record, now: int) {
    !r.reported && r.players != {} && r.elapsed + Max(0, now - r.since) >= FAULT_AFTER
  }

  function Pruned(rs: Records, now: int): Records {
    map k | k in rs && !Forgettable(rs[k], now) :: rs[k]
  }

  function Due(rs: Records, now: int): set<Key> {
    set k | k in rs && IsDue(rs[k], now)
  }

  function Reported(rs: Records, due: set<Key>): Records {
    map k | k in rs :: if k in due then rs[k].(reported := true) else rs[k]
  }

  // check: the records left, and the faults raised.
  function Checked(rs: Records, now: int): (Records, set<Key>) {
    var left := Pruned(rs, now);
    (Reported(left, Due(left, now)), Due(left, now))
  }

  function Joined(r: Record, player: string, now: int): Record {
    r.(since := if r.players == {} then now else r.since, players := r.players + {player}, lastSeen := now)
  }

  function Waiting(rs: Records, k: Key, player: string, now: int): Records {
    rs[k := Joined(if k in rs then rs[k] else Record(0, now, now, {}, false), player, now)]
  }

  function Started(rs: Records, k: Key, player: string, now: int): (Records, set<Key>) {
    if k.request == [] || player == [] then (rs, {})
    else Checked(Waiting(Pruned(rs, now), k, player, now), now)
  }

  function Left(r: Record, player: string, now: int): Record {
    var rest := r.players - {player};
    r.(players := rest, elapsed := if rest == {} then r.elapsed + Max(0, now - r.since) else r.elapsed, lastSeen := now)
  }

  function Abandoned(rs: Records, k: Key, player: string, now: int): Records {
    if k !in rs || player !in rs[k].players then rs else rs[k := Left(rs[k], player, now)]
  }

  function Responded(rs: Records, k: Key): Records {
    rs - {k}
  }

  function Removed(rs: Records, streamer: nat): Records {
    map k | k in rs && k.streamer != streamer :: rs[k]
  }

  // ---- the object ----

  class NegotiationRecovery {
    var requests: Records

    constructor ()
      ensures requests == map[]
    {
      requests := map[];
    }

    method Prune(now: int)
      modifies this
      ensures requests == Pruned(old(requests), now)
    {
      var left := requests.Keys;
      while left != {}
        invariant left <= old(requests).Keys
        invariant forall k :: k in requests <==> k in old(requests) && (k in left || !Forgettable(old(requests)[k], now))
        invariant forall k :: k in requests ==> requests[k] == old(requests)[k]
        decreases left
      {
        var k :| k in left;
        left := left - {k};
        if Forgettable(requests[k], now) {
          requests := requests - {k};
        }
      }
    }

    method Check(now: int) returns (faults: set<Key>)
      modifies this
      ensures (requests, faults) == Checked(old(requests), now)
    {
      Prune(now);
      faults := {};
      var left := requests.Keys;
      ghost var before := requests;
      while left != {}
        invariant left <= before.Keys && requests.Keys == before.Keys
        invariant forall k :: k in faults <==> k in before && k !in left && IsDue(before[k], now)
        invariant forall k :: k in before ==> requests[k] == if k in faults then before[k].(reported := true) else before[k]
        decreases left
      {
        var k :| k in left;
        left := left - {k};
        if IsDue(requests[k], now) {
          requests := requests[k := requests[k].(reported := true)];
          faults := faults + {k};
        }
      }
      assert faults == Due(before, now);
      assert requests == Reported(before, faults);
    }

    method Start(streamer: nat, request: string, player: string, now: int) returns (faults: set<Key>)
      modifies this
      ensures (requests, faults) == Started(old(requests), Key(streamer, request), player, now)
    {
      if request == [] || player == [] {
        return {};
      }
      Prune(now);
      var k := Key(streamer, request);
      if k !in requests {
        requests := requests[k := Record(0, now, now, {}, false)];
      }
      if requests[k].players == {} {
        requests := requests[k := requests[k].(since := now)];
      }
      requests := requests[k := requests[k].(players := requests[k].players + {player})];
      requests := requests[k := requests[k].(lastSeen := now)];
      assert requests == Waiting(Pruned(old(requests), now), k, player, now);
      faults := Check(now);
    }

    method Abandon(streamer: nat, request: string, player: string, now: int)
      modifies this
      ensures requests == Abandoned(old(requests), Key(streamer, request), player, now)
    {
      var k := Key(streamer, request);
      if k !in requests || player !in requests[k].players {
        return;
      }
      var r := requests[k].(players := requests[k].players - {player});
      if r.players == {} {
        r := r.(elapsed := r.elapsed + Max(0, now - r.since));
      }
      requests := requests[k := r.(lastSeen := now)];
    }

    method Respond(streamer: nat, request: string)
      modifies this
      ensures requests == Responded(old(requests), Key(streamer, request))
    {
      requests := requests - {Key(streamer, request)};
    }

    method Remove(streamer: nat)
      modifies this
      ensures requests == Removed(old(requests), streamer)
    {
      requests := map k | k in requests && k.streamer != streamer :: requests[k];
    }
  }
}
