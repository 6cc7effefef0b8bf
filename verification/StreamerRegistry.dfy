// The registry of streamers: every streamer has an id of its own, whatever they ask to be called.
module StreamerRegistries {
  import opened Wrappers
  import opened Decimals

  const DEFAULT_PREFIX := "UnknownStreamer"
  const MAX_SAFE_INTEGER: nat := 9007199254740991

  // The number by which a taken id extends the wanted one, if it is a usable one.
  function Postfix(id: string, taken: string): (p: Option<nat>)
    ensures p.Some? ==> p.value < MAX_SAFE_INTEGER
  {
    if id <= taken && AllDigits(taken[|id|..]) && Value(taken[|id|..]) < MAX_SAFE_INTEGER
    then Some(Value(taken[|id|..])) else None
  }

  // ---- the id a streamer gets ----

  function Wanted(id: string): string {
    if id == [] then DEFAULT_PREFIX else id
  }

  ghost predicate IsMaxPostfix(id: string, taken: set<string>, m: int) {
    && m >= -1
    && (m >= 0 ==> exists t :: t in taken && Postfix(id, t) == Some(m))
    && (forall t :: t in taken && Postfix(id, t).Some? ==> Postfix(id, t).value <= m)
  }

  function Candidate(id: string, m: int): string
    requires m >= -1
  {
    if m >= 0 then id + Decimal(m + 1) else id
  }

  // Candidates are tried in this order: the number after the greatest taken (or the id itself),
  // then 1, 2, 3 and so on; r is the first one free.
  ghost predicate FirstFree(id: string, taken: set<string>, m: int, r: string)
    requires m >= -1
  {
    if Candidate(id, m) !in taken then r == Candidate(id, m)
    else exists p: nat :: p >= 1 && r == id + Decimal(p) && r !in taken
                          && forall q: nat :: 1 <= q < p ==> id + Decimal(q) in taken
  }

  // `own` is the current id of the streamer that asks, when it is registered and so excluded from
  // the taken ids.
  ghost predicate IsSanitized(id: string, own: Option<string>, taken: set<string>, r: string) {
    var w := Wanted(id);
    if own == Some(w) && w !in taken then r == w
    else exists m :: IsMaxPostfix(w, taken, m) && FirstFree(w, taken, m, r)
  }

  lemma SanitizedIsFree(id: string, own: Option<string>, taken: set<string>, r: string)
    requires IsSanitized(id, own, taken, r)
    ensures r !in taken
    ensures Wanted(id) <= r && AllDigits(r[|Wanted(id)|..])
  {
    var w := Wanted(id);
    if !(own == Some(w) && w !in taken) {
      var m :| IsMaxPostfix(w, taken, m) && FirstFree(w, taken, m, r);
      if m >= 0 && Candidate(w, m) !in taken {
        ValueOfDecimal(m + 1);
        assert r[|w|..] == Decimal(m + 1);
      } else if Candidate(w, m) in taken {
        var p: nat :| p >= 1 && r == w + Decimal(p);
        ValueOfDecimal(p);
        assert r[|w|..] == Decimal(p);
      }
    }
  }

  lemma OneFirstFree(id: string, taken: set<string>, m: int, r1: string, r2: string)
    requires m >= -1 && FirstFree(id, taken, m, r1) && FirstFree(id, taken, m, r2)
    ensures r1 == r2
  {
    if Candidate(id, m) in taken {
      var p: nat :| p >= 1 && r1 == id + Decimal(p) && r1 !in taken
                    && forall q: nat :: 1 <= q < p ==> id + Decimal(q) in taken;
      var p': nat :| p' >= 1 && r2 == id + Decimal(p') && r2 !in taken
                     && forall q: nat :: 1 <= q < p' ==> id + Decimal(q) in taken;
      assert !(p < p') && !(p' < p);
    }
  }

  lemma SanitizedIsUnique(id: string, own: Option<string>, taken: set<string>, r1: string, r2: string)
    requires IsSanitized(id, own, taken, r1) && IsSanitized(id, own, taken, r2)
    ensures r1 == r2
  {
    hide FirstFree, Postfix;
    var w := Wanted(id);
    if !(own == Some(w) && w !in taken) {
      var m1 :| IsMaxPostfix(w, taken, m1) && FirstFree(w, taken, m1, r1);
      var m2 :| IsMaxPostfix(w, taken, m2) && FirstFree(w, taken, m2, r2);
      OneFirstFree(w, taken, m1, r1, r2);
    }
  }

  // A streamer that has been given an id and asks for the same one again keeps it.
  lemma RepeatIsStable(id: string, own: Option<string>, taken: set<string>, first: string, second: string)
    requires IsSanitized(id, own, taken, first)
    requires IsSanitized(id, Some(first), taken, second)
    ensures second == first
  {
    hide FirstFree, Postfix;
    var w := Wanted(id);
    SanitizedIsFree(id, own, taken, first);
    if own == Some(w) && w !in taken {
    } else if first != w {
      SanitizedIsUnique(id, None, taken, first, second);
    }
  }

  // An id nobody holds is granted as it is exactly when no taken id is it plus a usable number.
  lemma GrantedAsAsked(id: string, taken: set<string>, r: string)
    requires IsSanitized(id, None, taken, r)
    ensures r == Wanted(id) <==> forall t :: t in taken ==> Postfix(Wanted(id), t).None?
  {
    var w := Wanted(id);
    assert w[|w|..] == [] && Postfix(w, w) == Some(0);
    var m :| IsMaxPostfix(w, taken, m) && FirstFree(w, taken, m, r);
    if m >= 0 {
      assert r != w by {
        if Candidate(w, m) in taken {
          var p: nat :| p >= 1 && r == w + Decimal(p);
        }
      }
    }
  }

  // ---- the registry ----

  class Streamer {
    var streamerId: string

    constructor ()
      ensures streamerId == []
    {
      streamerId := [];
    }
  }

  // What the consumer's authorizer answers, if there is one: an id, or anything that is not one
  // (null, the empty string, an exception).
  datatype Authorizer = Absent | Commits(id: string) | Rejects

  function IdsOf(streamers: seq<Streamer>, excluded: Streamer?): (ids: set<string>)
    reads streamers
    ensures forall k :: 0 <= k < |streamers| && streamers[k] != excluded ==> streamers[k].streamerId in ids
    ensures forall id :: id in ids ==> exists k :: 0 <= k < |streamers| && streamers[k] != excluded && streamers[k].streamerId == id
  {
    set k | 0 <= k < |streamers| && streamers[k] != excluded :: streamers[k].streamerId
  }

  // Ends because the numbered candidates are all different and only finitely many ids are taken.
  method FreeCandidate(id: string, existing: set<string>, m: int) returns (r: string)
    requires m >= -1
    ensures FirstFree(id, existing, m, r)
  {
    hide Candidate, Decimal;
    r := Candidate(id, m);
    if r !in existing {
      return;
    }
    var next := 1;
    r := id + Decimal(next);
    ghost var left := existing;
    while r in existing
      invariant next >= 1 && r == id + Decimal(next)
      invariant forall q: nat :: 1 <= q < next ==> id + Decimal(q) in existing
      invariant left <= existing
      invariant forall q: nat :: q >= next && id + Decimal(q) in existing ==> id + Decimal(q) in left
      decreases left
    {
      forall q: nat | q > next
        ensures id + Decimal(q) != r
      {
        if id + Decimal(q) == r {
          SuffixInjective(id, q, next);
        }
      }
      left := left - {r};
      next := next + 1;
      r := id + Decimal(next);
    }
    assert next >= 1 && r == id + Decimal(next);
  }

  class StreamerRegistry {
    var streamers: seq<Streamer>

    constructor ()
      ensures Valid() && streamers == []
    {
      streamers := [];
    }

    ghost predicate Valid()
      reads this, streamers
    {
      forall i, j :: 0 <= i < j < |streamers| ==>
        streamers[i] != streamers[j] && streamers[i].streamerId != streamers[j].streamerId
    }

    function Find(id: string): (s: Streamer?)
      reads this, streamers
      ensures s == null <==> forall k :: 0 <= k < |streamers| ==> streamers[k].streamerId != id
      ensures s != null ==> s in streamers && s.streamerId == id
    {
      FindFrom(id, 0)
    }

    function FindFrom(id: string, i: nat): (s: Streamer?)
      requires i <= |streamers|
      reads this, streamers
      ensures s == null <==> forall k :: i <= k < |streamers| ==> streamers[k].streamerId != id
      ensures s != null ==> s in streamers && s.streamerId == id
      decreases |streamers| - i
    {
      if i == |streamers| then null
      else if streamers[i].streamerId == id then streamers[i]
      else FindFrom(id, i + 1)
    }

    method MaxPostfix(id: string, existing: set<string>) returns (m: int)
      ensures IsMaxPostfix(id, existing, m)
    {
      hide Postfix;
      m := -1;
      var left := existing;
      while left != {}
        invariant left <= existing
        invariant IsMaxPostfix(id, existing - left, m)
        decreases |left|
      {
        var t :| t in left;
        ghost var m0 := m;
        var p := Postfix(id, t);
        if p.Some? {
          m := Max(m, p.value);
        }
        if m == m0 && m >= 0 {
          var u :| u in existing - left + {t} && Postfix(id, u) == Some(m);
          assert u in existing - (left - {t});
        } else if m >= 0 {
          assert t in existing - (left - {t});
        }
        left := left - {t};
      }
      assert existing - left == existing;
    }

    method SanitizeStreamerId(id: string, excluded: Streamer?) returns (r: string)
      ensures IsSanitized(id, if excluded == null then None else Some(excluded.streamerId), IdsOf(streamers, excluded), r)
    {
      hide FirstFree, Postfix;
      var w := Wanted(id);
      var existing := IdsOf(streamers, excluded);
      if excluded != null && excluded.streamerId == w && w !in existing {
        return w;
      }
      var m := MaxPostfix(w, existing);
      r := FreeCandidate(w, existing, m);
    }

    // Never fails: sanitizing leaves an unused id.
    method Add(streamer: Streamer) returns (ok: bool)
      requires Valid() && streamer !in streamers
      modifies this, streamer
      ensures Valid() && ok
      ensures streamers == old(streamers) + [streamer]
      ensures IsSanitized(old(streamer.streamerId), None, old(IdsOf(streamers, null)), streamer.streamerId)
    {
      hide IsSanitized, Find, FindFrom, IdsOf;
      var id := SanitizeStreamerId(streamer.streamerId, null);
      NotTaken(streamer.streamerId, None, null, id);
      streamer.streamerId := id;
      var found := Find(streamer.streamerId);
      if found != null {
        return false;
      }
      streamers := streamers + [streamer];
      ok := true;
    }

    lemma NotTaken(wanted: string, own: Option<string>, excluded: Streamer?, id: string)
      requires IsSanitized(wanted, own, IdsOf(streamers, excluded), id)
      ensures forall k :: 0 <= k < |streamers| && streamers[k] != excluded ==> streamers[k].streamerId != id
    {
      hide IsSanitized, IdsOf;
      SanitizedIsFree(wanted, own, IdsOf(streamers, excluded), id);
    }

    method Remove(streamer: Streamer) returns (ok: bool)
      requires Valid()
      modifies this
      ensures Valid()
      ensures ok <==> streamer in old(streamers)
      ensures streamer !in streamers
      ensures forall s :: s in old(streamers) && s != streamer ==> s in streamers
      ensures |streamers| == |old(streamers)| - (if ok then 1 else 0)
    {
      var i := 0;
      while i < |streamers|
        invariant 0 <= i <= |streamers|
        invariant forall k :: 0 <= k < i ==> streamers[k] != streamer
      {
        if streamers[i] == streamer {
          ghost var was := streamers;
          streamers := streamers[..i] + streamers[i + 1..];
          forall s | s in was && s != streamer
            ensures s in streamers
          {
            var k :| 0 <= k < |was| && was[k] == s;
            assert s == streamers[if k < i then k else k - 1];
          }
          return true;
        }
        i := i + 1;
      }
      ok := false;
    }

    // Whether a streamer other than this one holds the id.
    ghost predicate HeldByOther(streamer: Streamer, id: string)
      reads this, streamers
    {
      exists k :: 0 <= k < |streamers| && streamers[k] != streamer && streamers[k].streamerId == id
    }

    lemma NotHeld(streamer: Streamer, id: string)
      requires forall k :: 0 <= k < |streamers| && streamers[k] != streamer ==> streamers[k].streamerId != id
      ensures !HeldByOther(streamer, id)
    {
    }

    // The id to commit; None when the registration is rejected.
    method Authorize(streamer: Streamer, sanitized: string, authorizer: Authorizer) returns (committed: Option<string>)
      requires Valid() && !HeldByOther(streamer, sanitized)
      ensures committed.None? <==> authorizer.Rejects? || authorizer == Commits([])
                                   || (authorizer.Commits? && HeldByOther(streamer, authorizer.id))
      ensures committed.Some? ==> committed.value == (if authorizer.Commits? then authorizer.id else sanitized)
                                  && !HeldByOther(streamer, committed.value)
    {
      hide Find, FindFrom;
      if authorizer.Absent? {
        return Some(sanitized);
      }
      if authorizer.Rejects? || authorizer.id == [] {
        return None;
      }
      var existing := Find(authorizer.id);
      if existing != null && existing != streamer {
        return None;
      }
      committed := Some(authorizer.id);
    }

    method Rename(streamer: Streamer, id: string)
      requires Valid() && !HeldByOther(streamer, id)
      modifies streamer
      ensures Valid() && streamer.streamerId == id
    {
      streamer.streamerId := id;
    }

    // The streamer is removed and disconnected.
    method Drop(streamer: Streamer)
      requires Valid()
      modifies this
      ensures Valid() && streamer !in streamers
    {
      var _ := Remove(streamer);
    }

    // A message that names the streamer. `id` is None when it is not a string; the result is false
    // when the streamer is removed and disconnected.
    method OnEndpointId(streamer: Streamer, id: Option<string>, authorizer: Authorizer) returns (kept: bool)
      requires Valid()
      modifies this, streamer
      ensures Valid()
      ensures kept ==> streamers == old(streamers)
      ensures !kept ==> streamer !in streamers && streamer.streamerId == old(streamer.streamerId)
      ensures kept && authorizer.Commits? ==> authorizer.id != [] && streamer.streamerId == authorizer.id
      ensures kept && !authorizer.Commits? ==>
                authorizer.Absent? && id.Some?
                && IsSanitized(id.value, Some(old(streamer.streamerId)), old(IdsOf(streamers, streamer)), streamer.streamerId)
      ensures !kept <==> id.None? || authorizer.Rejects? || authorizer == Commits([])
                         || (authorizer.Commits? && old(HeldByOther(streamer, authorizer.id)))
    {
      hide IsSanitized, IdsOf, Valid, HeldByOther;
      if id.None? {
        Drop(streamer);
        return false;
      }
      var sanitized := SanitizeStreamerId(id.value, streamer);
      NotTaken(id.value, Some(streamer.streamerId), streamer, sanitized);
      NotHeld(streamer, sanitized);
      var committed := Authorize(streamer, sanitized, authorizer);
      if committed.None? {
        Drop(streamer);
        return false;
      }
      Rename(streamer, committed.value);
      kept := true;
    }
  }
}
