// The journal of elapsed reconnect-grace evidence: a file replaced on every change, retried
// oldest first, one record at a time in turn, until each is acknowledged.
module GraceEvidence {
  import opened Wrappers

  // A record in normal form. `content` stands for everything but its id.
  datatype Evidence = Evidence(id: string, content: int)

  // What is in the file: the records of a journal of the right shape and schema, or anything else.
  datatype File = Records(evidences: seq<Evidence>) | Garbage

  datatype Store = Store(visible: Option<File>, synced: Option<File>)

  // The change may be lost, or be in place without the directory being synced, which is reported
  // as a failure, or be complete.
  datatype Outcome = Lost | LandedUnsynced | Landed

  datatype Io = Io(readable: bool, outcome: Outcome)

  datatype Found = Missing | Valid(evidences: seq<Evidence>) | Invalid

  predicate DistinctIds(es: seq<Evidence>) {
    forall i, j :: 0 <= i < j < |es| ==> es[i].id != es[j].id
  }

  function Inspect(st: Store, readable: bool): Found {
    if !readable then Invalid
    else if st.visible.None? then Missing
    else if st.visible.value.Records? && DistinctIds(st.visible.value.evidences) then Valid(st.visible.value.evidences)
    else Invalid
  }

  // readJournal: None for an invalid journal, no records for a missing one.
  function Read(st: Store, readable: bool): Option<seq<Evidence>> {
    match Inspect(st, readable)
    case Missing => Some([])
    case Valid(es) => Some(es)
    case Invalid => None
  }

  function Changed(st: Store, file: Option<File>, o: Outcome): (Store, bool) {
    match o
    case Lost => (st, false)
    case LandedUnsynced => (st.(visible := file), false)
    case Landed => (Store(file, file), true)
  }

  function Replace(st: Store, es: seq<Evidence>, o: Outcome): (Store, Option<seq<Evidence>>) {
    var (st', ok) := Changed(st, Some(Records(es)), o);
    (st', if ok then Some(es) else None)
  }

  function Without(es: seq<Evidence>, id: string): (r: seq<Evidence>)
    ensures forall e :: e in r <==> e in es && e.id != id
    ensures |r| <= |es|
  {
    if es == [] then []
    else if es[0].id == id then Without(es[1..], id)
    else [es[0]] + Without(es[1..], id)
  }

  predicate Holds(es: seq<Evidence>, id: string) {
    exists i :: 0 <= i < |es| && es[i].id == id
  }

  // The record of that id; the first, were there several.
  function Find(es: seq<Evidence>, id: string): (e: Evidence)
    requires Holds(es, id)
    ensures e in es && e.id == id
  {
    if es[0].id == id then es[0]
    else
      assert Holds(es[1..], id) by {
        var i :| 0 <= i < |es| && es[i].id == id;
        assert es[1..][i - 1].id == id;
      }
      Find(es[1..], id)
  }

  // None for a record that is not in order.
  function Appended(st: Store, evidence: Option<Evidence>, io: Io): (Store, Option<seq<Evidence>>) {
    if evidence.None? then (st, None)
    else
      var e := evidence.value;
      match Read(st, io.readable)
      case None => (st, None)
      case Some(current) =>
        if Holds(current, e.id) then
          if Find(current, e.id) != e then (st, None)
          else if io.outcome.Landed? then (st.(synced := st.visible), Some(current))
          else (st, None)
        else Replace(st, current + [e], io.outcome)
  }

  function Removed(st: Store, id: string, io: Io): (Store, Option<seq<Evidence>>) {
    match Read(st, io.readable)
    case None => (st, None)
    case Some(current) =>
      if !Holds(current, id) then (st, Some(current))
      else
        var next := Without(current, id);
        if next != [] then Replace(st, next, io.outcome)
        else
          var (st', ok) := Changed(st, None, io.outcome);
          (st', if ok then Some([]) else None)
  }

  function Rotated(st: Store, id: string, io: Io): (Store, Option<seq<Evidence>>) {
    match Read(st, io.readable)
    case None => (st, None)
    case Some(current) =>
      if !Holds(current, id) || |current| <= 1 || current[|current| - 1].id == id then (st, Some(current))
      else Replace(st, Without(current, id) + [Find(current, id)], io.outcome)
  }

  // ---- the agent's copy ----

  datatype Agent = Agent(evidences: seq<Evidence>, blocked: bool)

  // `preflight` says that a missing journal was expected to be there.
  function Started(st: Store, readable: bool, preflight: bool): Agent {
    match Inspect(st, readable)
    case Valid(es) => Agent(es, false)
    case Missing => Agent([], preflight)
    case Invalid => Agent([], true)
  }

  // refreshReconnectGraceElapsedEvidenceJournalHealth
  function Refreshed(a: Agent, st: Store, readable: bool): (Agent, bool) {
    match Inspect(st, readable)
    case Invalid => (a.(blocked := true), false)
    case Missing => if a.blocked || a.evidences != [] then (a.(blocked := true), false) else (a, true)
    case Valid(es) => (Agent(es, false), true)
  }

  // recordReconnectGraceElapsedEvidence; true when the record is kept.
  function Recorded(a: Agent, st: Store, e: Option<Evidence>, first: bool, io: Io, again: bool): (Agent, Store, bool) {
    var (a1, healthy) := if a.blocked then Refreshed(a, st, first) else (a, true);
    if !healthy then (a1, st, false)
    else
      var (st', pending) := Appended(st, e, io);
      if pending.None? then (Refreshed(a1, st', again).0, st', false)
      else (Agent(pending.value, false), st', true)
  }

  // The reply to a request that submitted a record. `cutoff` says whether the ticket cutoff could
  // be persisted. The last component says whether the record has been dealt with.
  function Answered(a: Agent, st: Store, submitted: Option<Evidence>, ack: Option<string>, cutoff: bool, io: Io, again: bool)
    : (Agent, Store)
  {
    if submitted.None? then (a, st)
    else
      var id := submitted.value.id;
      if ack == Some(id) then
        if !cutoff then (a, st)
        else
          var (st', remaining) := Removed(st, id, io);
          if remaining.None? || Holds(remaining.value, id) then (Refreshed(a, st', again).0, st')
          else (a.(evidences := remaining.value), st')
      else
        var (st', rotated) := Rotated(st, id, io);
        if rotated.None? then (Refreshed(a, st', again).0, st')
        else (a.(evidences := rotated.value), st')
  }

  // ---- the object ----

  class EvidenceFile {
    var visible: Option<File>
    var synced: Option<File>

    constructor ()
      ensures Contents() == Store(None, None)
    {
      visible, synced := None, None;
    }

    function Contents(): Store
      reads this
    {
      Store(visible, synced)
    }

    // Write a new file and rename it into place, or unlink; then sync the directory.
    method Change(file: Option<File>, o: Outcome) returns (ok: bool)
      modifies this
      ensures (Contents(), ok) == Changed(old(Contents()), file, o)
    {
      if o.Lost? {
        return false;
      }
      visible := file;
      if o.LandedUnsynced? {
        return false;
      }
      synced := visible;
      return true;
    }

    method Append(evidence: Option<Evidence>, io: Io) returns (r: Option<seq<Evidence>>)
      modifies this
      ensures (Contents(), r) == Appended(old(Contents()), evidence, io)
    {
      if evidence.None? {
        return None;
      }
      var current := Read(Contents(), io.readable);
      if current.None? {
        return None;
      }
      if Holds(current.value, evidence.value.id) {
        if Find(current.value, evidence.value.id) != evidence.value || !io.outcome.Landed? {
          return None;
        }
        synced := visible;
        return current;
      }
      var next := current.value + [evidence.value];
      var ok := Change(Some(Records(next)), io.outcome);
      r := if ok then Some(next) else None;
    }

    method Remove(id: string, io: Io) returns (r: Option<seq<Evidence>>)
      modifies this
      ensures (Contents(), r) == Removed(old(Contents()), id, io)
    {
      var current := Read(Contents(), io.readable);
      if current.None? || !Holds(current.value, id) {
        return current;
      }
      var next := Without(current.value, id);
      var ok := Change(if next != [] then Some(Records(next)) else None, io.outcome);
      r := if ok then Some(next) else None;
    }

    method Rotate(id: string, io: Io) returns (r: Option<seq<Evidence>>)
      modifies this
      ensures (Contents(), r) == Rotated(old(Contents()), id, io)
    {
      var current := Read(Contents(), io.readable);
      if current.None? || !Holds(current.value, id) || |current.value| <= 1
         || current.value[|current.value| - 1].id == id {
        return current;
      }
      var next := Without(current.value, id) + [Find(current.value, id)];
      var ok := Change(Some(Records(next)), io.outcome);
      r := if ok then Some(next) else None;
    }
  }

  class ReconnectGraceEvidence {
    const file: EvidenceFile
    var evidences: seq<Evidence>
    var blocked: bool

    function Variables(): Agent
      reads this
    {
      Agent(evidences, blocked)
    }

    constructor (file: EvidenceFile, readable: bool, preflight: bool)
      ensures this.file == file && Variables() == Started(file.Contents(), readable, preflight)
    {
      this.file := file;
      var found := Inspect(file.Contents(), readable);
      evidences := if found.Valid? then found.evidences else [];
      blocked := found.Invalid? || (found.Missing? && preflight);
    }

    method Refresh(readable: bool) returns (healthy: bool)
      modifies this
      ensures (Variables(), healthy) == Refreshed(old(Variables()), file.Contents(), readable)
    {
      var found := Inspect(file.Contents(), readable);
      if found.Invalid? || (found.Missing? && (blocked || evidences != [])) {
        blocked := true;
        return false;
      }
      if found.Valid? {
        evidences, blocked := found.evidences, false;
      }
      return true;
    }

    method Record(e: Option<Evidence>, first: bool, io: Io, again: bool) returns (kept: bool)
      modifies this, file
      ensures (Variables(), file.Contents(), kept) == Recorded(old(Variables()), old(file.Contents()), e, first, io, again)
    {
      hide Appended, Inspect;
      if blocked {
        var healthy := Refresh(first);
        if !healthy {
          return false;
        }
      }
      var pending := file.Append(e, io);
      if pending.None? {
        var _ := Refresh(again);
        return false;
      }
      evidences, blocked := pending.value, false;
      return true;
    }

    method HandleResponse(submitted: Option<Evidence>, ack: Option<string>, cutoff: bool, io: Io, again: bool)
      modifies this, file
      ensures (Variables(), file.Contents()) ==
              Answered(old(Variables()), old(file.Contents()), submitted, ack, cutoff, io, again)
    {
      hide Removed, Rotated, Inspect;
      if submitted.None? {
        return;
      }
      var id := submitted.value.id;
      if ack == Some(id) {
        if !cutoff {
          return;
        }
        var remaining := file.Remove(id, io);
        if remaining.None? || Holds(remaining.value, id) {
          var _ := Refresh(again);
          return;
        }
        evidences := remaining.value;
        return;
      }
      var rotated := file.Rotate(id, io);
      if rotated.None? {
        var _ := Refresh(again);
        return;
      }
      evidences := rotated.value;
    }
  }
}
