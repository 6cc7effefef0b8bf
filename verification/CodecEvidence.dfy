// The journal of codec evidence: a file that is replaced on every change, its copy in memory, and
// the sequence numbers each connection gives to what it records.
module CodecEvidenceJournals {
  import opened Wrappers

  const BATCH := 50
  const RESERVE := 20

  datatype Evidence = Evidence(eventId: nat, connection: nat, sequence: int, sessionRequestId: string, eventType: string)

  // What a file may hold: a list of events, some of them perhaps malformed, or no such list.
  datatype Item = Good(evidence: Evidence) | Malformed
  datatype File = File(items: seq<Item>) | NotAList

  // persist replaces the file or fails before the rename; a crash may come on either side of it.
  datatype Write = Replaced | Failed

  function Items(events: seq<Evidence>): (items: seq<Item>)
    ensures |items| == |events| && forall i :: 0 <= i < |events| ==> items[i] == Good(events[i])
  {
    if events == [] then [] else Items(events[..|events| - 1]) + [Good(events[|events| - 1])]
  }

  function Events(items: seq<Item>): (events: seq<Evidence>)
    requires forall i :: 0 <= i < |items| ==> items[i].Good?
    ensures |items| == |events| && forall i :: 0 <= i < |events| ==> events[i] == items[i].evidence
  {
    if items == [] then [] else Events(items[..|items| - 1]) + [items[|items| - 1].evidence]
  }

  // What the constructor accepts.
  predicate Readable(f: File, capacity: nat) {
    f.File? && |f.items| <= capacity && forall i :: 0 <= i < |f.items| ==> f.items[i].Good? && f.items[i].evidence.sequence >= 1
  }

  function Unacknowledged(events: seq<Evidence>, ids: set<nat>): (r: seq<Evidence>)
    ensures |r| <= |events|
  {
    if events == [] then []
    else
      var front, last := events[..|events| - 1], events[|events| - 1];
      Unacknowledged(front, ids) + if last.eventId in ids then [] else [last]
  }

  // `disk` is the file, None when there is none.
  datatype Journal = Journal(events: seq<Evidence>, failed: bool, disk: Option<File>)

  function Opened(disk: Option<File>, capacity: nat, readable: bool, write: Write): Journal {
    if !readable || (disk.Some? && !Readable(disk.value, capacity)) then Journal([], true, disk)
    else
      var events := if disk.Some? then Events(disk.value.items) else [];
      if write.Failed? then Journal(events, true, disk) else Journal(events, false, Some(File(Items(events))))
  }

  // The second component is false for an exception.
  function Appended(j: Journal, capacity: nat, e: Evidence, write: Write): (Journal, bool) {
    if j.failed || |j.events| >= capacity then (j, false)
    else if write.Failed? then (j.(failed := true), false)
    else (Journal(j.events + [e], false, Some(File(Items(j.events + [e])))), true)
  }

  function Acknowledged(j: Journal, ids: set<nat>, write: Write): (Journal, bool) {
    var next := Unacknowledged(j.events, ids);
    if |next| == |j.events| then (j, true)
    else if write.Failed? then (j.(failed := true), false)
    else (Journal(next, j.failed, Some(File(Items(next)))), true)
  }

  function Batch(j: Journal): seq<Evidence> {
    if |j.events| <= BATCH then j.events else j.events[..BATCH]
  }

  predicate Ready(j: Journal, capacity: nat) {
    !j.failed && |j.events| < capacity - RESERVE
  }

  // ---- the object ----

  class CodecEvidenceJournal {
    const capacity: nat
    var events: seq<Evidence>
    var failed: bool
    var disk: Option<File>

    function Contents(): Journal
      reads this
    {
      Journal(events, failed, disk)
    }

    constructor (disk: Option<File>, capacity: nat, readable: bool, write: Write)
      ensures this.capacity == capacity
      ensures Contents() == Opened(disk, capacity, readable, write)
    {
      this.capacity, this.disk := capacity, disk;
      events, failed := [], false;
      new;
      if !readable {
        failed := true;
        return;
      }
      if disk.Some? {
        if !Readable(disk.value, capacity) {
          failed := true;
          return;
        }
        events := Events(disk.value.items);
      }
      var _ := Persist(events, write);
    }

    method Persist(next: seq<Evidence>, write: Write) returns (ok: bool)
      modifies this`disk, this`failed
      ensures ok == write.Replaced?
      ensures disk == (if ok then Some(File(Items(next))) else old(disk)) && failed == (old(failed) || !ok)
    {
      if write.Failed? {
        failed := true;
        return false;
      }
      disk := Some(File(Items(next)));
      return true;
    }

    method Append(event: Evidence, write: Write) returns (ok: bool)
      modifies this
      ensures (Contents(), ok) == Appended(old(Contents()), capacity, event, write)
    {
      if failed || |events| >= capacity {
        return false;
      }
      var next := events + [event];
      ok := Persist(next, write);
      if ok {
        events := next;
      }
    }

    method Acknowledge(ids: set<nat>, write: Write) returns (ok: bool)
      modifies this
      ensures (Contents(), ok) == Acknowledged(old(Contents()), ids, write)
    {
      var next: seq<Evidence> := [];
      for i := 0 to |events|
        invariant next == Unacknowledged(events[..i], ids)
      {
        assert events[..i + 1][..i] == events[..i];
        if events[i].eventId !in ids {
          next := next + [events[i]];
        }
      }
      assert events[..|events|] == events;
      if |next| == |events| {
        return true;
      }
      ok := Persist(next, write);
      if ok {
        events := next;
      }
    }
  }
}
