// What each call on the codec evidence journal does, decided from the file, the memory and the outcome
// of the write.
module CodecEvidenceAnswers {
  import opened Wrappers
  import opened CodecEvidenceJournals

  // A file the constructor takes over: absent, or a list of at most `capacity` well-formed events with
  // positive numbers.
  predicate Acceptable(disk: Option<File>, capacity: nat) {
    disk.Some? ==>
      && disk.value.File? && |disk.value.items| <= capacity
      && forall i :: 0 <= i < |disk.value.items| ==> disk.value.items[i].Good? && disk.value.items[i].evidence.sequence > 0
  }

  // A journal opens in order exactly on a file it can read and accept, and can replace. It then holds
  // the events of the file, one by one.
  lemma OpensExactlyWhen(disk: Option<File>, capacity: nat, readable: bool, write: Write)
    ensures var j := Opened(disk, capacity, readable, write);
            && (!j.failed <==> readable && Acceptable(disk, capacity) && write.Replaced?)
            && (readable && Acceptable(disk, capacity) ==>
                  && |j.events| == (if disk.Some? then |disk.value.items| else 0)
                  && forall i :: 0 <= i < |j.events| ==> disk.value.items[i] == Good(j.events[i]))
            && (!(readable && Acceptable(disk, capacity)) ==> j.events == [])
            && (j.failed ==> j.disk == disk)
            && (!j.failed ==> j.disk.Some? && Holds(j.disk.value, j.events))
  {
    hide Items, Events, Readable, Acceptable;
    AcceptedIsReadable(disk, capacity);
  }

  lemma AcceptedIsReadable(disk: Option<File>, capacity: nat)
    ensures Acceptable(disk, capacity) <==> (disk.Some? ==> Readable(disk.value, capacity))
    ensures disk.Some? && Readable(disk.value, capacity) ==>
              disk.value.File? && forall i :: 0 <= i < |disk.value.items| ==> disk.value.items[i].Good?
  {
  }

  // The file lists these events.
  predicate Holds(f: File, events: seq<Evidence>) {
    f.File? && |f.items| == |events| && forall i :: 0 <= i < |events| ==> f.items[i] == Good(events[i])
  }

  // An event is recorded exactly while the journal is in order, below its capacity, and can replace the
  // file. A write that fails ends the order for good.
  lemma AppendsExactlyWhen(j: Journal, capacity: nat, e: Evidence, write: Write)
    ensures var (j', ok) := Appended(j, capacity, e, write);
            && (ok <==> !j.failed && |j.events| < capacity && write.Replaced?)
            && (ok ==> !j'.failed && j'.events == j.events + [e] && j'.disk.Some? && Holds(j'.disk.value, j'.events))
            && (!ok ==> j'.events == j.events && j'.disk == j.disk)
            && (!ok ==> (j'.failed <==> j.failed || |j.events| < capacity))
  {
  }

  // An acknowledgement takes the named events out of memory and file together, or neither. It fails
  // exactly when something is to be taken and the write fails, which ends the order.
  lemma AcknowledgesExactlyWhen(j: Journal, ids: set<nat>, write: Write)
    ensures var (j', ok) := Acknowledged(j, ids, write);
            var some := exists e :: e in j.events && e.eventId in ids;
            && (ok <==> !some || write.Replaced?)
            && (forall e :: e in j'.events <==> e in j.events && !(ok && e.eventId in ids))
            && (j'.failed <==> j.failed || !ok)
            && (ok && some ==> j'.disk.Some? && Holds(j'.disk.value, j'.events))
            && (!(ok && some) ==> j'.disk == j.disk && j'.events == j.events)
  {
    FewerExactlyWhen(j.events, ids);
  }

  lemma {:induction false} FewerExactlyWhen(events: seq<Evidence>, ids: set<nat>)
    ensures forall e :: e in Unacknowledged(events, ids) <==> e in events && e.eventId !in ids
    ensures |Unacknowledged(events, ids)| == |events| <==> forall e :: e in events ==> e.eventId !in ids
  {
    if events != [] {
      var front, last := events[..|events| - 1], events[|events| - 1];
      FewerExactlyWhen(front, ids);
      assert events == front + [last];
      assert last in events;
    }
  }

  // A batch holds the oldest events, fifty at most.
  lemma BatchIsOldest(j: Journal)
    ensures Batch(j) <= j.events
    ensures |Batch(j)| == if |j.events| < 50 then |j.events| else 50
  {
  }

  // The journal is ready while it is in order and more than twenty events short of its capacity.
  lemma ReadyExactlyWhen(j: Journal, capacity: nat)
    ensures Ready(j, capacity) <==> !j.failed && |j.events| + 20 < capacity
  {
  }
}
