// The runtime status publisher: one queue of tag writes, each of which is dropped when something
// newer has been asked for, and the commercial wrapper that keeps Ready back while the gate is
// blocked. Statuses are taken in the form in which both compare them.
module RuntimeStatus {
  import opened Wrappers

  const READY := "ready"
  const RESETTING := "resetting"

  datatype Update = Update(status: string, heartbeatOnly: bool)

  // A queued request: its sequence number, and the number of the request it is.
  datatype Task = Task(update: Update, sequence: nat, id: nat)

  // `attempted` lists the tasks whose tags were written, or could not be, in order.
  datatype Base = Base(desired: Option<string>, sequence: nat, queue: seq<Task>, attempted: seq<Task>, nextId: nat)

  const NEW_BASE := Base(None, 0, [], [], 0)

  predicate StaleHeartbeat(desired: Option<string>, u: Update) {
    u.heartbeatOnly && desired.Some? && desired.value != [] && u.status != desired.value
  }

  function BasePublish(b: Base, u: Update): Base {
    var sequence := if u.heartbeatOnly then b.sequence else b.sequence + 1;
    var desired := if u.heartbeatOnly then b.desired else Some(u.status);
    var b1 := b.(sequence := sequence, desired := desired, nextId := b.nextId + 1);
    if StaleHeartbeat(desired, u) then b1 else b1.(queue := b.queue + [Task(u, sequence, b.nextId)])
  }

  // What decides, when a task's turn comes, whether its tags are written.
  predicate Current(b: Base, t: Task) {
    t.sequence == b.sequence && !StaleHeartbeat(b.desired, t.update)
  }

  function Dequeue(b: Base): Base {
    if b.queue == [] then b
    else
      b.(queue := b.queue[1..], attempted := if Current(b, b.queue[0]) then b.attempted + [b.queue[0]] else b.attempted)
  }

  // ---- the wrapper ----

  // What the gate says when the wrapper asks.
  datatype Gate = Gate(blocked: bool, notBefore: Option<int>)

  datatype Wrapper = Wrapper(blockShown: bool, observed: Option<string>, pending: Option<Update>, timer: bool, base: Base)

  const NEW_WRAPPER := Wrapper(false, None, None, false, NEW_BASE)

  predicate PassesBy(w: Wrapper, u: Update) {
    u.heartbeatOnly && w.observed.Some? && w.observed.value != [] && u.status != w.observed.value
  }

  function Observe(w: Wrapper, u: Update): Wrapper {
    if u.heartbeatOnly then w
    else if u.status == READY then w.(observed := Some(u.status))
    else w.(observed := Some(u.status), pending := None, timer := false)
  }

  function Publish(w: Wrapper, u: Update, g: Gate): Wrapper {
    if PassesBy(w, u) then w.(base := BasePublish(w.base, u))
    else
      var w1 := Observe(w, u);
      if u.status == READY && g.blocked then
        var w2 := if g.notBefore.Some? then w1.(pending := Some(u.(heartbeatOnly := false)), timer := true) else w1;
        w2.(blockShown := true, base := BasePublish(w2.base, Update(RESETTING, w.blockShown && u.heartbeatOnly)))
      else if u.status == READY then
        w1.(blockShown := false, pending := None, timer := false,
            base := BasePublish(w1.base, if w.blockShown then u.(heartbeatOnly := false) else u))
      else
        w1.(base := BasePublish(w1.base, u))
  }

  // The release timer.
  function Release(w: Wrapper, g: Gate): Wrapper {
    if !w.timer then w
    else
      var w1 := w.(timer := false, pending := None);
      if w.pending.None? then w1 else Publish(w1, w.pending.value, g)
  }

  // ---- the objects ----

  class RuntimeStatusPublisher {
    var desiredStatus: Option<string>
    var desiredSequence: nat
    var publishQueue: seq<Task>
    var attempted: seq<Task>
    var nextId: nat

    constructor ()
      ensures Contents() == NEW_BASE
    {
      desiredStatus, desiredSequence, publishQueue, attempted, nextId := None, 0, [], [], 0;
    }

    function Contents(): Base
      reads this
    {
      Base(desiredStatus, desiredSequence, publishQueue, attempted, nextId)
    }

    // False when the request is dropped at once.
    method Publish(update: Update) returns (queued: bool)
      modifies this
      ensures Contents() == BasePublish(old(Contents()), update)
      ensures queued == (|publishQueue| > |old(publishQueue)|)
    {
      if !update.heartbeatOnly {
        desiredSequence := desiredSequence + 1;
        desiredStatus := Some(update.status);
      }
      var id := nextId;
      nextId := nextId + 1;
      if StaleHeartbeat(desiredStatus, update) {
        return false;
      }
      publishQueue := publishQueue + [Task(update, desiredSequence, id)];
      return true;
    }

    // The next task in the queue, when there is one.
    method RunNext()
      modifies this
      ensures Contents() == Dequeue(old(Contents()))
    {
      if publishQueue == [] {
        return;
      }
      var task := publishQueue[0];
      publishQueue := publishQueue[1..];
      if !task.update.heartbeatOnly && task.sequence != desiredSequence {
        return;
      }
      if StaleHeartbeat(desiredStatus, task.update) {
        return;
      }
      if task.update.heartbeatOnly && task.sequence != desiredSequence {
        return;
      }
      attempted := attempted + [task];
    }
  }

  class CommercialRuntimeStatusPublisher {
    const basePublisher: RuntimeStatusPublisher
    var blockShown: bool
    var observed: Option<string>
    var pending: Option<Update>
    var timer: bool

    constructor (basePublisher: RuntimeStatusPublisher)
      ensures this.basePublisher == basePublisher
      ensures Contents() == Wrapper(false, None, None, false, basePublisher.Contents())
    {
      this.basePublisher := basePublisher;
      blockShown, observed, pending, timer := false, None, None, false;
    }

    function Contents(): Wrapper
      reads this, basePublisher
    {
      Wrapper(blockShown, observed, pending, timer, basePublisher.Contents())
    }

    method CancelRelease()
      modifies this
      ensures pending.None? && !timer
      ensures blockShown == old(blockShown) && observed == old(observed)
    {
      pending, timer := None, false;
    }

    method PublishStatus(update: Update, gate: Gate) returns (queued: bool)
      modifies this, basePublisher
      ensures Contents() == Publish(old(Contents()), update, gate)
    {
      hide BasePublish;
      if update.heartbeatOnly && observed.Some? && observed.value != [] && update.status != observed.value {
        queued := basePublisher.Publish(update);
        return;
      }
      if !update.heartbeatOnly {
        observed := Some(update.status);
        if update.status != READY {
          CancelRelease();
        }
      }
      if update.status == READY && gate.blocked {
        if gate.notBefore.Some? {
          pending := Some(update.(heartbeatOnly := false));
          timer := true;
        }
        var wasAlreadyBlocked := blockShown;
        blockShown := true;
        queued := basePublisher.Publish(Update(RESETTING, if wasAlreadyBlocked then update.heartbeatOnly else false));
        return;
      }
      var forceReadyTransition := update.status == READY && blockShown;
      if update.status == READY {
        blockShown := false;
        CancelRelease();
      }
      queued := basePublisher.Publish(if forceReadyTransition then update.(heartbeatOnly := false) else update);
    }

    method OnReleaseTimer(gate: Gate)
      modifies this, basePublisher
      ensures Contents() == Release(old(Contents()), gate)
    {
      hide BasePublish;
      if !timer {
        return;
      }
      timer := false;
      var readyUpdate := pending;
      pending := None;
      if readyUpdate.Some? {
        var _ := PublishStatus(readyUpdate.value, gate);
      }
    }
  }
}
