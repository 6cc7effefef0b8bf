// What one request does to the publisher and its wrapper, case by case.
module RuntimeStatusAnswers {
  import opened Wrappers
  import opened RuntimeStatus

  // ---- the base publisher ----

  // The base publisher after a request. A transition takes the next sequence number and becomes the
  // desired status. A heartbeat is queued under the current number, unless another status is desired.
  ghost predicate Requested(b: Base, b': Base, u: Update) {
    && b'.nextId == b.nextId + 1 && b'.attempted == b.attempted
    && (!u.heartbeatOnly ==>
          && b'.sequence == b.sequence + 1 && b'.desired == Some(u.status)
          && b'.queue == b.queue + [Task(u, b.sequence + 1, b.nextId)])
    && (u.heartbeatOnly ==>
          && b'.sequence == b.sequence && b'.desired == b.desired
          && b'.queue == if b.desired.Some? && b.desired.value != "" && b.desired.value != u.status then b.queue
                         else b.queue + [Task(u, b.sequence, b.nextId)])
  }

  lemma RequestIs(b: Base, u: Update)
    ensures Requested(b, BasePublish(b, u), u)
  {
  }

  // The request at the front of the queue is attempted exactly when no transition was asked for since, and it is not a
  // heartbeat of another status than the desired one. Either way it leaves the queue.
  lemma TurnIs(b: Base)
    ensures b.queue == [] ==> Dequeue(b) == b
    ensures b.queue != [] ==>
            var t := b.queue[0];
            && Dequeue(b).queue == b.queue[1..]
            && Dequeue(b).attempted ==
               (if t.sequence == b.sequence
                   && !(t.update.heartbeatOnly && b.desired.Some? && b.desired.value != "" && b.desired.value != t.update.status)
                then b.attempted + [t] else b.attempted)
            && Dequeue(b).sequence == b.sequence && Dequeue(b).desired == b.desired && Dequeue(b).nextId == b.nextId
  {
  }

  // ---- the wrapper ----

  // A heartbeat of another status than the one asked for last only passes by.
  predicate Outdated(w: Wrapper, u: Update) {
    u.heartbeatOnly && w.observed.Some? && w.observed.value != "" && w.observed.value != u.status
  }

  lemma OutdatedPassesBy(w: Wrapper, u: Update, g: Gate)
    requires Outdated(w, u)
    ensures Requested(w.base, Publish(w, u, g).base, u) && Publish(w, u, g) == w.(base := Publish(w, u, g).base)
  {
    RequestIs(w.base, u);
  }

  // Ready while the gate is blocked: resetting is asked for, as a transition unless the block was shown
  // before. When the gate tells the instant of its release, the timer is armed with this Ready.
  lemma BlockedReadyArms(w: Wrapper, u: Update, g: Gate)
    requires u.status == "ready" && g.blocked && !Outdated(w, u)
    ensures var w' := Publish(w, u, g);
            && Requested(w.base, w'.base, Update("resetting", u.heartbeatOnly && w.blockShown))
            && w'.blockShown
            && w'.observed == (if u.heartbeatOnly then w.observed else Some("ready"))
            && (g.notBefore.Some? ==> w'.timer && w'.pending == Some(Update("ready", false)))
            && (g.notBefore.None? ==> w'.timer == w.timer && w'.pending == w.pending)
  {
    hide BasePublish;
    RequestIs(w.base, Update("resetting", u.heartbeatOnly && w.blockShown));
  }

  // Ready while the gate is open is asked for, as a transition if the block had been shown, and
  // disarms the timer.
  lemma OpenReadyPublishes(w: Wrapper, u: Update, g: Gate)
    requires u.status == "ready" && !g.blocked && !Outdated(w, u)
    ensures var w' := Publish(w, u, g);
            && Requested(w.base, w'.base, Update("ready", u.heartbeatOnly && !w.blockShown))
            && !w'.blockShown && w'.pending.None? && !w'.timer
            && w'.observed == (if u.heartbeatOnly then w.observed else Some("ready"))
  {
    hide BasePublish;
    RequestIs(w.base, Update("ready", u.heartbeatOnly && !w.blockShown));
  }

  // Any other status is asked for as it is. A transition disarms the timer; the block stays shown.
  lemma OtherStatusPublishes(w: Wrapper, u: Update, g: Gate)
    requires u.status != "ready" && !Outdated(w, u)
    ensures var w' := Publish(w, u, g);
            && Requested(w.base, w'.base, u) && w'.blockShown == w.blockShown
            && (if u.heartbeatOnly then w'.pending == w.pending && w'.timer == w.timer && w'.observed == w.observed
                else w'.pending.None? && !w'.timer && w'.observed == Some(u.status))
  {
    hide BasePublish;
    RequestIs(w.base, u);
  }

  // An armed timer that fires is disarmed, and asks for the Ready it was armed with: published if the
  // gate is open now, and otherwise as resetting, with the timer armed anew if the gate tells when.
  lemma TimerIs(w: Wrapper, g: Gate)
    requires w.timer ==> w.pending == Some(Update("ready", false))
    ensures !w.timer ==> Release(w, g) == w
    ensures w.timer ==>
            var w' := Release(w, g);
            && Requested(w.base, w'.base, Update(if g.blocked then "resetting" else "ready", false))
            && w'.blockShown == g.blocked && w'.observed == Some("ready")
            && (w'.timer <==> g.blocked && g.notBefore.Some?)
            && w'.pending == (if g.blocked && g.notBefore.Some? then Some(Update("ready", false)) else None)
  {
    hide BasePublish;
    RequestIs(w.base, Update("resetting", false));
    RequestIs(w.base, Update("ready", false));
  }
}
