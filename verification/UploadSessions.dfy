/** When an upload session counts as idle (internal/uploadsession/session.go).
    Times are in milliseconds. */
module UploadSessions {
  import opened Options

  const TAKEOVER_IDLE := 5 * 60 * 1000
  const CLEANUP_IDLE := 15 * 60 * 1000

  /** The predicate of both candidate selection and fenced deletion. */
  predicate Inactive(createdAt: int, lastPartAt: Option<int>, cutoff: int) {
    createdAt < cutoff && (lastPartAt.None? || lastPartAt.value < cutoff)
  }

  /** The session was created, or its activity renewed, at `time` or later. */
  predicate ActiveSince(createdAt: int, lastPartAt: Option<int>, time: int) {
    createdAt >= time || (lastPartAt.Some? && lastPartAt.value >= time)
  }

  /** A session is idle exactly when it has shown no activity since. */
  lemma IdleExactly(createdAt: int, lastPartAt: Option<int>, cutoff: int)
    ensures Inactive(createdAt, lastPartAt, cutoff) <==> !ActiveSince(createdAt, lastPartAt, cutoff)
  {
  }

  /** A session that showed activity at `time` is safe from takeovers for five
      minutes and from cleanup for fifteen, and cleanup never removes what a
      takeover would not. */
  lemma ActivityProtects(createdAt: int, lastPartAt: Option<int>, time: int, now: int)
    ensures ActiveSince(createdAt, lastPartAt, time) && now <= time + TAKEOVER_IDLE ==>
              !Inactive(createdAt, lastPartAt, now - TAKEOVER_IDLE)
    ensures ActiveSince(createdAt, lastPartAt, time) && now <= time + CLEANUP_IDLE ==>
              !Inactive(createdAt, lastPartAt, now - CLEANUP_IDLE)
    ensures Inactive(createdAt, lastPartAt, now - CLEANUP_IDLE) ==> Inactive(createdAt, lastPartAt, now - TAKEOVER_IDLE)
  {
  }

  const RENEWAL_TIMEOUT := 10 * 1000

  /** The touches of one operation: the first before it starts, then one per
      interval, each late by no more than its timeout. */
  ghost predicate Heartbeats(touches: seq<int>, interval: int) {
    && touches != []
    && forall i :: 0 < i < |touches| ==> touches[i - 1] <= touches[i] <= touches[i - 1] + interval + RENEWAL_TIMEOUT
  }

  /** What the row holds at a time: the latest touch so far. */
  function LastTouch(touches: seq<int>, now: int): Option<int> {
    if touches == [] then None
    else if touches[|touches| - 1] <= now then Some(touches[|touches| - 1])
    else LastTouch(touches[..|touches| - 1], now)
  }

  /** While an operation's heartbeat goes on, and five minutes beyond, no
      takeover finds its session idle. */
  lemma {:induction false} HeartbeatProtects(touches: seq<int>, interval: int, createdAt: int, now: int)
    requires Heartbeats(touches, interval) && interval + RENEWAL_TIMEOUT <= TAKEOVER_IDLE
    requires touches[0] <= now <= touches[|touches| - 1] + TAKEOVER_IDLE
    ensures !Inactive(createdAt, LastTouch(touches, now), now - TAKEOVER_IDLE)
    decreases |touches|
  {
    var last := touches[|touches| - 1];
    if now < last {
      HeartbeatProtects(touches[..|touches| - 1], interval, createdAt, now);
    }
  }
}
