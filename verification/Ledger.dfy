/**
 * What a log of accepted requests says, for either generation of the directory: who was seen last, what is in force,
 * in what order.
 */
module Ledger {
  import opened Common
  import opened Config

  /** A request opens an entry, refreshes it, or ends it. */
  datatype Kind = Opens | Refreshes | Ends

  datatype Entry<+Q> = Entry(subject: int, issuedAt: int, kind: Kind, at: int, request: Q)

  predicate About<Q>(e: Entry<Q>, s: int) { e.subject == s }

  /** `log[i]` is the opening in force: after it, only refreshes. */
  ghost predicate InForce<Q>(log: seq<Entry<Q>>, s: int, i: int) {
    && 0 <= i < |log| && About(log[i], s) && log[i].kind.Opens?
    && forall k :: i < k < |log| && About(log[k], s) ==> log[k].kind.Refreshes?
  }

  /** The latest accepted request about `s` came in second `seen`. */
  ghost predicate LastSeen<Q>(log: seq<Entry<Q>>, s: int, seen: int) {
    && (exists j :: 0 <= j < |log| && About(log[j], s) && Seconds(log[j].at) == seen)
    && (forall j :: 0 <= j < |log| && About(log[j], s) ==> Seconds(log[j].at) <= seen)
  }

  ghost predicate LastAbout<Q>(log: seq<Entry<Q>>, s: int, k: int) {
    0 <= k < |log| && About(log[k], s) && forall j :: k < j < |log| ==> !About(log[j], s)
  }

  /** The last accepted request about `s` ended it. */
  ghost predicate Ended<Q>(log: seq<Entry<Q>>, s: int) {
    exists d :: LastAbout(log, s, d) && log[d].kind.Ends?
  }

  /** Per subject, accepted requests carry strictly increasing `issued_at`. */
  ghost predicate Increasing<Q>(log: seq<Entry<Q>>) {
    forall i, j :: 0 <= i < j < |log| && log[i].subject == log[j].subject ==> log[i].issuedAt < log[j].issuedAt
  }

  // ---------------------------------------------------------------------------
  // As the log grows.

  lemma StillInForce<Q>(log: seq<Entry<Q>>, e: Entry<Q>, s: int, i: int)
    requires InForce(log, s, i) && (About(e, s) ==> e.kind.Refreshes?)
    ensures InForce(log + [e], s, i) && (log + [e])[i] == log[i]
  {
  }

  lemma NowInForce<Q>(log: seq<Entry<Q>>, e: Entry<Q>)
    requires e.kind.Opens?
    ensures InForce(log + [e], e.subject, |log|) && (log + [e])[|log|] == e
  {
  }

  lemma NowLast<Q>(log: seq<Entry<Q>>, e: Entry<Q>)
    ensures LastAbout(log + [e], e.subject, |log|) && (log + [e])[|log|] == e
  {
  }

  lemma StillLast<Q>(log: seq<Entry<Q>>, e: Entry<Q>, s: int, k: int)
    requires LastAbout(log, s, k) && !About(e, s)
    ensures LastAbout(log + [e], s, k) && (log + [e])[k] == log[k]
  {
  }

  lemma StillEnded<Q>(log: seq<Entry<Q>>, e: Entry<Q>, s: int)
    requires Ended(log, s) && !About(e, s)
    ensures Ended(log + [e], s)
  {
    var d :| LastAbout(log, s, d) && log[d].kind.Ends?;
    StillLast(log, e, s, d);
  }

  lemma SeenNow<Q>(log: seq<Entry<Q>>, e: Entry<Q>)
    requires forall j :: 0 <= j < |log| ==> log[j].at <= e.at
    ensures LastSeen(log + [e], e.subject, Seconds(e.at))
  {
    assert About((log + [e])[|log|], e.subject);
  }

  lemma SeenBefore<Q>(log: seq<Entry<Q>>, e: Entry<Q>, s: int, seen: int)
    requires LastSeen(log, s, seen) && !About(e, s)
    ensures LastSeen(log + [e], s, seen)
  {
    var j :| 0 <= j < |log| && About(log[j], s) && Seconds(log[j].at) == seen;
    assert (log + [e])[j] == log[j];
  }

  lemma SeenOnce<Q>(log: seq<Entry<Q>>, s: int, a: int, b: int)
    requires LastSeen(log, s, a) && LastSeen(log, s, b)
    ensures a == b
  {
  }

  lemma ForceOnce<Q>(log: seq<Entry<Q>>, s: int, i: int, j: int)
    requires InForce(log, s, i) && InForce(log, s, j)
    ensures i == j
  {
  }

  lemma EndedIsNotInForce<Q>(log: seq<Entry<Q>>, s: int, i: int)
    requires Ended(log, s)
    ensures !InForce(log, s, i)
  {
  }

  lemma IncreasingMore<Q>(log: seq<Entry<Q>>, e: Entry<Q>)
    requires Increasing(log) && forall i :: 0 <= i < |log| && About(log[i], e.subject) ==> log[i].issuedAt < e.issuedAt
    ensures Increasing(log + [e])
  {
  }

  // ---------------------------------------------------------------------------
  // The guard: what a table row remembers of the log.

  /** The part of a row the replay guard rests on. */
  datatype Mark = Mark(lastIssued: int, expires: int)

  /** What an accepted request leaves behind: a row as new as itself, or nothing once it is out of the window. */
  predicate Remembered<Q>(e: Entry<Q>, mark: Option<Mark>, clock: int) {
    if mark.Some? then e.issuedAt <= mark.value.lastIssued else e.issuedAt < clock - SKEW_MS
  }

  /** A row's stamp is that of a logged request, and not far ahead of the row's lifetime. */
  ghost predicate MarkSound<Q>(log: seq<Entry<Q>>, s: int, mark: Mark) {
    && mark.lastIssued <= 1000 * mark.expires + 999 + SKEW_MS
    && exists i :: 0 <= i < |log| && About(log[i], s) && log[i].issuedAt == mark.lastIssued
  }

  lemma StillSound<Q>(log: seq<Entry<Q>>, e: Entry<Q>, s: int, mark: Mark)
    requires MarkSound(log, s, mark)
    ensures MarkSound(log + [e], s, mark)
  {
    var i :| 0 <= i < |log| && About(log[i], s) && log[i].issuedAt == mark.lastIssued;
    assert (log + [e])[i] == log[i];
  }

  lemma NowSound<Q>(log: seq<Entry<Q>>, e: Entry<Q>, expires: int)
    requires e.issuedAt <= e.at + SKEW_MS && Seconds(e.at) <= expires
    ensures MarkSound(log + [e], e.subject, Mark(e.issuedAt, expires))
  {
    assert (log + [e])[|log|] == e;
  }

  /** The guard's one row, or the clock window where it is gone, stands for the whole history. */
  lemma NewerThanAll<Q>(log: seq<Entry<Q>>, s: int, mark: Option<Mark>, clock: int, issuedAt: int, at: int)
    requires forall i :: 0 <= i < |log| && About(log[i], s) ==> Remembered(log[i], mark, clock)
    requires clock <= at && issuedAt >= at - SKEW_MS && (mark.Some? ==> mark.value.lastIssued < issuedAt)
    ensures forall i :: 0 <= i < |log| && About(log[i], s) ==> log[i].issuedAt < issuedAt
  {
    forall i | 0 <= i < |log| && About(log[i], s)
      ensures log[i].issuedAt < issuedAt
    {
      assert Remembered(log[i], mark, clock);
    }
  }

  /** A row old enough to be collected guards nothing that the clock window would let through. */
  lemma Outlived<Q>(log: seq<Entry<Q>>, e: Entry<Q>, mark: Mark, now: int, clock: int)
    requires MarkSound(log, e.subject, mark) && Remembered(e, Some(mark), clock)
    requires mark.expires < now - TOMBSTONE_TTL && now <= Seconds(clock)
    ensures Remembered(e, None, clock)
  {
  }
}
