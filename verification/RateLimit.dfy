/**
 * Fixed-window rate limiting (workers/phonebook/src/lib/ratelimit.js; its collection in lib/db.js). Times are in
 * seconds.
 */
module RateLimit {
  import opened Common
  import opened Arithmetic

  const KEPT := 3600

  datatype Operation = Register | Heartbeat | Lookup | Delete
  datatype Scope = ByIp | ById

  datatype Bucket = Bucket(operation: Operation, scope: Scope, subject: int)

  datatype Rule = Rule(limit: int, window: int)

  function RuleFor(operation: Operation, scope: Scope): Option<Rule> {
    match (operation, scope)
    case (Register, ByIp) => Some(Rule(20, 60))
    case (Register, ById) => Some(Rule(10, 60))
    case (Heartbeat, ByIp) => Some(Rule(120, 60))
    case (Heartbeat, ById) => Some(Rule(60, 60))
    case (Lookup, ByIp) => Some(Rule(120, 60))
    case (Lookup, ById) => None
    case (Delete, ByIp) => Some(Rule(10, 60))
    case (Delete, ById) => Some(Rule(5, 60))
  }

  /** The rule of a bucket that is ever used; the other buckets get one that admits nothing. */
  function Window(b: Bucket): (w: int)
    ensures 0 < w <= KEPT
  {
    match RuleFor(b.operation, b.scope) case Some(r) => r.window case None => 1
  }

  function Limit(b: Bucket): (n: nat) {
    match RuleFor(b.operation, b.scope) case Some(r) => r.limit case None => 0
  }

  datatype Row = Row(start: int, count: nat)

  type Table = map<Bucket, Row>

  function WindowStart(now: int, window: int): int
    requires window > 0
  {
    now / window * window
  }

  function Start(b: Bucket, now: int): int { WindowStart(now, Window(b)) }

  function Bumped(t: Table, b: Bucket, now: int): Row {
    if b in t && t[b].start == Start(b, now) then Row(t[b].start, t[b].count + 1) else Row(Start(b, now), 1)
  }

  lemma WindowBounds(now: int, window: int)
    requires window > 0
    ensures WindowStart(now, window) <= now < WindowStart(now, window) + window
  {
  }

  lemma WindowMonotone(a: int, b: int, window: int)
    requires window > 0 && a <= b
    ensures WindowStart(a, window) <= WindowStart(b, window)
  {
    QuotientMonotone(a, b, window);
    ProductMonotone(a / window, b / window, window);
  }

  /** A span of one window length meets two windows at most. */
  lemma NextWindow(t: int, at: int, window: int)
    requires window > 0 && t <= at < t + window
    ensures WindowStart(at, window) == WindowStart(t, window) ||
            WindowStart(at, window) == WindowStart(t, window) + window
  {
    var q := t / window;
    WindowBounds(t, window);
    NextProduct(q, window);
    if at < q * window + window {
      QuotientUnique(at, q, window);
    } else {
      QuotientUnique(at, q + 1, window);
    }
  }

  /** The wait a refused caller is told leads exactly to the start of the next window. */
  lemma RetryReachesNext(now: int, window: int)
    requires window > 0
    ensures var retry := Max(1, WindowStart(now, window) + window - now);
            && 1 <= retry <= window
            && now + retry == WindowStart(now, window) + window
            && WindowStart(now + retry, window) == now + retry
  {
    var q := now / window;
    WindowBounds(now, window);
    NextProduct(q, window);
    QuotientUnique((q + 1) * window, q + 1, window);
  }

  function Max(a: int, b: int): int { if a > b then a else b }

  // ---------------------------------------------------------------------------
  // Runs.

  /** Collection drops rows whose window started more than an hour before some reading of the clock. */
  datatype Event = Hit(bucket: Bucket, at: int) | Collection(now: int)

  /** One counted request, and the count it was given. */
  datatype Counted = Counted(bucket: Bucket, at: int, count: nat)

  datatype World = World(table: Table, clock: int, log: seq<Counted>)

  predicate Enabled(w: World, e: Event) {
    match e
    case Hit(_, at) => w.clock <= at
    case Collection(now) => now <= w.clock
  }

  function Collected(t: Table, now: int): Table {
    map b | b in t && !(t[b].start < now - KEPT) :: t[b]
  }

  function Step(w: World, e: Event): World {
    match e
    case Hit(b, at) =>
      var row := Bumped(w.table, b, at);
      World(w.table[b := row], at, w.log + [Counted(b, at, row.count)])
    case Collection(now) => w.(table := Collected(w.table, now))
  }

  predicate CanRun(w: World, run: seq<Event>)
    decreases |run|
  {
    run == [] || (Enabled(w, run[0]) && CanRun(Step(w, run[0]), run[1..]))
  }

  function Run(w: World, run: seq<Event>): World
    decreases |run|
  {
    if run == [] then w else Run(Step(w, run[0]), run[1..])
  }

  function Fresh(clock: int): World { World(map[], clock, []) }

  /** How many requests of bucket `b` fell into the aligned window that starts at `start`. */
  function Hits(log: seq<Counted>, b: Bucket, start: int): nat {
    if log == [] then 0
    else
      var last := log[|log| - 1];
      Hits(log[..|log| - 1], b, start) + if last.bucket == b && Start(b, last.at) == start then 1 else 0
  }

  lemma HitsPush(log: seq<Counted>, c: Counted, b: Bucket, start: int)
    ensures Hits(log + [c], b, start) == Hits(log, b, start) + if c.bucket == b && Start(b, c.at) == start then 1 else 0
  {
    assert (log + [c])[..|log|] == log;
  }

  lemma {:induction false} NoHits(log: seq<Counted>, b: Bucket, start: int)
    requires forall i :: 0 <= i < |log| && log[i].bucket == b ==> Start(b, log[i].at) != start
    ensures Hits(log, b, start) == 0
  {
    if log != [] {
      NoHits(log[..|log| - 1], b, start);
    }
  }

  /** The row counts its window; without a row, no window of the log is still open. */
  ghost predicate RowCounts(w: World, b: Bucket) {
    if b in w.table then
      && w.table[b].count == Hits(w.log, b, w.table[b].start)
      && forall i :: 0 <= i < |w.log| && w.log[i].bucket == b ==> Start(b, w.log[i].at) <= w.table[b].start
    else
      forall i :: 0 <= i < |w.log| && w.log[i].bucket == b ==> Start(b, w.log[i].at) < Start(b, w.clock)
  }

  ghost predicate CountsRight(log: seq<Counted>, i: int)
    requires 0 <= i < |log|
  {
    log[i].count == 1 + Hits(log[..i], log[i].bucket, Start(log[i].bucket, log[i].at))
  }

  ghost predicate Inv(w: World) {
    && (forall b :: RowCounts(w, b))
    && (forall b | b in w.table :: w.table[b].start <= Start(b, w.clock))
    && (forall i :: 0 <= i < |w.log| ==> CountsRight(w.log, i))
  }

  lemma HitCounts(w: World, b: Bucket, at: int)
    requires Inv(w) && w.clock <= at
    ensures Bumped(w.table, b, at).count == 1 + Hits(w.log, b, Start(b, at))
    ensures forall i :: 0 <= i < |w.log| && w.log[i].bucket == b ==> Start(b, w.log[i].at) <= Start(b, at)
  {
    WindowMonotone(w.clock, at, Window(b));
    assert RowCounts(w, b);
    hide WindowStart;
    if !(b in w.table && w.table[b].start == Start(b, at)) {
      NoHits(w.log, b, Start(b, at));
    }
  }

  lemma HitKeeps(w: World, b: Bucket, at: int)
    requires Inv(w) && w.clock <= at
    ensures Inv(Step(w, Hit(b, at)))
  {
    var v := Step(w, Hit(b, at));
    var c := v.log[|w.log|];
    HitCounts(w, b, at);
    hide WindowStart;
    forall x
      ensures RowCounts(v, x)
      ensures x in v.table ==> v.table[x].start <= Start(x, v.clock)
    {
      assert RowCounts(w, x);
      WindowMonotone(w.clock, at, Window(x));
      if x in v.table {
        HitsPush(w.log, c, x, v.table[x].start);
      }
    }
    forall i | 0 <= i < |v.log|
      ensures CountsRight(v.log, i)
    {
      assert v.log[..i] == w.log[..i];
      assert i < |w.log| ==> CountsRight(w.log, i);
      assert w.log[..|w.log|] == w.log;
    }
  }

  /** Collection never drops the row of a window still open. */
  lemma CollectionKeeps(w: World, now: int)
    requires Inv(w) && now <= w.clock
    ensures Inv(Step(w, Collection(now)))
  {
    var v := Step(w, Collection(now));
    forall b
      ensures RowCounts(v, b)
    {
      assert RowCounts(w, b);
      WindowBounds(w.clock, Window(b));
      hide WindowStart;
    }
  }

  lemma {:induction false} RunKeeps(w: World, run: seq<Event>)
    requires Inv(w) && CanRun(w, run)
    ensures Inv(Run(w, run))
    decreases |run|
  {
    hide Inv, Step;
    if run != [] {
      match run[0] {
        case Hit(b, at) => HitKeeps(w, b, at);
        case Collection(now) => CollectionKeeps(w, now);
      }
      RunKeeps(Step(w, run[0]), run[1..]);
    }
  }

  predicate Admitted(c: Counted) { c.count <= Limit(c.bucket) }

  /** In every run, the requests admitted in an aligned window are exactly the first `Limit` of them. */
  lemma FirstAreAdmitted(clock: int, run: seq<Event>, i: int)
    requires CanRun(Fresh(clock), run) && 0 <= i < |Run(Fresh(clock), run).log|
    ensures var log := Run(Fresh(clock), run).log;
            Admitted(log[i]) <==> Hits(log[..i], log[i].bucket, Start(log[i].bucket, log[i].at)) < Limit(log[i].bucket)
  {
    assert Inv(Fresh(clock));
    RunKeeps(Fresh(clock), run);
    hide Run, CanRun;
    assert CountsRight(Run(Fresh(clock), run).log, i);
  }

  /** How many admitted requests of `b` fell into the window that starts at `start`. */
  function AdmittedIn(log: seq<Counted>, b: Bucket, start: int): nat {
    if log == [] then 0
    else
      var last := log[|log| - 1];
      AdmittedIn(log[..|log| - 1], b, start) +
      if last.bucket == b && Start(b, last.at) == start && Admitted(last) then 1 else 0
  }

  /** How many admitted requests of `b` fell into the `Window(b)` seconds from `from`. */
  function AdmittedFrom(log: seq<Counted>, b: Bucket, from: int): nat {
    if log == [] then 0
    else
      var last := log[|log| - 1];
      AdmittedFrom(log[..|log| - 1], b, from) +
      if last.bucket == b && from <= last.at < from + Window(b) && Admitted(last) then 1 else 0
  }

  lemma {:induction false} WindowAdmits(log: seq<Counted>, b: Bucket, start: int)
    requires forall i :: 0 <= i < |log| ==> CountsRight(log, i)
    ensures AdmittedIn(log, b, start) == if Hits(log, b, start) <= Limit(b) then Hits(log, b, start) else Limit(b)
  {
    hide WindowStart;
    if log != [] {
      var front := log[..|log| - 1];
      forall i | 0 <= i < |front|
        ensures CountsRight(front, i)
      {
        assert CountsRight(log, i) && front[..i] == log[..i];
      }
      WindowAdmits(front, b, start);
      assert CountsRight(log, |log| - 1);
    }
  }

  lemma {:induction false} SpanSplits(log: seq<Counted>, b: Bucket, from: int)
    ensures AdmittedFrom(log, b, from) <=
            AdmittedIn(log, b, Start(b, from)) + AdmittedIn(log, b, Start(b, from) + Window(b))
  {
    if log != [] {
      SpanSplits(log[..|log| - 1], b, from);
      var at := log[|log| - 1].at;
      if from <= at < from + Window(b) {
        NextWindow(from, at, Window(b));
      }
      hide WindowStart;
    }
  }

  /**
   * In every run, an aligned window admits min(requests, limit), and no span of one window length more than twice the
   * limit.
   */
  lemma SpanBound(clock: int, run: seq<Event>, b: Bucket, from: int)
    requires CanRun(Fresh(clock), run)
    ensures var log := Run(Fresh(clock), run).log;
            && AdmittedIn(log, b, from) == (if Hits(log, b, from) <= Limit(b) then Hits(log, b, from) else Limit(b))
            && AdmittedFrom(log, b, from) <= 2 * Limit(b)
  {
    assert Inv(Fresh(clock));
    RunKeeps(Fresh(clock), run);
    hide Run, CanRun;
    var log := Run(Fresh(clock), run).log;
    WindowAdmits(log, b, from);
    WindowAdmits(log, b, Start(b, from));
    WindowAdmits(log, b, Start(b, from) + Window(b));
    SpanSplits(log, b, from);
  }

  /** Having waited as told, a caller starts the next window's count. */
  lemma RetryStartsAfresh(w: World, b: Bucket)
    requires Inv(w)
    ensures var retry := Max(1, Start(b, w.clock) + Window(b) - w.clock);
            Bumped(w.table, b, w.clock + retry).count == 1
  {
    var later := w.clock + Max(1, Start(b, w.clock) + Window(b) - w.clock);
    RetryReachesNext(w.clock, Window(b));
    WindowBounds(w.clock, Window(b));
    hide WindowStart;
    assert RowCounts(w, b);
    HitCounts(w, b, later);
    NoHits(w.log, b, Start(b, later));
  }

  // ---------------------------------------------------------------------------
  // One request against its buckets.

  /** The buckets an operation is counted in, address first. */
  function Checks(operation: Operation, ip: int, id: Option<int>): seq<Bucket> {
    [Bucket(operation, ByIp, ip)] +
    if id.Some? && RuleFor(operation, ById).Some? then [Bucket(operation, ById, id.value)] else []
  }

  /** Counts a request in each bucket in turn, up to the first that is over its limit. */
  function Enforced(t: Table, checks: seq<Bucket>, now: int): (Table, Option<int>)
    decreases |checks|
  {
    if checks == [] then (t, None)
    else
      var b := checks[0];
      var row := Bumped(t, b, now);
      if row.count > Limit(b) then (t[b := row], Some(Max(1, row.start + Window(b) - now)))
      else Enforced(t[b := row], checks[1..], now)
  }

  function HitsOn(checks: seq<Bucket>, now: int): seq<Event> {
    if checks == [] then [] else [Hit(checks[0], now)] + HitsOn(checks[1..], now)
  }

  /** The requests counted from a place in the log on are all admitted. */
  predicate AllAdmitted(log: seq<Counted>, from: nat) {
    forall i :: from <= i < |log| ==> Admitted(log[i])
  }

  /**
   * A request against its buckets is a run of one hit each, up to the first that is not admitted: the table is that
   * of the run, and the request passes exactly when every bucket was reached and every hit admitted.
   */
  lemma {:induction false} EnforcedIsRun(w: World, checks: seq<Bucket>, now: int) returns (k: nat)
    requires w.clock <= now
    ensures k <= |checks| && CanRun(w, HitsOn(checks[..k], now))
    ensures var v := Run(w, HitsOn(checks[..k], now));
            && v.table == Enforced(w.table, checks, now).0 && w.log <= v.log && |v.log| == |w.log| + k
            && (Enforced(w.table, checks, now).1.None? <==> k == |checks| && AllAdmitted(v.log, |w.log|))
    decreases |checks|
  {
    k := 0;
    if checks != [] {
      var b := checks[0];
      var v := Step(w, Hit(b, now));
      var last := v.log[|w.log|];
      if Admitted(last) {
        k := EnforcedIsRun(v, checks[1..], now);
        k := k + 1;
        assert checks[..k][1..] == checks[1..][..k - 1];
        assert HitsOn(checks[..k], now)[1..] == HitsOn(checks[1..][..k - 1], now);
        assert Run(v, HitsOn(checks[1..][..k - 1], now)).log[|w.log|] == last;
      } else {
        k := 1;
        assert checks[..1][1..] == [];
        assert HitsOn(checks[..1], now) == [Hit(b, now)];
        assert [Hit(b, now)][1..] == [];
        assert Run(v, []) == v;
      }
      hide Step, Bumped;
    }
  }

  /** The bucket has a rule and counts this caller's requests of this kind. */
  predicate Concerns(b: Bucket, operation: Operation, ip: int, id: Option<int>) {
    && b.operation == operation && RuleFor(b.operation, b.scope).Some?
    && (if b.scope.ByIp? then b.subject == ip else id == Some(b.subject))
  }

  /** A request is counted once in each bucket that concerns it and in no other, the address first. */
  lemma ChecksExactly(operation: Operation, ip: int, id: Option<int>)
    ensures var checks := Checks(operation, ip, id);
            && (forall b :: b in checks <==> Concerns(b, operation, ip, id))
            && 1 <= |checks| <= 2 && checks[0].scope.ByIp? && (|checks| == 2 ==> checks[1].scope.ById?)
  {
    var checks := Checks(operation, ip, id);
    forall b
      ensures b in checks <==> Concerns(b, operation, ip, id)
    {
      assert checks[0] == Bucket(operation, ByIp, ip);
      if |checks| == 2 {
        assert checks[1] == Bucket(operation, ById, id.value);
      }
    }
  }

  /** How full a bucket is against its limit, by the log. */
  predicate Full(w: World, b: Bucket, now: int) {
    Hits(w.log, b, Start(b, now)) >= Limit(b)
  }

  /** One bucket: counted, and if full the caller is told to wait for its next window. */
  lemma FirstBucket(w: World, checks: seq<Bucket>, now: int)
    requires Inv(w) && w.clock <= now && checks != []
    ensures var b := checks[0];
            if Full(w, b, now) then Enforced(w.table, checks, now).1 == Some(Start(b, now) + Window(b) - now)
            else Enforced(w.table, checks, now).1 == Enforced(Step(w, Hit(b, now)).table, checks[1..], now).1
  {
    HitCounts(w, checks[0], now);
    WindowBounds(now, Window(checks[0]));
    hide WindowStart, Inv;
  }

  lemma OtherBucket(w: World, b: Bucket, now: int, c: Bucket)
    requires c != b
    ensures Full(Step(w, Hit(b, now)), c, now) <==> Full(w, c, now)
  {
    HitsPush(w.log, Step(w, Hit(b, now)).log[|w.log|], c, Start(c, now));
    hide WindowStart, Bumped;
  }

  /** The answer to a request: the first full bucket, the address before the identity, tells the wait. */
  lemma FirstFullTells(w: World, checks: seq<Bucket>, now: int)
    requires Inv(w) && w.clock <= now && 1 <= |checks| <= 2 && (|checks| == 2 ==> checks[0] != checks[1])
    ensures var wait := Enforced(w.table, checks, now).1;
            if Full(w, checks[0], now) then wait == Some(Start(checks[0], now) + Window(checks[0]) - now)
            else if |checks| == 2 && Full(w, checks[1], now) then
              wait == Some(Start(checks[1], now) + Window(checks[1]) - now)
            else wait == None
  {
    FirstBucket(w, checks, now);
    var v := Step(w, Hit(checks[0], now));
    HitKeeps(w, checks[0], now);
    assert v.clock == now;
    if |checks| == 2 {
      OtherBucket(w, checks[0], now, checks[1]);
      FirstBucket(v, checks[1..], now);
    }
    hide Inv, Full, Step, WindowStart, Bumped;
  }

  /**
   * Over every run: a request passes if and only if each bucket that concerns it has had fewer than its limit in the
   * window so far; a refused one is told the exact time to the next window of a bucket that is full.
   */
  lemma PassesExactlyWithin(clock: int, run: seq<Event>, operation: Operation, ip: int, id: Option<int>, now: int)
    requires CanRun(Fresh(clock), run) && Run(Fresh(clock), run).clock <= now
    ensures var w := Run(Fresh(clock), run);
            match Enforced(w.table, Checks(operation, ip, id), now).1
            case None =>
              forall b :: Concerns(b, operation, ip, id) ==> Hits(w.log, b, Start(b, now)) < Limit(b)
            case Some(wait) =>
              exists b :: Concerns(b, operation, ip, id) && Hits(w.log, b, Start(b, now)) >= Limit(b)
                          && wait >= 1 && now + wait == Start(b, now) + Window(b)
  {
    assert Inv(Fresh(clock));
    RunKeeps(Fresh(clock), run);
    var w, checks := Run(Fresh(clock), run), Checks(operation, ip, id);
    hide Run, CanRun, Inv, WindowStart, Hits;
    ChecksExactly(operation, ip, id);
    hide Checks, Concerns;
    FirstFullTells(w, checks, now);
    assert checks[0] in checks && (|checks| == 2 ==> checks[1] in checks);
    hide Enforced;
    RoomLeft(checks[0], now);
    if |checks| == 2 {
      RoomLeft(checks[1], now);
    }
    forall b | Concerns(b, operation, ip, id)
      ensures b == checks[0] || (|checks| == 2 && b == checks[1])
    {
      assert b in checks;
    }
  }

  lemma RoomLeft(b: Bucket, now: int)
    ensures Start(b, now) + Window(b) - now >= 1
  {
    WindowBounds(now, Window(b));
    hide WindowStart;
  }

  /** Nothing is kept of a window that started more than an hour ago. */
  lemma CollectionDrops(w: World, now: int, b: Bucket)
    ensures var t := Step(w, Collection(now)).table;
            (b in t ==> t[b].start >= now - KEPT) && (b in w.table && w.table[b].start >= now - KEPT ==> b in t)
  {
  }

  class Limiter {
    var rows: Table

    constructor ()
      ensures rows == map[]
    {
      rows := map[];
    }

    method Bump(b: Bucket, now: int) returns (count: nat, windowStart: int)
      modifies this
      ensures rows == old(rows)[b := Bumped(old(rows), b, now)]
      ensures count == Bumped(old(rows), b, now).count && windowStart == Start(b, now)
    {
      windowStart := WindowStart(now, Window(b));
      count := 1;
      if b in rows && rows[b].start == windowStart {
        count := rows[b].count + 1;
      }
      rows := rows[b := Row(windowStart, count)];
    }

    method Enforce(operation: Operation, ip: int, id: Option<int>, now: int) returns (retryAfter: Option<int>)
      modifies this
      ensures (rows, retryAfter) == Enforced(old(rows), Checks(operation, ip, id), now)
    {
      hide WindowStart;
      var checks := Checks(operation, ip, id);
      for i := 0 to |checks|
        invariant Enforced(old(rows), Checks(operation, ip, id), now) == Enforced(rows, checks[i..], now)
      {
        assert Bumped(rows, checks[i], now).start == Start(checks[i], now);
        var count, start := Bump(checks[i], now);
        if count > Limit(checks[i]) {
          return Some(Max(1, start + Window(checks[i]) - now));
        }
        assert checks[i..][1..] == checks[i + 1..];
      }
      return None;
    }
  }
}
