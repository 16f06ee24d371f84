/**
 * The blinded directory (workers/phonebook/src/index.js, lib/entries.js, lib/auth.js): one table
 * keyed by handle, against the log of requests it accepted.
 * Clock readings are in milliseconds; rows hold whole seconds.
 */
module Entries {
  import opened Common
  import opened Config
  import opened Ledger

  type Handle = int
  type Key = int
  type Sealed = int

  /** What a revoked entry's blob is replaced with. */
  const PLACEHOLDER: Sealed := 0

  datatype Row = Row(key: Key, blob: Sealed, created: int, lastSeen: int, expires: int, lastIssued: int,
      revoked: Option<int>)

  type Table = map<Handle, Row>

  datatype Envelope = Envelope(handle: Handle, key: Key, issuedAt: int, verifies: bool)

  datatype Request =
    | Publish(auth: Envelope, limited: bool, wellFormed: bool, blob: Sealed)
    | Touch(auth: Envelope, limited: bool)
    | Delete(auth: Envelope, limited: bool, pathHandle: Handle)

  datatype Answer = Granted | BadIssuedAt | ClockSkew | BadSignature | BadField | HandleMismatch | RateLimited
    | Claimed | Replayed | NotRegistered | NotFound

  function Authenticate(a: Envelope, nowMs: int): Answer {
    if a.issuedAt <= 0 then BadIssuedAt
    else if Abs(nowMs - a.issuedAt) > SKEW_MS then ClockSkew
    else if !a.verifies then BadSignature
    else Granted
  }

  function Judge(t: Table, q: Request, nowMs: int): Answer {
    var a := q.auth;
    var known := a.handle in t;
    if Authenticate(a, nowMs) != Granted then Authenticate(a, nowMs)
    else match q
      case Publish(_, limited, wellFormed, _) =>
        if !wellFormed then BadField
        else if limited then RateLimited
        else if known && t[a.handle].key != a.key then Claimed
        else if known && a.issuedAt <= t[a.handle].lastIssued then Replayed
        else Granted
      case Touch(_, limited) =>
        if limited then RateLimited
        else if known && t[a.handle].key == a.key && t[a.handle].revoked.None? &&
            t[a.handle].lastIssued < a.issuedAt then Granted
        else NotRegistered
      case Delete(_, limited, path) =>
        if a.handle != path then HandleMismatch
        else if limited then RateLimited
        else if known && t[a.handle].key == a.key then Granted
        else NotFound
  }

  function NewRow(t: Table, q: Request, now: int): Row
    requires q.Publish? || q.auth.handle in t
  {
    var a := q.auth;
    match q
    case Publish(_, _, _, blob) =>
      if a.handle in t then
        t[a.handle].(blob := blob, lastSeen := now, expires := now + ENTRY_TTL, lastIssued := a.issuedAt,
            revoked := None)
      else Row(a.key, blob, now, now, now + ENTRY_TTL, a.issuedAt, None)
    case Touch(_, _) => t[a.handle].(lastSeen := now, expires := now + ENTRY_TTL, lastIssued := a.issuedAt)
    case Delete(_, _, _) =>
      t[a.handle].(revoked := Some(now), expires := now, lastSeen := now, lastIssued := a.issuedAt, blob := PLACEHOLDER)
  }

  function Apply(t: Table, q: Request, nowMs: int): Table {
    if Judge(t, q, nowMs) != Granted then t else t[q.auth.handle := NewRow(t, q, Seconds(nowMs))]
  }

  datatype Found = Missing | Offline(lastSeen: int) | Online(blob: Sealed, lastSeen: int, expires: int)

  function Lookup(t: Table, h: Handle, now: int): Found {
    if h !in t then Missing
    else if t[h].revoked.None? && t[h].expires > now then Online(t[h].blob, t[h].lastSeen, t[h].expires)
    else Offline(t[h].lastSeen)
  }

  ghost predicate Stale(t: Table, now: int, h: Handle) {
    h in t && t[h].expires < now - TOMBSTONE_TTL
  }

  ghost predicate Batch(t: Table, now: int, hs: set<Handle>) {
    && (forall h | h in hs :: Stale(t, now, h))
    && |hs| <= BATCH
    && (|hs| < BATCH ==> forall h | h in t && Stale(t, now, h) :: h in hs)
  }

  // ---------------------------------------------------------------------------
  // Runs and their log.

  datatype Event = Call(request: Request, at: int) | Collection(now: int, hs: set<Handle>)

  type Log = seq<Entry<Request>>

  datatype World = World(table: Table, clock: int, log: Log)

  const START := World(map[], 0, [])

  /** An accepted request as the log keeps it. */
  function Logged(q: Request, at: int): Entry<Request> {
    Entry(q.auth.handle, q.auth.issuedAt, if q.Publish? then Opens else if q.Touch? then Refreshes else Ends, at, q)
  }

  ghost predicate Enabled(w: World, e: Event) {
    match e
    case Call(_, at) => w.clock <= at
    case Collection(now, hs) => now <= Seconds(w.clock) && Batch(w.table, now, hs)
  }

  function Step(w: World, e: Event): World {
    match e
    case Call(q, at) =>
      World(Apply(w.table, q, at), at, if Judge(w.table, q, at) == Granted then w.log + [Logged(q, at)] else w.log)
    case Collection(_, hs) => w.(table := w.table - hs)
  }

  ghost predicate CanRun(w: World, run: seq<Event>)
    decreases |run|
  {
    run == [] || (Enabled(w, run[0]) && CanRun(Step(w, run[0]), run[1..]))
  }

  function Run(w: World, run: seq<Event>): World
    decreases |run|
  {
    if run == [] then w else Run(Step(w, run[0]), run[1..])
  }

  // ---------------------------------------------------------------------------
  // The table agrees with the log.

  /** The publish in force carries `blob`. */
  ghost predicate Published(log: Log, h: Handle, blob: Sealed) {
    exists i :: InForce(log, h, i) && log[i].request.Publish? && log[i].request.blob == blob
  }

  /** A handle with no row: whatever the log has about it is long expired. */
  ghost predicate Gone(w: World, h: Handle) {
    forall j :: 0 <= j < |w.log| && About(w.log[j], h) ==> Seconds(w.log[j].at) + TOMBSTONE_TTL < Seconds(w.clock)
  }

  ghost predicate Agrees(w: World, h: Handle) {
    if h !in w.table then Gone(w, h)
    else
      var r := w.table[h];
      && LastSeen(w.log, h, r.lastSeen)
      && (if r.revoked.None? then Published(w.log, h, r.blob) && r.expires == r.lastSeen + ENTRY_TTL
          else
            && Ended(w.log, h) && r.blob == PLACEHOLDER
            && r.expires == r.lastSeen && r.revoked == Some(r.lastSeen))
  }

  ghost predicate Inv(w: World) {
    && (forall j :: 0 <= j < |w.log| ==> w.log[j].at <= w.clock)
    && (forall h :: Agrees(w, h))
  }

  lemma StillPublished(log: Log, e: Entry<Request>, h: Handle, blob: Sealed)
    requires Published(log, h, blob) && (About(e, h) ==> e.kind.Refreshes?)
    ensures Published(log + [e], h, blob)
  {
    var i :| InForce(log, h, i) && log[i].request.Publish? && log[i].request.blob == blob;
    StillInForce(log, e, h, i);
  }

  lemma OwnAgrees(w: World, q: Request, at: int)
    requires Inv(w) && w.clock <= at && Judge(w.table, q, at) == Granted
    ensures Agrees(Step(w, Call(q, at)), q.auth.handle)
  {
    var e, h := Logged(q, at), q.auth.handle;
    assert Agrees(w, h);
    SeenNow(w.log, e);
    match q
    case Publish(_, _, _, _) => NowInForce(w.log, e);
    case Touch(_, _) => StillPublished(w.log, e, h, w.table[h].blob);
    case Delete(_, _, _) => NowLast(w.log, e);
  }

  /** An accepted request changes nothing about another handle. */
  lemma OtherAgrees(w: World, q: Request, at: int, h: Handle)
    requires Inv(w) && w.clock <= at && Judge(w.table, q, at) == Granted && h != q.auth.handle
    ensures Agrees(Step(w, Call(q, at)), h)
  {
    var v, e := Step(w, Call(q, at)), Logged(q, at);
    assert Agrees(w, h);
    if h in w.table {
      SeenBefore(w.log, e, h, w.table[h].lastSeen);
      if w.table[h].revoked.None? {
        StillPublished(w.log, e, h, w.table[h].blob);
      } else {
        StillEnded(w.log, e, h);
      }
    } else {
      assert forall j :: 0 <= j < |w.log| ==> v.log[j] == w.log[j];
    }
  }

  lemma CallKeeps(w: World, q: Request, at: int)
    requires Inv(w) && w.clock <= at
    ensures Inv(Step(w, Call(q, at)))
  {
    var v := Step(w, Call(q, at));
    forall h
      ensures Agrees(v, h)
    {
      if Judge(w.table, q, at) != Granted {
        assert Agrees(w, h);
      } else if h == q.auth.handle {
        OwnAgrees(w, q, at);
      } else {
        OtherAgrees(w, q, at, h);
      }
    }
    hide Agrees;
  }

  lemma CollectionKeeps(w: World, now: int, hs: set<Handle>)
    requires Inv(w) && Enabled(w, Collection(now, hs))
    ensures Inv(Step(w, Collection(now, hs)))
  {
    var v := Step(w, Collection(now, hs));
    forall h
      ensures Agrees(v, h)
    {
      assert Agrees(w, h);
      assert h in hs ==> Stale(w.table, now, h);
    }
  }

  lemma {:induction false} RunKeeps(w: World, run: seq<Event>)
    requires Inv(w) && CanRun(w, run)
    ensures Inv(Run(w, run))
    decreases |run|
  {
    hide Inv, Step;
    if run != [] {
      match run[0] {
        case Call(q, at) => CallKeeps(w, q, at);
        case Collection(now, hs) => CollectionKeeps(w, now, hs);
      }
      RunKeeps(Step(w, run[0]), run[1..]);
    }
  }

  /**
   * Over every run, collections included: a lookup is online with a blob and a last sighting exactly when
   * the log says so, that is, the blob is that of the last publish, nothing revoked it since, and the last
   * accepted request about the handle is that sighting and lies within the lifetime.
   */
  lemma LookupRefinesLog(run: seq<Event>, h: Handle, now: int, blob: Sealed, seen: int)
    requires CanRun(START, run) && Seconds(Run(START, run).clock) <= now
    ensures var w := Run(START, run);
            Lookup(w.table, h, now) == Online(blob, seen, seen + ENTRY_TTL) <==>
            Published(w.log, h, blob) && LastSeen(w.log, h, seen) && now < seen + ENTRY_TTL
    ensures var w := Run(START, run);
            Lookup(w.table, h, now).Online? ==>
                Lookup(w.table, h, now).expires == Lookup(w.table, h, now).lastSeen + ENTRY_TTL
    ensures var w := Run(START, run);
            Lookup(w.table, h, now).Offline? ==> LastSeen(w.log, h, Lookup(w.table, h, now).lastSeen)
  {
    assert Inv(START);
    RunKeeps(START, run);
    var w := Run(START, run);
    hide Run, CanRun;
    assert Agrees(w, h);
    LookupAgrees(w, h, now, blob, seen);
  }

  lemma LookupAgrees(w: World, h: Handle, now: int, blob: Sealed, seen: int)
    requires Inv(w) && Seconds(w.clock) <= now
    ensures Lookup(w.table, h, now) == Online(blob, seen, seen + ENTRY_TTL) <==>
            Published(w.log, h, blob) && LastSeen(w.log, h, seen) && now < seen + ENTRY_TTL
  {
    assert Agrees(w, h);
    if h in w.table && w.table[h].revoked.None? {
      var i :| InForce(w.log, h, i) && w.log[i].request.Publish? && w.log[i].request.blob == w.table[h].blob;
      forall j | InForce(w.log, h, j)
        ensures j == i
      {
        ForceOnce(w.log, h, i, j);
      }
      if LastSeen(w.log, h, seen) {
        SeenOnce(w.log, h, seen, w.table[h].lastSeen);
      }
    } else if h in w.table {
      forall i
        ensures !InForce(w.log, h, i)
      {
        EndedIsNotInForce(w.log, h, i);
      }
    } else {
      assert LastSeen(w.log, h, seen) ==> seen + ENTRY_TTL < Seconds(w.clock);
    }
  }

  /**
   * Over every run, the other two answers: a handle is offline, last seen when the log says so, once it was revoked or
   * its lifetime is over; and it is unknown only if nothing was accepted about it for longer than a tombstone is kept.
   */
  lemma LookupOtherwise(run: seq<Event>, h: Handle, now: int)
    requires CanRun(START, run) && Seconds(Run(START, run).clock) <= now
    ensures var w := Run(START, run);
            match Lookup(w.table, h, now)
            case Missing =>
              forall j :: 0 <= j < |w.log| && About(w.log[j], h) ==>
                Seconds(w.log[j].at) + TOMBSTONE_TTL < Seconds(w.clock)
            case Offline(seen) => LastSeen(w.log, h, seen) && (Ended(w.log, h) || seen + ENTRY_TTL <= now)
            case Online(_, seen, expires) => LastSeen(w.log, h, seen) && expires == seen + ENTRY_TTL > now
  {
    assert Inv(START);
    RunKeeps(START, run);
    hide Run, CanRun;
    assert Agrees(Run(START, run), h);
  }

  /** What was published under a handle is gone from the table once the handle is revoked. */
  lemma RevokedIsBlank(run: seq<Event>, h: Handle)
    requires CanRun(START, run) && h in Run(START, run).table && Run(START, run).table[h].revoked.Some?
    ensures var w := Run(START, run);
            w.table[h].blob == PLACEHOLDER && Ended(w.log, h) && LastSeen(w.log, h, w.table[h].revoked.value)
  {
    assert Inv(START);
    RunKeeps(START, run);
    hide Run, CanRun;
    assert Agrees(Run(START, run), h);
  }

  /** A collection leaves no row of the handles it took, and none stale unless its batch was full. */
  lemma CollectionRemoves(w: World, now: int, hs: set<Handle>, h: Handle)
    requires Enabled(w, Collection(now, hs))
    ensures var t := Step(w, Collection(now, hs)).table;
            && (h in hs ==> h !in t)
            && (h !in hs && h in w.table ==> h in t && t[h] == w.table[h])
            && (|hs| < BATCH && h in t ==> t[h].expires >= now - TOMBSTONE_TTL)
  {
    if |hs| < BATCH && h in w.table {
      assert Stale(w.table, now, h) ==> h in hs;
    }
  }

  // ---------------------------------------------------------------------------
  // Who is let in.

  /** A request signed by the key it names, about the handle of its path, now, within the limits and well formed. */
  predicate Genuine(q: Request, at: int) {
    && q.auth.verifies
    && 0 < q.auth.issuedAt && at - SKEW_MS <= q.auth.issuedAt <= at + SKEW_MS
    && !q.limited
    && (q.Publish? ==> q.wellFormed)
    && (q.Delete? ==> q.pathHandle == q.auth.handle)
  }

  /** The signer owns the row, where there is one; only a publish may go without. */
  predicate Owns(t: Table, q: Request) {
    if q.auth.handle in t then t[q.auth.handle].key == q.auth.key else q.Publish?
  }

  /** The request is newer than the row; a delete need not be. A touch needs an entry not revoked. */
  predicate Moves(t: Table, q: Request) {
    q.auth.handle in t ==>
      && (!q.Delete? ==> t[q.auth.handle].lastIssued < q.auth.issuedAt)
      && (q.Touch? ==> t[q.auth.handle].revoked.None?)
  }

  /** When a request is granted, and what every refusal means. */
  lemma GrantedExactly(t: Table, q: Request, at: int)
    ensures Judge(t, q, at) == Granted <==> Genuine(q, at) && Owns(t, q) && Moves(t, q)
    ensures match Judge(t, q, at)
            case Granted => true
            case BadIssuedAt => q.auth.issuedAt <= 0
            case ClockSkew => q.auth.issuedAt < at - SKEW_MS || at + SKEW_MS < q.auth.issuedAt
            case BadSignature => !q.auth.verifies
            case BadField => q.Publish? && !q.wellFormed
            case HandleMismatch => q.Delete? && q.pathHandle != q.auth.handle
            case RateLimited => q.limited
            case Claimed => q.Publish? && !Owns(t, q)
            case Replayed => q.Publish? && Owns(t, q) && !Moves(t, q)
            case NotRegistered => q.Touch? && !(Owns(t, q) && Moves(t, q))
            case NotFound => q.Delete? && !Owns(t, q)
  {
  }

  /** Nobody but the owner of a handle can tell from a touch or a delete whether the handle is taken. */
  lemma OthersCannotTell(t: Table, t': Table, q: Request, at: int)
    requires !q.Publish? && !Owns(t, q) && !Owns(t', q)
    ensures Judge(t, q, at) == Judge(t', q, at) != Granted
  {
  }

  ghost predicate AllGenuine(log: Log) {
    forall j :: 0 <= j < |log| ==> Genuine(log[j].request, log[j].at) && log[j] == Logged(log[j].request, log[j].at)
  }

  lemma {:induction false} RunGenuine(w: World, run: seq<Event>)
    requires AllGenuine(w.log)
    ensures AllGenuine(Run(w, run).log)
    decreases |run|
  {
    if run != [] {
      RunGenuine(Step(w, run[0]), run[1..]);
    }
  }

  /** Over every run: whatever was accepted was signed, in time, within the limits, and about the handle it names. */
  lemma OnlySignersWrite(run: seq<Event>)
    ensures var log := Run(START, run).log;
            forall j :: 0 <= j < |log| ==>
              var q, at := log[j].request, log[j].at;
              && q.auth.verifies && !q.limited && q.auth.handle == log[j].subject
              && 0 < q.auth.issuedAt && at - SKEW_MS <= q.auth.issuedAt <= at + SKEW_MS
              && (q.Publish? ==> q.wellFormed) && (q.Delete? ==> q.pathHandle == q.auth.handle)
  {
    RunGenuine(START, run);
  }

  // ---------------------------------------------------------------------------
  // Ownership.

  /** No event of the run collects `h`. */
  predicate Spares(run: seq<Event>, h: Handle) {
    forall i :: 0 <= i < |run| && run[i].Collection? ==> h !in run[i].hs
  }

  /** Between its creation and its collection a row keeps its key, and only that key's requests are accepted. */
  lemma {:induction false} OwnerFixed(w: World, run: seq<Event>, h: Handle)
    requires CanRun(w, run) && Spares(run, h) && h in w.table
    ensures var v := Run(w, run);
            && h in v.table && v.table[h].key == w.table[h].key && v.table[h].created == w.table[h].created
            && |w.log| <= |v.log| && v.log[..|w.log|] == w.log
            && forall k :: |w.log| <= k < |v.log| && About(v.log[k], h) ==>
               v.log[k].request.auth.key == w.table[h].key && v.log[k].request.auth.verifies
    decreases |run|
  {
    if run != [] {
      OwnerFixed(Step(w, run[0]), run[1..], h);
    }
  }

  // ---------------------------------------------------------------------------
  // The replay guard. A delete is not held to it, and that is the only way round it.

  /** A delete newer than the row it revokes, or any request that is not an accepted delete. */
  predicate Newer(t: Table, q: Request, at: int) {
    q.Delete? && Judge(t, q, at) == Granted ==> t[q.auth.handle].lastIssued < q.auth.issuedAt
  }

  /** Every delete the run accepts is newer than the row it revokes. */
  predicate DeletesNewer(w: World, run: seq<Event>)
    decreases |run|
  {
    run == [] || ((run[0].Call? ==> Newer(w.table, run[0].request, run[0].at)) &&
        DeletesNewer(Step(w, run[0]), run[1..]))
  }

  function MarkOf(t: Table, h: Handle): Option<Mark> {
    if h in t then Some(Mark(t[h].lastIssued, t[h].expires)) else None
  }

  ghost predicate Guarded(w: World) {
    && Increasing(w.log)
    && (forall i :: 0 <= i < |w.log| ==> Remembered(w.log[i], MarkOf(w.table, w.log[i].subject), w.clock))
    && (forall h | h in w.table :: MarkSound(w.log, h, MarkOf(w.table, h).value))
  }

  lemma NewerKeeps(w: World, q: Request, at: int)
    requires Guarded(w) && w.clock <= at && Newer(w.table, q, at)
    ensures Guarded(Step(w, Call(q, at)))
  {
    var v, e, h := Step(w, Call(q, at)), Logged(q, at), q.auth.handle;
    if Judge(w.table, q, at) == Granted {
      NewerThanAll(w.log, h, MarkOf(w.table, h), w.clock, q.auth.issuedAt, at);
      IncreasingMore(w.log, e);
      NowSound(w.log, e, v.table[h].expires);
      forall i | 0 <= i < |v.log|
        ensures Remembered(v.log[i], MarkOf(v.table, v.log[i].subject), v.clock)
      {
        assert i < |w.log| ==> v.log[i] == w.log[i] && Remembered(w.log[i], MarkOf(w.table, w.log[i].subject), w.clock);
      }
      forall k | k in v.table
        ensures MarkSound(v.log, k, MarkOf(v.table, k).value)
      {
        if k != h {
          StillSound(w.log, e, k, MarkOf(w.table, k).value);
        }
      }
    } else {
      forall i | 0 <= i < |v.log|
        ensures Remembered(v.log[i], MarkOf(v.table, v.log[i].subject), v.clock)
      {
        assert Remembered(w.log[i], MarkOf(w.table, w.log[i].subject), w.clock);
      }
    }
  }

  lemma CollectionGuarded(w: World, now: int, hs: set<Handle>)
    requires Guarded(w) && Enabled(w, Collection(now, hs))
    ensures Guarded(Step(w, Collection(now, hs)))
  {
    var v := Step(w, Collection(now, hs));
    forall i | 0 <= i < |v.log|
      ensures Remembered(v.log[i], MarkOf(v.table, v.log[i].subject), v.clock)
    {
      var e := w.log[i];
      assert Remembered(e, MarkOf(w.table, e.subject), w.clock);
      if e.subject in hs {
        assert Stale(w.table, now, e.subject);
        Outlived(w.log, e, MarkOf(w.table, e.subject).value, now, w.clock);
      }
    }
    assert forall h | h in v.table ::
        MarkOf(v.table, h) == MarkOf(w.table, h) && MarkSound(w.log, h, MarkOf(w.table, h).value);
  }

  lemma {:induction false} LogGrows(w: World, run: seq<Event>)
    ensures w.log <= Run(w, run).log
    decreases |run|
  {
    if run != [] {
      LogGrows(Step(w, run[0]), run[1..]);
    }
  }

  lemma OlderDeleteBreaks(w: World, q: Request, at: int)
    requires Guarded(w) && !Newer(w.table, q, at)
    ensures !Increasing(Step(w, Call(q, at)).log)
  {
    var v, h := Step(w, Call(q, at)), q.auth.handle;
    assert MarkSound(w.log, h, MarkOf(w.table, h).value);
    var i :| 0 <= i < |w.log| && About(w.log[i], h) && w.log[i].issuedAt == w.table[h].lastIssued;
    assert v.log[i] == w.log[i] && v.log[|w.log|] == Logged(q, at);
  }

  lemma {:induction false} IncreasingFrom(w: World, run: seq<Event>)
    requires Guarded(w) && CanRun(w, run)
    ensures Increasing(Run(w, run).log) <==> DeletesNewer(w, run)
    decreases |run|
  {
    if run != [] {
      var e, v := run[0], Step(w, run[0]);
      if e.Call? && !Newer(w.table, e.request, e.at) {
        OlderDeleteBreaks(w, e.request, e.at);
        LogGrows(v, run[1..]);
      } else {
        match e {
          case Call(q, at) => NewerKeeps(w, q, at);
          case Collection(now, hs) => CollectionGuarded(w, now, hs);
        }
        hide Guarded, Step;
        IncreasingFrom(v, run[1..]);
      }
    }
  }

  /**
   * Per handle, accepted `issued_at` values strictly increase over a run if and only if its deletes are newer than
   * their rows.
   */
  lemma IncreasingIffDeletesNewer(run: seq<Event>)
    requires CanRun(START, run)
    ensures Increasing(Run(START, run).log) <==> DeletesNewer(START, run)
  {
    IncreasingFrom(START, run);
  }

  // ---------------------------------------------------------------------------
  // Replays, over every run.

  /** An accepted delete, later than entry `i` and stamped before it. */
  ghost predicate Undercut(log: Log, i: int)
    requires 0 <= i < |log|
  {
    exists m :: i < m < |log| && About(log[m], log[i].subject) && log[m].kind.Ends? &&
                log[m].issuedAt < log[i].issuedAt
  }

  /** What is left of entry `i`: its row, as new as itself unless undercut, or nothing once it is out of the window. */
  ghost predicate Traced(w: World, i: int)
    requires 0 <= i < |w.log|
  {
    var q := w.log[i].request;
    var a := q.auth;
    && w.log[i] == Logged(q, w.log[i].at) && !q.limited && a.verifies && (q.Publish? ==> q.wellFormed)
    && 0 < a.issuedAt <= w.log[i].at + SKEW_MS
    && (a.issuedAt < w.clock - SKEW_MS ||
        (a.handle in w.table && w.table[a.handle].key == a.key &&
         (a.issuedAt <= w.table[a.handle].lastIssued || Undercut(w.log, i))))
  }

  ghost predicate RowStamped(w: World, h: Handle)
    requires h in w.table
  {
    exists k :: LastAbout(w.log, h, k) && w.log[k].issuedAt == w.table[h].lastIssued
  }

  ghost predicate Tracing(w: World) {
    && (forall i :: 0 <= i < |w.log| ==> Traced(w, i))
    && (forall h | h in w.table :: RowStamped(w, h))
  }

  lemma StillUndercut(log: Log, e: Entry<Request>, i: int)
    requires 0 <= i < |log| && Undercut(log, i)
    ensures Undercut(log + [e], i)
  {
    var m :| i < m < |log| && About(log[m], log[i].subject) && log[m].kind.Ends? &&
             log[m].issuedAt < log[i].issuedAt;
    assert (log + [e])[m] == log[m] && (log + [e])[i] == log[i];
  }

  lemma TracedStays(w: World, q: Request, at: int, i: int)
    requires Tracing(w) && w.clock <= at && Judge(w.table, q, at) == Granted && 0 <= i < |w.log|
    ensures Traced(Step(w, Call(q, at)), i)
  {
    var v, e := Step(w, Call(q, at)), Logged(q, at);
    assert Traced(w, i) && v.log[i] == w.log[i] && v.log[|w.log|] == e;
    if Undercut(w.log, i) {
      StillUndercut(w.log, e, i);
    }
    var a := w.log[i].request.auth;
    if a.handle == q.auth.handle && q.Delete? && q.auth.issuedAt < a.issuedAt {
      assert About(v.log[|w.log|], v.log[i].subject);
    }
  }

  lemma StampStays(w: World, q: Request, at: int, h: Handle)
    requires Tracing(w) && Judge(w.table, q, at) == Granted && h in Step(w, Call(q, at)).table
    ensures RowStamped(Step(w, Call(q, at)), h)
  {
    var v := Step(w, Call(q, at));
    if h == q.auth.handle {
      NowLast(w.log, Logged(q, at));
    } else {
      assert RowStamped(w, h);
      var k :| LastAbout(w.log, h, k) && w.log[k].issuedAt == w.table[h].lastIssued;
      StillLast(w.log, Logged(q, at), h, k);
    }
  }

  lemma CallTraces(w: World, q: Request, at: int)
    requires Tracing(w) && w.clock <= at
    ensures Tracing(Step(w, Call(q, at)))
  {
    var v := Step(w, Call(q, at));
    if Judge(w.table, q, at) == Granted {
      forall i | 0 <= i < |v.log|
        ensures Traced(v, i)
      {
        if i < |w.log| {
          TracedStays(w, q, at, i);
        } else {
          assert v.log[i] == Logged(q, at);
        }
      }
      forall h | h in v.table
        ensures RowStamped(v, h)
      {
        StampStays(w, q, at, h);
      }
    } else {
      forall i | 0 <= i < |v.log|
        ensures Traced(v, i)
      {
        assert Traced(w, i);
      }
      assert forall h | h in v.table :: RowStamped(w, h);
    }
  }

  lemma CollectionTraces(w: World, now: int, hs: set<Handle>)
    requires Tracing(w) && Inv(w) && Enabled(w, Collection(now, hs))
    ensures Tracing(Step(w, Collection(now, hs)))
  {
    var v := Step(w, Collection(now, hs));
    forall i | 0 <= i < |v.log|
      ensures Traced(v, i)
    {
      var h := w.log[i].request.auth.handle;
      assert Traced(w, i) && Agrees(w, h) && About(w.log[i], h);
      if h in hs {
        assert Stale(w.table, now, h);
      }
    }
    assert forall h | h in v.table :: RowStamped(w, h);
  }

  lemma {:induction false} RunTraces(w: World, run: seq<Event>)
    requires Inv(w) && Tracing(w) && CanRun(w, run)
    ensures Tracing(Run(w, run))
    decreases |run|
  {
    hide Inv, Tracing, Step;
    if run != [] {
      match run[0] {
        case Call(q, at) =>
          CallKeeps(w, q, at);
          CallTraces(w, q, at);
        case Collection(now, hs) =>
          CollectionKeeps(w, now, hs);
          CollectionTraces(w, now, hs);
      }
      RunTraces(Step(w, run[0]), run[1..]);
    }
  }

  /**
   * Over every run: an accepted publish sent again within the clock window is accepted again exactly when the last
   * request accepted about its handle is older than it, and only after a delete stamped before it.
   */
  lemma ReplayExactly(run: seq<Event>, i: int, at: int)
    requires CanRun(START, run) && Run(START, run).clock <= at && 0 <= i < |Run(START, run).log|
    requires Run(START, run).log[i].request.Publish? && at - SKEW_MS <= Run(START, run).log[i].issuedAt <= at + SKEW_MS
    ensures var w := Run(START, run);
            var p := w.log[i].request;
            && (Judge(w.table, p, at) == Granted <==>
                exists k :: LastAbout(w.log, p.auth.handle, k) && w.log[k].issuedAt < p.auth.issuedAt)
            && (Judge(w.table, p, at) == Granted ==> Undercut(w.log, i))
  {
    assert Inv(START);
    RunTraces(START, run);
    var w := Run(START, run);
    hide Run, CanRun;
    var p := w.log[i].request;
    assert Traced(w, i);
    assert RowStamped(w, p.auth.handle);
  }

  /** A publish, a delete stamped a moment before it, and the publish again: the revoked entry is back. */
  lemma ReplayAfterOlderDelete()
    ensures var p := Publish(Envelope(7, 8, 1_000_002, true), false, true, 9);
            var d := Delete(Envelope(7, 8, 1_000_001, true), false, 7);
            var run := [Call(p, 1_000_000), Call(d, 1_000_500), Call(p, 1_001_000)];
            && CanRun(START, run)
            && !Increasing(Run(START, run).log)
            && Lookup(Run(START, run).table, 7, 1001) == Online(9, 1001, 1901)
  {
    var p := Publish(Envelope(7, 8, 1_000_002, true), false, true, 9);
    var d := Delete(Envelope(7, 8, 1_000_001, true), false, 7);
    var e1, e2, e3 := Call(p, 1_000_000), Call(d, 1_000_500), Call(p, 1_001_000);
    var w1 := Step(START, e1);
    var w2 := Step(w1, e2);
    var w3 := Step(w2, e3);
    assert w1.table == map[7 := Row(8, 9, 1000, 1000, 1900, 1_000_002, None)];
    assert w2.table == map[7 := Row(8, PLACEHOLDER, 1000, 1000, 1000, 1_000_001, Some(1000))];
    assert w3.table[7] == Row(8, 9, 1000, 1001, 1901, 1_000_002, None);
    var none: seq<Event> := [];
    assert Run(w3, none) == w3 && CanRun(w3, none);
    assert [e3][1..] == none && [e2, e3][1..] == [e3] && [e1, e2, e3][1..] == [e2, e3];
    assert Run(w2, [e3]) == w3 && CanRun(w2, [e3]);
    assert Run(w1, [e2, e3]) == w3 && CanRun(w1, [e2, e3]);
    assert w3.log[0].request == p && w3.log[1].request == d;
  }

  // ---------------------------------------------------------------------------
  // The table, updated in place.

  class EntryTable {
    var rows: Table

    constructor ()
      ensures rows == map[]
    {
      rows := map[];
    }

    method HandlePublish(q: Request, nowMs: int) returns (answer: Answer)
      requires q.Publish?
      modifies this
      ensures answer == Judge(old(rows), q, nowMs) && rows == Apply(old(rows), q, nowMs)
    {
      answer := Authenticate(q.auth, nowMs);
      if answer != Granted {
        return;
      }
      if !q.wellFormed {
        return BadField;
      }
      if q.limited {
        return RateLimited;
      }
      var h, now := q.auth.handle, Seconds(nowMs);
      if h in rows {
        if rows[h].key != q.auth.key {
          return Claimed;
        }
        if q.auth.issuedAt <= rows[h].lastIssued {
          return Replayed;
        }
      }
      var created := if h in rows then rows[h].created else now;
      var key := if h in rows then rows[h].key else q.auth.key;
      rows := rows[h := Row(key, q.blob, created, now, now + ENTRY_TTL, q.auth.issuedAt, None)];
    }

    /** One conditional update: its condition is the whole authorisation. */
    method HandleTouch(q: Request, nowMs: int) returns (answer: Answer)
      requires q.Touch?
      modifies this
      ensures answer == Judge(old(rows), q, nowMs) && rows == Apply(old(rows), q, nowMs)
    {
      answer := Authenticate(q.auth, nowMs);
      if answer != Granted {
        return;
      }
      if q.limited {
        return RateLimited;
      }
      var h, now := q.auth.handle, Seconds(nowMs);
      if h in rows && rows[h].key == q.auth.key && rows[h].revoked.None? && rows[h].lastIssued < q.auth.issuedAt {
        rows := rows[h := rows[h].(lastSeen := now, expires := now + ENTRY_TTL, lastIssued := q.auth.issuedAt)];
      } else {
        answer := NotRegistered;
      }
    }

    method HandleDelete(q: Request, nowMs: int) returns (answer: Answer)
      requires q.Delete?
      modifies this
      ensures answer == Judge(old(rows), q, nowMs) && rows == Apply(old(rows), q, nowMs)
    {
      answer := Authenticate(q.auth, nowMs);
      if answer != Granted {
        return;
      }
      if q.auth.handle != q.pathHandle {
        return HandleMismatch;
      }
      if q.limited {
        return RateLimited;
      }
      var h, now := q.auth.handle, Seconds(nowMs);
      if h in rows && rows[h].key == q.auth.key {
        rows := rows[h := Row(rows[h].key, PLACEHOLDER, rows[h].created, now, now, q.auth.issuedAt, Some(now))];
      } else {
        answer := NotFound;
      }
    }

    method GarbageCollect(stale: seq<Handle>) returns (removed: nat)
      modifies this
      ensures removed == |stale| && rows == old(rows) - set h | h in stale
    {
      for i := 0 to |stale|
        invariant rows == old(rows) - set h | h in stale[..i]
      {
        assert stale[..i + 1] == stale[..i] + [stale[i]];
        rows := rows - {stale[i]};
      }
      assert stale[..|stale|] == stale;
      removed := |stale|;
    }
  }
}
