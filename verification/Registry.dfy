/**
 * The ID-keyed directory (workers/phonebook/src/index.js, lib/db.js, lib/auth.js): requests as
 * atomic steps on its two tables, and the replay guard over whole runs.
 * Clock readings are in milliseconds; rows hold whole seconds.
 */
module Registry {
  import opened Common
  import opened Config
  import opened Ledger

  type Id = int
  type Key = int
  type Address = int

  datatype Row = Row(key: Key, created: int, lastSeen: int, expires: int, lastIssued: int, revoked: Option<int>)

  datatype Book = Book(rows: map<Id, Row>, addresses: map<Id, seq<Address>>)

  /** A signed envelope: whether `key` hashes to `id`, and whether the signature verifies. */
  datatype Envelope = Envelope(id: Id, key: Key, issuedAt: int, derives: bool, verifies: bool)

  /** `limited` is the rate limiter's answer, `wellFormed` that of the field checks. */
  datatype Request =
    | Register(auth: Envelope, limited: bool, wellFormed: bool, addresses: seq<Address>)
    | Heartbeat(auth: Envelope, limited: bool)
    | Delete(auth: Envelope, limited: bool, pathId: Id)

  datatype Answer = Granted | BadIssuedAt | ClockSkew | KeyMismatch | BadSignature | IdMismatch | RateLimited
    | BadField | NotRegistered | NotFound | Replayed

  function Authenticate(a: Envelope, nowMs: int): Answer {
    if a.issuedAt <= 0 then BadIssuedAt
    else if Abs(nowMs - a.issuedAt) > SKEW_MS then ClockSkew
    else if !a.derives then KeyMismatch
    else if !a.verifies then BadSignature
    else Granted
  }

  /** The answer to a request, in the order the handlers check. */
  function Judge(b: Book, q: Request, nowMs: int): Answer {
    var known := q.auth.id in b.rows;
    var active := known && b.rows[q.auth.id].revoked.None?;
    var replay := known && q.auth.issuedAt <= b.rows[q.auth.id].lastIssued;
    if Authenticate(q.auth, nowMs) != Granted then Authenticate(q.auth, nowMs)
    else if q.Delete? && q.auth.id != q.pathId then IdMismatch
    else if q.limited then RateLimited
    else if q.Register? && !q.wellFormed then BadField
    else if q.Heartbeat? && !active then NotRegistered
    else if q.Delete? && !known then NotFound
    else if replay then Replayed
    else Granted
  }

  /** The row a granted request leaves. */
  function NewRow(b: Book, q: Request, now: int): Row
    requires q.Register? || q.auth.id in b.rows
  {
    var a := q.auth;
    match q
    case Register(_, _, _, _) =>
      Row(a.key, if a.id in b.rows then b.rows[a.id].created else now, now, now + REGISTRATION_TTL, a.issuedAt, None)
    case Heartbeat(_, _) =>
      b.rows[a.id].(lastSeen := now, expires := now + REGISTRATION_TTL, lastIssued := a.issuedAt)
    case Delete(_, _, _) =>
      b.rows[a.id].(revoked := Some(now), expires := now, lastSeen := now, lastIssued := a.issuedAt)
  }

  function Apply(b: Book, q: Request, nowMs: int): Book {
    if Judge(b, q, nowMs) != Granted then b
    else
      Book(b.rows[q.auth.id := NewRow(b, q, Seconds(nowMs))],
           match q
           case Register(_, _, _, addresses) => b.addresses[q.auth.id := addresses]
           case Heartbeat(_, _) => b.addresses
           case Delete(_, _, _) => b.addresses - {q.auth.id})
  }

  ghost predicate Stale(b: Book, now: int, id: Id) {
    id in b.rows && b.rows[id].expires < now - TOMBSTONE_TTL
  }

  /** `ids` is what the bounded query may return: stale rows, all of them unless the batch is full. */
  ghost predicate Batch(b: Book, now: int, ids: set<Id>) {
    && (forall id | id in ids :: Stale(b, now, id))
    && |ids| <= BATCH
    && (|ids| < BATCH ==> forall id | id in b.rows && Stale(b, now, id) :: id in ids)
  }

  function Collect(b: Book, ids: set<Id>): Book {
    Book(b.rows - ids, b.addresses - ids)
  }

  // ---------------------------------------------------------------------------
  // Runs.

  /** Garbage collection may work with an older reading of the clock. */
  datatype Event = Call(request: Request, at: int) | Collection(now: int, ids: set<Id>)

  type Log = seq<Entry<Request>>

  datatype World = World(book: Book, clock: int, log: Log)

  /** An accepted request as the log keeps it. */
  function Logged(q: Request, at: int): Entry<Request> {
    Entry(q.auth.id, q.auth.issuedAt, if q.Register? then Opens else if q.Heartbeat? then Refreshes else Ends, at, q)
  }

  const START := World(Book(map[], map[]), 0, [])

  ghost predicate Enabled(w: World, e: Event) {
    match e
    case Call(_, at) => w.clock <= at
    case Collection(now, ids) => now <= Seconds(w.clock) && Batch(w.book, now, ids)
  }

  function Step(w: World, e: Event): World {
    match e
    case Call(q, at) =>
      World(Apply(w.book, q, at), at,
            if Judge(w.book, q, at) == Granted then w.log + [Logged(q, at)] else w.log)
    case Collection(_, ids) => w.(book := Collect(w.book, ids))
  }

  ghost predicate CanRun(w: World, run: seq<Event>)
    decreases |run|
  {
    run == [] || (Enabled(w, run[0]) && CanRun(Step(w, run[0]), run[1..]))
  }

  function Run(w: World, run: seq<Event>): World
    decreases |run|
  {
    if run == [] then w else Run(Step(w, run[0]), run[1..])
  }

  // ---------------------------------------------------------------------------
  // The replay guard.

  function MarkOf(b: Book, id: Id): Option<Mark> {
    if id in b.rows then Some(Mark(b.rows[id].lastIssued, b.rows[id].expires)) else None
  }

  ghost predicate Guarded(w: World) {
    && Increasing(w.log)
    && (forall i :: 0 <= i < |w.log| ==> Remembered(w.log[i], MarkOf(w.book, w.log[i].subject), w.clock))
    && (forall id | id in w.book.rows :: MarkSound(w.log, id, MarkOf(w.book, id).value))
  }

  lemma CallGuarded(w: World, q: Request, at: int)
    requires Guarded(w) && w.clock <= at
    ensures Guarded(Step(w, Call(q, at)))
  {
    var v, e, id := Step(w, Call(q, at)), Logged(q, at), q.auth.id;
    if Judge(w.book, q, at) == Granted {
      NewerThanAll(w.log, id, MarkOf(w.book, id), w.clock, q.auth.issuedAt, at);
      IncreasingMore(w.log, e);
      NowSound(w.log, e, v.book.rows[id].expires);
      forall i | 0 <= i < |v.log|
        ensures Remembered(v.log[i], MarkOf(v.book, v.log[i].subject), v.clock)
      {
        assert i < |w.log| ==> v.log[i] == w.log[i] && Remembered(w.log[i], MarkOf(w.book, w.log[i].subject), w.clock);
      }
      forall k | k in v.book.rows
        ensures MarkSound(v.log, k, MarkOf(v.book, k).value)
      {
        if k != id {
          StillSound(w.log, e, k, MarkOf(w.book, k).value);
        }
      }
    } else {
      forall i | 0 <= i < |v.log|
        ensures Remembered(v.log[i], MarkOf(v.book, v.log[i].subject), v.clock)
      {
        assert Remembered(w.log[i], MarkOf(w.book, w.log[i].subject), w.clock);
      }
    }
  }

  lemma CollectionGuarded(w: World, now: int, ids: set<Id>)
    requires Guarded(w) && Enabled(w, Collection(now, ids))
    ensures Guarded(Step(w, Collection(now, ids)))
  {
    var v := Step(w, Collection(now, ids));
    forall i | 0 <= i < |v.log|
      ensures Remembered(v.log[i], MarkOf(v.book, v.log[i].subject), v.clock)
    {
      var e := w.log[i];
      assert Remembered(e, MarkOf(w.book, e.subject), w.clock);
      if e.subject in ids {
        assert Stale(w.book, now, e.subject);
        Outlived(w.log, e, MarkOf(w.book, e.subject).value, now, w.clock);
      }
    }
    assert forall id | id in v.book.rows ::
        MarkOf(v.book, id) == MarkOf(w.book, id) && MarkSound(w.log, id, MarkOf(w.book, id).value);
  }

  // ---------------------------------------------------------------------------
  // The tables against the log.

  /** The registration in force says `key` and `addresses`. */
  ghost predicate Registered(log: Log, id: Id, key: Key, addresses: seq<Address>) {
    exists i :: InForce(log, id, i) && Says(log[i].request, key, addresses)
  }

  predicate Says(q: Request, key: Key, addresses: seq<Address>) {
    q.Register? && q.auth.key == key && q.addresses == addresses
  }

  ghost predicate Agrees(w: World, id: Id) {
    if id !in w.book.rows then
      && id !in w.book.addresses
      && forall j :: 0 <= j < |w.log| && About(w.log[j], id) ==>
         Seconds(w.log[j].at) + TOMBSTONE_TTL < Seconds(w.clock)
    else
      var r := w.book.rows[id];
      && LastSeen(w.log, id, r.lastSeen)
      && (if r.revoked.None? then
            && id in w.book.addresses && Registered(w.log, id, r.key, w.book.addresses[id])
            && r.expires == r.lastSeen + REGISTRATION_TTL
          else
            && id !in w.book.addresses && Ended(w.log, id)
            && r.expires == r.lastSeen && r.revoked == Some(r.lastSeen))
  }

  ghost predicate Inv(w: World) {
    && Guarded(w)
    && (forall j :: 0 <= j < |w.log| ==> w.log[j].at <= w.clock)
    && (forall id :: Agrees(w, id))
  }

  lemma StillRegistered(log: Log, e: Entry<Request>, id: Id, key: Key, addresses: seq<Address>)
    requires Registered(log, id, key, addresses) && (About(e, id) ==> e.kind.Refreshes?)
    ensures Registered(log + [e], id, key, addresses)
  {
    var i :| InForce(log, id, i) && Says(log[i].request, key, addresses);
    StillInForce(log, e, id, i);
  }

  lemma OwnAgrees(w: World, q: Request, at: int)
    requires Inv(w) && w.clock <= at && Judge(w.book, q, at) == Granted
    ensures Agrees(Step(w, Call(q, at)), q.auth.id)
  {
    var e, id := Logged(q, at), q.auth.id;
    assert Agrees(w, id);
    hide Guarded;
    SeenNow(w.log, e);
    match q
    case Register(_, _, _, _) => NowInForce(w.log, e);
    case Heartbeat(_, _) => StillRegistered(w.log, e, id, w.book.rows[id].key, w.book.addresses[id]);
    case Delete(_, _, _) => NowLast(w.log, e);
  }

  /** An accepted request changes nothing about another ID. */
  lemma OtherAgrees(w: World, q: Request, at: int, id: Id)
    requires Inv(w) && w.clock <= at && Judge(w.book, q, at) == Granted && id != q.auth.id
    ensures Agrees(Step(w, Call(q, at)), id)
  {
    var v, e := Step(w, Call(q, at)), Logged(q, at);
    assert Agrees(w, id);
    hide Guarded;
    if id in w.book.rows {
      SeenBefore(w.log, e, id, w.book.rows[id].lastSeen);
      if w.book.rows[id].revoked.None? {
        StillRegistered(w.log, e, id, w.book.rows[id].key, w.book.addresses[id]);
      } else {
        StillEnded(w.log, e, id);
      }
    } else {
      assert forall j :: 0 <= j < |w.log| ==> v.log[j] == w.log[j];
    }
  }

  lemma CallKeeps(w: World, q: Request, at: int)
    requires Inv(w) && w.clock <= at
    ensures Inv(Step(w, Call(q, at)))
  {
    var v := Step(w, Call(q, at));
    CallGuarded(w, q, at);
    forall id
      ensures Agrees(v, id)
    {
      if Judge(w.book, q, at) != Granted {
        assert Agrees(w, id);
      } else if id == q.auth.id {
        OwnAgrees(w, q, at);
      } else {
        OtherAgrees(w, q, at, id);
      }
    }
    hide Agrees, Guarded;
  }

  lemma CollectionKeeps(w: World, now: int, ids: set<Id>)
    requires Inv(w) && Enabled(w, Collection(now, ids))
    ensures Inv(Step(w, Collection(now, ids)))
  {
    var v := Step(w, Collection(now, ids));
    CollectionGuarded(w, now, ids);
    hide Guarded;
    forall id
      ensures Agrees(v, id)
    {
      assert Agrees(w, id);
      assert id in ids ==> Stale(w.book, now, id);
    }
  }

  lemma {:induction false} RunKeeps(w: World, run: seq<Event>)
    requires Inv(w) && CanRun(w, run)
    ensures Inv(Run(w, run))
    decreases |run|
  {
    hide Inv, Step;
    if run != [] {
      match run[0] {
        case Call(q, at) => CallKeeps(w, q, at);
        case Collection(now, ids) => CollectionKeeps(w, now, ids);
      }
      RunKeeps(Step(w, run[0]), run[1..]);
    }
  }

  /** Over every run, collections included, accepted `issued_at` values strictly increase per ID. */
  lemma IssuedAtIncreases(run: seq<Event>)
    requires CanRun(START, run)
    ensures Increasing(Run(START, run).log)
  {
    assert Inv(START);
    RunKeeps(START, run);
  }

  // ---------------------------------------------------------------------------
  // Who is let in.

  /** A request made by the holder of the ID's key, about that ID, now, within the limits and well formed. */
  predicate Genuine(q: Request, at: int) {
    && q.auth.derives && q.auth.verifies
    && 0 < q.auth.issuedAt && at - SKEW_MS <= q.auth.issuedAt <= at + SKEW_MS
    && !q.limited
    && (q.Register? ==> q.wellFormed)
    && (q.Delete? ==> q.pathId == q.auth.id)
  }

  /** A heartbeat needs an active row, a delete a known one. */
  predicate Standing(b: Book, q: Request) {
    && (q.Heartbeat? ==> q.auth.id in b.rows && b.rows[q.auth.id].revoked.None?)
    && (q.Delete? ==> q.auth.id in b.rows)
  }

  /** The row's key is the one a registration of the ID was signed with. */
  ghost predicate KeyTraced(log: Log, id: Id, key: Key) {
    exists j :: 0 <= j < |log| && log[j].request.Register? && log[j].request.auth.id == id
                && log[j].request.auth.key == key
  }

  ghost predicate Owned(w: World) {
    && (forall j :: 0 <= j < |w.log| ==>
          Genuine(w.log[j].request, w.log[j].at) && w.log[j] == Logged(w.log[j].request, w.log[j].at))
    && (forall id | id in w.book.rows :: KeyTraced(w.log, id, w.book.rows[id].key))
  }

  lemma StepOwned(w: World, e: Event)
    requires Owned(w)
    ensures Owned(Step(w, e))
  {
    var v := Step(w, e);
    forall id | id in v.book.rows
      ensures KeyTraced(v.log, id, v.book.rows[id].key)
    {
      if e.Call? && e.request.Register? && e.request.auth.id == id && Judge(w.book, e.request, e.at) == Granted {
        assert v.log[|w.log|] == Logged(e.request, e.at);
      } else {
        var j :| 0 <= j < |w.log| && w.log[j].request.Register? && w.log[j].request.auth.id == id
            && w.log[j].request.auth.key == w.book.rows[id].key;
        assert v.log[j] == w.log[j];
      }
    }
  }

  lemma {:induction false} RunOwned(w: World, run: seq<Event>)
    requires Owned(w)
    ensures Owned(Run(w, run))
    decreases |run|
  {
    hide Owned, Step;
    if run != [] {
      StepOwned(w, run[0]);
      RunOwned(Step(w, run[0]), run[1..]);
    }
  }

  /**
   * Over every run: whatever was accepted was signed by the key its ID commits to, inside the clock window, within
   * the limits and about that very ID; and the key a row shows is that of such a registration.
   */
  lemma OnlyOwnersWrite(run: seq<Event>)
    ensures var w := Run(START, run);
            && (forall j :: 0 <= j < |w.log| ==>
                  var q, at := w.log[j].request, w.log[j].at;
                  && q.auth.verifies && q.auth.derives && !q.limited && q.auth.id == w.log[j].subject
                  && 0 < q.auth.issuedAt && at - SKEW_MS <= q.auth.issuedAt <= at + SKEW_MS
                  && (q.Register? ==> q.wellFormed) && (q.Delete? ==> q.pathId == q.auth.id))
            && (forall id | id in w.book.rows ::
                  exists j :: 0 <= j < |w.log| && w.log[j].request.Register? && w.log[j].request.auth.id == id
                              && w.log[j].request.auth.key == w.book.rows[id].key)
  {
    assert Owned(START);
    RunOwned(START, run);
    hide Run;
    var w := Run(START, run);
    forall id | id in w.book.rows
      ensures exists j :: 0 <= j < |w.log| && w.log[j].request.Register? && w.log[j].request.auth.id == id
                          && w.log[j].request.auth.key == w.book.rows[id].key
    {
      assert KeyTraced(w.log, id, w.book.rows[id].key);
    }
  }

  /** Without the key of an ID nothing about it is learnt: the answer does not depend on the tables. */
  lemma StrangersLearnNothing(b: Book, b': Book, q: Request, at: int)
    requires !(q.auth.derives && q.auth.verifies)
    ensures Judge(b, q, at) == Judge(b', q, at) != Granted && Apply(b, q, at) == b
  {
  }

  /** Every refusal names a fault the request has. */
  lemma RefusalNamesFault(b: Book, q: Request, at: int)
    ensures match Judge(b, q, at)
            case Granted => Genuine(q, at) && Standing(b, q)
            case BadIssuedAt => q.auth.issuedAt <= 0
            case ClockSkew => q.auth.issuedAt < at - SKEW_MS || at + SKEW_MS < q.auth.issuedAt
            case KeyMismatch => !q.auth.derives
            case BadSignature => !q.auth.verifies
            case IdMismatch => q.Delete? && q.pathId != q.auth.id
            case RateLimited => q.limited
            case BadField => q.Register? && !q.wellFormed
            case NotRegistered => q.Heartbeat? && !Standing(b, q)
            case NotFound => q.Delete? && q.auth.id !in b.rows
            case Replayed => q.auth.id in b.rows && q.auth.issuedAt <= b.rows[q.auth.id].lastIssued
  {
  }

  /**
   * The table that forgets refuses as replays exactly what one that never forgets would: a request is granted if and
   * only if it is genuine, stands on a row where it needs one, and is newer than every request ever accepted for its
   * ID.
   */
  lemma GuardIsExact(run: seq<Event>, q: Request, at: int)
    requires CanRun(START, run) && Run(START, run).clock <= at
    ensures var w := Run(START, run);
            Judge(w.book, q, at) == Granted <==>
            && Genuine(q, at) && Standing(w.book, q)
            && forall i :: 0 <= i < |w.log| && About(w.log[i], q.auth.id) ==> w.log[i].issuedAt < q.auth.issuedAt
  {
    assert Inv(START);
    RunKeeps(START, run);
    var w := Run(START, run);
    hide Run, CanRun, Agrees;
    var id := q.auth.id;
    if id in w.book.rows {
      assert MarkSound(w.log, id, MarkOf(w.book, id).value);
    }
    assert forall i :: 0 <= i < |w.log| && About(w.log[i], id) ==> Remembered(w.log[i], MarkOf(w.book, id), w.clock);
  }

  /** A collection leaves nothing of the IDs it took, and nothing stale unless its batch was full. */
  lemma CollectionRemoves(w: World, now: int, ids: set<Id>, id: Id)
    requires Enabled(w, Collection(now, ids))
    ensures var b := Step(w, Collection(now, ids)).book;
            && (id in ids ==> id !in b.rows && id !in b.addresses)
            && (id !in ids && id in w.book.rows ==> id in b.rows && b.rows[id] == w.book.rows[id])
            && (|ids| < BATCH && id in b.rows ==> b.rows[id].expires >= now - TOMBSTONE_TTL)
  {
    if |ids| < BATCH && id in w.book.rows {
      assert Stale(w.book, now, id) ==> id in ids;
    }
  }

  /** A row's creation time is that of the registration that made it, until the row is collected. */
  lemma CreatedStays(w: World, e: Event, id: Id)
    requires id in Step(w, e).book.rows
    ensures var created := Step(w, e).book.rows[id].created;
            if id in w.book.rows then created == w.book.rows[id].created
            else e.Call? && e.request.Register? && e.request.auth.id == id && created == Seconds(e.at)
  {
  }

  /** A request once accepted is refused ever after, whatever kind of request carries its envelope. */
  lemma NoReplay(run: seq<Event>, i: int, q: Request, at: int)
    requires CanRun(START, run) && Run(START, run).clock <= at && 0 <= i < |Run(START, run).log|
    requires q.auth.id == Run(START, run).log[i].subject && q.auth.issuedAt == Run(START, run).log[i].issuedAt
    ensures Judge(Run(START, run).book, q, at) != Granted
  {
    assert Inv(START);
    RunKeeps(START, run);
    var w := Run(START, run);
    hide Run, CanRun, Agrees;
    assert Remembered(w.log[i], MarkOf(w.book, w.log[i].subject), w.clock);
  }

  /** Revoking or collecting an ID leaves no address of it behind. */
  lemma NoAddressLeft(run: seq<Event>, id: Id)
    requires CanRun(START, run)
    ensures var b := Run(START, run).book;
            id in b.addresses <==> id in b.rows && b.rows[id].revoked.None?
  {
    assert Inv(START);
    RunKeeps(START, run);
    hide Run, CanRun, Guarded;
    assert Agrees(Run(START, run), id);
  }

  datatype Found =
    | Missing
    | Offline(lastSeen: int)
    | Online(key: Key, addresses: seq<Address>, lastSeen: int, expires: int)

  function Lookup(b: Book, id: Id, now: int): Found {
    if id !in b.rows then Missing
    else if b.rows[id].revoked.None? && b.rows[id].expires > now then
      Online(b.rows[id].key, if id in b.addresses then b.addresses[id] else [], b.rows[id].lastSeen, b.rows[id].expires)
    else Offline(b.rows[id].lastSeen)
  }

  /**
   * Over every run: a lookup is online with a key, addresses and a last sighting exactly when the registration in
   * force says that key and those addresses, and the last accepted request about the ID lies within the lifetime.
   */
  lemma LookupRefinesLog(run: seq<Event>, id: Id, now: int, key: Key, addresses: seq<Address>, seen: int)
    requires CanRun(START, run) && Seconds(Run(START, run).clock) <= now
    ensures var w := Run(START, run);
            Lookup(w.book, id, now) == Online(key, addresses, seen, seen + REGISTRATION_TTL) <==>
            Registered(w.log, id, key, addresses) && LastSeen(w.log, id, seen) && now < seen + REGISTRATION_TTL
  {
    assert Inv(START);
    RunKeeps(START, run);
    hide Run, CanRun;
    LookupAgrees(Run(START, run), id, now, key, addresses, seen);
  }

  lemma LookupAgrees(w: World, id: Id, now: int, key: Key, addresses: seq<Address>, seen: int)
    requires Inv(w) && Seconds(w.clock) <= now
    ensures Lookup(w.book, id, now) == Online(key, addresses, seen, seen + REGISTRATION_TTL) <==>
            Registered(w.log, id, key, addresses) && LastSeen(w.log, id, seen) && now < seen + REGISTRATION_TTL
  {
    assert Agrees(w, id);
    hide Guarded;
    if id in w.book.rows && w.book.rows[id].revoked.None? {
      var i :| InForce(w.log, id, i) && Says(w.log[i].request, w.book.rows[id].key, w.book.addresses[id]);
      forall j | InForce(w.log, id, j)
        ensures j == i
      {
        ForceOnce(w.log, id, i, j);
      }
    } else if id in w.book.rows {
      forall i
        ensures !InForce(w.log, id, i)
      {
        EndedIsNotInForce(w.log, id, i);
      }
    } else {
      assert LastSeen(w.log, id, seen) ==> seen + REGISTRATION_TTL < Seconds(w.clock);
    }
  }

  /**
   * Over every run, the other two answers: an ID is offline, last seen when the log says so, once it was ended or its
   * lifetime is over; and it is unknown only if nothing was accepted about it for longer than a tombstone is kept.
   */
  lemma LookupOtherwise(run: seq<Event>, id: Id, now: int)
    requires CanRun(START, run) && Seconds(Run(START, run).clock) <= now
    ensures var w := Run(START, run);
            match Lookup(w.book, id, now)
            case Missing =>
              forall j :: 0 <= j < |w.log| && About(w.log[j], id) ==>
                Seconds(w.log[j].at) + TOMBSTONE_TTL < Seconds(w.clock)
            case Offline(seen) => LastSeen(w.log, id, seen) && (Ended(w.log, id) || seen + REGISTRATION_TTL <= now)
            case Online(_, _, seen, expires) => LastSeen(w.log, id, seen) && expires == seen + REGISTRATION_TTL > now
  {
    assert Inv(START);
    RunKeeps(START, run);
    hide Run, CanRun, Guarded;
    assert Agrees(Run(START, run), id);
  }

  // ---------------------------------------------------------------------------
  // The tables, updated in place.

  class Tables {
    var rows: map<Id, Row>
    var addresses: map<Id, seq<Address>>

    ghost function Now(): Book
      reads this
    {
      Book(rows, addresses)
    }

    constructor ()
      ensures Now() == START.book
    {
      rows, addresses := map[], map[];
    }

    method HandleRegister(q: Request, nowMs: int) returns (answer: Answer)
      requires q.Register?
      modifies this
      ensures answer == Judge(old(Now()), q, nowMs) && Now() == Apply(old(Now()), q, nowMs)
    {
      var now := Seconds(nowMs);
      answer := Authenticate(q.auth, nowMs);
      if answer != Granted {
        return;
      }
      if q.limited {
        return RateLimited;
      }
      if !q.wellFormed {
        return BadField;
      }
      var id := q.auth.id;
      if id in rows && q.auth.issuedAt <= rows[id].lastIssued {
        return Replayed;
      }
      if id in rows {
        rows := rows[id := rows[id].(key := q.auth.key, lastSeen := now, expires := now + REGISTRATION_TTL,
            lastIssued := q.auth.issuedAt, revoked := None)];
      } else {
        rows := rows[id := Row(q.auth.key, now, now, now + REGISTRATION_TTL, q.auth.issuedAt, None)];
      }
      addresses := addresses - {id};
      addresses := addresses[id := q.addresses];
    }

    method HandleHeartbeat(q: Request, nowMs: int) returns (answer: Answer)
      requires q.Heartbeat?
      modifies this
      ensures answer == Judge(old(Now()), q, nowMs) && Now() == Apply(old(Now()), q, nowMs)
    {
      var now := Seconds(nowMs);
      answer := Authenticate(q.auth, nowMs);
      if answer != Granted {
        return;
      }
      if q.limited {
        return RateLimited;
      }
      var id := q.auth.id;
      if id !in rows || rows[id].revoked.Some? {
        return NotRegistered;
      }
      if q.auth.issuedAt <= rows[id].lastIssued {
        return Replayed;
      }
      rows := rows[id := rows[id].(lastSeen := now, expires := now + REGISTRATION_TTL, lastIssued := q.auth.issuedAt)];
    }

    method HandleDelete(q: Request, nowMs: int) returns (answer: Answer)
      requires q.Delete?
      modifies this
      ensures answer == Judge(old(Now()), q, nowMs) && Now() == Apply(old(Now()), q, nowMs)
    {
      var now := Seconds(nowMs);
      answer := Authenticate(q.auth, nowMs);
      if answer != Granted {
        return;
      }
      if q.auth.id != q.pathId {
        return IdMismatch;
      }
      if q.limited {
        return RateLimited;
      }
      var id := q.auth.id;
      if id !in rows {
        return NotFound;
      }
      if q.auth.issuedAt <= rows[id].lastIssued {
        return Replayed;
      }
      rows := rows[id := rows[id].(revoked := Some(now), expires := now, lastSeen := now,
          lastIssued := q.auth.issuedAt)];
      addresses := addresses - {id};
    }

    /** Deletes what the bounded query returned, one ID after the other. */
    method GarbageCollect(stale: seq<Id>) returns (removed: nat)
      modifies this
      ensures removed == |stale|
      ensures Now() == Collect(old(Now()), set id | id in stale)
    {
      for i := 0 to |stale|
        invariant rows == old(rows) - set id | id in stale[..i]
        invariant addresses == old(addresses) - set id | id in stale[..i]
      {
        assert stale[..i + 1] == stale[..i] + [stale[i]];
        addresses := addresses - {stale[i]};
        rows := rows - {stale[i]};
      }
      assert stale[..|stale|] == stale;
      removed := |stale|;
    }
  }
}
