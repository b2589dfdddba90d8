/** One queue as a value, and what each critical section of the server does to it.

    Message objects live in the table `objects` and are referred to by position, so that the buffer, the
    delivery thread and an in-flight delivery can share one object; a position is never reused. `store` is the
    content of the persistent database (empty for an ephemeral queue) and `open` says whether the queue holds
    an open handle on it. */
module QueueState {
  import opened Messages
  import opened DeliveryPass

  datatype Queue = Queue(
    cfg: Config,
    objects: seq<Message>,
    buffer: seq<nat>,
    store: map<nat, Record>,
    open: bool,
    lastSerial: nat,
    depth: int,
    outstanding: int,
    stats: Statistics,
    subscribers: set<Guid>,
    running: bool)

  predicate Persists(q: Queue) {
    q.cfg.persistence == Persistent
  }

  /** Every position in `rs` names a message object. */
  predicate InTable(q: Queue, rs: seq<nat>) {
    forall i :: 0 <= i < |rs| ==> rs[i] < |q.objects|
  }

  function Serial(q: Queue, r: nat): nat
    requires r < |q.objects|
  {
    q.objects[r].rec.serial
  }

  function BufferedSerials(q: Queue): set<nat>
    requires InTable(q, q.buffer)
  {
    set r | r in q.buffer :: Serial(q, r)
  }

  function WithObject(q: Queue, r: nat, m: Message): Queue
    requires r < |q.objects|
  {
    q.(objects := q.objects[r := m])
  }

  function WithState(q: Queue, r: nat, state: MessageState): Queue
    requires r < |q.objects|
  {
    WithObject(q, r, q.objects[r].(state := state))
  }

  // ---------- enqueue ----------

  /** The 64-bit counter wraps silently. */
  function NextSerial(lastSerial: nat): nat {
    (lastSerial + 1) % U64_LIMIT
  }

  /** The record an enqueue is called with; queue name and serial are filled in under the lock. */
  function Draft(typeName: string, body: string, deferFor: Option<Duration>, id: Guid, now: Time): Record {
    Record("", 0, id, now, 0, if deferFor.Some? then Some(now + deferFor.value) else None, deferFor, typeName, body)
  }

  function Addressed(q: Queue, draft: Record): Record {
    draft.(queueName := q.cfg.name, serial := NextSerial(q.lastSerial))
  }

  function TakeSerial(q: Queue): Queue {
    q.(lastSerial := NextSerial(q.lastSerial))
  }

  function StoreRecord(q: Queue, rec: Record): Queue {
    q.(store := q.store[rec.serial := rec])
  }

  function CountReceived(q: Queue): Queue {
    q.(depth := q.depth + 1, stats := q.stats.(received := q.stats.received + 1))
  }

  function BufferNew(q: Queue, rec: Record): Queue {
    q.(objects := q.objects + [Fresh(rec)], buffer := q.buffer + [|q.objects|])
  }

  /** The whole of one enqueue, as it looks once it is over. */
  function Enqueued(q: Queue, draft: Record): Queue {
    var rec := Addressed(q, draft);
    if Persists(q) then CountReceived(StoreRecord(TakeSerial(q), rec))
    else CountReceived(BufferNew(TakeSerial(q), rec))
  }

  // ---------- hydration and loading ----------

  /** The least of a set of keys, and all of them in ascending order, as the database iterates them. */
  function SortedKeys(keys: set<nat>): (ks: seq<nat>)
    ensures SetOf(ks) == keys && |ks| == |keys| && Ascending(ks)
  {
    if keys == {} then []
    else
      var k := Least(keys);
      var rest := SortedKeys(keys - {k});
      LeastFirst(k, rest, keys);
      [k] + rest
  }

  predicate Ascending(ks: seq<nat>) {
    forall i, j :: 0 <= i < j < |ks| ==> ks[i] < ks[j]
  }

  lemma LeastFirst(k: nat, rest: seq<nat>, keys: set<nat>)
    requires k in keys && (forall x :: x in keys ==> k <= x)
    requires SetOf(rest) == keys - {k} && Ascending(rest)
    ensures SetOf([k] + rest) == keys && Ascending([k] + rest)
  {
    assert SetOf([k] + rest) == {k} + SetOf(rest);
    forall j | 0 <= j < |rest| ensures k < rest[j] {
      assert rest[j] in SetOf(rest);
    }
  }

  /** Stored keys above everything buffered. */
  function Above(q: Queue): set<nat>
    requires InTable(q, q.buffer)
  {
    set k | k in q.store && forall r :: r in q.buffer ==> Serial(q, r) < k
  }

  /** Records written by versions without message ids get one when they are loaded. */
  function Adopted(rec: Record, newIds: nat -> Guid): Record {
    if rec.messageId == EMPTY_GUID then rec.(messageId := newIds(rec.serial)) else rec
  }

  function HydrateOne(q: Queue, k: nat, newIds: nat -> Guid): Queue
    requires k in q.store
  {
    var rec := Adopted(q.store[k], newIds);
    BufferNew(q.(store := q.store[k := rec]), rec)
  }

  function HydrateKeys(q: Queue, ks: seq<nat>, newIds: nat -> Guid): Queue
    requires forall i :: 0 <= i < |ks| ==> ks[i] in q.store
    decreases |ks|
  {
    if ks == [] then q else HydrateKeys(HydrateOne(q, ks[0], newIds), ks[1..], newIds)
  }

  /** What one hydration reads: the first `count` stored keys above everything buffered. */
  function NextKeys(q: Queue, count: nat): (ks: seq<nat>)
    requires InTable(q, q.buffer)
    ensures Ascending(ks) && forall i :: 0 <= i < |ks| ==> ks[i] in q.store
  {
    var all := SortedKeys(Above(q));
    Prefix(all, Above(q), count);
    Leading(all, count)
  }

  lemma NextKeysAreNext(q: Queue, count: nat)
    requires InTable(q, q.buffer)
    ensures var ks := NextKeys(q, count);
      && (forall i :: 0 <= i < |ks| ==> ks[i] in Above(q))
      && (forall k :: k in Above(q) ==> k in ks || (|ks| == count && forall i :: 0 <= i < |ks| ==> ks[i] < k))
  {
    Prefix(SortedKeys(Above(q)), Above(q), count);
  }

  function Leading(ks: seq<nat>, count: nat): seq<nat> {
    if count < |ks| then ks[..count] else ks
  }

  lemma Prefix(all: seq<nat>, keys: set<nat>, count: nat)
    requires SetOf(all) == keys && Ascending(all)
    ensures var ks := Leading(all, count);
      && Ascending(ks)
      && (forall i :: 0 <= i < |ks| ==> ks[i] in keys)
      && (forall k :: k in keys ==> k in ks || (|ks| == count && forall i :: 0 <= i < |ks| ==> ks[i] < k))
  {
    var ks := Leading(all, count);
    forall i | 0 <= i < |ks| ensures ks[i] in keys {
      assert all[i] in SetOf(all);
    }
    forall k | k in keys && k !in ks ensures |ks| == count && forall i :: 0 <= i < |ks| ==> ks[i] < k {
      assert k in SetOf(all);
      var j :| 0 <= j < |all| && all[j] == k;
      assert count < |all|;
      assert forall x :: 0 <= x < |ks| ==> all[x] in ks;
      assert j >= count;
    }
  }

  function Hydrated(q: Queue, count: nat, newIds: nat -> Guid): Queue
    requires InTable(q, q.buffer)
  {
    HydrateKeys(q, NextKeys(q, count), newIds)
  }

  function LastKey(store: map<nat, Record>): nat {
    var ks := SortedKeys(store.Keys);
    if ks == [] then 0 else ks[|ks| - 1]
  }

  /** A new server process over whatever the database holds; the counters come from the saved metadata. */
  function Loaded(cfg: Config, disk: map<nat, Record>, stats: Statistics): Queue {
    if cfg.persistence == Persistent
    then Queue(cfg, [], [], disk, true, LastKey(disk), |disk|, 0, stats, {}, true)
    else Queue(cfg, [], [], map[], false, 0, 0, 0, stats, {}, true)
  }

  // ---------- expiry and picking ----------

  predicate Expired(cfg: Config, m: Message, now: Time) {
    cfg.maxAge.Some? && m.state == Ready && now - m.rec.timestamp > cfg.maxAge.value
  }

  function ExpiryState(cfg: Config, m: Message, now: Time): MessageState {
    if cfg.dlq.None? then Drop
    else if cfg.dlq.value.maxAge.Some? && now - m.rec.timestamp > cfg.dlq.value.maxAge.value then Drop
    else DeadLetter
  }

  function ExpireOne(q: Queue, r: nat, now: Time): Queue
    requires r < |q.objects|
  {
    if Expired(q.cfg, q.objects[r], now)
    then WithState(q, r, ExpiryState(q.cfg, q.objects[r], now)).(stats := q.stats.(expired := q.stats.expired + 1))
    else q
  }

  function ExpireAll(q: Queue, rs: seq<nat>, now: Time): (q1: Queue)
    requires InTable(q, rs)
    ensures |q1.objects| == |q.objects| && q1.buffer == q.buffer
    decreases |rs|
  {
    if rs == [] then q else ExpireAll(ExpireOne(q, rs[0], now), rs[1..], now)
  }

  /** The messages of `rs` that are due to expire. */
  function Stale(q: Queue, rs: seq<nat>, now: Time): set<nat>
    requires InTable(q, rs)
  {
    set r | r in rs && r < |q.objects| && Expired(q.cfg, q.objects[r], now)
  }

  predicate Eligible(m: Message, now: Time) {
    m.state == Ready && (m.rec.deferredUntil.None? || now >= m.rec.deferredUntil.value)
  }

  function FirstEligible(q: Queue, rs: seq<nat>, now: Time): (top: Option<nat>)
    requires InTable(q, rs)
    ensures match top
      case None => forall i :: 0 <= i < |rs| ==> !Eligible(q.objects[rs[i]], now)
      case Some(x) => exists i :: 0 <= i < |rs| && rs[i] == x && Eligible(q.objects[rs[i]], now)
                                  && forall j :: 0 <= j < i ==> !Eligible(q.objects[rs[j]], now)
  {
    if rs == [] then None
    else if Eligible(q.objects[rs[0]], now) then Some(rs[0])
    else
      FirstEligible(q, rs[1..], now)
  }

  datatype Selection = Selection(queue: Queue, top: Option<nat>, rehydrate: bool)

  function ExpireAndPick(q: Queue, now: Time): Selection
    requires InTable(q, q.buffer)
  {
    var q1 := ExpireAll(q, q.buffer, now);
    if q1.outstanding < q1.cfg.maxOutstanding && q1.subscribers != {} then
      var top := FirstEligible(q1, q1.buffer, now);
      var hungry := Persists(q1) && q1.depth > |q1.buffer| && (top.None? || |q1.buffer| < PERSISTENT_MESSAGES_MIN_BUFFER);
      Selection(q1, top, hungry)
    else Selection(q1, None, false)
  }

  // ---------- delivery ----------

  function Begun(q: Queue, r: nat): Queue
    requires r < |q.objects|
  {
    WithState(q, r, OutForDelivery).(outstanding := q.outstanding + 1)
  }

  function Sent(q: Queue, r: nat, s: Guid): Queue
    requires r < |q.objects|
  {
    WithObject(q, r, Send(q.objects[r], s))
  }

  /** The message object takes the reply; a deferred message is written back only if it is still buffered. */
  function Answered(q: Queue, r: nat, s: Guid, reply: Reply, now: Time): Queue
    requires r < |q.objects|
  {
    var m := Take(q.cfg, q.objects[r], s, reply, now).message;
    var q1 := WithObject(q, r, m).(stats := CountReply(q.stats, reply));
    if reply.Defer? && q.open && r in q.buffer then StoreRecord(q1, m.rec) else q1
  }

  function Finished(q: Queue, r: nat, verdict: MessageState): Queue
    requires r < |q.objects|
  {
    WithState(q, r, verdict).(outstanding := q.outstanding - 1)
  }

  // ---------- sweep and purge ----------

  function Disposed(q: Queue, rs: seq<nat>): (list: seq<nat>)
    requires InTable(q, rs)
    ensures forall r :: r in list <==> r in rs && Terminal(q.objects[r].state)
  {
    if rs == [] then []
    else if Terminal(q.objects[rs[0]].state) then [rs[0]] + Disposed(q, rs[1..])
    else Disposed(q, rs[1..])
  }

  function Without(xs: seq<nat>, x: nat): seq<nat> {
    if xs == [] then [] else if xs[0] == x then xs[1..] else [xs[0]] + Without(xs[1..], x)
  }

  function Removed(q: Queue, r: nat): Queue
    requires r < |q.objects|
  {
    q.(store := if q.open then q.store - {Serial(q, r)} else q.store,
       buffer := Without(q.buffer, r),
       depth := q.depth - 1)
  }

  /** A collected message that has been purged meanwhile is skipped. */
  function SweepOne(q: Queue, r: nat): Queue
    requires r < |q.objects|
  {
    if r in q.buffer && Terminal(q.objects[r].state) then Removed(q, r) else q
  }

  function SweepAll(q: Queue, list: seq<nat>): Queue
    requires InTable(q, list)
    decreases |list|
  {
    if list == [] then q else SweepAll(SweepOne(q, list[0]), list[1..])
  }

  function Purged(q: Queue): Queue {
    q.(store := if Persists(q) then map[] else q.store, buffer := [], depth := 0)
  }
}
