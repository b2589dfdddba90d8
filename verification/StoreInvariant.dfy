/** The buffer refines the store, the depth is exact, and what left the queue stays out: the invariant that ties
    a queue to the enqueues still inside its read lock, and its preservation by every critical section. */
module StoreInvariant {
  import opened Messages
  import opened DeliveryPass
  import opened QueueState

  /** The part of a queue the invariant speaks of: persisted fields of every message object, buffer, store. */
  datatype Core = Core(
    recs: seq<Record>,
    buffer: seq<nat>,
    store: map<nat, Record>,
    open: bool,
    lastSerial: nat,
    depth: int,
    persists: bool)

  ghost function CoreOf(q: Queue): Core {
    Core(seq(|q.objects|, i requires 0 <= i < |q.objects| => q.objects[i].rec),
         q.buffer, q.store, q.open, q.lastSerial, q.depth, Persists(q))
  }

  /** Enqueues on a persistent queue only hold the shared lock, so several can be under way: `drawn` maps a
      serial already drawn to the record not yet stored, `uncounted` are serials stored but not yet counted. */
  ghost predicate StoreInv(q: Queue, drawn: map<nat, Record>, uncounted: set<nat>) {
    CoreInv(CoreOf(q), drawn, uncounted)
  }

  ghost predicate CoreInv(c: Core, drawn: map<nat, Record>, uncounted: set<nat>) {
    && BufferInTable(c)
    && BufferAscends(c)
    && SerialsBelowLast(c, drawn)
    && OneObjectPerSerial(c)
    && (c.persists ==>
          && DepthExact(c, uncounted)
          && UnderWay(c, drawn, uncounted)
          && DetachedStayOut(c)
          && BufferStored(c)
          && (c.open ==> BufferAgrees(c))
          && PrefixBuffered(c))
    && (!c.persists ==> c.store == map[] && !c.open && drawn == map[] && uncounted == {} && c.depth == |c.buffer|)
  }

  ghost predicate BufferInTable(c: Core) {
    forall i :: 0 <= i < |c.buffer| ==> c.buffer[i] < |c.recs|
  }

  ghost predicate BufferAscends(c: Core)
    requires BufferInTable(c)
  {
    forall i, j :: 0 <= i < j < |c.buffer| ==> c.recs[c.buffer[i]].serial < c.recs[c.buffer[j]].serial
  }

  ghost predicate SerialsBelowLast(c: Core, drawn: map<nat, Record>) {
    && (forall r :: 0 <= r < |c.recs| ==> c.recs[r].serial <= c.lastSerial)
    && (forall k :: k in c.store ==> k <= c.lastSerial && c.store[k].serial == k)
    && (forall k :: k in drawn ==> k <= c.lastSerial && drawn[k].serial == k)
  }

  ghost predicate OneObjectPerSerial(c: Core) {
    forall r, t :: 0 <= r < t < |c.recs| ==> c.recs[r].serial != c.recs[t].serial
  }

  ghost predicate DepthExact(c: Core, uncounted: set<nat>) {
    c.depth + |uncounted| == |c.store|
  }

  ghost predicate UnderWay(c: Core, drawn: map<nat, Record>, uncounted: set<nat>)
    requires BufferInTable(c)
  {
    && uncounted <= c.store.Keys
    && drawn.Keys !! c.store.Keys
    && (forall r :: 0 <= r < |c.recs| ==> c.recs[r].serial !in drawn && c.recs[r].serial !in uncounted)
    && (forall k :: k in drawn || k in uncounted ==> AfterBuffer(c, k))
  }

  /** A message object that is not buffered has no record in the store. */
  ghost predicate DetachedStayOut(c: Core) {
    forall r :: 0 <= r < |c.recs| && r !in c.buffer ==> c.recs[r].serial !in c.store
  }

  ghost predicate BufferStored(c: Core)
    requires BufferInTable(c)
  {
    forall i :: 0 <= i < |c.buffer| ==> c.recs[c.buffer[i]].serial in c.store
  }

  /** Every buffered message equals its stored record on every persisted field. */
  ghost predicate BufferAgrees(c: Core)
    requires BufferInTable(c) && BufferStored(c)
  {
    forall i :: 0 <= i < |c.buffer| ==> c.store[c.recs[c.buffer[i]].serial] == c.recs[c.buffer[i]]
  }

  ghost predicate IsBuffered(c: Core, k: nat)
    requires BufferInTable(c)
  {
    exists i :: 0 <= i < |c.buffer| && c.recs[c.buffer[i]].serial == k
  }

  ghost predicate AfterBuffer(c: Core, k: nat)
    requires BufferInTable(c)
  {
    forall i :: 0 <= i < |c.buffer| ==> c.recs[c.buffer[i]].serial < k
  }

  /** A stored message is buffered or comes after everything buffered. */
  ghost predicate PrefixBuffered(c: Core)
    requires BufferInTable(c)
  {
    forall k :: k in c.store ==> IsBuffered(c, k) || AfterBuffer(c, k)
  }

  // ---------- sections that only touch message state ----------

  lemma SameCore(q: Queue, q1: Queue)
    requires q1.cfg.persistence == q.cfg.persistence && q1.store == q.store && q1.buffer == q.buffer
    requires q1.open == q.open && q1.depth == q.depth && q1.lastSerial == q.lastSerial
    requires |q1.objects| == |q.objects| && forall r :: 0 <= r < |q.objects| ==> q1.objects[r].rec == q.objects[r].rec
    ensures CoreOf(q1) == CoreOf(q)
  {
  }

  lemma {:induction false} ExpiryKeepsCore(q: Queue, rs: seq<nat>, now: Time)
    requires InTable(q, rs)
    ensures CoreOf(ExpireAll(q, rs, now)) == CoreOf(q)
    decreases |rs|
  {
    if rs != [] {
      SameCore(q, ExpireOne(q, rs[0], now));
      ExpiryKeepsCore(ExpireOne(q, rs[0], now), rs[1..], now);
    }
  }

  // ---------- enqueue, in its three steps ----------

  lemma AllocateKeeps(q: Queue, drawn: map<nat, Record>, uncounted: set<nat>, draft: Record)
    requires StoreInv(q, drawn, uncounted) && Persists(q) && q.lastSerial + 1 < U64_LIMIT
    ensures var rec := Addressed(q, draft);
      rec.serial > q.lastSerial && StoreInv(TakeSerial(q), drawn[rec.serial := rec], uncounted)
  {
    var c, rec := CoreOf(q), Addressed(q, draft);
    var c1 := c.(lastSerial := q.lastSerial + 1);
    assert CoreOf(TakeSerial(q)) == c1;
    SameBuffer(c, c1);
    AllocatedUnderWay(c, c1, drawn, uncounted, rec);
  }

  lemma AllocatedUnderWay(c: Core, c1: Core, drawn: map<nat, Record>, uncounted: set<nat>, rec: Record)
    requires c1 == c.(lastSerial := rec.serial) && rec.serial > c.lastSerial
    requires BufferInTable(c) && SerialsBelowLast(c, drawn) && UnderWay(c, drawn, uncounted)
    ensures SerialsBelowLast(c1, drawn[rec.serial := rec]) && UnderWay(c1, drawn[rec.serial := rec], uncounted)
  {
  }

  lemma StoreKeeps(q: Queue, drawn: map<nat, Record>, uncounted: set<nat>, k: nat)
    requires StoreInv(q, drawn, uncounted) && Persists(q) && k in drawn
    ensures k !in q.store
    ensures StoreInv(StoreRecord(q, drawn[k]), drawn - {k}, uncounted + {k})
  {
    var c := CoreOf(q);
    var c1 := c.(store := c.store[k := drawn[k]]);
    assert CoreOf(StoreRecord(q, drawn[k])) == c1;
    SameBuffer(c, c1);
    StoredUnderWay(c, c1, drawn, uncounted, k);
    StoredBuffer(c, c1, drawn, k);
  }

  lemma StoredUnderWay(c: Core, c1: Core, drawn: map<nat, Record>, uncounted: set<nat>, k: nat)
    requires k in drawn && c1 == c.(store := c.store[k := drawn[k]])
    requires BufferInTable(c) && SerialsBelowLast(c, drawn) && UnderWay(c, drawn, uncounted) && DepthExact(c, uncounted)
    ensures k !in c.store && SerialsBelowLast(c1, drawn - {k}) && UnderWay(c1, drawn - {k}, uncounted + {k})
    ensures DepthExact(c1, uncounted + {k})
  {
    assert c1.store.Keys == c.store.Keys + {k};
    assert k !in uncounted;
    assert |c1.store| == |c1.store.Keys| == |c.store.Keys| + 1;
  }

  lemma StoredBuffer(c: Core, c1: Core, drawn: map<nat, Record>, k: nat)
    requires k in drawn && c1 == c.(store := c.store[k := drawn[k]])
    requires BufferInTable(c) && BufferStored(c) && DetachedStayOut(c) && PrefixBuffered(c)
    requires AfterBuffer(c, k) && forall r :: 0 <= r < |c.recs| ==> c.recs[r].serial != k
    ensures BufferStored(c1) && DetachedStayOut(c1) && PrefixBuffered(c1) && (BufferAgrees(c) ==> BufferAgrees(c1))
  {
    SameBuffer(c, c1);
  }

  lemma SameBuffer(c: Core, c1: Core)
    requires BufferInTable(c) && c1.recs == c.recs && c1.buffer == c.buffer
    ensures forall k :: IsBuffered(c1, k) <==> IsBuffered(c, k)
    ensures forall k :: AfterBuffer(c1, k) <==> AfterBuffer(c, k)
  {
  }

  lemma CountKeeps(q: Queue, drawn: map<nat, Record>, uncounted: set<nat>, k: nat)
    requires StoreInv(q, drawn, uncounted) && Persists(q) && k in uncounted
    ensures StoreInv(CountReceived(q), drawn, uncounted - {k})
  {
    assert CoreOf(CountReceived(q)) == CoreOf(q).(depth := q.depth + 1);
  }

  lemma EphemeralEnqueueKeeps(q: Queue, draft: Record)
    requires StoreInv(q, map[], {}) && !Persists(q) && q.lastSerial + 1 < U64_LIMIT
    ensures StoreInv(Enqueued(q, draft), map[], {})
  {
    var c, q1 := CoreOf(q), Enqueued(q, draft);
    assert CoreOf(q1).recs == c.recs + [Addressed(q, draft)];
  }

  /** A whole enqueue; on a persistent queue others may be under way, since the lock is shared. */
  lemma EnqueueKeeps(q: Queue, drawn: map<nat, Record>, uncounted: set<nat>, draft: Record)
    requires StoreInv(q, drawn, uncounted) && q.lastSerial + 1 < U64_LIMIT
    ensures StoreInv(Enqueued(q, draft), drawn, uncounted)
  {
    if Persists(q) {
      var rec := Addressed(q, draft);
      assert CoreOf(Enqueued(q, draft)) == Arrived(CoreOf(q), rec);
      ArrivalKeeps(CoreOf(q), drawn, uncounted, rec);
    } else {
      NobodyDraws(q, drawn, uncounted);
      EphemeralEnqueueKeeps(q, draft);
    }
  }

  lemma NobodyDraws(q: Queue, drawn: map<nat, Record>, uncounted: set<nat>)
    requires StoreInv(q, drawn, uncounted) && !Persists(q)
    ensures drawn == map[] && uncounted == {}
  {
  }

  ghost function Arrived(c: Core, rec: Record): Core {
    c.(store := c.store[rec.serial := rec], lastSerial := rec.serial, depth := c.depth + 1)
  }

  lemma ArrivalKeeps(c: Core, drawn: map<nat, Record>, uncounted: set<nat>, rec: Record)
    requires CoreInv(c, drawn, uncounted) && c.persists && rec.serial > c.lastSerial
    ensures CoreInv(Arrived(c, rec), drawn, uncounted)
  {
    ArrivalUnderWay(c, drawn, uncounted, rec);
    ArrivalBuffer(c, rec);
  }

  lemma ArrivalUnderWay(c: Core, drawn: map<nat, Record>, uncounted: set<nat>, rec: Record)
    requires BufferInTable(c) && SerialsBelowLast(c, drawn) && rec.serial > c.lastSerial
    requires UnderWay(c, drawn, uncounted) && DepthExact(c, uncounted)
    ensures var c1 := Arrived(c, rec);
      SerialsBelowLast(c1, drawn) && UnderWay(c1, drawn, uncounted) && DepthExact(c1, uncounted)
  {
    var c1 := Arrived(c, rec);
    SameBuffer(c, c1);
    assert c1.store.Keys == c.store.Keys + {rec.serial};
    assert |c1.store| == |c1.store.Keys| == |c.store.Keys| + 1;
  }

  lemma ArrivalBuffer(c: Core, rec: Record)
    requires BufferInTable(c) && BufferStored(c) && DetachedStayOut(c) && PrefixBuffered(c)
    requires forall r :: 0 <= r < |c.recs| ==> c.recs[r].serial < rec.serial
    ensures var c1 := Arrived(c, rec);
      && BufferInTable(c1) && BufferStored(c1) && DetachedStayOut(c1) && PrefixBuffered(c1)
      && (BufferAgrees(c) ==> BufferAgrees(c1))
  {
    SameBuffer(c, Arrived(c, rec));
  }

  // ---------- hydration ----------

  ghost function Push(c: Core, rec: Record): Core {
    c.(recs := c.recs + [rec], buffer := c.buffer + [|c.recs|], store := c.store[rec.serial := rec])
  }

  lemma PushedBuffer(c: Core, rec: Record)
    requires BufferInTable(c)
    ensures var c1 := Push(c, rec);
      && BufferInTable(c1)
      && (forall i :: 0 <= i < |c.buffer| ==> c1.buffer[i] == c.buffer[i] && c1.recs[c1.buffer[i]] == c.recs[c.buffer[i]])
      && c1.recs[c1.buffer[|c.buffer|]] == rec
  {
  }

  lemma PushedKeys(c: Core, rec: Record)
    requires BufferInTable(c) && AfterBuffer(c, rec.serial)
    requires forall x :: x in c.store && AfterBuffer(c, x) ==> rec.serial <= x
    ensures var c1 := Push(c, rec);
      && (forall x :: IsBuffered(c, x) || x == rec.serial ==> IsBuffered(c1, x))
      && (forall x :: x in c.store ==> (AfterBuffer(c1, x) <==> AfterBuffer(c, x) && x != rec.serial))
  {
    var c1 := Push(c, rec);
    PushedBuffer(c, rec);
    forall x | IsBuffered(c, x) ensures IsBuffered(c1, x) {
      var i :| 0 <= i < |c.buffer| && c.recs[c.buffer[i]].serial == x;
      assert c1.recs[c1.buffer[i]].serial == x;
    }
  }

  lemma PushedObject(c: Core, rec: Record)
    requires BufferInTable(c) && SerialsBelowLast(c, map[]) && OneObjectPerSerial(c) && DetachedStayOut(c)
    requires AfterBuffer(c, rec.serial) && rec.serial in c.store
    ensures OneObjectPerSerial(Push(c, rec)) && DetachedStayOut(Push(c, rec)) && SerialsBelowLast(Push(c, rec), map[])
  {
    var c1 := Push(c, rec);
    forall r | 0 <= r < |c.recs| ensures c.recs[r].serial != rec.serial {
      if r in c.buffer {
        var i :| 0 <= i < |c.buffer| && c.buffer[i] == r;
        assert c.recs[c.buffer[i]].serial < rec.serial;
      }
    }
    assert c1.buffer[|c.buffer|] == |c.recs|;
    forall r | 0 <= r < |c1.recs| && r !in c1.buffer ensures c1.recs[r].serial !in c1.store {
      assert r < |c.recs|;
    }
  }

  lemma PushedAgrees(c: Core, rec: Record)
    requires BufferInTable(c) && BufferStored(c) && AfterBuffer(c, rec.serial)
    ensures BufferInTable(Push(c, rec)) && BufferStored(Push(c, rec))
    ensures BufferAgrees(c) ==> BufferAgrees(Push(c, rec))
  {
    PushedBuffer(c, rec);
  }

  lemma PushedOrder(c: Core, rec: Record)
    requires BufferInTable(c) && BufferAscends(c) && PrefixBuffered(c)
    requires rec.serial in c.store && AfterBuffer(c, rec.serial)
    requires forall x :: x in c.store && AfterBuffer(c, x) ==> rec.serial <= x
    ensures BufferInTable(Push(c, rec)) && BufferAscends(Push(c, rec)) && PrefixBuffered(Push(c, rec))
  {
    var c1 := Push(c, rec);
    PushedBuffer(c, rec);
    PushedKeys(c, rec);
    assert forall x :: x in c1.store ==> x in c.store;
  }

  lemma PushKeeps(c: Core, rec: Record)
    requires CoreInv(c, map[], {}) && c.persists && c.open
    requires rec.serial in c.store && AfterBuffer(c, rec.serial)
    requires forall x :: x in c.store && AfterBuffer(c, x) ==> rec.serial <= x
    ensures CoreInv(Push(c, rec), map[], {})
  {
    var c1 := Push(c, rec);
    PushedOrder(c, rec);
    PushedObject(c, rec);
    PushedAgrees(c, rec);
    assert c1.store.Keys == c.store.Keys;
    assert DepthExact(c1, {}) by {
      assert |c1.store| == |c1.store.Keys| == |c.store.Keys| == |c.store|;
    }
  }

  /** `ks` are, in order, the stored keys directly after the buffer. */
  ghost predicate NextAfter(c: Core, ks: seq<nat>)
    requires BufferInTable(c)
  {
    && Ascending(ks)
    && (forall i :: 0 <= i < |ks| ==> ks[i] in c.store && AfterBuffer(c, ks[i]))
    && (forall x :: x in c.store && AfterBuffer(c, x) ==> x in ks || Exceeds(x, ks))
  }

  ghost predicate Exceeds(x: nat, ks: seq<nat>) {
    forall i :: 0 <= i < |ks| ==> ks[i] < x
  }

  lemma NextAfterOne(c: Core, ks: seq<nat>, rec: Record)
    requires BufferInTable(c) && NextAfter(c, ks) && ks != [] && rec.serial == ks[0]
    ensures forall x :: x in c.store && AfterBuffer(c, x) ==> ks[0] <= x
    ensures BufferInTable(Push(c, rec)) && NextAfter(Push(c, rec), ks[1..])
  {
    FirstIsNext(c, ks);
    PushedBuffer(c, rec);
    PushedKeys(c, rec);
    RestIsNext(c, Push(c, rec), ks);
  }

  lemma RestIsNext(c: Core, c1: Core, ks: seq<nat>)
    requires BufferInTable(c) && BufferInTable(c1) && NextAfter(c, ks) && ks != []
    requires forall x :: x in c1.store <==> x in c.store || x == ks[0]
    requires forall x :: x in c.store ==> (AfterBuffer(c1, x) <==> AfterBuffer(c, x) && x != ks[0])
    ensures NextAfter(c1, ks[1..])
  {
    assert ks == [ks[0]] + ks[1..];
    forall x | x in c1.store && AfterBuffer(c1, x) ensures x in ks[1..] || Exceeds(x, ks[1..]) {
      assert x in c.store;
    }
  }

  lemma FirstIsNext(c: Core, ks: seq<nat>)
    requires BufferInTable(c) && NextAfter(c, ks) && ks != []
    ensures forall x :: x in c.store && AfterBuffer(c, x) ==> ks[0] <= x
  {
    forall x | x in c.store && AfterBuffer(c, x) ensures ks[0] <= x {
      if x in ks {
        var i :| 0 <= i < |ks| && ks[i] == x;
      } else {
        assert Exceeds(x, ks);
      }
    }
  }

  /** Loading the next key keeps the invariant and leaves the keys after it as the next ones. */
  lemma HydrateOneKeeps(q: Queue, ks: seq<nat>, newIds: nat -> Guid)
    requires StoreInv(q, map[], {}) && Persists(q) && q.open && NextAfter(CoreOf(q), ks) && ks != []
    ensures var q1 := HydrateOne(q, ks[0], newIds);
      && StoreInv(q1, map[], {}) && Persists(q1) && q1.open && NextAfter(CoreOf(q1), ks[1..])
      && q1.store.Keys == q.store.Keys
      && forall x :: x in q.store ==> (AfterBuffer(CoreOf(q1), x) <==> AfterBuffer(CoreOf(q), x) && x != ks[0])
  {
    var rec := HydrateOneIsPush(q, ks[0], newIds);
    NextAfterOne(CoreOf(q), ks, rec);
    PushKeeps(CoreOf(q), rec);
    PushedKeys(CoreOf(q), rec);
  }

  lemma HydrateOneIsPush(q: Queue, k: nat, newIds: nat -> Guid) returns (rec: Record)
    requires k in q.store && q.store[k].serial == k
    ensures var q1 := HydrateOne(q, k, newIds);
      CoreOf(q1) == Push(CoreOf(q), rec) && rec.serial == k && q1.store.Keys == q.store.Keys
  {
    rec := Adopted(q.store[k], newIds);
  }

  /** Hydrating keeps the invariant: the keys read are exactly the next ones, and the write lock excludes
      enqueues under way. */
  lemma {:induction false} HydrateKeysKeeps(q: Queue, ks: seq<nat>, newIds: nat -> Guid)
    requires StoreInv(q, map[], {}) && Persists(q) && q.open && NextAfter(CoreOf(q), ks)
    ensures StoreInv(HydrateKeys(q, ks, newIds), map[], {})
    decreases |ks|
  {
    if ks != [] {
      HydrateOneKeeps(q, ks, newIds);
      HydrateKeysKeeps(HydrateOne(q, ks[0], newIds), ks[1..], newIds);
    }
  }

  lemma AboveIsAfter(q: Queue, k: nat)
    requires InTable(q, q.buffer)
    ensures k in Above(q) <==> k in q.store && AfterBuffer(CoreOf(q), k)
  {
    if k in q.store && AfterBuffer(CoreOf(q), k) {
      forall r | r in q.buffer ensures Serial(q, r) < k {
        var i :| 0 <= i < |q.buffer| && q.buffer[i] == r;
        assert CoreOf(q).recs[q.buffer[i]].serial < k;
      }
    }
    if k in Above(q) {
      forall i | 0 <= i < |q.buffer| ensures CoreOf(q).recs[q.buffer[i]].serial < k {
        assert q.buffer[i] in q.buffer;
      }
    }
  }

  lemma HydrationKeeps(q: Queue, count: nat, newIds: nat -> Guid)
    requires StoreInv(q, map[], {}) && Persists(q) && q.open
    ensures StoreInv(Hydrated(q, count, newIds), map[], {})
  {
    HydrationOrder(q, count);
    HydrateKeysKeeps(q, NextKeys(q, count), newIds);
  }

  lemma HydrationOrder(q: Queue, count: nat)
    requires InTable(q, q.buffer)
    ensures BufferInTable(CoreOf(q)) && NextAfter(CoreOf(q), NextKeys(q, count))
  {
    forall k ensures k in Above(q) <==> k in q.store && AfterBuffer(CoreOf(q), k) {
      AboveIsAfter(q, k);
    }
    var ks := NextKeys(q, count);
    NextKeysAreNext(q, count);
    forall x | x in q.store && AfterBuffer(CoreOf(q), x) ensures x in ks || Exceeds(x, ks) {
      assert x in Above(q);
    }
  }

  // ---------- deferral ----------

  /** A reply changes the record of one message, and with it the stored record if the message is buffered. */
  lemma AnswerKeeps(q: Queue, drawn: map<nat, Record>, uncounted: set<nat>, r: nat, s: Guid, reply: Reply, now: Time)
    requires StoreInv(q, drawn, uncounted) && r < |q.objects|
    ensures StoreInv(Answered(q, r, s, reply, now), drawn, uncounted)
  {
    if !reply.Defer? {
      SameCore(q, Answered(q, r, s, reply, now));
    } else {
      var rec := DeferredIsWritten(q, r, s, reply, now);
      WriteBackKeeps(CoreOf(q), drawn, uncounted, r, rec);
    }
  }

  lemma DeferredIsWritten(q: Queue, r: nat, s: Guid, reply: Reply, now: Time) returns (rec: Record)
    requires r < |q.objects| && reply.Defer?
    ensures rec.serial == Serial(q, r)
    ensures |CoreOf(q).recs| == |q.objects| && CoreOf(Answered(q, r, s, reply, now)) == WrittenBack(CoreOf(q), r, rec)
  {
    rec := Take(q.cfg, q.objects[r], s, reply, now).message.rec;
  }

  ghost function WrittenBack(c: Core, r: nat, rec: Record): Core
    requires r < |c.recs|
  {
    c.(recs := c.recs[r := rec], store := if c.open && r in c.buffer then c.store[rec.serial := rec] else c.store)
  }

  lemma WriteBackKeeps(c: Core, drawn: map<nat, Record>, uncounted: set<nat>, r: nat, rec: Record)
    requires CoreInv(c, drawn, uncounted) && r < |c.recs| && rec.serial == c.recs[r].serial
    ensures CoreInv(WrittenBack(c, r, rec), drawn, uncounted)
  {
    WrittenBuffer(c, r, rec);
    WrittenKeys(c, r, rec);
    if c.persists && c.open {
      WrittenAgrees(c, r, rec);
    }
  }

  lemma WrittenKeys(c: Core, r: nat, rec: Record)
    requires BufferInTable(c) && r < |c.recs| && rec.serial == c.recs[r].serial
    requires c.open ==> BufferStored(c)
    ensures WrittenBack(c, r, rec).store.Keys == c.store.Keys && |WrittenBack(c, r, rec).store| == |c.store|
  {
    var c1 := WrittenBack(c, r, rec);
    if c.open && r in c.buffer {
      var i :| 0 <= i < |c.buffer| && c.buffer[i] == r;
      assert c.recs[c.buffer[i]].serial in c.store;
    }
    assert c1.store.Keys == c.store.Keys;
    assert |c1.store| == |c1.store.Keys| == |c.store.Keys| == |c.store|;
  }

  lemma WrittenBuffer(c: Core, r: nat, rec: Record)
    requires BufferInTable(c) && r < |c.recs| && rec.serial == c.recs[r].serial
    ensures var c1 := WrittenBack(c, r, rec);
      && BufferInTable(c1)
      && (forall t :: 0 <= t < |c.recs| ==> c1.recs[t].serial == c.recs[t].serial)
      && (forall k :: IsBuffered(c1, k) <==> IsBuffered(c, k))
      && (forall k :: AfterBuffer(c1, k) <==> AfterBuffer(c, k))
  {
    var c1 := WrittenBack(c, r, rec);
    assert forall t :: 0 <= t < |c.recs| ==> c1.recs[t].serial == c.recs[t].serial;
  }

  lemma WrittenAgrees(c: Core, r: nat, rec: Record)
    requires BufferInTable(c) && BufferStored(c) && BufferAgrees(c) && c.open && OneObjectPerSerial(c)
    requires r < |c.recs| && rec.serial == c.recs[r].serial
    ensures var c1 := WrittenBack(c, r, rec);
      BufferInTable(c1) && BufferStored(c1) && BufferAgrees(c1)
  {
    var c1 := WrittenBack(c, r, rec);
    forall i | 0 <= i < |c.buffer|
      ensures c1.recs[c.buffer[i]].serial in c1.store && c1.store[c1.recs[c.buffer[i]].serial] == c1.recs[c.buffer[i]]
    {
      if c.buffer[i] == r {
        assert r in c.buffer;
      } else {
        assert c.recs[c.buffer[i]].serial != c.recs[r].serial;
      }
    }
  }

  // ---------- sweep and purge ----------

  lemma {:induction false} WithoutAt(xs: seq<nat>, x: nat) returns (at: nat)
    requires x in xs
    ensures at < |xs| && xs[at] == x && Without(xs, x) == xs[..at] + xs[at + 1..]
  {
    if xs[0] == x {
      at := 0;
    } else {
      at := WithoutAt(xs[1..], x);
      at := at + 1;
      assert xs[..at] == [xs[0]] + xs[1..][..at - 1];
    }
  }

  /** Buffer position `at` and its record are gone. */
  ghost function Dropped(c: Core, at: nat): Core
    requires at < |c.buffer| && c.buffer[at] < |c.recs|
  {
    c.(buffer := c.buffer[..at] + c.buffer[at + 1..],
       store := if c.open then c.store - {c.recs[c.buffer[at]].serial} else c.store,
       depth := c.depth - 1)
  }

  ghost function Shifted(at: nat, i: nat): nat {
    if i < at then i else i + 1
  }

  lemma DroppedShift(c: Core, at: nat)
    requires BufferInTable(c) && at < |c.buffer|
    ensures var c1 := Dropped(c, at);
      && |c1.buffer| == |c.buffer| - 1
      && (forall i :: 0 <= i < |c1.buffer| ==> c1.buffer[i] == c.buffer[Shifted(at, i)])
      && (forall i :: 0 <= i < |c.buffer| && i != at ==> c.buffer[i] in c1.buffer)
  {
    var c1 := Dropped(c, at);
    forall i | 0 <= i < |c.buffer| && i != at ensures c.buffer[i] in c1.buffer {
      assert i < at ==> c1.buffer[i] == c.buffer[i];
      assert i > at ==> c1.buffer[i - 1] == c.buffer[i];
    }
  }

  lemma DroppedOrder(c: Core, at: nat)
    requires BufferInTable(c) && BufferAscends(c) && at < |c.buffer|
    ensures var c1 := Dropped(c, at);
      && BufferInTable(c1) && BufferAscends(c1)
      && (forall i :: 0 <= i < |c1.buffer| ==> c.recs[c1.buffer[i]].serial != c.recs[c.buffer[at]].serial)
      && (forall r :: r in c.buffer && r != c.buffer[at] ==> r in c1.buffer)
      && (forall i :: 0 <= i < |c1.buffer| ==> c1.buffer[i] in c.buffer)
  {
    DroppedShift(c, at);
    var c1 := Dropped(c, at);
    forall i | 0 <= i < |c1.buffer|
      ensures c1.buffer[i] in c.buffer && c.recs[c1.buffer[i]].serial != c.recs[c.buffer[at]].serial
    {
      var j := Shifted(at, i);
      assert c1.buffer[i] == c.buffer[j] && j != at;
    }
  }

  lemma DroppedKeys(c: Core, at: nat)
    requires BufferInTable(c) && BufferAscends(c) && at < |c.buffer| && BufferInTable(Dropped(c, at))
    ensures var c1 := Dropped(c, at);
      && (forall k :: IsBuffered(c, k) && k != c.recs[c.buffer[at]].serial ==> IsBuffered(c1, k))
      && (forall k :: AfterBuffer(c, k) ==> AfterBuffer(c1, k))
  {
    DroppedShift(c, at);
    var c1 := Dropped(c, at);
    forall k | IsBuffered(c, k) && k != c.recs[c.buffer[at]].serial ensures IsBuffered(c1, k) {
      var i :| 0 <= i < |c.buffer| && c.recs[c.buffer[i]].serial == k;
      assert c.buffer[i] in c1.buffer;
      var j :| 0 <= j < |c1.buffer| && c1.buffer[j] == c.buffer[i];
      assert c1.recs[c1.buffer[j]].serial == k;
    }
  }

  lemma DroppedAgrees(c: Core, at: nat)
    requires BufferInTable(c) && at < |c.buffer| && c.open && BufferStored(c) && BufferAgrees(c)
    requires var c1 := Dropped(c, at);
      forall i :: 0 <= i < |c1.buffer| ==> c1.buffer[i] in c.buffer && c1.buffer[i] < |c.recs|
                                           && c.recs[c1.buffer[i]].serial != c.recs[c.buffer[at]].serial
    ensures var c1 := Dropped(c, at);
      BufferInTable(c1) && BufferStored(c1) && BufferAgrees(c1)
  {
    var c1 := Dropped(c, at);
    forall i | 0 <= i < |c1.buffer|
      ensures c1.recs[c1.buffer[i]].serial in c1.store && c1.store[c1.recs[c1.buffer[i]].serial] == c1.recs[c1.buffer[i]]
    {
      assert c1.buffer[i] in c.buffer;
      var j :| 0 <= j < |c.buffer| && c.buffer[j] == c1.buffer[i];
      assert c.recs[c.buffer[j]].serial in c.store;
    }
  }

  lemma DroppedDetached(c: Core, at: nat)
    requires BufferInTable(c) && at < |c.buffer| && c.open && DetachedStayOut(c)
    requires forall r :: r in c.buffer && r != c.buffer[at] ==> r in Dropped(c, at).buffer
    ensures DetachedStayOut(Dropped(c, at))
  {
  }

  lemma DroppedPrefix(c: Core, at: nat)
    requires BufferInTable(c) && BufferAscends(c) && at < |c.buffer| && c.open && PrefixBuffered(c)
    requires BufferInTable(Dropped(c, at))
    ensures PrefixBuffered(Dropped(c, at))
  {
    DroppedKeys(c, at);
  }

  lemma DroppedDepth(c: Core, at: nat)
    requires BufferInTable(c) && at < |c.buffer| && c.open && BufferStored(c) && DepthExact(c, {})
    ensures DepthExact(Dropped(c, at), {})
  {
    var c1, k := Dropped(c, at), c.recs[c.buffer[at]].serial;
    assert c1.store.Keys == c.store.Keys - {k};
    assert |c1.store| == |c1.store.Keys| == |c.store.Keys| - 1;
  }

  lemma DropKeeps(c: Core, at: nat)
    requires CoreInv(c, map[], {}) && at < |c.buffer| && (c.persists ==> c.open)
    ensures CoreInv(Dropped(c, at), map[], {})
  {
    DroppedOrder(c, at);
    if c.persists {
      DroppedAgrees(c, at);
      DroppedDetached(c, at);
      DroppedPrefix(c, at);
      DroppedDepth(c, at);
    }
  }

  lemma RemovedIsDropped(q: Queue, r: nat) returns (at: nat)
    requires r in q.buffer && r < |q.objects|
    ensures at < |q.buffer| && q.buffer[at] == r && CoreOf(Removed(q, r)) == Dropped(CoreOf(q), at)
  {
    at := WithoutAt(q.buffer, r);
  }

  /** A swept message leaves buffer and store together and the depth follows; a purged one is skipped. */
  lemma SweepOneKeeps(q: Queue, r: nat)
    requires StoreInv(q, map[], {}) && r < |q.objects| && (Persists(q) ==> q.open)
    ensures StoreInv(SweepOne(q, r), map[], {})
  {
    if r in q.buffer && Terminal(q.objects[r].state) {
      var at := RemovedIsDropped(q, r);
      DropKeeps(CoreOf(q), at);
    }
  }

  lemma {:induction false} SweepKeeps(q: Queue, list: seq<nat>)
    requires StoreInv(q, map[], {}) && InTable(q, list) && (Persists(q) ==> q.open)
    ensures StoreInv(SweepAll(q, list), map[], {})
    decreases |list|
  {
    if list != [] {
      SweepOneKeeps(q, list[0]);
      SweepKeeps(SweepOne(q, list[0]), list[1..]);
    }
  }

  lemma PurgeKeeps(q: Queue)
    requires StoreInv(q, map[], {})
    ensures StoreInv(Purged(q), map[], {})
  {
    assert CoreOf(Purged(q)) == CoreOf(q).(store := map[], buffer := [], depth := 0);
  }

  lemma CloseKeeps(q: Queue)
    requires StoreInv(q, map[], {})
    ensures StoreInv(q.(open := false), map[], {})
  {
    var c1 := CoreOf(q.(open := false));
    assert c1 == CoreOf(q).(open := false);
    SameBuffer(CoreOf(q), c1);
  }

  // ---------- restart ----------

  lemma LastKeyIsGreatest(store: map<nat, Record>)
    ensures forall k :: k in store ==> k <= LastKey(store)
    ensures store == map[] ==> LastKey(store) == 0
    ensures store != map[] ==> LastKey(store) in store
  {
    var ks := SortedKeys(store.Keys);
    forall k | k in store ensures k <= LastKey(store) {
      assert k in SetOf(ks);
      var i :| 0 <= i < |ks| && ks[i] == k;
    }
    if ks != [] {
      assert ks[|ks| - 1] in SetOf(ks);
    } else {
      assert store.Keys == {};
    }
  }

  /** Reloading what the database holds re-establishes the invariant: the depth is the number of stored records
      and the next serial is above every stored key. */
  lemma LoadKeeps(cfg: Config, disk: map<nat, Record>, stats: Statistics)
    requires forall k :: k in disk ==> disk[k].serial == k
    ensures StoreInv(Loaded(cfg, disk, stats), map[], {})
  {
    if cfg.persistence == Persistent {
      LastKeyIsGreatest(disk);
      assert CoreOf(Loaded(cfg, disk, stats)) == Core([], [], disk, true, LastKey(disk), |disk|, true);
      EmptyBufferKeeps(disk, LastKey(disk));
    }
  }

  lemma EmptyBufferKeeps(disk: map<nat, Record>, last: nat)
    requires forall k :: k in disk ==> disk[k].serial == k <= last
    ensures CoreInv(Core([], [], disk, true, last, |disk|, true), map[], {})
  {
  }

  // ---------- what the invariant says ----------

  /** The buffer is, in serial order, exactly the stored messages up to the last buffered one. */
  lemma BufferRefinesStore(q: Queue, drawn: map<nat, Record>, uncounted: set<nat>)
    requires StoreInv(q, drawn, uncounted) && Persists(q) && q.open && q.buffer != []
    ensures InTable(q, q.buffer)
    ensures Ascending(seq(|q.buffer|, i requires 0 <= i < |q.buffer| => Serial(q, q.buffer[i])))
    ensures forall k :: k in BufferedSerials(q) <==> k in q.store && k <= Serial(q, q.buffer[|q.buffer| - 1])
    ensures forall r :: r in q.buffer ==> q.store[Serial(q, r)] == q.objects[r].rec
  {
    var c := CoreOf(q);
    var ks := seq(|q.buffer|, i requires 0 <= i < |q.buffer| => Serial(q, q.buffer[i]));
    assert forall i :: 0 <= i < |ks| ==> ks[i] == c.recs[c.buffer[i]].serial;
    forall k ensures k in BufferedSerials(q) <==> IsBuffered(c, k) {
      BufferedIs(q, k);
    }
    BufferedUpTo(c);
    BufferedAgree(q);
  }

  lemma BufferedAgree(q: Queue)
    requires var c := CoreOf(q); BufferInTable(c) && BufferStored(c) && BufferAgrees(c)
    ensures forall r :: r in q.buffer ==>
      r < |q.objects| && Serial(q, r) in q.store && q.store[Serial(q, r)] == q.objects[r].rec
  {
    var c := CoreOf(q);
    forall r | r in q.buffer
      ensures r < |q.objects| && Serial(q, r) in q.store && q.store[Serial(q, r)] == q.objects[r].rec
    {
      var i :| 0 <= i < |c.buffer| && c.buffer[i] == r;
      assert c.recs[c.buffer[i]].serial in c.store;
    }
  }

  lemma BufferedIs(q: Queue, k: nat)
    requires InTable(q, q.buffer)
    ensures k in BufferedSerials(q) <==> IsBuffered(CoreOf(q), k)
  {
    var c := CoreOf(q);
    if IsBuffered(c, k) {
      var i :| 0 <= i < |c.buffer| && c.recs[c.buffer[i]].serial == k;
      assert q.buffer[i] in q.buffer && Serial(q, q.buffer[i]) == k;
    }
    if k in BufferedSerials(q) {
      var r :| r in q.buffer && Serial(q, r) == k;
      var i :| 0 <= i < |q.buffer| && q.buffer[i] == r;
      assert c.recs[c.buffer[i]].serial == k;
    }
  }

  lemma BufferedUpTo(c: Core)
    requires BufferInTable(c) && BufferAscends(c) && BufferStored(c) && PrefixBuffered(c) && c.buffer != []
    ensures forall k: nat :: IsBuffered(c, k) <==> k in c.store && k <= c.recs[c.buffer[|c.buffer| - 1]].serial
  {
    forall k: nat | IsBuffered(c, k) ensures k in c.store && k <= c.recs[c.buffer[|c.buffer| - 1]].serial {
      var i :| 0 <= i < |c.buffer| && c.recs[c.buffer[i]].serial == k;
    }
  }

  /** The hydration test of the delivery thread is exact: the counter exceeds the buffer length iff some
      stored and counted message is not buffered. */
  lemma HydrationTestExact(q: Queue, drawn: map<nat, Record>, uncounted: set<nat>)
    requires StoreInv(q, drawn, uncounted) && Persists(q)
    ensures InTable(q, q.buffer) && q.depth >= |q.buffer|
    ensures q.depth > |q.buffer| <==> exists k :: k in q.store && k !in uncounted && k !in BufferedSerials(q)
  {
    var c, bs := CoreOf(q), BufferedSerials(q);
    BufferedCount(q);
    forall k | k in bs ensures k in q.store && k !in uncounted {
      var r :| r in q.buffer && Serial(q, r) == k;
      var i :| 0 <= i < |c.buffer| && c.buffer[i] == r;
      assert c.recs[c.buffer[i]].serial in c.store;
      assert c.recs[r].serial !in uncounted;
    }
    var counted := q.store.Keys - uncounted;
    assert |counted| == |q.store.Keys| - |uncounted|;
    assert bs <= counted;
    SubsetSize(bs, counted);
    if q.depth > |q.buffer| {
      assert counted - bs != {};
      var k :| k in counted - bs;
    }
  }

  lemma SubsetSize(a: set<nat>, b: set<nat>)
    requires a <= b
    ensures |b| == |a| + |b - a|
  {
    assert b == a + (b - a);
  }

  lemma BufferedCount(q: Queue)
    requires InTable(q, q.buffer) && BufferAscends(CoreOf(q))
    ensures |BufferedSerials(q)| == |q.buffer|
  {
    var ks := seq(|q.buffer|, i requires 0 <= i < |q.buffer| => Serial(q, q.buffer[i]));
    assert forall i, j :: 0 <= i < j < |ks| ==> CoreOf(q).recs[q.buffer[i]].serial < CoreOf(q).recs[q.buffer[j]].serial;
    AscendingCount(ks);
    forall k ensures k in SetOf(ks) <==> k in BufferedSerials(q) {
      BufferedIs(q, k);
      if k in SetOf(ks) {
        var i :| 0 <= i < |ks| && ks[i] == k;
        assert CoreOf(q).recs[q.buffer[i]].serial == k;
      }
      if IsBuffered(CoreOf(q), k) {
        var i :| 0 <= i < |q.buffer| && CoreOf(q).recs[q.buffer[i]].serial == k;
        assert ks[i] == k;
      }
    }
    assert SetOf(ks) == BufferedSerials(q);
  }

  lemma {:induction false} AscendingCount(ks: seq<nat>)
    requires Ascending(ks)
    ensures |SetOf(ks)| == |ks|
  {
    if ks != [] {
      var rest := ks[1..];
      AscendingCount(rest);
      assert ks == [ks[0]] + rest;
      assert SetOf(ks) == {ks[0]} + SetOf(rest);
      assert ks[0] !in SetOf(rest);
    }
  }
}
