/** A sweep that dead-letters while the dead-letter queue goes on with its own life: the lock of the dead-letter queue
    is taken anew for every message, so enqueues, deliveries, purges and sweeps of that queue come in between. */
module DeadLetterRun {
  import opened Messages
  import opened DeliveryPass
  import opened QueueState
  import opened QueueEffects
  import opened StoreInvariant
  import opened QueueRun
  import opened RunInvariant
  import opened RunHistory
  import opened RunAccounting
  import opened RunTheorems
  import opened DeadLetterMove

  // ---------- what one action of a queue does to what it holds ----------

  /** The same message; a message that had no id may have been given one, and it may have been deferred. */
  predicate Akin(rec: Record, rec1: Record) {
    && rec1.queueName == rec.queueName && rec1.serial == rec.serial && rec1.timestamp == rec.timestamp
    && rec1.typeName == rec.typeName && rec1.body == rec.body
    && (rec.messageId == EMPTY_GUID || rec1.messageId == rec.messageId)
  }

  ghost predicate Keeps(q: Queue, rec: Record) {
    if Persists(q) then rec.serial in q.store && Akin(rec, q.store[rec.serial])
    else exists r :: r in q.buffer && r < |q.objects| && Akin(rec, q.objects[r].rec)
  }

  ghost function Serials(q: Queue): set<nat> {
    if Persists(q) then q.store.Keys else set r | r in q.buffer && r < |q.objects| :: Serial(q, r)
  }

  /** The messages that leave by action `a`: all held by a purge, those with a verdict by a sweep. */
  ghost function Departures(s: System, a: Action): set<nat>
    requires Enabled(s, a)
  {
    if a.Purge? then Serials(s.q)
    else if a.Sweep? then set k | k in Serials(s.q) && SweptByVerdict(s, k) && k !in Serials(Apply(s, a).q)
    else {}
  }

  /** A message stays held until a purge, or a sweep with its verdict, takes it. */
  lemma KeepsStep(s: System, a: Action, rec: Record)
    requires Reachable(s) && Enabled(s, a) && !a.Restart? && Keeps(s.q, rec)
    ensures Keeps(Apply(s, a).q, rec) || rec.serial in Departures(s, a)
  {
    ConfigStays(s, a);
    if Persists(s.q) {
      StoredStays(s, a, rec);
    } else {
      var r :| r in s.q.buffer && r < |s.q.objects| && Akin(rec, s.q.objects[r].rec);
      BufferedStays(s, a, r);
    }
  }

  lemma StoredStays(s: System, a: Action, rec: Record)
    requires Reachable(s) && Enabled(s, a) && Persists(s.q) && rec.serial in s.q.store && Akin(rec, s.q.store[rec.serial])
    ensures rec.serial in Apply(s, a).q.store ==> Akin(rec, Apply(s, a).q.store[rec.serial])
    ensures rec.serial !in Apply(s, a).q.store && Apply(s, a).q.cfg == s.q.cfg ==> rec.serial in Departures(s, a)
  {
    if rec.serial in Apply(s, a).q.store {
      RecordsKeepIdentity(s, a, rec.serial);
    } else {
      LeavesOnlyBy(s, a, rec.serial);
    }
  }

  /** What deliveries, and picking one, never touch. */
  ghost predicate SameBooks(s: System, s1: System) {
    && s1.q.cfg == s.q.cfg && s1.q.buffer == s.q.buffer && s1.q.lastSerial == s.q.lastSerial
    && s1.q.stats.received == s.q.stats.received && s1.uncounted == s.uncounted && s1.drawn == s.drawn
    && s1.trace.initial == s.trace.initial && s1.trace.base == s.trace.base
  }

  predicate Delivers(a: Action) {
    a.Select? || a.Begin? || a.SendNext? || a.TakeAnswer? || a.EndPass?
  }

  lemma DeliveriesFrame(s: System, a: Action)
    requires Enabled(s, a) && Delivers(a)
    ensures SameBooks(s, Apply(s, a))
  {
    match a
    case Select(locked, now) =>
      if locked {
        ExpiryFrame(s.q, s.q.buffer, now);
        ExpiryReceived(s.q, s.q.buffer, now);
      }
    case Begin(order) => BeginFrame(s, s.thread.top.value, order); BeginReaders(s, s.thread.top.value, order);
    case SendNext(r) =>
    case EndPass(r) =>
    case TakeAnswer(r, reply, at) =>
      AnswerShape(s, r, reply, at, Take(s.q.cfg, s.q.objects[r], s.calls[r].waiting.value, reply, at));
      AnswerBooks(s, r, reply, at);
  }

  lemma BeginReaders(s: System, r: nat, order: seq<Guid>)
    requires r < |s.q.objects|
    ensures BeginStep(s, r, order).drawn == s.drawn && BeginStep(s, r, order).uncounted == s.uncounted
  {
  }

  lemma SweepFrame(s: System, a: Action)
    requires Enabled(s, a) && (a.Sweep? || a.Hydrate?)
    ensures var s1 := Apply(s, a);
      && s1.q.cfg == s.q.cfg && s1.q.lastSerial == s.q.lastSerial
      && s1.q.stats.received == s.q.stats.received && s1.uncounted == s.uncounted && s1.drawn == s.drawn
      && s1.trace.initial == s.trace.initial && s1.trace.base == s.trace.base
  {
    if a.Sweep? && a.writeLocked {
      SweepEffect(s.q, s.thread.list[..a.upto]);
    } else if a.Hydrate? && a.locked {
      HydrationShape(s.q, NextKeysOf(s.q), a.newIds);
    }
  }

  /** In an ephemeral queue: the object stays buffered, as the same message. */
  lemma BufferedStays(s: System, a: Action, r: nat)
    requires Reachable(s) && Enabled(s, a) && !a.Restart? && !Persists(s.q) && r in s.q.buffer && r < |s.q.objects|
    ensures r < |Apply(s, a).q.objects| && SameIdentity(s.q.objects[r].rec, Apply(s, a).q.objects[r].rec)
    ensures r in Apply(s, a).q.buffer || Serial(s.q, r) in Departures(s, a)
  {
    ReachableStore(s);
    ReachableCalls(s);
    ObjectStep(s, a);
    if a.Sweep? {
      if a.writeLocked && r !in Apply(s, a).q.buffer {
        SweptBuffered(s, a.upto, r);
      }
    } else if !a.Purge? {
      OthersKeepBuffered(s, a);
    }
  }

  lemma OthersKeepBuffered(s: System, a: Action)
    requires Enabled(s, a) && !a.Restart? && !Persists(s.q) && !a.Sweep? && !a.Purge?
    ensures s.q.buffer <= Apply(s, a).q.buffer
  {
    if Delivers(a) {
      DeliveriesFrame(s, a);
    }
  }

  lemma SweptBuffered(s: System, upto: nat, r: nat)
    requires StoreOk(s) && !Persists(s.q) && Enabled(s, Sweep(true, upto)) && r in s.q.buffer && r < |s.q.objects|
    requires r !in SweepStep(s, s.thread.list[..upto]).q.buffer
    ensures Serial(s.q, r) in Departures(s, Sweep(true, upto))
  {
    var list := s.thread.list[..upto];
    SweepSpares(s.q, list, r);
    ListedByVerdict(s, upto, r);
    SweepEffect(s.q, list);
    DistinctSerials(s);
    NotAgain(s.q, SweepAll(s.q, list), r);
  }

  lemma ListedByVerdict(s: System, upto: nat, r: nat)
    requires s.thread.Collected? && InTable(s.q, s.thread.list) && upto <= |s.thread.list| && r < |s.q.objects|
    requires r in s.thread.list[..upto] && Terminal(s.q.objects[r].state)
    ensures SweptByVerdict(s, Serial(s.q, r))
  {
    var i :| 0 <= i < upto && s.thread.list[..upto][i] == r;
    assert s.thread.list[i] == r;
  }

  lemma NotAgain(q: Queue, q1: Queue, r: nat)
    requires !Persists(q) && q1.cfg == q.cfg && q1.objects == q.objects && r < |q.objects| && r !in q1.buffer
    requires forall t, u :: 0 <= t < |q.objects| && 0 <= u < |q.objects| && t != u ==> Serial(q, t) != Serial(q, u)
    ensures Serial(q, r) !in Serials(q1)
  {
    forall t | t in q1.buffer && t < |q1.objects| ensures Serial(q1, t) != Serial(q, r) {
      assert Serial(q1, t) == Serial(q, t);
    }
  }

  lemma {:induction false} SweepSpares(q: Queue, list: seq<nat>, r: nat)
    requires InTable(q, list) && r < |q.objects| && r in q.buffer && r !in SweepAll(q, list).buffer
    ensures r in list && Terminal(q.objects[r].state)
    decreases |list|
  {
    var q1 := SweepOne(q, list[0]);
    WithoutShrinks(q.buffer, list[0]);
    if r in q1.buffer {
      SweepSpares(q1, list[1..], r);
    }
  }

  /** What has departed is nowhere in the queue any more. */
  lemma DepartedIsGone(s: System, a: Action, k: nat)
    requires StoreOk(s) && CallInv(s) && Enabled(s, a) && k in Departures(s, a)
    ensures Gone(Apply(s, a), k)
  {
    var s1, c := Apply(s, a), CoreOf(s.q);
    assert k <= s.q.lastSerial && k !in s.drawn by {
      SerialsHandedOut(s);
    }
    if a.Sweep? {
      SweepFrame(s, a);
      StoreStep(s, a);
      NowhereBuffered(s1, k);
    } else {
      assert Persists(s.q) || s.q.store == map[];
    }
  }

  lemma SerialsHandedOut(s: System)
    requires StoreOk(s)
    ensures forall k :: k in Serials(s.q) ==> k <= s.q.lastSerial && k !in s.drawn
  {
    var c := CoreOf(s.q);
    forall k | k in Serials(s.q) ensures k <= s.q.lastSerial && k !in s.drawn {
      if !Persists(s.q) {
        var r :| r in s.q.buffer && r < |s.q.objects| && Serial(s.q, r) == k;
        assert c.recs[r].serial <= c.lastSerial;
      }
    }
  }

  lemma NowhereBuffered(s: System, k: nat)
    requires StoreOk(s) && k !in Serials(s.q)
    ensures k !in s.q.store
    ensures forall i :: 0 <= i < |s.q.buffer| && s.q.buffer[i] < |s.q.objects| ==> Serial(s.q, s.q.buffer[i]) != k
  {
    var c := CoreOf(s.q);
    forall i | 0 <= i < |s.q.buffer| && s.q.buffer[i] < |s.q.objects| ensures Serial(s.q, s.q.buffer[i]) != k {
      if Persists(s.q) {
        assert c.recs[c.buffer[i]].serial in c.store;
      } else {
        assert Serial(s.q, s.q.buffer[i]) in Serials(s.q);
      }
    }
  }

  // ---------- how many messages ever arrived ----------

  /** Held, plus what the run has swept and purged. */
  function Arrived(s: System): int {
    Held(s.q) + s.trace.swept + s.trace.purged
  }

  predicate Arrives(a: Action) {
    a.StoreDrawn? || a.EnqueueInMemory?
  }

  /** A message arrives by being stored or buffered, and in no other way. */
  lemma ArrivedStep(s: System, a: Action)
    requires Reachable(s) && Enabled(s, a) && !a.Restart?
    ensures Arrived(Apply(s, a)) == Arrived(s) + (if Arrives(a) then 1 else 0)
  {
    ReachableStep(s, a);
    Booked(s);
    Booked(Apply(s, a));
    ReceivedStep(s, a);
  }

  lemma Booked(s: System)
    requires Reachable(s)
    ensures Arrived(s) == s.trace.initial + (s.q.stats.received - s.trace.base.received) + |s.uncounted|
  {
    ReachableBooks(s);
    DepthExactOnRuns(s);
  }

  lemma ReachableBooks(s: System)
    requires Reachable(s)
    ensures AccountInv(s)
  {
    ReachableInv(s);
  }

  lemma ReceivedStep(s: System, a: Action)
    requires Reachable(s) && Enabled(s, a) && !a.Restart?
    ensures var s1 := Apply(s, a);
      && s1.trace.initial == s.trace.initial && s1.trace.base == s.trace.base
      && s1.q.stats.received + |s1.uncounted| == s.q.stats.received + |s.uncounted| + if Arrives(a) then 1 else 0
  {
    if Delivers(a) {
      DeliveriesFrame(s, a);
    } else if a.Sweep? || a.Hydrate? {
      SweepFrame(s, a);
    } else if a.StoreDrawn? {
      ReachableStore(s);
      NotTwice(s, a.serial);
    }
  }

  lemma NotTwice(s: System, k: nat)
    requires StoreOk(s) && Enabled(s, StoreDrawn(k))
    ensures k !in s.uncounted
  {
  }

  // ---------- the two queues ----------

  /** How far the copy of the message at hand is: an enqueue of the dead-letter queue, step by step. */
  datatype Phase = Idle | Drawn(serial: nat) | Stored(serial: nat) | Counted(serial: nat)

  /** One sweep of `src`, which holds its exclusive lock throughout, next to the running queue `dlq`. For the record:
      how many messages `dlq` took in on its own account, and the serials it disposed of meanwhile. */
  datatype Pair = Pair(
    src: Queue,
    todo: seq<nat>,
    fates: seq<Fate>,
    phase: Phase,
    dlq: System,
    own: nat,
    gone: set<nat>)

  datatype PairStep =
    | Settle(result: MoveResult)
    | Draw
    | Store
    | Count
    | Remove
    | Meanwhile(a: Action)

  function StartSweep(src: Queue, list: seq<nat>, dlq: System): Pair {
    Pair(src, list, [], Idle, dlq, 0, {})
  }

  predicate AtHand(p: Pair) {
    p.todo != [] && p.todo[0] < |p.src.objects|
  }

  function CopyOf(rec: Record, d: System, k: nat): Record {
    DeadLetterRecord(rec, d.q.cfg.name, k)
  }

  function CopyAction(p: Pair): Action
    requires AtHand(p)
  {
    var draft := CopyOf(p.src.objects[p.todo[0]].rec, p.dlq, NextSerial(p.dlq.q.lastSerial));
    if Persists(p.dlq.q) then DrawSerial(draft) else EnqueueInMemory(draft)
  }

  /** Everything that is not a copy is settled in one step; an exception ends the sweep instead. The serial the copy
      has drawn is nobody else's to store or count. */
  ghost predicate CanStep(p: Pair, step: PairStep) {
    match step
    case Settle(result) =>
      && p.phase == Idle && AtHand(p) && !FateOf(p.src, p.dlq.q, p.todo[0], result).Moved?
      && !(Moves(p.src, p.todo[0]) && (result == Threw || result == Waiting))
    case Draw => p.phase == Idle && AtHand(p) && Moves(p.src, p.todo[0]) && Enabled(p.dlq, CopyAction(p))
    case Store => p.phase.Drawn? && Enabled(p.dlq, StoreDrawn(p.phase.serial))
    case Count => p.phase.Stored? && Enabled(p.dlq, CountStored(p.phase.serial))
    case Remove => p.phase.Counted? && AtHand(p)
    case Meanwhile(a) =>
      && Enabled(p.dlq, a) && !a.Restart?
      && (p.phase.Drawn? ==> a != StoreDrawn(p.phase.serial))
      && (p.phase.Stored? ==> a != CountStored(p.phase.serial))
  }

  ghost function Acting(p: Pair, a: Action): Pair
    requires Enabled(p.dlq, a)
  {
    p.(dlq := Apply(p.dlq, a), gone := p.gone + Departures(p.dlq, a))
  }

  function Advanced(p: Pair, fate: Fate): Pair
    requires AtHand(p)
  {
    p.(src := SweepOne(p.src, p.todo[0]), todo := p.todo[1..], fates := p.fates + [fate], phase := Idle)
  }

  ghost function Next(p: Pair, step: PairStep): Pair
    requires CanStep(p, step)
  {
    match step
    case Settle(result) => Advanced(p, FateOf(p.src, p.dlq.q, p.todo[0], result))
    case Draw =>
      var k := NextSerial(p.dlq.q.lastSerial);
      Acting(p, CopyAction(p)).(phase := if Persists(p.dlq.q) then Drawn(k) else Counted(k))
    case Store => Acting(p, StoreDrawn(p.phase.serial)).(phase := Stored(p.phase.serial))
    case Count => Acting(p, CountStored(p.phase.serial)).(phase := Counted(p.phase.serial))
    case Remove => Advanced(p, Moved(p.phase.serial))
    case Meanwhile(a) => Acting(p, a).(own := p.own + if Arrives(a) then 1 else 0)
  }

  ghost predicate PairRun(p: Pair, steps: seq<PairStep>)
    decreases |steps|
  {
    steps == [] || (CanStep(p, steps[0]) && PairRun(Next(p, steps[0]), steps[1..]))
  }

  ghost function PairReached(p: Pair, steps: seq<PairStep>): Pair
    requires PairRun(p, steps)
    decreases |steps|
  {
    if steps == [] then p else PairReached(Next(p, steps[0]), steps[1..])
  }

  /** The dead-letter queue's share of a step. */
  ghost function Share(p: Pair, step: PairStep): seq<Action>
    requires CanStep(p, step)
  {
    match step
    case Settle(_) => []
    case Draw => [CopyAction(p)]
    case Store => [StoreDrawn(p.phase.serial)]
    case Count => [CountStored(p.phase.serial)]
    case Remove => []
    case Meanwhile(a) => [a]
  }

  ghost function Shares(p: Pair, steps: seq<PairStep>): seq<Action>
    requires PairRun(p, steps)
    decreases |steps|
  {
    if steps == [] then [] else Share(p, steps[0]) + Shares(Next(p, steps[0]), steps[1..])
  }

  /** Seen from the dead-letter queue a sweep is a run of its own actions without a restart: every theorem about runs
      holds of it, whatever is moved into it meanwhile. */
  lemma {:induction false} SharesAreRun(p: Pair, steps: seq<PairStep>)
    requires PairRun(p, steps)
    ensures Run(p.dlq, Shares(p, steps)) && WithoutRestart(Shares(p, steps))
    ensures PairReached(p, steps).dlq == Reached(p.dlq, Shares(p, steps))
    decreases |steps|
  {
    if steps != [] {
      var p1 := Next(p, steps[0]);
      SharesAreRun(p1, steps[1..]);
      if Share(p, steps[0]) == [] {
        assert Shares(p, steps) == Shares(p1, steps[1..]);
      } else {
        assert Shares(p, steps)[1..] == Shares(p1, steps[1..]);
      }
    }
  }

  // ---------- the source ----------

  /** The source has been swept up to the message at hand, and the fates say what has left it. */
  ghost predicate SourceSide(src0: Queue, list: seq<nat>, p: Pair) {
    && SourceOk(src0, p.src) && InTable(src0, list)
    && |p.fates| <= |list| && p.todo == list[|p.fates|..] && p.src == SweepAll(src0, list[..|p.fates|])
    && Holding(p.src) <= Holding(src0)
    && |Holding(p.src)| + RemovedCount(p.fates) == |Holding(src0)|
    && AllLeft(src0, p.src, list, p.fates)
  }

  ghost predicate AllLeft(src0: Queue, src: Queue, list: seq<nat>, fates: seq<Fate>)
    requires InTable(src0, list) && |fates| <= |list|
  {
    forall i :: 0 <= i < |fates| && fates[i] != Passed ==> LeftSource(src0, src, list[i])
  }

  ghost predicate SourceOk(src0: Queue, src: Queue) {
    && StoreInv(src, map[], {}) && (Persists(src) ==> src.open)
    && src.objects == src0.objects && src.cfg == src0.cfg
  }

  ghost predicate LeftSource(src0: Queue, src: Queue, r: nat)
    requires r < |src0.objects|
  {
    ItemOf(src0.objects[r].rec) in Holding(src0) && ItemOf(src0.objects[r].rec) !in Holding(src)
  }

  /** One message is done with: `Passed` if it was purged before, and gone otherwise. */
  lemma SourceAdvances(src0: Queue, list: seq<nat>, p: Pair, fate: Fate)
    requires SourceSide(src0, list, p) && AtHand(p)
    requires fate == Passed <==> p.todo[0] !in p.src.buffer || !Terminal(p.src.objects[p.todo[0]].state)
    ensures SourceSide(src0, list, Advanced(p, fate))
  {
    var n, r, p1 := |p.fates|, p.todo[0], Advanced(p, fate);
    assert r == list[n] && p1.todo == list[n + 1..];
    SweepOneMore(src0, list, n);
    CountsOneMore(p.fates, fate);
    OneAway(src0, p.src, r);
    OneMoreLeft(src0, p.src, p1.src, list, p.fates, fate);
  }

  lemma OneMoreLeft(src0: Queue, src: Queue, src1: Queue, list: seq<nat>, fates: seq<Fate>, fate: Fate)
    requires InTable(src0, list) && |fates| < |list| && AllLeft(src0, src, list, fates) && Holding(src1) <= Holding(src)
    requires fate != Passed ==> LeftSource(src0, src1, list[|fates|])
    ensures AllLeft(src0, src1, list, fates + [fate])
  {
    forall i | 0 <= i <= |fates| && (fates + [fate])[i] != Passed ensures LeftSource(src0, src1, list[i]) {
      assert i < |fates| ==> LeftSource(src0, src, list[i]);
    }
  }

  /** What one message leaves behind on the source. */
  lemma OneAway(src0: Queue, src: Queue, r: nat)
    requires SourceOk(src0, src) && r < |src.objects|
    ensures var src1 := SweepOne(src, r);
      && SourceOk(src0, src1)
      && if r in src.buffer && Terminal(src.objects[r].state)
         then ItemOf(src0.objects[r].rec) in Holding(src) && Holding(src1) == Holding(src) - {ItemOf(src0.objects[r].rec)}
         else src1 == src
  {
    SweepOneKeeps(src, r);
    if r in src.buffer && Terminal(src.objects[r].state) {
      RemovalTakes(src, r);
    }
  }

  lemma {:induction false} SweepOneMore(q: Queue, list: seq<nat>, n: nat)
    requires InTable(q, list) && n < |list|
    ensures |SweepAll(q, list[..n]).objects| == |q.objects|
    ensures SweepAll(q, list[..n + 1]) == SweepOne(SweepAll(q, list[..n]), list[n])
    decreases n
  {
    if n > 0 {
      SweepOneMore(SweepOne(q, list[0]), list[1..], n - 1);
      assert list[..n][1..] == list[1..][..n - 1] && list[..n + 1][1..] == list[1..][..n];
    } else {
      assert list[..1][1..] == [];
    }
  }

  // ---------- the copies ----------

  /** The copy made under serial `k` is still held, or the dead-letter queue has disposed of it since. */
  ghost predicate CopyKept(p: Pair, rec: Record, k: nat) {
    k in p.gone || Keeps(p.dlq.q, CopyOf(rec, p.dlq, k))
  }

  lemma ActingKeeps(p: Pair, a: Action, rec: Record, k: nat)
    requires Reachable(p.dlq) && Enabled(p.dlq, a) && !a.Restart? && CopyKept(p, rec, k)
    ensures CopyKept(Acting(p, a), rec, k)
  {
    ConfigStays(p.dlq, a);
    if k !in p.gone {
      KeepsStep(p.dlq, a, CopyOf(rec, p.dlq, k));
    }
  }

  lemma SerialsGrow(s: System, a: Action)
    requires Enabled(s, a) && !a.Restart?
    ensures Apply(s, a).q.lastSerial >= s.q.lastSerial
  {
    if Delivers(a) {
      DeliveriesFrame(s, a);
    } else if a.Sweep? || a.Hydrate? {
      SweepFrame(s, a);
    }
  }

  /** A drawn record waits for the enqueue that drew it. */
  lemma DrawnWaits(s: System, a: Action, k: nat)
    requires Enabled(s, a) && !a.Restart? && a != StoreDrawn(k) && k in s.drawn && k <= s.q.lastSerial
    ensures k in Apply(s, a).drawn && Apply(s, a).drawn[k] == s.drawn[k]
  {
    if Delivers(a) {
      DeliveriesFrame(s, a);
    } else if a.Sweep? || a.Hydrate? {
      SweepFrame(s, a);
    }
  }

  ghost predicate CopySide(src0: Queue, list: seq<nat>, d0: System, p: Pair) {
    && Reachable(p.dlq) && p.dlq.q.cfg == d0.q.cfg && InTable(src0, list) && |p.fates| <= |list|
    && d0.q.lastSerial <= p.dlq.q.lastSerial
    && (forall i :: 0 <= i < |p.fates| && p.fates[i].Moved? ==>
          && d0.q.lastSerial < p.fates[i].serial <= p.dlq.q.lastSerial
          && CopyKept(p, src0.objects[list[i]].rec, p.fates[i].serial))
    && forall i, j :: 0 <= i < j < |p.fates| && p.fates[i].Moved? && p.fates[j].Moved? ==>
         p.fates[i].serial < p.fates[j].serial
  }

  /** Between drawing the serial of a copy and removing the original. */
  ghost predicate PhaseOk(d0: System, p: Pair) {
    p.phase != Idle ==>
      && AtHand(p) && Moves(p.src, p.todo[0])
      && d0.q.lastSerial < p.phase.serial <= p.dlq.q.lastSerial
      && (forall i :: 0 <= i < |p.fates| && p.fates[i].Moved? ==> p.fates[i].serial < p.phase.serial)
      && if p.phase.Drawn? then AwaitsStoring(p, p.phase.serial)
         else CopyKept(p, p.src.objects[p.todo[0]].rec, p.phase.serial)
  }

  ghost predicate AwaitsStoring(p: Pair, k: nat)
    requires AtHand(p)
  {
    Persists(p.dlq.q) && k in p.dlq.drawn && p.dlq.drawn[k] == CopyOf(p.src.objects[p.todo[0]].rec, p.dlq, k)
  }

  /** Whatever the dead-letter queue does, the copies made so far stay accounted for. */
  lemma ActingKeepsCopies(src0: Queue, list: seq<nat>, d0: System, p: Pair, a: Action)
    requires CopySide(src0, list, d0, p) && Enabled(p.dlq, a) && !a.Restart?
    ensures CopySide(src0, list, d0, Acting(p, a))
  {
    var p1 := Acting(p, a);
    ReachableStep(p.dlq, a);
    ConfigStays(p.dlq, a);
    SerialsGrow(p.dlq, a);
    forall i | 0 <= i < |p.fates| && p.fates[i].Moved?
      ensures CopyKept(p1, src0.objects[list[i]].rec, p.fates[i].serial)
    {
      ActingKeeps(p, a, src0.objects[list[i]].rec, p.fates[i].serial);
    }
  }

  lemma ActingKeepsPhase(d0: System, p: Pair, a: Action)
    requires PhaseOk(d0, p) && Reachable(p.dlq) && Enabled(p.dlq, a) && !a.Restart?
    requires p.phase.Drawn? ==> a != StoreDrawn(p.phase.serial)
    ensures PhaseOk(d0, Acting(p, a))
  {
    ConfigStays(p.dlq, a);
    SerialsGrow(p.dlq, a);
    if p.phase.Drawn? {
      DrawnWaits(p.dlq, a, p.phase.serial);
    } else if p.phase != Idle {
      ActingKeeps(p, a, p.src.objects[p.todo[0]].rec, p.phase.serial);
    }
  }

  /** The copy gets the next serial: above everything that queue ever held, and above the earlier copies. */
  lemma DrawStarts(src0: Queue, list: seq<nat>, d0: System, p: Pair)
    requires CopySide(src0, list, d0, p) && CanStep(p, Draw)
    ensures PhaseOk(d0, Next(p, Draw))
  {
    var d1, k := Apply(p.dlq, CopyAction(p)), NextSerial(p.dlq.q.lastSerial);
    var rec := CopyOf(p.src.objects[p.todo[0]].rec, p.dlq, k);
    assert k == p.dlq.q.lastSerial + 1 && Addressed(p.dlq.q, rec) == rec;
    ConfigStays(p.dlq, CopyAction(p));
    if !Persists(p.dlq.q) {
      BufferedNow(p.dlq, rec);
    }
  }

  lemma BufferedNow(s: System, rec: Record)
    requires Enabled(s, EnqueueInMemory(rec)) && Addressed(s.q, rec) == rec
    ensures Keeps(Apply(s, EnqueueInMemory(rec)).q, rec)
  {
    var q1 := Apply(s, EnqueueInMemory(rec)).q;
    assert q1.objects[|s.q.objects|].rec == rec && |s.q.objects| in q1.buffer;
  }

  lemma StoreLands(d0: System, p: Pair)
    requires PhaseOk(d0, p) && Reachable(p.dlq) && CanStep(p, Store)
    ensures PhaseOk(d0, Next(p, Store))
  {
    var k := p.phase.serial;
    var rec := p.dlq.drawn[k];
    ConfigStays(p.dlq, StoreDrawn(k));
    assert rec.serial == k;
    assert Apply(p.dlq, StoreDrawn(k)).q.store[k] == rec;
  }

  // ---------- every step ----------

  lemma SourceStep(src0: Queue, list: seq<nat>, d0: System, p: Pair, step: PairStep)
    requires SourceSide(src0, list, p) && PhaseOk(d0, p) && CanStep(p, step)
    ensures SourceSide(src0, list, Next(p, step))
  {
    match step
    case Settle(result) => SourceAdvances(src0, list, p, FateOf(p.src, p.dlq.q, p.todo[0], result));
    case Remove => SourceAdvances(src0, list, p, Moved(p.phase.serial));
    case Draw =>
    case Store =>
    case Count =>
    case Meanwhile(_) =>
  }

  /** A fate joins the list; one that says moved brings its copy. */
  lemma SettledCopies(src0: Queue, list: seq<nat>, d0: System, p: Pair, fate: Fate)
    requires CopySide(src0, list, d0, p) && AtHand(p) && |p.fates| < |list|
    requires fate.Moved? ==>
      && d0.q.lastSerial < fate.serial <= p.dlq.q.lastSerial
      && CopyKept(p, src0.objects[list[|p.fates|]].rec, fate.serial)
      && forall i :: 0 <= i < |p.fates| && p.fates[i].Moved? ==> p.fates[i].serial < fate.serial
    ensures CopySide(src0, list, d0, Advanced(p, fate)) && PhaseOk(d0, Advanced(p, fate))
  {
    var p1 := Advanced(p, fate);
    forall i | 0 <= i < |p1.fates| && p1.fates[i].Moved?
      ensures d0.q.lastSerial < p1.fates[i].serial <= p1.dlq.q.lastSerial
      ensures CopyKept(p1, src0.objects[list[i]].rec, p1.fates[i].serial)
    {
      assert i < |p.fates| ==> p1.fates[i] == p.fates[i];
      assert CopyKept(p, src0.objects[list[i]].rec, p1.fates[i].serial);
    }
  }

  lemma CopyStep(src0: Queue, list: seq<nat>, d0: System, p: Pair, step: PairStep)
    requires SourceSide(src0, list, p) && CopySide(src0, list, d0, p) && PhaseOk(d0, p) && CanStep(p, step)
    ensures CopySide(src0, list, d0, Next(p, step)) && PhaseOk(d0, Next(p, step))
  {
    if step.Settle? {
      SettledCopies(src0, list, d0, p, FateOf(p.src, p.dlq.q, p.todo[0], step.result));
    } else if step.Remove? {
      assert p.todo[0] == list[|p.fates|];
      SettledCopies(src0, list, d0, p, Moved(p.phase.serial));
    } else {
      QueueStep(src0, list, d0, p, step);
    }
  }

  /** The steps in which the dead-letter queue acts. */
  lemma QueueStep(src0: Queue, list: seq<nat>, d0: System, p: Pair, step: PairStep)
    requires CopySide(src0, list, d0, p) && PhaseOk(d0, p) && CanStep(p, step) && !step.Settle? && !step.Remove?
    ensures CopySide(src0, list, d0, Next(p, step)) && PhaseOk(d0, Next(p, step))
  {
    QueuePhase(src0, list, d0, p, step);
    assert CopySide(src0, list, d0, Next(p, step)) by {
      var a := Share(p, step)[0];
      ActingKeepsCopies(src0, list, d0, p, a);
      SameCopies(src0, list, d0, Acting(p, a), Next(p, step));
    }
  }

  lemma SameCopies(src0: Queue, list: seq<nat>, d0: System, p: Pair, p1: Pair)
    requires CopySide(src0, list, d0, p) && p1.dlq == p.dlq && p1.gone == p.gone && p1.fates == p.fates
    ensures CopySide(src0, list, d0, p1)
  {
    forall i | 0 <= i < |p.fates| && p.fates[i].Moved?
      ensures CopyKept(p1, src0.objects[list[i]].rec, p.fates[i].serial)
    {
      assert CopyKept(p, src0.objects[list[i]].rec, p.fates[i].serial);
    }
  }

  lemma QueuePhase(src0: Queue, list: seq<nat>, d0: System, p: Pair, step: PairStep)
    requires CopySide(src0, list, d0, p) && PhaseOk(d0, p) && CanStep(p, step) && !step.Settle? && !step.Remove?
    ensures PhaseOk(d0, Next(p, step))
  {
    if step.Draw? {
      DrawStarts(src0, list, d0, p);
    } else if step.Store? {
      StoreLands(d0, p);
    } else {
      ActingKeepsPhase(d0, p, Share(p, step)[0]);
    }
  }

  /** A copy that has arrived and whose original has not left yet. */
  function Twice(p: Pair): nat {
    if p.phase.Stored? || p.phase.Counted? then 1 else 0
  }

  ghost predicate ArrivalsAdd(d0: System, p: Pair) {
    Arrived(p.dlq) == Arrived(d0) + p.own + MovedCount(p.fates) + Twice(p)
  }

  lemma ArrivalStep(d0: System, p: Pair, step: PairStep)
    requires Reachable(p.dlq) && ArrivalsAdd(d0, p) && CanStep(p, step)
    ensures ArrivalsAdd(d0, Next(p, step))
  {
    if step.Settle? {
      CountsOneMore(p.fates, FateOf(p.src, p.dlq.q, p.todo[0], step.result));
    } else if step.Remove? {
      CountsOneMore(p.fates, Moved(p.phase.serial));
    } else {
      ArrivedStep(p.dlq, Share(p, step)[0]);
    }
  }

  /** What the dead-letter queue disposed of does not come back. */
  ghost predicate GoneOnce(p: Pair) {
    forall k :: k in p.gone ==> Gone(p.dlq, k)
  }

  lemma GoneOnceStep(p: Pair, step: PairStep)
    requires Reachable(p.dlq) && GoneOnce(p) && CanStep(p, step)
    ensures GoneOnce(Next(p, step))
  {
    if !step.Settle? && !step.Remove? {
      ActingGoneOnce(p, Share(p, step)[0]);
    }
  }

  lemma ActingGoneOnce(p: Pair, a: Action)
    requires Reachable(p.dlq) && GoneOnce(p) && Enabled(p.dlq, a) && !a.Restart?
    ensures GoneOnce(Acting(p, a))
  {
    ReachableStore(p.dlq);
    ReachableCalls(p.dlq);
    forall k | k in Acting(p, a).gone ensures Gone(Apply(p.dlq, a), k) {
      if k in p.gone {
        GoneStep(p.dlq, a, k);
      } else {
        DepartedIsGone(p.dlq, a, k);
      }
    }
  }

  lemma GoneIsNotKept(s: System, rec: Record)
    requires Gone(s, rec.serial)
    ensures !Keeps(s.q, rec)
  {
    forall r | r in s.q.buffer && r < |s.q.objects| ensures Serial(s.q, r) != rec.serial {
      var i :| 0 <= i < |s.q.buffer| && s.q.buffer[i] == r;
      assert Serial(s.q, s.q.buffer[i]) == Serial(s.q, r);
    }
  }

  /** Nothing but a message to be dead-lettered is ever copied. */
  ghost predicate FitSide(src0: Queue, list: seq<nat>, p: Pair) {
    InTable(src0, list) && |p.fates| <= |list| && FatesFit(src0, list, p.fates)
  }

  lemma FitStep(src0: Queue, list: seq<nat>, d0: System, p: Pair, step: PairStep)
    requires SourceSide(src0, list, p) && PhaseOk(d0, p) && FitSide(src0, list, p) && CanStep(p, step)
    ensures FitSide(src0, list, Next(p, step))
  {
    if step.Settle? {
      FateByState(p.src, p.dlq.q, p.todo[0], step.result);
      OneMoreFits(src0, list, p, FateOf(p.src, p.dlq.q, p.todo[0], step.result));
    } else if step.Remove? {
      FateByState(p.src, p.dlq.q, p.todo[0], Copied);
      OneMoreFits(src0, list, p, Moved(p.phase.serial));
    }
  }

  lemma OneMoreFits(src0: Queue, list: seq<nat>, p: Pair, fate: Fate)
    requires FitSide(src0, list, p) && AtHand(p) && SourceSide(src0, list, p)
    requires FateFits(src0, list, |p.fates|, fate)
    ensures FitSide(src0, list, Advanced(p, fate))
  {
    var fates := p.fates + [fate];
    forall i | 0 <= i < |fates| ensures FateFits(src0, list, i, fates[i]) {
      assert i < |p.fates| ==> FateFits(src0, list, i, p.fates[i]);
    }
  }

  /** A message to be dropped is settled in one step, which leaves the dead-letter queue alone. */
  lemma DropCopiesNothing(d0: System, p: Pair, step: PairStep)
    requires PhaseOk(d0, p) && CanStep(p, step) && !step.Meanwhile?
    requires AtHand(p) && p.src.objects[p.todo[0]].state != DeadLetter
    ensures step.Settle? && Next(p, step).dlq == p.dlq
  {
    FateByState(p.src, p.dlq.q, p.todo[0], Copied);
  }

  ghost predicate PairInv(src0: Queue, list: seq<nat>, d0: System, p: Pair) {
    && SourceSide(src0, list, p) && CopySide(src0, list, d0, p) && PhaseOk(d0, p) && ArrivalsAdd(d0, p) && GoneOnce(p)
    && FitSide(src0, list, p)
  }

  lemma {:induction false} PairRunKeeps(src0: Queue, list: seq<nat>, d0: System, p: Pair, steps: seq<PairStep>)
    requires PairInv(src0, list, d0, p) && PairRun(p, steps)
    ensures PairInv(src0, list, d0, PairReached(p, steps))
    decreases |steps|
  {
    if steps != [] {
      SourceStep(src0, list, d0, p, steps[0]);
      CopyStep(src0, list, d0, p, steps[0]);
      ArrivalStep(d0, p, steps[0]);
      GoneOnceStep(p, steps[0]);
      FitStep(src0, list, d0, p, steps[0]);
      PairRunKeeps(src0, list, d0, Next(p, steps[0]), steps[1..]);
    }
  }

  /** The source's exclusive lock is held, and the dead-letter queue is anywhere in a run of its own. */
  ghost predicate PairReady(src: Queue, list: seq<nat>, d: System) {
    StoreInv(src, map[], {}) && (Persists(src) ==> src.open) && InTable(src, list) && Reachable(d)
  }

  lemma StartKeeps(src: Queue, list: seq<nat>, d: System)
    requires PairReady(src, list, d)
    ensures PairInv(src, list, d, StartSweep(src, list, d))
  {
    assert list[..0] == [];
  }

  // ---------- the theorems ----------

  /** Whatever the dead-letter queue does meanwhile: the source is swept in list order; a message that was not purged
      before has left it; a moved one got a serial above everything the dead-letter queue held at the start and above
      the copies before it. */
  lemma EachMovedInOrder(src: Queue, list: seq<nat>, d: System, steps: seq<PairStep>)
    requires PairReady(src, list, d) && PairRun(StartSweep(src, list, d), steps)
    ensures var p := PairReached(StartSweep(src, list, d), steps);
      && |p.fates| <= |list| && p.src == SweepAll(src, list[..|p.fates|])
      && AllLeft(src, p.src, list, p.fates)
      && (forall i :: 0 <= i < |p.fates| && p.fates[i].Moved? ==> p.fates[i].serial > d.q.lastSerial)
      && (forall i, j :: 0 <= i < j < |p.fates| && p.fates[i].Moved? && p.fates[j].Moved? ==>
            p.fates[i].serial < p.fates[j].serial)
  {
    StartKeeps(src, list, d);
    PairRunKeeps(src, list, d, StartSweep(src, list, d), steps);
  }

  /** The copy of a moved message is in the dead-letter queue, with the same id, time, type and body, exactly until
      that queue itself purges it or sweeps it with a verdict; then it is gone for good. */
  lemma EachCopyAccounted(src: Queue, list: seq<nat>, d: System, steps: seq<PairStep>, i: nat)
    requires PairReady(src, list, d) && PairRun(StartSweep(src, list, d), steps)
    requires i < |PairReached(StartSweep(src, list, d), steps).fates| <= |list|
    requires PairReached(StartSweep(src, list, d), steps).fates[i].Moved?
    ensures var p := PairReached(StartSweep(src, list, d), steps);
      var k := p.fates[i].serial;
      && (Keeps(p.dlq.q, CopyOf(src.objects[list[i]].rec, d, k)) <==> k !in p.gone)
      && (k in p.gone ==> Gone(p.dlq, k))
  {
    StartKeeps(src, list, d);
    PairRunKeeps(src, list, d, StartSweep(src, list, d), steps);
    var p := PairReached(StartSweep(src, list, d), steps);
    if p.fates[i].serial in p.gone {
      GoneIsNotKept(p.dlq, CopyOf(src.objects[list[i]].rec, d, p.fates[i].serial));
    }
  }

  /** Whatever the dead-letter queue does meanwhile, only messages to be dead-lettered are moved, and only with a
      dead-letter queue configured; dropped are exactly those still buffered in state Drop when their turn came. */
  lemma EachFateFits(src: Queue, list: seq<nat>, d: System, steps: seq<PairStep>, i: nat)
    requires PairReady(src, list, d) && PairRun(StartSweep(src, list, d), steps)
    requires i < |PairReached(StartSweep(src, list, d), steps).fates| <= |list|
    ensures var fate, state := PairReached(StartSweep(src, list, d), steps).fates[i], src.objects[list[i]].state;
      && (fate == Passed <==> !InTurn(src, list, i) || (state != Drop && state != DeadLetter))
      && (fate == Dropped <==> InTurn(src, list, i) && state == Drop)
      && (fate.Moved? ==> InTurn(src, list, i) && state == DeadLetter && src.cfg.dlq.Some?)
      && (fate == Lost ==> InTurn(src, list, i) && state == DeadLetter)
  {
    StartKeeps(src, list, d);
    PairRunKeeps(src, list, d, StartSweep(src, list, d), steps);
    assert FateFits(src, list, i, PairReached(StartSweep(src, list, d), steps).fates[i]);
  }

  /** Conservation over both queues in every interleaving. The source loses exactly the messages taken away in state
      Drop or DeadLetter. What the dead-letter queue holds, has swept and has purged grows by its own enqueues and by
      one per moved message. So the two queues together lose exactly those in state Drop and those in state DeadLetter
      that were not moved; between a copy and the removal of its original that message counts twice. */
  lemma PairConserves(src: Queue, list: seq<nat>, d: System, steps: seq<PairStep>)
    requires PairReady(src, list, d) && PairRun(StartSweep(src, list, d), steps)
    ensures var p := PairReached(StartSweep(src, list, d), steps);
      && |p.fates| <= |list|
      && var dropped, dead := |TakenAway(src, list, |p.fates|, Drop)|, |TakenAway(src, list, |p.fates|, DeadLetter)|;
      && |Holding(p.src)| + dropped + dead == |Holding(src)|
      && Arrived(p.dlq) == Arrived(d) + p.own + MovedCount(p.fates) + Twice(p)
      && MovedCount(p.fates) <= dead
      && |Holding(p.src)| + Arrived(p.dlq) + dropped + (dead - MovedCount(p.fates))
         == |Holding(src)| + Arrived(d) + p.own + Twice(p)
  {
    StartKeeps(src, list, d);
    PairRunKeeps(src, list, d, StartSweep(src, list, d), steps);
    var p := PairReached(StartSweep(src, list, d), steps);
    FatesAdd(p.fates);
    AscendingPositions(src);
    CountsByState(src, list, p.fates);
  }

  // ---------- with nothing in between ----------

  lemma PairOne(p: Pair, step: PairStep, rest: seq<PairStep>)
    requires CanStep(p, step) && PairRun(Next(p, step), rest)
    ensures PairRun(p, [step] + rest) && PairReached(p, [step] + rest) == PairReached(Next(p, step), rest)
  {
    assert ([step] + rest)[1..] == rest;
  }

  ghost predicate Undisturbed(p: Pair) {
    && p.phase == Idle && InTable(p.src, p.todo)
    && Reachable(p.dlq) && Room(p.dlq.q, |p.todo|) && (Persists(p.dlq.q) ==> p.dlq.q.open)
  }

  predicate EndsAs(p: Pair, p1: Pair, end: Swept) {
    p1.src == end.src && p1.dlq.q == end.dlq && p1.fates == p.fates + end.fates && p1.phase == Idle
  }

  /** A sweep during which the dead-letter queue does nothing else is one of these runs. */
  lemma {:induction false} UndisturbedSweep(p: Pair, results: seq<MoveResult>) returns (steps: seq<PairStep>)
    requires Undisturbed(p) && |results| == |p.todo|
    ensures PairRun(p, steps)
    ensures EndsAs(p, PairReached(p, steps), SweepMove(p.src, p.dlq.q, p.todo, results))
    decreases |p.todo|
  {
    if p.todo == [] || (Moves(p.src, p.todo[0]) && (results[0] == Threw || results[0] == Waiting)) {
      steps := [];
    } else {
      var first, p1 := OneMessage(p, results[0]);
      var rest := UndisturbedSweep(p1, results[1..]);
      steps := Joined(p, first, p1, rest);
      Continues(p, results, p1, PairReached(p1, rest));
    }
  }

  /** `p1` is where one message leaves the two queues. */
  predicate AfterOne(p: Pair, result: MoveResult, p1: Pair)
    requires AtHand(p)
  {
    && p1.src == SweepOne(p.src, p.todo[0]) && p1.todo == p.todo[1..]
    && p1.fates == p.fates + [FateOf(p.src, p.dlq.q, p.todo[0], result)]
    && p1.dlq.q == DlqAfter(p.src, p.dlq.q, p.todo[0], result)
  }

  lemma Continues(p: Pair, results: seq<MoveResult>, p1: Pair, p2: Pair)
    requires AtHand(p) && InTable(p.src, p.todo) && |results| == |p.todo| && AfterOne(p, results[0], p1)
    requires !(Moves(p.src, p.todo[0]) && (results[0] == Threw || results[0] == Waiting))
    requires EndsAs(p1, p2, SweepMove(p1.src, p1.dlq.q, p1.todo, results[1..]))
    ensures EndsAs(p, p2, SweepMove(p.src, p.dlq.q, p.todo, results))
  {
  }

  lemma {:induction false} Joined(p: Pair, first: seq<PairStep>, p1: Pair, rest: seq<PairStep>)
    returns (steps: seq<PairStep>)
    requires PairRun(p, first) && PairReached(p, first) == p1 && PairRun(p1, rest)
    ensures PairRun(p, steps) && PairReached(p, steps) == PairReached(p1, rest)
    decreases |first|
  {
    if first == [] {
      steps := rest;
    } else {
      steps := Joined(Next(p, first[0]), first[1..], p1, rest);
      PairOne(p, first[0], steps);
      steps := [first[0]] + steps;
    }
  }

  lemma OneMessage(p: Pair, result: MoveResult) returns (steps: seq<PairStep>, p1: Pair)
    requires Undisturbed(p) && p.todo != []
    requires !(Moves(p.src, p.todo[0]) && (result == Threw || result == Waiting))
    ensures PairRun(p, steps) && PairReached(p, steps) == p1 && Undisturbed(p1) && AfterOne(p, result, p1)
  {
    if FateOf(p.src, p.dlq.q, p.todo[0], result).Moved? {
      steps, p1 := OneCopy(p);
    } else {
      steps, p1 := [Settle(result)], Next(p, Settle(result));
      PairOne(p, Settle(result), []);
    }
    StaysUndisturbed(p, result, p1);
  }

  lemma StaysUndisturbed(p: Pair, result: MoveResult, p1: Pair)
    requires Undisturbed(p) && p.todo != [] && AfterOne(p, result, p1) && Reachable(p1.dlq) && p1.phase == Idle
    ensures Undisturbed(p1)
  {
  }

  lemma OneCopy(p: Pair) returns (steps: seq<PairStep>, p1: Pair)
    requires Undisturbed(p) && p.todo != [] && Moves(p.src, p.todo[0])
    ensures PairRun(p, steps) && PairReached(p, steps) == p1 && Reachable(p1.dlq) && p1.phase == Idle
    ensures p1.src == SweepOne(p.src, p.todo[0]) && p1.todo == p.todo[1..]
    ensures p1.fates == p.fates + [Moved(NextSerial(p.dlq.q.lastSerial))]
    ensures p1.dlq.q == Deposited(p.dlq.q, p.src.objects[p.todo[0]].rec)
  {
    DrawShape(p);
    var p0 := Next(p, Draw);
    if Persists(p.dlq.q) {
      steps, p1 := StoredAndCounted(p0);
      DepositParts(p.dlq.q, p.src.objects[p.todo[0]].rec);
    } else {
      steps, p1 := [Remove], Next(p0, Remove);
      PairOne(p0, Remove, []);
    }
    PairOne(p, Draw, steps);
    steps := [Draw] + steps;
  }

  lemma DepositParts(q: Queue, rec: Record)
    requires Persists(q)
    ensures var k := NextSerial(q.lastSerial);
      Deposited(q, rec) == CountReceived(StoreRecord(TakeSerial(q), DeadLetterRecord(rec, q.cfg.name, k)))
  {
  }

  lemma DrawShape(p: Pair)
    requires Undisturbed(p) && p.todo != [] && Moves(p.src, p.todo[0])
    ensures CanStep(p, Draw)
    ensures var p1, rec, k := Next(p, Draw), p.src.objects[p.todo[0]].rec, NextSerial(p.dlq.q.lastSerial);
      && p1.src == p.src && p1.todo == p.todo && p1.fates == p.fates && Reachable(p1.dlq)
      && if Persists(p.dlq.q) then
           && p1.phase == Drawn(k) && p1.dlq.q == TakeSerial(p.dlq.q)
           && k in p1.dlq.drawn && p1.dlq.drawn[k] == CopyOf(rec, p.dlq, k)
         else p1.phase == Counted(k) && p1.dlq.q == Deposited(p.dlq.q, rec)
  {
    ReachableStep(p.dlq, CopyAction(p));
  }

  lemma StoredAndCounted(p: Pair) returns (steps: seq<PairStep>, p1: Pair)
    requires p.phase.Drawn? && Reachable(p.dlq) && AtHand(p) && Persists(p.dlq.q) && p.phase.serial in p.dlq.drawn
    ensures PairRun(p, steps) && PairReached(p, steps) == p1 && Reachable(p1.dlq) && p1.phase == Idle
    ensures p1.dlq.q == CountReceived(StoreRecord(p.dlq.q, p.dlq.drawn[p.phase.serial]))
    ensures p1.src == SweepOne(p.src, p.todo[0]) && p1.todo == p.todo[1..] && p1.fates == p.fates + [Moved(p.phase.serial)]
  {
    var k := p.phase.serial;
    var pStored := Next(p, Store);
    ReachableStep(p.dlq, StoreDrawn(k));
    var pCounted := Next(pStored, Count);
    ReachableStep(pStored.dlq, CountStored(k));
    p1 := Next(pCounted, Remove);
    PairOne(pCounted, Remove, []);
    PairOne(pStored, Count, [Remove]);
    steps := [Store] + ([Count] + [Remove]);
    PairOne(p, Store, [Count] + [Remove]);
  }
}
