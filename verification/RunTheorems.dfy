/** What holds of every run of a queue, from a start on any saved database, whatever interleaves. */
module RunTheorems {
  import opened Messages
  import opened DeliveryPass
  import opened QueueState
  import opened QueueEffects
  import opened StoreInvariant
  import opened QueueRun
  import opened RunInvariant
  import opened RunHistory
  import opened RunAccounting

  ghost predicate Inv(s: System) {
    StoreOk(s) && CallInv(s) && HistoryInv(s) && TallyInv(s) && AccountInv(s)
  }

  predicate WellKeyed(disk: map<nat, Record>) {
    forall k :: k in disk ==> disk[k].serial == k
  }

  lemma BootInv(cfg: Config, disk: map<nat, Record>, stats: Statistics)
    requires WellKeyed(disk)
    ensures Inv(Booted(cfg, disk, stats))
  {
    LoadKeeps(cfg, disk, stats);
    BootCalls(cfg, disk, stats);
  }

  lemma BootCalls(cfg: Config, disk: map<nat, Record>, stats: Statistics)
    ensures var s := Booted(cfg, disk, stats);
      CallInv(s) && HistoryInv(s) && TallyInv(s) && AccountInv(s)
  {
  }

  lemma StepInv(s: System, a: Action)
    requires Inv(s) && Enabled(s, a)
    ensures Inv(Apply(s, a))
  {
    StoreStep(s, a);
    CallStep(s, a);
    HistoryStep(s, a);
    TallyStep(s, a);
    AccountStep(s, a);
  }

  /** Every reachable state satisfies the invariant. */
  lemma {:induction false} RunInv(s: System, actions: seq<Action>)
    requires Inv(s) && Run(s, actions)
    ensures Inv(Reached(s, actions))
    decreases |actions|
  {
    if actions != [] {
      StepInv(s, actions[0]);
      RunInv(Apply(s, actions[0]), actions[1..]);
    }
  }

  /** Some run leads from a start over some saved database to `s`. */
  ghost predicate Reachable(s: System) {
    exists cfg, disk, stats, actions ::
      WellKeyed(disk) && Run(Booted(cfg, disk, stats), actions) && s == Reached(Booted(cfg, disk, stats), actions)
  }

  lemma ReachableInv(s: System)
    requires Reachable(s)
    ensures Inv(s)
  {
    var cfg, disk, stats, actions :|
      WellKeyed(disk) && Run(Booted(cfg, disk, stats), actions) && s == Reached(Booted(cfg, disk, stats), actions);
    BootInv(cfg, disk, stats);
    RunInv(Booted(cfg, disk, stats), actions);
  }

  lemma ReachableStep(s: System, a: Action)
    requires Reachable(s) && Enabled(s, a)
    ensures Reachable(Apply(s, a))
  {
    var cfg, disk, stats, actions :|
      WellKeyed(disk) && Run(Booted(cfg, disk, stats), actions) && s == Reached(Booted(cfg, disk, stats), actions);
    OneMore(Booted(cfg, disk, stats), actions, a);
    assert Apply(s, a) == Reached(Booted(cfg, disk, stats), actions + [a]);
  }

  /** The configuration of a queue never changes. */
  lemma ConfigStays(s: System, a: Action)
    requires Enabled(s, a)
    ensures Apply(s, a).q.cfg == s.q.cfg
  {
    match a
    case Select(locked, now) =>
      if locked {
        ExpiryFrame(s.q, s.q.buffer, now);
      }
    case Begin(order) => BeginFrame(s, s.thread.top.value, order);
    case TakeAnswer(r, reply, at) =>
      AnswerShape(s, r, reply, at, Take(s.q.cfg, s.q.objects[r], s.calls[r].waiting.value, reply, at));
    case Hydrate(locked, newIds) =>
      if locked {
        HydrationShape(s.q, NextKeysOf(s.q), newIds);
      }
    case Sweep(locked, upto) =>
      if locked {
        SweepEffect(s.q, s.thread.list[..upto]);
      }
    case _ =>
  }

  // ---------- store, buffer, depth ----------

  /** The depth counter is exact up to the enqueues that have stored but not yet counted, and never negative;
      it exceeds the buffer length exactly when some stored and counted message is not buffered. */
  lemma DepthExactOnRuns(s: System)
    requires Reachable(s)
    ensures InTable(s.q, s.q.buffer)
    ensures s.q.depth == Held(s.q) - |s.uncounted| && s.q.depth >= |s.q.buffer|
    ensures Persists(s.q) ==>
      (s.q.depth > |s.q.buffer| <==> exists k :: k in s.q.store && k !in s.uncounted && k !in BufferedSerials(s.q))
  {
    ReachableInv(s);
    if Persists(s.q) {
      HydrationTestExact(s.q, s.drawn, s.uncounted);
    }
  }

  /** While the database of a persistent queue is open its buffer lists, in ascending serial order, exactly the
      stored messages up to the last buffered one, each equal to its stored record. */
  lemma BufferRefinesStoreOnRuns(s: System)
    requires Reachable(s) && Persists(s.q) && s.q.open && s.q.buffer != []
    ensures InTable(s.q, s.q.buffer)
    ensures Ascending(seq(|s.q.buffer|, i requires 0 <= i < |s.q.buffer| => Serial(s.q, s.q.buffer[i])))
    ensures forall k :: k in BufferedSerials(s.q) <==> k in s.q.store && k <= Serial(s.q, s.q.buffer[|s.q.buffer| - 1])
    ensures forall r :: r in s.q.buffer ==> s.q.store[Serial(s.q, r)] == s.q.objects[r].rec
  {
    ReachableInv(s);
    BufferRefinesStore(s.q, s.drawn, s.uncounted);
  }

  // ---------- purge is final ----------

  /** Serial `k` was handed out, and neither store, buffer nor an enqueue under way has it. */
  ghost predicate Gone(s: System, k: nat) {
    && k <= s.q.lastSerial && k !in s.q.store && k !in s.drawn
    && forall i :: 0 <= i < |s.q.buffer| && s.q.buffer[i] < |s.q.objects| ==> Serial(s.q, s.q.buffer[i]) != k
  }

  lemma HydrationKeepsGone(s: System, newIds: nat -> Guid, k: nat)
    requires StoreOk(s) && Persists(s.q) && s.q.open && NoReaders(s) && Gone(s, k)
    ensures Gone(HydrateStep(s, newIds), k)
  {
    var s1 := HydrateStep(s, newIds);
    HydrationKeeps(s.q, PERSISTENT_MESSAGES_BUFFER_SIZE, newIds);
    HydrationShape(s.q, NextKeysOf(s.q), newIds);
    NotStoredNotBuffered(s1.q, k);
  }

  lemma NotStoredNotBuffered(q: Queue, k: nat)
    requires StoreInv(q, map[], {}) && Persists(q) && k !in q.store
    ensures forall i :: 0 <= i < |q.buffer| && q.buffer[i] < |q.objects| ==> Serial(q, q.buffer[i]) != k
  {
    var c := CoreOf(q);
    forall i | 0 <= i < |q.buffer| ensures Serial(q, q.buffer[i]) != k {
      assert c.recs[c.buffer[i]].serial in c.store;
    }
  }

  lemma AnswerKeepsGone(s: System, r: nat, reply: Reply, at: Time, k: nat)
    requires CallInv(s) && Enabled(s, TakeAnswer(r, reply, at)) && Gone(s, k)
    ensures Gone(AnswerStep(s, r, reply, at), k)
  {
    AnswerShape(s, r, reply, at, Take(s.q.cfg, s.q.objects[r], s.calls[r].waiting.value, reply, at));
    AnswerEvolves(s, r, reply, at);
    AnswerStore(s, r, reply, at);
    GoneThrough(s, AnswerStep(s, r, reply, at), r, k);
  }

  /** Buffer unchanged, and at most the record of a buffered message rewritten. */
  lemma GoneThrough(s: System, s1: System, r: nat, k: nat)
    requires Gone(s, k) && ObjectsEvolve(s, s1) && r < |s.q.objects| == |s1.q.objects|
    requires s1.q.lastSerial == s.q.lastSerial && s1.drawn == s.drawn && s1.q.buffer == s.q.buffer
    requires s1.q.store.Keys == s.q.store.Keys + (if r in s.q.buffer then {Serial(s.q, r)} else {}) || s1.q.store == s.q.store
    ensures Gone(s1, k)
  {
    if r in s.q.buffer {
      var i :| 0 <= i < |s.q.buffer| && s.q.buffer[i] == r;
      assert Serial(s.q, s.q.buffer[i]) != k;
    }
    forall i | 0 <= i < |s.q.buffer| && s.q.buffer[i] < |s.q.objects| ensures Serial(s1.q, s.q.buffer[i]) != k {
      assert SameIdentity(s.q.objects[s.q.buffer[i]].rec, s1.q.objects[s.q.buffer[i]].rec);
    }
  }

  /** The only record a reply can write is the record of its own message, and only while that is buffered. */
  lemma AnswerStore(s: System, r: nat, reply: Reply, at: Time)
    requires Enabled(s, TakeAnswer(r, reply, at))
    ensures var q1 := AnswerStep(s, r, reply, at).q;
      var m := Take(s.q.cfg, s.q.objects[r], s.calls[r].waiting.value, reply, at).message;
      && m.rec.serial == Serial(s.q, r)
      && q1.store == if reply.Defer? && s.q.open && r in s.q.buffer then s.q.store[m.rec.serial := m.rec] else s.q.store
  {
  }

  lemma SweepKeepsGone(s: System, list: seq<nat>, k: nat)
    requires InTable(s.q, list) && Gone(s, k)
    ensures Gone(SweepStep(s, list), k)
  {
    SweepEffect(s.q, list);
    var s1 := SweepStep(s, list);
    forall i | 0 <= i < |s1.q.buffer| && s1.q.buffer[i] < |s1.q.objects| ensures Serial(s1.q, s1.q.buffer[i]) != k {
      var r := s1.q.buffer[i];
      assert r in s.q.buffer;
      var j :| 0 <= j < |s.q.buffer| && s.q.buffer[j] == r;
    }
  }

  lemma SelectKeepsGone(s: System, now: Time, k: nat)
    requires StoreOk(s) && Enabled(s, Select(true, now)) && Gone(s, k)
    ensures Gone(SelectStep(s, now), k)
  {
    SelectEvolves(s, true, now);
    ExpiryFrame(s.q, s.q.buffer, now);
  }

  lemma GoneStep(s: System, a: Action, k: nat)
    requires StoreOk(s) && CallInv(s) && Enabled(s, a) && !a.Restart? && Gone(s, k)
    ensures Gone(Apply(s, a), k)
  {
    if a.TakeAnswer? {
      AnswerKeepsGone(s, a.r, a.reply, a.at, k);
    } else if a.SendNext? || a.EndPass? {
      CallKeepsGone(s, a, k);
    } else if a.Begin? {
      BeginKeepsGone(s, s.thread.top.value, a.order, k);
    } else if a.Hydrate? || a.Select? || a.Sweep? {
      ThreadKeepsGone(s, a, k);
    } else {
      OtherKeepsGone(s, a, k);
    }
  }

  lemma ThreadKeepsGone(s: System, a: Action, k: nat)
    requires StoreOk(s) && CallInv(s) && Enabled(s, a) && (a.Hydrate? || a.Select? || a.Sweep?) && Gone(s, k)
    ensures Gone(Apply(s, a), k)
  {
    match a
    case Hydrate(locked, newIds) =>
      if locked && Persists(s.q) {
        HydrationKeepsGone(s, newIds, k);
      }
    case Select(locked, now) =>
      if locked {
        SelectKeepsGone(s, now, k);
      }
    case Sweep(locked, upto) =>
      if locked {
        SweepKeepsGone(s, s.thread.list[..upto], k);
      }
  }

  lemma CallKeepsGone(s: System, a: Action, k: nat)
    requires CallInv(s) && Gone(s, k)
    requires Enabled(s, a) && (a.SendNext? || a.EndPass?)
    ensures Gone(Apply(s, a), k)
  {
    var s1 := Apply(s, a);
    CallEvolves(s, a);
    GoneThrough(s, s1, a.r, k);
  }

  lemma BeginKeepsGone(s: System, r: nat, order: seq<Guid>, k: nat)
    requires Gone(s, k) && r < |s.q.objects| && s.q.objects[r].state == Ready
    ensures Gone(BeginStep(s, r, order), k)
  {
    BeginEvolves(s, r, order);
    if order == [] {
      NobodyShape(s, r);
      GoneThrough(s, BeginStep(s, r, []), r, k);
    } else {
      BeginCallShape(s, r, order);
      GoneThrough(s, BeginStep(s, r, order), r, k);
    }
  }

  lemma BeginCallShape(s: System, r: nat, order: seq<Guid>)
    requires r < |s.q.objects| && order != []
    ensures var s1 := BeginStep(s, r, order);
      && s1.q == s.q.(objects := s.q.objects[r := s.q.objects[r].(state := OutForDelivery)], outstanding := s.q.outstanding + 1)
      && s1.drawn == s.drawn
  {
  }

  lemma OtherKeepsGone(s: System, a: Action, k: nat)
    requires CallInv(s) && Enabled(s, a) && Gone(s, k) && Quiet(a) && !a.Hydrate? && !a.Sweep?
    requires a.StoreDrawn? ==> s.drawn[a.serial].serial == a.serial
    ensures Gone(Apply(s, a), k)
  {
    var s1 := Apply(s, a);
    if a.EnqueueInMemory? {
      assert Serial(s1.q, |s.q.objects|) == s.q.lastSerial + 1;
      assert s1.q.buffer == s.q.buffer + [|s.q.objects|];
    }
  }

  ghost predicate WithoutRestart(actions: seq<Action>) {
    forall i :: 0 <= i < |actions| ==> !actions[i].Restart?
  }

  lemma {:induction false} GoneForGood(s: System, actions: seq<Action>, k: nat)
    requires Inv(s) && Run(s, actions) && WithoutRestart(actions) && Gone(s, k)
    ensures Gone(Reached(s, actions), k)
    decreases |actions|
  {
    if actions != [] {
      GoneStep(s, actions[0], k);
      StepInv(s, actions[0]);
      GoneForGood(Apply(s, actions[0]), actions[1..], k);
    }
  }

  /** Once a purge commits, nothing that was stored or buffered is in store or buffer again within the run,
      whatever in-flight deliveries answer (a deferral included), and the depth keeps counting only newcomers. */
  lemma PurgeIsFinal(s: System, actions: seq<Action>)
    requires Inv(s) && Enabled(s, Purge) && Run(Apply(s, Purge), actions) && WithoutRestart(actions)
    ensures var s1 := Reached(Apply(s, Purge), actions);
      && (forall k :: k in s.q.store ==> Gone(s1, k))
      && (forall r :: 0 <= r < |s.q.objects| ==> Gone(s1, Serial(s.q, r)))
      && s1.q.depth == Held(s1.q) - |s1.uncounted|
  {
    var p := Apply(s, Purge);
    StepInv(s, Purge);
    var s1 := Reached(p, actions);
    RunInv(p, actions);
    forall k | k in s.q.store ensures Gone(s1, k) {
      assert Gone(p, k);
      GoneForGood(p, actions, k);
    }
    forall r | 0 <= r < |s.q.objects| ensures Gone(s1, Serial(s.q, r)) {
      assert CoreOf(s.q).recs[r].serial <= s.q.lastSerial;
      assert Gone(p, Serial(s.q, r));
      GoneForGood(p, actions, Serial(s.q, r));
    }
  }

  // ---------- at least once ----------

  lemma CallKeepsKeys(s: System, a: Action)
    requires CallInv(s) && Enabled(s, a) && (a.SendNext? || a.EndPass? || a.TakeAnswer?)
    ensures s.q.store.Keys <= Apply(s, a).q.store.Keys
  {
    if a.TakeAnswer? {
      AnswerStore(s, a.r, a.reply, a.at);
    }
  }

  lemma OthersKeepKeys(s: System, a: Action)
    requires CallInv(s) && Persists(s.q) && Enabled(s, a) && !a.Purge? && !a.Sweep?
    ensures s.q.store.Keys <= Apply(s, a).q.store.Keys
  {
    if a.SendNext? || a.EndPass? || a.TakeAnswer? {
      CallKeepsKeys(s, a);
    } else if a.Hydrate? && a.locked {
      HydrationShape(s.q, NextKeysOf(s.q), a.newIds);
    } else if a.Select? && a.locked {
      ExpiryFrame(s.q, s.q.buffer, a.now);
    }
  }

  lemma SweepByVerdict(s: System, locked: bool, upto: nat, k: nat)
    requires Enabled(s, Sweep(locked, upto)) && k in s.q.store && k !in Apply(s, Sweep(locked, upto)).q.store
    ensures SweptByVerdict(s, k)
  {
    var list := s.thread.list[..upto];
    SweepEffect(s.q, list);
    var i :| 0 <= i < |list| && Serial(s.q, list[i]) == k && Terminal(s.q.objects[list[i]].state);
    assert list[i] == s.thread.list[i];
  }

  /** A stored message leaves the store only by a purge, or by a sweep that was told to drop or dead-letter
      it; in particular no stop, crash or restart loses one. */
  lemma LeavesOnlyBy(s: System, a: Action, k: nat)
    requires Reachable(s) && Persists(s.q) && Enabled(s, a) && k in s.q.store && k !in Apply(s, a).q.store
    ensures a.Purge? || (a.Sweep? && SweptByVerdict(s, k))
  {
    if a.Sweep? {
      SweepByVerdict(s, a.writeLocked, a.upto, k);
    } else if !a.Purge? {
      ReachableCalls(s);
      OthersKeepKeys(s, a);
    }
  }

  lemma ReachableCalls(s: System)
    requires Reachable(s)
    ensures CallInv(s)
  {
    ReachableInv(s);
  }

  lemma ReachableStore(s: System)
    requires Reachable(s)
    ensures StoreOk(s)
  {
    ReachableInv(s);
  }

  ghost predicate SweptByVerdict(s: System, k: nat) {
    && s.thread.Collected? && InTable(s.q, s.thread.list)
    && exists i :: 0 <= i < |s.thread.list| && Serial(s.q, s.thread.list[i]) == k
                   && Terminal(s.q.objects[s.thread.list[i]].state)
  }

  /** Apart from its deferral fields a stored record never changes while it is stored: a new record never
      overwrites one, and only a record without a message id is given one. */
  ghost predicate StoredIdentity(rec: Record, rec1: Record) {
    SameIdentity(rec, rec1) || (rec.messageId == EMPTY_GUID && rec1 == rec.(messageId := rec1.messageId))
  }

  lemma HydrationKeepsIdentity(s: System, newIds: nat -> Guid, k: nat)
    requires InTable(s.q, s.q.buffer) && k in s.q.store
    ensures k in HydrateStep(s, newIds).q.store && StoredIdentity(s.q.store[k], HydrateStep(s, newIds).q.store[k])
  {
    HydrationLoads(s.q, NextKeysOf(s.q), newIds);
  }

  lemma AnswerKeepsIdentity(s: System, r: nat, reply: Reply, at: Time, k: nat)
    requires StoreOk(s) && CallInv(s) && Enabled(s, TakeAnswer(r, reply, at)) && k in s.q.store
    ensures k in AnswerStep(s, r, reply, at).q.store
    ensures StoredIdentity(s.q.store[k], AnswerStep(s, r, reply, at).q.store[k])
  {
    AnswerStore(s, r, reply, at);
    if reply.Defer? && s.q.open && r in s.q.buffer {
      BufferedRecord(s, r);
    }
  }

  lemma BufferedRecord(s: System, r: nat)
    requires StoreOk(s) && s.q.open && r in s.q.buffer
    ensures r < |s.q.objects| && Serial(s.q, r) in s.q.store && s.q.store[Serial(s.q, r)] == s.q.objects[r].rec
  {
    var c := CoreOf(s.q);
    var i :| 0 <= i < |c.buffer| && c.buffer[i] == r;
    assert c.recs[c.buffer[i]].serial in c.store;
    assert c.persists;
  }

  lemma ThreadKeepsIdentity(s: System, a: Action, k: nat)
    requires Enabled(s, a) && k in s.q.store && k in Apply(s, a).q.store && (a.Sweep? || a.Select?)
    ensures Apply(s, a).q.store[k] == s.q.store[k]
  {
    if a.Sweep? && a.writeLocked {
      SweepEffect(s.q, s.thread.list[..a.upto]);
    } else if a.Select? && a.locked {
      ExpiryFrame(s.q, s.q.buffer, a.now);
    }
  }

  lemma BeginKeepsRecords(s: System, r: nat, order: seq<Guid>)
    requires r < |s.q.objects|
    ensures BeginStep(s, r, order).q.store == s.q.store
  {
    if order == [] {
      NobodyShape(s, r);
    } else {
      BeginCallShape(s, r, order);
    }
  }

  lemma OthersKeepRecords(s: System, a: Action)
    requires Persists(s.q) && Enabled(s, a) && !a.Begin?
    requires !a.Hydrate? && !a.TakeAnswer? && !a.StoreDrawn? && !a.Sweep? && !a.Select? && !a.Purge?
    ensures Apply(s, a).q.store == s.q.store
  {
  }

  lemma RecordsKeepIdentity(s: System, a: Action, k: nat)
    requires Reachable(s) && Persists(s.q) && Enabled(s, a) && k in s.q.store && k in Apply(s, a).q.store
    ensures StoredIdentity(s.q.store[k], Apply(s, a).q.store[k])
  {
    ReachableStore(s);
    if a.Hydrate? {
      if a.locked {
        HydrationKeepsIdentity(s, a.newIds, k);
      }
    } else if a.TakeAnswer? {
      ReachableCalls(s);
      AnswerKeepsIdentity(s, a.r, a.reply, a.at, k);
    } else if a.StoreDrawn? {
      StoreKeeps(s.q, s.drawn, s.uncounted, a.serial);
    } else if a.Sweep? || a.Select? {
      ThreadKeepsIdentity(s, a, k);
    } else if a.Begin? {
      BeginKeepsRecords(s, s.thread.top.value, a.order);
    } else if !a.Purge? {
      OthersKeepRecords(s, a);
    }
  }

  // ---------- deliveries ----------

  /** The outstanding counter is the number of unfinished delivery calls and stays within its bound, a message is
      out for delivery exactly while one call has it, two calls never have the same message, and a synchronous queue
      has at most one call. */
  lemma BoundedConcurrency(s: System)
    requires Reachable(s)
    ensures 0 <= s.q.outstanding == |s.calls| <= Bound(s.q.cfg)
    ensures forall r :: 0 <= r < |s.q.objects| ==> (s.q.objects[r].state == OutForDelivery <==> r in s.calls)
    ensures forall r, t :: r in s.calls && t in s.calls && r != t ==>
      r < |s.q.objects| && t < |s.q.objects| && Serial(s.q, r) != Serial(s.q, t)
    ensures !s.q.cfg.asynchronous ==> forall r, t :: r in s.calls && t in s.calls ==> r == t
  {
    ReachableInv(s);
    DistinctSerials(s);
  }

  lemma DistinctSerials(s: System)
    requires StoreOk(s)
    ensures forall r, t :: 0 <= r < |s.q.objects| && 0 <= t < |s.q.objects| && r != t ==> Serial(s.q, r) != Serial(s.q, t)
  {
    var c := CoreOf(s.q);
    forall r, t | 0 <= r < t < |s.q.objects| ensures Serial(s.q, r) != Serial(s.q, t) {
      assert c.recs[r].serial != c.recs[t].serial;
    }
  }

  /** Within a run, for every message and subscriber: attempts not answered Defer stay within a positive limit;
      satisfied and limit-reached subscribers differ; consumers are satisfied; and whoever is asked next is
      not complete. */
  lemma AttemptsOnRuns(s: System, r: nat, id: Guid)
    requires Reachable(s) && r < |s.q.objects|
    ensures r < |s.trace.histories|
    ensures var m, h := s.q.objects[r], s.trace.histories[r];
      && (s.q.cfg.maxAttempts > 0 ==> UndeferredOffers(h, id) <= s.q.cfg.maxAttempts)
      && m.satisfied == SatisfiedIn(h) && m.consumed == ConsumedIn(h) && m.limitReached == ExhaustedIn(s.q.cfg, h)
      && m.satisfied !! m.limitReached && m.consumed <= m.satisfied
      && (r in s.calls && s.calls[r].waiting == Some(id) ==> id !in Complete(m))
      && (r in s.calls && id in s.calls[r].todo ==> id !in Complete(m))
  {
    ReachableInv(s);
    ObjectOf(s, r);
    var h := s.trace.histories[r];
    CompletedSetsAgree(s.q.cfg, h);
    if s.q.cfg.maxAttempts > 0 {
      AttemptBound(s.q.cfg, h, id);
    }
    if r in s.calls && id in s.calls[r].todo {
      assert id in SetOf(s.calls[r].todo);
    }
  }

  /** Under FirstConsumedSubscriber at most one subscriber consumes a message in a run, and a consumed message
      is dropped: it is never in the state that sends it to the dead-letter queue. */
  lemma ExclusiveConsumption(s: System, r: nat)
    requires Reachable(s) && r < |s.q.objects| && s.q.cfg.consumption == FirstConsumedSubscriber
    ensures |s.q.objects[r].consumed| <= 1
    ensures s.q.objects[r].consumed != {} ==> s.q.objects[r].state == Drop
  {
    ReachableInv(s);
    ObjectOf(s, r);
    OneConsumer(s.q.cfg, s.trace.histories[r]);
  }

  // ---------- accounting ----------

  /** For a queue that was empty when the run began, received = held + swept + purged in every state without an
      enqueue under way, and no message is counted twice among expired, dropped and dead-lettered. */
  lemma BooksBalance(s: System)
    requires Reachable(s)
    ensures s.trace.initial + (s.q.stats.received - s.trace.base.received) == s.q.depth + s.trace.swept + s.trace.purged
    ensures NoReaders(s) ==> s.q.depth == Held(s.q)
    ensures var t := s.trace;
      && t.expired !! t.dropped && t.expired !! t.deadLettered && t.dropped !! t.deadLettered
      && s.q.stats.expired == t.base.expired + |t.expired|
      && s.q.stats.explicitDrop == t.base.explicitDrop + |t.dropped|
      && s.q.stats.explicitDeadLetter == t.base.explicitDeadLetter + |t.deadLettered|
      && forall r :: r in t.expired + t.dropped + t.deadLettered ==>
           r < |s.q.objects| && Terminal(s.q.objects[r].state)
  {
    ReachableInv(s);
    if NoReaders(s) {
      DepthIsHeld(s);
    }
  }

  /** A verdict is for ever: over the rest of the run a terminal state never changes. */
  lemma {:induction false} TerminalForGood(s: System, actions: seq<Action>, r: nat)
    requires Inv(s) && Run(s, actions) && WithoutRestart(actions)
    requires r < |s.q.objects| && Terminal(s.q.objects[r].state)
    ensures r < |Reached(s, actions).q.objects|
    ensures Reached(s, actions).q.objects[r].state == s.q.objects[r].state
    decreases |actions|
  {
    if actions != [] {
      ObjectStep(s, actions[0]);
      StepInv(s, actions[0]);
      TerminalForGood(Apply(s, actions[0]), actions[1..], r);
    }
  }
}
