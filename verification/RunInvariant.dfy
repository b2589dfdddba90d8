/** The invariants of a run, each kept by every action. */
module RunInvariant {
  import opened Messages
  import opened DeliveryPass
  import opened QueueState
  import opened QueueEffects
  import opened StoreInvariant
  import opened QueueRun

  // ---------- buffer, store and depth ----------

  ghost predicate StoreOk(s: System) {
    && StoreInv(s.q, s.drawn, s.uncounted)
    && (Persists(s.q) && s.thread != Exited ==> s.q.open)
  }

  lemma StoreTable(s: System)
    requires StoreOk(s)
    ensures InTable(s.q, s.q.buffer)
  {
  }

  /** Sections that leave records, buffer, store and depth alone. */
  lemma SameCoreKeeps(s: System, s1: System)
    requires StoreOk(s) && s.thread != Exited && s1.drawn == s.drawn && s1.uncounted == s.uncounted
    requires CoreOf(s1.q) == CoreOf(s.q)
    ensures StoreOk(s1)
  {
  }

  lemma BeginKeepsStore(s: System, order: seq<Guid>)
    requires StoreOk(s) && Enabled(s, Begin(order))
    ensures StoreOk(Apply(s, Begin(order)))
  {
    SameCore(s.q, Apply(s, Begin(order)).q);
    SameCoreKeeps(s, Apply(s, Begin(order)));
  }

  lemma CallKeepsStore(s: System, a: Action)
    requires StoreOk(s) && Enabled(s, a) && (a.SendNext? || a.EndPass?)
    ensures StoreOk(Apply(s, a))
  {
    CallCore(s, a);
  }

  lemma CallCore(s: System, a: Action)
    requires Enabled(s, a) && (a.SendNext? || a.EndPass?)
    ensures var s1 := Apply(s, a);
      && CoreOf(s1.q) == CoreOf(s.q) && s1.thread == s.thread && s1.drawn == s.drawn && s1.uncounted == s.uncounted
  {
    SameCore(s.q, Apply(s, a).q);
  }

  lemma AnswerKeepsStore(s: System, r: nat, reply: Reply, at: Time)
    requires StoreOk(s) && Enabled(s, TakeAnswer(r, reply, at))
    ensures StoreOk(Apply(s, TakeAnswer(r, reply, at)))
  {
    var id := s.calls[r].waiting.value;
    var s1 := s.(q := Answered(s.q, r, id, reply, at));
    AnswerKeeps(s.q, s.drawn, s.uncounted, r, id, reply, at);
    AnswerEnds(s.q, r, id, reply, at, Take(s.q.cfg, s.q.objects[r], id, reply, at).outcome);
  }

  lemma AnswerEnds(q: Queue, r: nat, id: Guid, reply: Reply, at: Time, outcome: Outcome)
    requires r < |q.objects|
    ensures var q1 := Answered(q, r, id, reply, at);
      && (outcome.Return? ==> CoreOf(Finished(q1, r, outcome.verdict)) == CoreOf(q1))
      && q1.open == q.open && Persists(q1) == Persists(q)
  {
    var q1 := Answered(q, r, id, reply, at);
    if outcome.Return? {
      SameCore(q1, Finished(q1, r, outcome.verdict));
    }
  }

  lemma ThreadKeepsStore(s: System, a: Action)
    requires StoreOk(s) && Enabled(s, a)
    requires a.Hydrate? || a.Select? || a.Sweep?
    ensures StoreOk(Apply(s, a))
  {
    match a
    case Hydrate(locked, newIds) =>
      if locked && Persists(s.q) {
        HydrationKeeps(s.q, PERSISTENT_MESSAGES_BUFFER_SIZE, newIds);
        HydrationShape(s.q, NextKeysOf(s.q), newIds);
      }
    case Select(locked, now) =>
      if locked {
        ExpiryKeepsCore(s.q, s.q.buffer, now);
        ExpiryFrame(s.q, s.q.buffer, now);
      }
    case Sweep(locked, upto) =>
      if locked {
        var list := s.thread.list[..upto];
        SweepKeeps(s.q, list);
        SweepEffect(s.q, list);
      }
  }

  function NextKeysOf(q: Queue): (ks: seq<nat>)
    requires InTable(q, q.buffer)
    ensures Ascending(ks) && forall i :: 0 <= i < |ks| ==> ks[i] in q.store
  {
    NextKeys(q, PERSISTENT_MESSAGES_BUFFER_SIZE)
  }

  lemma {:induction false} ExpiryFrame(q: Queue, rs: seq<nat>, now: Time)
    requires InTable(q, rs)
    ensures var q1 := ExpireAll(q, rs, now);
      q1 == q.(objects := q1.objects, stats := q1.stats)
    decreases |rs|
  {
    if rs != [] {
      ExpiryFrame(ExpireOne(q, rs[0], now), rs[1..], now);
    }
  }

  /** Buffer, store and depth stay consistent over every action. */
  lemma StoreStep(s: System, a: Action)
    requires StoreOk(s) && Enabled(s, a)
    ensures StoreOk(Apply(s, a))
  {
    match a
    case DrawSerial(draft) => AllocateKeeps(s.q, s.drawn, s.uncounted, draft);
    case StoreDrawn(k) => StoreKeeps(s.q, s.drawn, s.uncounted, k);
    case CountStored(k) => CountKeeps(s.q, s.drawn, s.uncounted, k);
    case EnqueueInMemory(draft) => EphemeralEnqueueKeeps(s.q, draft);
    case Hydrate(_, _) => ThreadKeepsStore(s, a);
    case Select(_, _) => ThreadKeepsStore(s, a);
    case Begin(order) => BeginKeepsStore(s, order);
    case SendNext(_) => CallKeepsStore(s, a);
    case TakeAnswer(r, reply, at) => AnswerKeepsStore(s, r, reply, at);
    case EndPass(_) => CallKeepsStore(s, a);
    case Resume =>
    case Collect =>
    case Sweep(_, _) => ThreadKeepsStore(s, a);
    case Exit =>
    case Purge => PurgeKeeps(s.q);
    case Subscribe(_) => SameCore(s.q, Apply(s, a).q);
    case Unsubscribe(_) => SameCore(s.q, Apply(s, a).q);
    case Stop => SameCore(s.q, Apply(s, a).q);
    case Close => CloseKeeps(s.q);
    case Restart(stats) => LoadKeeps(s.q.cfg, s.q.store, stats);
  }

  // ---------- deliveries under way ----------

  ghost predicate CallInv(s: System) {
    && |s.trace.histories| == |s.q.objects|
    && StatesMatchCalls(s.q, s.calls)
    && s.q.outstanding == |s.calls|
    && |s.calls| <= Bound(s.q.cfg)
    && ThreadInv(s)
    && (!s.q.cfg.asynchronous ==> forall r :: r in s.calls ==> s.thread == Awaiting(r))
  }

  function Bound(cfg: Config): nat {
    if cfg.maxOutstanding > 0 then cfg.maxOutstanding else 0
  }

  /** A message object is out for delivery iff exactly one call works on it (the calls are a map). */
  ghost predicate StatesMatchCalls(q: Queue, calls: map<nat, Call>) {
    && (forall r :: r in calls ==> r < |q.objects|)
    && (forall r :: 0 <= r < |q.objects| ==> (q.objects[r].state == OutForDelivery <==> r in calls))
  }

  ghost predicate ThreadInv(s: System) {
    match s.thread
    case Selected(Some(r)) =>
      && r < |s.q.objects| && s.q.objects[r].state == Ready
      && |s.calls| < s.q.cfg.maxOutstanding
      && (!s.q.cfg.asynchronous ==> s.calls == map[])
    case Awaiting(_) => !s.q.cfg.asynchronous
    case Collected(list) => AllTerminal(s.q, list)
    case _ => true
  }

  ghost predicate AllTerminal(q: Queue, list: seq<nat>) {
    InTable(q, list) && forall i :: 0 <= i < |list| ==> Terminal(q.objects[list[i]].state)
  }

  lemma SmallerCalls(calls: map<nat, Call>, r: nat)
    requires r in calls
    ensures |calls - {r}| == |calls| - 1
  {
    assert (calls - {r}).Keys == calls.Keys - {r};
    assert |calls - {r}| == |(calls - {r}).Keys|;
  }

  /** A call that returns: its message leaves OutForDelivery, the counter follows. */
  lemma FinishKeepsCalls(s: System, s1: System, r: nat, verdict: MessageState)
    requires CallInv(s) && r in s.calls && verdict != OutForDelivery
    requires s1.q.cfg == s.q.cfg && s1.thread == s.thread && s1.calls == s.calls - {r}
    requires |s1.trace.histories| == |s1.q.objects| == |s.q.objects|
    requires s1.q.outstanding == s.q.outstanding - 1
    requires forall t :: 0 <= t < |s.q.objects| ==>
      s1.q.objects[t].state == if t == r then verdict else s.q.objects[t].state
    ensures CallInv(s1)
  {
    SmallerCalls(s.calls, r);
  }

  lemma BeginKeepsCalls(s: System, order: seq<Guid>)
    requires CallInv(s) && Enabled(s, Begin(order))
    ensures CallInv(Apply(s, Begin(order)))
  {
    var r := s.thread.top.value;
    if order == [] {
      BeginNobody(s, r);
    } else {
      BeginSomebody(s, BeginStep(s, r, order), r, order);
    }
  }

  lemma NobodyShape(s: System, r: nat)
    requires r < |s.q.objects|
    ensures var q1 := BeginStep(s, r, []).q;
      && q1 == s.q.(objects := q1.objects)
      && q1.objects == s.q.objects[r := s.q.objects[r].(state := OpeningVerdict(s.q.objects[r]))]
  {
    var q1 := BeginStep(s, r, []).q;
    assert q1.objects == s.q.objects[r := s.q.objects[r].(state := OpeningVerdict(s.q.objects[r]))];
  }

  lemma BeginNobody(s: System, r: nat)
    requires CallInv(s) && s.thread == Selected(Some(r)) && r < |s.q.objects|
    ensures CallInv(BeginStep(s, r, []))
  {
    NobodyShape(s, r);
    var s1 := BeginStep(s, r, []);
    assert r !in s.calls;
    assert s1.calls == s.calls;
    NobodyKeepsCalls(s, s1, r);
  }

  lemma NobodyKeepsCalls(s: System, s1: System, r: nat)
    requires CallInv(s) && s.thread == Selected(Some(r)) && r < |s.q.objects| && r !in s.calls
    requires s1.thread == Sweeping && s1.calls == s.calls && s1.trace.histories == s.trace.histories
    requires s1.q == s.q.(objects := s1.q.objects) && |s1.q.objects| == |s.q.objects|
    requires s1.q.objects[r].state != OutForDelivery
    requires forall t :: 0 <= t < |s.q.objects| && t != r ==> s1.q.objects[t] == s.q.objects[t]
    ensures CallInv(s1)
  {
  }

  lemma BeginSomebody(s: System, s1: System, r: nat, order: seq<Guid>)
    requires CallInv(s) && s.thread == Selected(Some(r)) && order != [] && r < |s.q.objects|
    requires s1 == BeginStep(s, r, order)
    ensures CallInv(s1)
  {
    assert |s1.calls| == |s.calls| + 1;
    assert forall t :: 0 <= t < |s.q.objects| && t != r ==> s1.q.objects[t] == s.q.objects[t];
    assert forall t :: t in s1.calls <==> t in s.calls || t == r;
  }

  /** Something happens inside a call that goes on. */
  lemma CallGoesOn(s: System, s1: System)
    requires CallInv(s) && s1.calls.Keys == s.calls.Keys && s1.thread == s.thread
    requires s1.q.cfg == s.q.cfg && s1.q.outstanding == s.q.outstanding
    requires |s1.trace.histories| == |s1.q.objects| == |s.q.objects|
    requires forall t :: 0 <= t < |s.q.objects| ==> s1.q.objects[t].state == s.q.objects[t].state
    ensures CallInv(s1)
  {
    assert |s1.calls| == |s1.calls.Keys| == |s.calls|;
  }

  lemma SendKeepsCalls(s: System, r: nat)
    requires CallInv(s) && Enabled(s, SendNext(r))
    ensures CallInv(Apply(s, SendNext(r)))
  {
    var s1 := Apply(s, SendNext(r));
    if !s.q.running {
      FinishKeepsCalls(s, s1, r, Shutdown);
    } else {
      CallGoesOn(s, s1);
    }
  }

  lemma AnswerKeepsCalls(s: System, r: nat, reply: Reply, at: Time)
    requires CallInv(s) && Enabled(s, TakeAnswer(r, reply, at))
    ensures CallInv(Apply(s, TakeAnswer(r, reply, at)))
  {
    var id := s.calls[r].waiting.value;
    AnswerLeavesOthers(s.q, r, id, reply, at);
    AnswerEither(s, r, reply, at, Take(s.q.cfg, s.q.objects[r], id, reply, at).outcome);
  }

  lemma AnswerEither(s: System, r: nat, reply: Reply, at: Time, outcome: Outcome)
    requires CallInv(s) && Enabled(s, TakeAnswer(r, reply, at))
    requires outcome == Take(s.q.cfg, s.q.objects[r], s.calls[r].waiting.value, reply, at).outcome
    requires outcome.Return? ==> outcome.verdict != OutForDelivery
    requires var q1 := Answered(s.q, r, s.calls[r].waiting.value, reply, at);
      && q1 == s.q.(objects := q1.objects, stats := q1.stats, store := q1.store)
      && |q1.objects| == |s.q.objects|
      && forall t :: 0 <= t < |s.q.objects| ==> q1.objects[t].state == s.q.objects[t].state
    ensures CallInv(AnswerStep(s, r, reply, at))
  {
    var s1 := AnswerStep(s, r, reply, at);
    match outcome {
      case Return(verdict) => FinishKeepsCalls(s, s1, r, verdict);
      case Continue(_) => CallGoesOn(s, s1);
    }
  }

  lemma AnswerLeavesOthers(q: Queue, r: nat, id: Guid, reply: Reply, at: Time)
    requires r < |q.objects|
    ensures var q1 := Answered(q, r, id, reply, at);
      && q1 == q.(objects := q1.objects, stats := q1.stats, store := q1.store)
      && q1.objects == q.objects[r := Take(q.cfg, q.objects[r], id, reply, at).message]
      && q1.objects[r].state == q.objects[r].state
      && (Take(q.cfg, q.objects[r], id, reply, at).outcome.Return? ==>
            Take(q.cfg, q.objects[r], id, reply, at).outcome.verdict in {Ready, DeadLetter, Drop})
  {
  }

  lemma EndKeepsCalls(s: System, r: nat)
    requires CallInv(s) && Enabled(s, EndPass(r))
    ensures CallInv(Apply(s, EndPass(r)))
  {
    var c := s.calls[r];
    FinishKeepsCalls(s, Apply(s, EndPass(r)), r,
                     ClosingVerdict(s.q.cfg, s.q.objects[r], SetOf(c.order), c.failures, s.q.running, s.q.subscribers));
  }

  /** Messages appear Ready, so they belong to no call. */
  lemma GrowthKeepsCalls(s: System, s1: System)
    requires CallInv(s) && s1.calls == s.calls && s1.thread == s.thread && s1.q.cfg == s.q.cfg
    requires s1.q.outstanding == s.q.outstanding && |s1.trace.histories| == |s1.q.objects|
    requires s.q.objects <= s1.q.objects
    requires forall r :: |s.q.objects| <= r < |s1.q.objects| ==> s1.q.objects[r].state == Ready
    ensures CallInv(s1)
  {
  }

  lemma HydrateKeepsCalls(s: System, locked: bool, newIds: nat -> Guid)
    requires StoreOk(s) && CallInv(s) && Enabled(s, Hydrate(locked, newIds))
    ensures CallInv(Apply(s, Hydrate(locked, newIds)))
  {
    var s1 := Apply(s, Hydrate(locked, newIds));
    if locked && Persists(s.q) {
      var ks := NextKeysOf(s.q);
      HydrationShape(s.q, ks, newIds);
      HydrationIsFresh(s.q, ks, newIds);
      GrowthKeepsCalls(s, s1);
    }
  }

  lemma BufferDistinct(q: Queue)
    requires InTable(q, q.buffer) && BufferAscends(CoreOf(q))
    ensures Distinct(q.buffer)
  {
    var c := CoreOf(q);
    assert forall i, j :: 0 <= i < j < |c.buffer| ==> c.recs[c.buffer[i]].serial < c.recs[c.buffer[j]].serial;
  }

  /** What selecting does to the calls' part of the state. */
  lemma SelectShape(s: System, now: Time)
    requires InTable(s.q, s.q.buffer) && Distinct(s.q.buffer)
    ensures var s1 := SelectStep(s, now);
      && s1.q.cfg == s.q.cfg && s1.calls == s.calls && s1.q.outstanding == s.q.outstanding
      && s1.trace.histories == s.trace.histories && |s1.q.objects| == |s.q.objects|
      && s1.thread.Selected? && Pickable(s1.q, s1.thread.top)
      && forall r :: 0 <= r < |s.q.objects| ==>
           (s1.q.objects[r].state == OutForDelivery <==> s.q.objects[r].state == OutForDelivery)
  {
    ExpiryEffect(s.q, s.q.buffer, now);
  }

  predicate Pickable(q: Queue, top: Option<nat>) {
    top.Some? ==> top.value < |q.objects| && q.objects[top.value].state == Ready && q.outstanding < q.cfg.maxOutstanding
  }

  lemma SelectKeepsCalls(s: System, locked: bool, now: Time)
    requires StoreOk(s) && CallInv(s) && Enabled(s, Select(locked, now))
    ensures CallInv(Apply(s, Select(locked, now)))
  {
    if locked {
      BufferDistinct(s.q);
      SelectShape(s, now);
      SelectedKeepsCalls(s, SelectStep(s, now));
    }
  }

  lemma SelectedKeepsCalls(s: System, s1: System)
    requires CallInv(s) && s.thread == Top
    requires s1.q.cfg == s.q.cfg && s1.calls == s.calls && s1.q.outstanding == s.q.outstanding
    requires s1.trace.histories == s.trace.histories && |s1.q.objects| == |s.q.objects|
    requires s1.thread.Selected? && Pickable(s1.q, s1.thread.top)
    requires forall r :: 0 <= r < |s.q.objects| ==>
      (s1.q.objects[r].state == OutForDelivery <==> s.q.objects[r].state == OutForDelivery)
    ensures CallInv(s1)
  {
    if !s.q.cfg.asynchronous {
      assert s.calls.Keys == {};
    }
  }

  lemma SweepKeepsCalls(s: System, locked: bool, upto: nat)
    requires CallInv(s) && Enabled(s, Sweep(locked, upto))
    ensures CallInv(Apply(s, Sweep(locked, upto)))
  {
    if locked {
      SweepEffect(s.q, s.thread.list[..upto]);
    }
  }

  lemma CollectKeepsCalls(s: System)
    requires CallInv(s) && Enabled(s, Collect)
    ensures CallInv(Apply(s, Collect))
  {
    var list := Disposed(s.q, s.q.buffer);
    forall i | 0 <= i < |list| ensures list[i] < |s.q.objects| && Terminal(s.q.objects[list[i]].state) {
      assert list[i] in list;
    }
  }

  lemma SameCallsKeep(s: System, s1: System)
    requires CallInv(s) && s1.q.cfg == s.q.cfg && s1.q.objects == s.q.objects && s1.q.outstanding == s.q.outstanding
    requires s1.calls == s.calls && s1.trace.histories == s.trace.histories
    requires s1.thread == s.thread || (s1.thread in {Top, Sweeping, Exited} && !s.thread.Awaiting?)
    ensures CallInv(s1)
  {
  }

  /** The thread goes on once the delivery it waited for is over. */
  lemma ResumeKeepsCalls(s: System)
    requires CallInv(s) && Enabled(s, Resume)
    ensures CallInv(Apply(s, Resume))
  {
    if s.thread.Awaiting? {
      assert forall r :: r in s.calls ==> s.thread == Awaiting(r);
    }
  }

  lemma ThreadCallStep(s: System, a: Action)
    requires StoreOk(s) && CallInv(s) && Enabled(s, a)
    requires a.Hydrate? || a.Select? || a.Begin? || a.Resume? || a.Collect? || a.Sweep?
    ensures CallInv(Apply(s, a))
  {
    match a
    case Hydrate(locked, newIds) => HydrateKeepsCalls(s, locked, newIds);
    case Select(locked, now) => SelectKeepsCalls(s, locked, now);
    case Begin(order) => BeginKeepsCalls(s, order);
    case Resume => ResumeKeepsCalls(s);
    case Collect => CollectKeepsCalls(s);
    case Sweep(locked, upto) => SweepKeepsCalls(s, locked, upto);
  }

  lemma DeliveryCallStep(s: System, a: Action)
    requires CallInv(s) && Enabled(s, a) && (a.SendNext? || a.TakeAnswer? || a.EndPass?)
    ensures CallInv(Apply(s, a))
  {
    match a
    case SendNext(r) => SendKeepsCalls(s, r);
    case TakeAnswer(r, reply, at) => AnswerKeepsCalls(s, r, reply, at);
    case EndPass(r) => EndKeepsCalls(s, r);
  }

  predicate TouchesCalls(a: Action) {
    || a.Hydrate? || a.Select? || a.Begin? || a.Resume? || a.Collect? || a.Sweep?
    || a.SendNext? || a.TakeAnswer? || a.EndPass?
  }

  lemma OtherCallStep(s: System, a: Action)
    requires CallInv(s) && Enabled(s, a) && !TouchesCalls(a)
    ensures CallInv(Apply(s, a))
  {
    if a.EnqueueInMemory? {
      GrowthKeepsCalls(s, Apply(s, a));
    } else if !a.Restart? {
      SameCallsKeep(s, Apply(s, a));
    }
  }

  /** The counter of outstanding deliveries is the number of unfinished calls, within the configured bound,
      and no two calls work on one message. */
  lemma CallStep(s: System, a: Action)
    requires StoreOk(s) && CallInv(s) && Enabled(s, a)
    ensures CallInv(Apply(s, a))
  {
    if a.SendNext? || a.TakeAnswer? || a.EndPass? {
      DeliveryCallStep(s, a);
    } else if TouchesCalls(a) {
      ThreadCallStep(s, a);
    } else {
      OtherCallStep(s, a);
    }
  }
}
