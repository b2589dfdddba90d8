/** First in, first out: which message the delivery thread picks, and in what order over a whole run. */
module RunOrder {
  import opened Messages
  import opened DeliveryPass
  import opened QueueState
  import opened QueueEffects
  import opened StoreInvariant
  import opened QueueRun
  import opened RunInvariant
  import opened RunAccounting
  import opened RunTheorems

  // ---------- one pick ----------

  /** The picked message is in the buffer, may be delivered now, and is older than every other message that may
      be delivered now: buffered, stored but not buffered, or still being enqueued. */
  ghost predicate OldestEligible(s: System, r: nat, now: Time) {
    && InTable(s.q, s.q.buffer) && r in s.q.buffer && r < |s.q.objects| && Eligible(s.q.objects[r], now)
    && (forall i :: 0 <= i < |s.q.buffer| && Eligible(s.q.objects[s.q.buffer[i]], now) ==>
          Serial(s.q, r) <= Serial(s.q, s.q.buffer[i]))
    && (forall k :: k in s.q.store && k !in BufferedSerials(s.q) ==> Serial(s.q, r) < k)
    && (forall k :: k in s.drawn ==> Serial(s.q, r) < k)
  }

  lemma PickIsOldest(s: System, now: Time)
    requires Reachable(s) && Enabled(s, Select(true, now))
    ensures var s1 := Apply(s, Select(true, now));
      s1.thread == Selected(None) || (s1.thread.Selected? && OldestEligible(s1, s1.thread.top.value, now))
  {
    ReachableInv(s);
    var s1 := Apply(s, Select(true, now));
    StoreStep(s, Select(true, now));
    if s1.thread != Selected(None) {
      var i := PickedFirst(s, now);
      FirstIsOldest(s1, i, now);
    }
  }

  lemma PickedFirst(s: System, now: Time) returns (i: nat)
    requires InTable(s.q, s.q.buffer) && SelectStep(s, now).thread != Selected(None)
    ensures var s1 := SelectStep(s, now);
      && s1.q.buffer == s.q.buffer && |s1.q.objects| == |s.q.objects| && InTable(s1.q, s1.q.buffer)
      && i < |s1.q.buffer| && s1.thread == Selected(Some(s1.q.buffer[i]))
      && Eligible(s1.q.objects[s1.q.buffer[i]], now)
      && forall j :: 0 <= j < i ==> !Eligible(s1.q.objects[s1.q.buffer[j]], now)
  {
    ExpiryFrame(s.q, s.q.buffer, now);
    var q1 := ExpireAll(s.q, s.q.buffer, now);
    var top := FirstEligible(q1, q1.buffer, now);
    i :| 0 <= i < |q1.buffer| && q1.buffer[i] == top.value && Eligible(q1.objects[q1.buffer[i]], now)
         && forall j :: 0 <= j < i ==> !Eligible(q1.objects[q1.buffer[j]], now);
  }

  lemma FirstIsOldest(s: System, i: nat, now: Time)
    requires StoreOk(s) && i < |s.q.buffer| && s.q.buffer[i] < |s.q.objects|
    requires Eligible(s.q.objects[s.q.buffer[i]], now)
    requires forall j :: 0 <= j < i && s.q.buffer[j] < |s.q.objects| ==> !Eligible(s.q.objects[s.q.buffer[j]], now)
    ensures OldestEligible(s, s.q.buffer[i], now)
  {
    var c, r := CoreOf(s.q), s.q.buffer[i];
    assert r in s.q.buffer;
    forall j | 0 <= j < |s.q.buffer| && Eligible(s.q.objects[s.q.buffer[j]], now)
      ensures Serial(s.q, r) <= Serial(s.q, s.q.buffer[j])
    {
      assert i < j ==> c.recs[c.buffer[i]].serial < c.recs[c.buffer[j]].serial;
    }
    forall k | k in s.q.store && k !in BufferedSerials(s.q) ensures Serial(s.q, r) < k {
      BufferedIs(s.q, k);
      assert c.recs[c.buffer[i]].serial < k;
    }
    forall k | k in s.drawn ensures Serial(s.q, r) < k {
      assert AfterBuffer(c, k);
      assert c.recs[c.buffer[i]].serial < k;
    }
  }

  // ---------- a whole synchronous run ----------

  /** No message is deferred, neither when it is enqueued nor by a subscriber. */
  predicate Undeferring(a: Action) {
    match a
    case DrawSerial(draft) => draft.deferredUntil.None?
    case EnqueueInMemory(draft) => draft.deferredUntil.None?
    case TakeAnswer(_, reply, _) => !reply.Defer?
    case _ => true
  }

  ghost predicate NothingDeferred(s: System) {
    && (forall r :: 0 <= r < |s.q.objects| ==> s.q.objects[r].rec.deferredUntil == None)
    && (forall k :: k in s.q.store ==> s.q.store[k].deferredUntil == None)
    && (forall k :: k in s.drawn ==> s.drawn[k].deferredUntil == None)
  }

  ghost predicate NonDecreasing(picks: seq<nat>) {
    forall i, j :: 0 <= i < j < |picks| ==> picks[i] <= picks[j]
  }

  /** The serial below which nothing is delivered any more. */
  function Floor(s: System): nat {
    if s.thread.Selected? && s.thread.top.Some? && s.thread.top.value < |s.q.objects| then Serial(s.q, s.thread.top.value)
    else LastPick(s)
  }

  function LastPick(s: System): nat {
    if s.trace.picks == [] then 0 else s.trace.picks[|s.trace.picks| - 1]
  }

  predicate Undelivered(state: MessageState) {
    state == Ready || state == OutForDelivery
  }

  ghost predicate HasObject(q: Queue, k: nat) {
    exists r :: 0 <= r < |q.objects| && Serial(q, r) == k
  }

  ghost predicate OrderInv(s: System) {
    && NonDecreasing(s.trace.picks) && LastPick(s) <= Floor(s) <= s.q.lastSerial
    && PendingFrom(s, Floor(s))
  }

  /** Whatever may still be delivered has serial `floor` or more. */
  ghost predicate PendingFrom(s: System, floor: nat) {
    && (forall i :: 0 <= i < |s.q.buffer| ==> BufferedFrom(s.q, s.q.buffer[i], floor))
    && (forall k :: k in s.q.store ==> floor <= k || HasObject(s.q, k))
    && (forall k :: k in s.drawn ==> floor <= k)
  }

  predicate BufferedFrom(q: Queue, r: nat, floor: nat) {
    r < |q.objects| && Undelivered(q.objects[r].state) ==> floor <= Serial(q, r)
  }

  /** At most one delivery can be under way when the next message is picked. */
  predicate OneAtATime(cfg: Config) {
    !cfg.asynchronous || cfg.maxOutstanding <= 1
  }

  ghost predicate Orderly(s: System) {
    OneAtATime(s.q.cfg) && NothingDeferred(s) && OrderInv(s)
  }

  /** Records, buffer, store and drawn serials stay, nothing becomes undelivered. */
  ghost predicate SameOrder(s: System, s1: System) {
    && s1.q.cfg == s.q.cfg && s1.q.buffer == s.q.buffer && s1.q.store == s.q.store && s1.drawn == s.drawn
    && s1.q.lastSerial == s.q.lastSerial && |s1.q.objects| == |s.q.objects|
    && forall r :: 0 <= r < |s.q.objects| ==>
         && s1.q.objects[r].rec == s.q.objects[r].rec
         && (Undelivered(s1.q.objects[r].state) ==> Undelivered(s.q.objects[r].state))
  }

  lemma SameOrderKeeps(s: System, s1: System, floor: nat)
    requires NothingDeferred(s) && PendingFrom(s, floor) && SameOrder(s, s1)
    ensures NothingDeferred(s1) && PendingFrom(s1, floor)
  {
    forall i | 0 <= i < |s.q.buffer| ensures BufferedFrom(s1.q, s1.q.buffer[i], floor) {
      assert BufferedFrom(s.q, s.q.buffer[i], floor);
    }
    forall k | k in s.q.store ensures floor <= k || HasObject(s1.q, k) {
      if HasObject(s.q, k) {
        var r :| 0 <= r < |s.q.objects| && Serial(s.q, r) == k;
        assert Serial(s1.q, r) == k;
      }
    }
  }

  lemma CallKeepsOrder(s: System, a: Action)
    requires CallInv(s) && Orderly(s) && Enabled(s, a) && (a.SendNext? || a.EndPass?)
    ensures Orderly(Apply(s, a))
  {
    var s1 := if a.SendNext? then SendStep(s, a.r) else EndStep(s, a.r);
    CallEvolves(s, a);
    CallOrder(s, a);
    SameOrderKeeps(s, s1, Floor(s));
    assert Floor(s1) == Floor(s);
  }

  lemma CallOrder(s: System, a: Action)
    requires Enabled(s, a) && (a.SendNext? || a.EndPass?) && s.q.objects[a.r].state == OutForDelivery
    ensures var s1 := if a.SendNext? then SendStep(s, a.r) else EndStep(s, a.r);
      SameOrder(s, s1) && s1.thread == s.thread && s1.trace == s.trace
  {
  }

  lemma AnswerKeepsOrder(s: System, r: nat, reply: Reply, at: Time)
    requires CallInv(s) && Orderly(s) && Enabled(s, TakeAnswer(r, reply, at)) && !reply.Defer?
    ensures Orderly(AnswerStep(s, r, reply, at))
  {
    var s1 := AnswerStep(s, r, reply, at);
    var taken := Take(s.q.cfg, s.q.objects[r], s.calls[r].waiting.value, reply, at);
    RunHistory.AnswerShape(s, r, reply, at, taken);
    AnswerStore(s, r, reply, at);
    AnswerBooks(s, r, reply, at);
    AnswerPicks(s, r, reply, at);
    assert taken.message.rec == s.q.objects[r].rec;
    assert s.q.objects[r].state == OutForDelivery;
    assert SameOrder(s, s1);
    SameOrderKeeps(s, s1, Floor(s));
    assert Floor(s1) == Floor(s);
  }

  lemma AnswerPicks(s: System, r: nat, reply: Reply, at: Time)
    requires Enabled(s, TakeAnswer(r, reply, at))
    ensures AnswerStep(s, r, reply, at).trace.picks == s.trace.picks
  {
  }

  lemma BeginKeepsOrder(s: System, r: nat, order: seq<Guid>)
    requires CallInv(s) && Orderly(s) && s.thread == Selected(Some(r))
    ensures Orderly(BeginStep(s, r, order))
  {
    var s1 := BeginStep(s, r, order);
    BeginIsSameOrder(s, r, order);
    SameOrderKeeps(s, s1, Floor(s));
    BeginPicks(s, r, order);
    PicksGrow(s.trace.picks, Floor(s));
    PickedOrder(s, s1);
  }

  lemma BeginPicks(s: System, r: nat, order: seq<Guid>)
    requires r < |s.q.objects| && s.thread == Selected(Some(r))
    ensures BeginStep(s, r, order).trace.picks == s.trace.picks + [Floor(s)]
  {
  }

  lemma PickedOrder(s: System, s1: System)
    requires NothingDeferred(s1) && PendingFrom(s1, Floor(s)) && OneAtATime(s1.q.cfg) && !s1.thread.Selected?
    requires s1.trace.picks == s.trace.picks + [Floor(s)] && NonDecreasing(s1.trace.picks)
    requires Floor(s) <= s1.q.lastSerial
    ensures Orderly(s1)
  {
    assert Floor(s1) == Floor(s);
  }

  lemma PicksGrow(picks: seq<nat>, serial: nat)
    requires NonDecreasing(picks) && (picks != [] ==> picks[|picks| - 1] <= serial)
    ensures NonDecreasing(picks + [serial])
  {
  }

  lemma BeginIsSameOrder(s: System, r: nat, order: seq<Guid>)
    requires r < |s.q.objects| && s.q.objects[r].state == Ready
    ensures SameOrder(s, BeginStep(s, r, order))
    ensures !BeginStep(s, r, order).thread.Selected?
  {
    if order == [] {
      NobodyShape(s, r);
    } else {
      BeginCallShape(s, r, order);
    }
  }

  lemma SelectKeepsOrder(s: System, now: Time)
    requires StoreOk(s) && CallInv(s) && Orderly(s) && Enabled(s, Select(true, now))
    ensures Orderly(SelectStep(s, now))
  {
    var s1 := SelectStep(s, now);
    BufferDistinct(s.q);
    SelectIsSameOrder(s, now);
    SameOrderKeeps(s, s1, Floor(s));
    if s1.thread == Selected(None) {
      IdleSelectOrder(s, s1);
    } else {
      var i := PickedFirst(s, now);
      SelectShape(s, now);
      NothingOut(s);
      SelectRaisesFloor(s, s1, i, now);
    }
  }

  lemma IdleSelectOrder(s: System, s1: System)
    requires OrderInv(s) && PendingFrom(s1, Floor(s)) && s1.trace.picks == s.trace.picks
    requires s.thread == Top && s1.thread == Selected(None) && s1.q.lastSerial == s.q.lastSerial
    ensures OrderInv(s1)
  {
    assert Floor(s1) == Floor(s) == LastPick(s);
  }

  lemma SelectIsSameOrder(s: System, now: Time)
    requires InTable(s.q, s.q.buffer) && Distinct(s.q.buffer)
    ensures var s1 := SelectStep(s, now);
      && SameOrder(s, s1) && s1.trace.picks == s.trace.picks
      && forall r :: 0 <= r < |s.q.objects| ==>
           (s1.q.objects[r].state == OutForDelivery ==> s.q.objects[r].state == OutForDelivery)
  {
    ExpiryEffect(s.q, s.q.buffer, now);
  }

  /** A pick happens only while nothing is out for delivery. */
  lemma NothingOut(s: System)
    requires CallInv(s) && OneAtATime(s.q.cfg) && s.thread == Top && s.q.outstanding < s.q.cfg.maxOutstanding
    ensures forall r :: 0 <= r < |s.q.objects| ==> s.q.objects[r].state != OutForDelivery
  {
    if s.q.cfg.asynchronous {
      assert |s.calls| == 0;
    }
    assert s.calls.Keys == {};
  }

  /** Nothing is out for delivery when a synchronous queue picks, and nothing is deferred: everything before the
      picked message is finished, so the floor rises to it. */
  lemma SelectRaisesFloor(s: System, s1: System, i: nat, now: Time)
    requires StoreOk(s) && OrderInv(s) && forall r :: 0 <= r < |s.q.objects| ==> s.q.objects[r].state != OutForDelivery
    requires SameOrder(s, s1) && NothingDeferred(s1) && PendingFrom(s1, Floor(s)) && s1.trace.picks == s.trace.picks
    requires forall r :: 0 <= r < |s.q.objects| ==>
      (s1.q.objects[r].state == OutForDelivery ==> s.q.objects[r].state == OutForDelivery)
    requires i < |s1.q.buffer| && InTable(s1.q, s1.q.buffer) && s1.thread == Selected(Some(s1.q.buffer[i]))
    requires Eligible(s1.q.objects[s1.q.buffer[i]], now)
    requires forall j :: 0 <= j < i ==> !Eligible(s1.q.objects[s1.q.buffer[j]], now)
    ensures OrderInv(s1)
  {
    var c, floor := CoreOf(s.q), Serial(s1.q, s1.q.buffer[i]);
    assert c.recs[c.buffer[i]].serial == floor;
    assert BufferedFrom(s1.q, s1.q.buffer[i], Floor(s));
    forall j | 0 <= j < |s1.q.buffer| ensures BufferedFrom(s1.q, s1.q.buffer[j], floor) {
      assert s1.q.objects[s1.q.buffer[j]].rec == c.recs[c.buffer[j]];
      assert s1.q.objects[s1.q.buffer[j]].state != OutForDelivery;
      if j > i {
        assert c.recs[c.buffer[i]].serial < c.recs[c.buffer[j]].serial;
      }
    }
    forall k | k in s1.q.store ensures floor <= k || HasObject(s1.q, k) {
      assert c.persists;
      if IsBuffered(c, k) {
        var j :| 0 <= j < |c.buffer| && c.recs[c.buffer[j]].serial == k;
        assert Serial(s1.q, s1.q.buffer[j]) == k;
      } else {
        assert AfterBuffer(c, k);
      }
    }
    forall k | k in s1.drawn ensures floor <= k {
      assert AfterBuffer(c, k);
    }
  }

  predicate OldOrFrom(s: System, s1: System, r: nat, floor: nat) {
    r in s.q.buffer || (r < |s1.q.objects| && floor <= Serial(s1.q, r))
  }

  /** Objects only appear, and only from stored records not yet loaded or with a new serial. */
  lemma GrowthKeepsOrder(s: System, s1: System, floor: nat)
    requires InTable(s.q, s.q.buffer) && PendingFrom(s, floor) && s.q.objects <= s1.q.objects
    requires forall i :: 0 <= i < |s1.q.buffer| ==> OldOrFrom(s, s1, s1.q.buffer[i], floor)
    requires forall k :: k in s1.q.store ==> k in s.q.store || k in s.drawn
    requires forall k :: k in s1.drawn ==> k in s.drawn || floor <= k
    ensures PendingFrom(s1, floor)
  {
    forall i | 0 <= i < |s1.q.buffer| ensures BufferedFrom(s1.q, s1.q.buffer[i], floor) {
      assert OldOrFrom(s, s1, s1.q.buffer[i], floor);
      if s1.q.buffer[i] in s.q.buffer {
        var j :| 0 <= j < |s.q.buffer| && s.q.buffer[j] == s1.q.buffer[i];
        assert BufferedFrom(s.q, s.q.buffer[j], floor);
      }
    }
    forall k | k in s1.q.store ensures floor <= k || HasObject(s1.q, k) {
      if k in s.q.store && HasObject(s.q, k) {
        var r :| 0 <= r < |s.q.objects| && Serial(s.q, r) == k;
        assert Serial(s1.q, r) == k;
      }
    }
  }

  lemma HydrateKeepsOrder(s: System, newIds: nat -> Guid)
    requires StoreOk(s) && Orderly(s) && Enabled(s, Hydrate(true, newIds)) && Persists(s.q)
    ensures Orderly(HydrateStep(s, newIds))
  {
    var s1 := HydrateStep(s, newIds);
    HydrationShape(s.q, NextKeysOf(s.q), newIds);
    HydratedFrom(s, newIds);
    GrowthKeepsOrder(s, s1, Floor(s));
    HydrateUndeferred(s, newIds);
    assert Floor(s1) == Floor(s);
  }

  /** What hydration adds to the buffer was stored but not loaded, so it is not below the floor. */
  lemma HydratedFrom(s: System, newIds: nat -> Guid)
    requires StoreOk(s) && Orderly(s) && Enabled(s, Hydrate(true, newIds)) && Persists(s.q)
    ensures var s1 := HydrateStep(s, newIds);
      forall i :: 0 <= i < |s1.q.buffer| ==> OldOrFrom(s, s1, s1.q.buffer[i], Floor(s))
  {
    StoredBelow(s);
    forall j | 0 <= j < |NextKeysOf(s.q)| ensures Floor(s) <= NextKeysOf(s.q)[j] {
      NextKeyFrom(s, j);
    }
    HydratedFromKeys(s, newIds, Floor(s));
  }

  lemma HydratedFromKeys(s: System, newIds: nat -> Guid, floor: nat)
    requires InTable(s.q, s.q.buffer) && WellKeyed(s.q.store)
    requires forall j :: 0 <= j < |NextKeysOf(s.q)| ==> floor <= NextKeysOf(s.q)[j]
    ensures var s1 := HydrateStep(s, newIds);
      forall i :: 0 <= i < |s1.q.buffer| ==> OldOrFrom(s, s1, s1.q.buffer[i], floor)
  {
    var s1 := HydrateStep(s, newIds);
    forall i | 0 <= i < |s1.q.buffer| ensures OldOrFrom(s, s1, s1.q.buffer[i], floor) {
      HydratedBuffer(s, newIds, i);
      if i >= |s.q.buffer| {
        HydratedSerial(s, newIds, i - |s.q.buffer|);
      }
    }
  }

  lemma HydratedBuffer(s: System, newIds: nat -> Guid, i: nat)
    requires InTable(s.q, s.q.buffer) && i < |HydrateStep(s, newIds).q.buffer|
    ensures var q1 := HydrateStep(s, newIds).q;
      if i < |s.q.buffer| then q1.buffer[i] in s.q.buffer
      else i - |s.q.buffer| < |NextKeysOf(s.q)| && q1.buffer[i] == |s.q.objects| + (i - |s.q.buffer|)
  {
    var ks := NextKeysOf(s.q);
    HydrationShape(s.q, ks, newIds);
    assert |Positions(|s.q.objects|, |ks|)| == |ks|;
  }

  lemma NextKeyFrom(s: System, j: nat)
    requires StoreInv(s.q, map[], {}) && OrderInv(s) && Persists(s.q) && InTable(s.q, s.q.buffer) && j < |NextKeysOf(s.q)|
    ensures Floor(s) <= NextKeysOf(s.q)[j]
  {
    HydrationOrder(s.q, PERSISTENT_MESSAGES_BUFFER_SIZE);
    NotLoaded(s.q, NextKeysOf(s.q)[j]);
  }

  lemma HydratedSerial(s: System, newIds: nat -> Guid, i: nat)
    requires WellKeyed(s.q.store) && InTable(s.q, s.q.buffer) && i < |NextKeysOf(s.q)|
    ensures var q1 := HydrateStep(s, newIds).q;
      |s.q.objects| + i < |q1.objects| && Serial(q1, |s.q.objects| + i) == NextKeysOf(s.q)[i]
  {
    HydrationLoads(s.q, NextKeysOf(s.q), newIds);
  }

  lemma StoredBelow(s: System)
    requires StoreOk(s)
    ensures forall k :: k in s.q.store ==> s.q.store[k].serial == k
  {
    assert CoreOf(s.q).store == s.q.store;
  }

  /** A stored key after the buffer belongs to no message object. */
  lemma NotLoaded(q: Queue, k: nat)
    requires StoreInv(q, map[], {}) && Persists(q) && k in q.store && AfterBuffer(CoreOf(q), k)
    ensures !HasObject(q, k)
  {
    var c := CoreOf(q);
    forall r | 0 <= r < |q.objects| ensures Serial(q, r) != k {
      assert c.recs[r] == q.objects[r].rec;
      if r in c.buffer {
        var i :| 0 <= i < |c.buffer| && c.buffer[i] == r;
        assert c.recs[c.buffer[i]].serial < k;
      }
    }
  }

  lemma HydrateUndeferred(s: System, newIds: nat -> Guid)
    requires InTable(s.q, s.q.buffer) && NothingDeferred(s)
    ensures NothingDeferred(HydrateStep(s, newIds))
  {
    var ks := NextKeysOf(s.q);
    ObjectsUndeferred(s.q, ks, newIds);
    StoreUndeferred(s.q, ks, newIds);
    HydratedQueue(s, newIds);
    NoneDeferred(s, HydrateStep(s, newIds), HydrateKeys(s.q, ks, newIds));
  }

  lemma HydratedQueue(s: System, newIds: nat -> Guid)
    requires InTable(s.q, s.q.buffer)
    ensures HydrateStep(s, newIds).q == HydrateKeys(s.q, NextKeysOf(s.q), newIds)
    ensures HydrateStep(s, newIds).drawn == s.drawn
  {
  }

  lemma NoneDeferred(s: System, s1: System, q1: Queue)
    requires NothingDeferred(s) && s1.q == q1 && s1.drawn == s.drawn
    requires forall r :: 0 <= r < |q1.objects| ==> q1.objects[r].rec.deferredUntil == None
    requires forall k :: k in q1.store ==> q1.store[k].deferredUntil == None
    ensures NothingDeferred(s1)
  {
  }

  lemma ObjectsUndeferred(q: Queue, ks: seq<nat>, newIds: nat -> Guid)
    requires Ascending(ks) && forall i :: 0 <= i < |ks| ==> ks[i] in q.store
    requires forall r :: 0 <= r < |q.objects| ==> q.objects[r].rec.deferredUntil == None
    requires forall k :: k in q.store ==> q.store[k].deferredUntil == None
    ensures var q1 := HydrateKeys(q, ks, newIds);
      forall r :: 0 <= r < |q1.objects| ==> q1.objects[r].rec.deferredUntil == None
  {
    HydrationShape(q, ks, newIds);
    forall r | |q.objects| <= r < |HydrateKeys(q, ks, newIds).objects|
      ensures HydrateKeys(q, ks, newIds).objects[r].rec.deferredUntil == None
    {
      LoadedUndeferred(q, ks, newIds, r);
    }
  }

  lemma LoadedUndeferred(q: Queue, ks: seq<nat>, newIds: nat -> Guid, r: nat)
    requires Ascending(ks) && forall j :: 0 <= j < |ks| ==> ks[j] in q.store
    requires |q.objects| <= r < |q.objects| + |ks|
    requires forall k :: k in q.store ==> q.store[k].deferredUntil == None
    ensures var q1 := HydrateKeys(q, ks, newIds);
      r < |q1.objects| && q1.objects[r].rec.deferredUntil == None
  {
    HydrationLoads(q, ks, newIds);
    var i := r - |q.objects|;
    assert HydrateKeys(q, ks, newIds).objects[|q.objects| + i] == Fresh(Adopted(q.store[ks[i]], newIds));
  }

  lemma StoreUndeferred(q: Queue, ks: seq<nat>, newIds: nat -> Guid)
    requires Ascending(ks) && forall i :: 0 <= i < |ks| ==> ks[i] in q.store
    requires forall k :: k in q.store ==> q.store[k].deferredUntil == None
    ensures var q1 := HydrateKeys(q, ks, newIds);
      forall k :: k in q1.store ==> q1.store[k].deferredUntil == None
  {
    HydrationLoads(q, ks, newIds);
  }

  lemma SweepKeepsOrder(s: System, list: seq<nat>)
    requires StoreOk(s) && Orderly(s) && InTable(s.q, list) && s.thread.Collected?
    ensures Orderly(SweepStep(s, list))
  {
    SweepEffect(s.q, list);
    GrowthKeepsOrder(s, SweepStep(s, list), Floor(s));
  }

  lemma EnqueueKeepsOrder(s: System, a: Action)
    requires StoreOk(s) && CallInv(s) && Orderly(s) && Enabled(s, a) && Undeferring(a)
    requires a.DrawSerial? || a.StoreDrawn? || a.CountStored? || a.EnqueueInMemory?
    ensures Orderly(Apply(s, a))
  {
    StoreTable(s);
    EnqueueShape(s, a);
    if a.StoreDrawn? {
      DrawnKeyed(s, a.serial);
    }
    EnqueueUndeferred(s, a);
    EnqueuedOrder(s, Apply(s, a));
  }

  lemma EnqueuedOrder(s: System, s1: System)
    requires InTable(s.q, s.q.buffer) && ThreadInv(s) && Orderly(s) && NothingDeferred(s1) && s1.q.cfg == s.q.cfg
    requires s.q.objects <= s1.q.objects && s1.thread == s.thread && s1.trace.picks == s.trace.picks
    requires s1.q.lastSerial >= s.q.lastSerial
    requires forall i: nat, floor: nat :: i < |s1.q.buffer| && floor <= s.q.lastSerial ==>
      OldOrFrom(s, s1, s1.q.buffer[i], floor)
    requires forall k :: k in s1.q.store ==> k in s.q.store || k in s.drawn
    requires forall k :: k in s1.drawn ==> k in s.drawn || s.q.lastSerial <= k
    ensures Orderly(s1)
  {
    GrowthKeepsOrder(s, s1, Floor(s));
    assert Floor(s1) == Floor(s);
  }

  lemma EnqueueUndeferred(s: System, a: Action)
    requires NothingDeferred(s) && Enabled(s, a) && Undeferring(a)
    requires a.DrawSerial? || a.StoreDrawn? || a.CountStored? || a.EnqueueInMemory?
    requires a.StoreDrawn? ==> a.serial in s.drawn && s.drawn[a.serial].serial == a.serial
    ensures NothingDeferred(Apply(s, a))
    ensures var s1 := Apply(s, a);
      && (forall k :: k in s1.q.store ==> k in s.q.store || k in s.drawn)
      && (forall k :: k in s1.drawn ==> k in s.drawn || s.q.lastSerial <= k)
      && s1.q.cfg == s.q.cfg
  {
  }

  lemma EnqueueShape(s: System, a: Action)
    requires Enabled(s, a) && InTable(s.q, s.q.buffer)
    requires a.DrawSerial? || a.StoreDrawn? || a.CountStored? || a.EnqueueInMemory?
    ensures var s1 := Apply(s, a);
      && s.q.objects <= s1.q.objects && s1.thread == s.thread && s1.trace.picks == s.trace.picks
      && s1.q.lastSerial >= s.q.lastSerial
      && forall i: nat, floor: nat :: i < |s1.q.buffer| && floor <= s.q.lastSerial ==> OldOrFrom(s, s1, s1.q.buffer[i], floor)
  {
    var s1 := Apply(s, a);
    if a.EnqueueInMemory? {
      assert s1.q.buffer == s.q.buffer + [|s.q.objects|];
      assert Serial(s1.q, |s.q.objects|) == s.q.lastSerial + 1;
    }
  }

  lemma DrawnKeyed(s: System, k: nat)
    requires StoreOk(s) && k in s.drawn
    ensures s.drawn[k].serial == k
  {
  }

  lemma ThreadKeepsOrder(s: System, a: Action)
    requires StoreOk(s) && CallInv(s) && Orderly(s) && Enabled(s, a)
    requires a.Hydrate? || a.Select? || a.Sweep?
    ensures Orderly(Apply(s, a))
  {
    if a.Hydrate? && a.locked && Persists(s.q) {
      HydrateKeepsOrder(s, a.newIds);
    } else if a.Select? && a.locked {
      SelectKeepsOrder(s, a.now);
    } else if a.Sweep? && a.writeLocked {
      SweepKeepsOrder(s, s.thread.list[..a.upto]);
    } else {
      IdleThreadOrder(s, Apply(s, a));
    }
  }

  /** A lock was not obtained. */
  lemma IdleThreadOrder(s: System, s1: System)
    requires Orderly(s) && s1.q == s.q && s1.drawn == s.drawn && s1.trace == s.trace
    requires s1.thread == s.thread || ((s.thread == Top || s.thread.Collected?) && s1.thread in {Top, Selected(None)})
    ensures Orderly(s1)
  {
    assert Floor(s1) == Floor(s);
  }

  lemma OrderStep(s: System, a: Action)
    requires StoreOk(s) && CallInv(s) && Orderly(s) && Enabled(s, a) && Undeferring(a)
    ensures Orderly(Apply(s, a))
  {
    if a.DrawSerial? || a.StoreDrawn? || a.CountStored? || a.EnqueueInMemory? {
      EnqueueKeepsOrder(s, a);
    } else if a.Hydrate? || a.Select? || a.Sweep? {
      ThreadKeepsOrder(s, a);
    } else if a.Begin? {
      BeginKeepsOrder(s, s.thread.top.value, a.order);
    } else if a.SendNext? || a.EndPass? {
      CallKeepsOrder(s, a);
    } else if a.TakeAnswer? {
      AnswerKeepsOrder(s, a.r, a.reply, a.at);
    } else if Inert(a) {
      InertKeepsOrder(s, a);
    } else if a.Purge? {
      PurgeKeepsOrder(s);
    } else {
      BootOrder(s.q.cfg, s.q.store, a.stats);
    }
  }

  predicate Inert(a: Action) {
    a.Resume? || a.Collect? || a.Exit? || a.Subscribe? || a.Unsubscribe? || a.Stop? || a.Close?
  }

  lemma InertShape(s: System, a: Action)
    requires Enabled(s, a) && Inert(a)
    ensures var s1 := Apply(s, a);
      SameOrder(s, s1) && s1.trace.picks == s.trace.picks && Floor(s1) == Floor(s)
  {
  }

  lemma InertKeepsOrder(s: System, a: Action)
    requires Orderly(s) && Enabled(s, a) && Inert(a)
    ensures Orderly(Apply(s, a))
  {
    InertShape(s, a);
    SameOrderKeeps(s, Apply(s, a), Floor(s));
  }

  lemma BootOrder(cfg: Config, disk: map<nat, Record>, stats: Statistics)
    requires OneAtATime(cfg) && forall k :: k in disk ==> disk[k].deferredUntil == None
    ensures Orderly(Booted(cfg, disk, stats))
  {
  }

  lemma PurgeKeepsOrder(s: System)
    requires StoreOk(s) && Orderly(s) && Enabled(s, Purge)
    ensures Orderly(Apply(s, Purge))
  {
    StoreTable(s);
    GrowthKeepsOrder(s, Apply(s, Purge), Floor(s));
  }

  /** A run in which nothing is deferred. */
  ghost predicate WithoutDeferral(actions: seq<Action>) {
    forall i :: 0 <= i < |actions| ==> Undeferring(actions[i])
  }

  lemma {:induction false} OrderRun(s: System, actions: seq<Action>)
    requires Inv(s) && Orderly(s) && Run(s, actions) && WithoutDeferral(actions)
    ensures Inv(Reached(s, actions)) && Orderly(Reached(s, actions))
    decreases |actions|
  {
    if actions != [] {
      OrderStep(s, actions[0]);
      StepInv(s, actions[0]);
      OrderRun(Apply(s, actions[0]), actions[1..]);
    }
  }

  /** Strict order: on a queue that delivers one message at a time, without deferrals, the serials of successive
      deliveries never decrease, so every subscriber is asked in order; and when a message is taken up every older
      message that is still buffered or stored is buffered and has its verdict, or was cut short by a stop. */
  lemma StrictOrder(cfg: Config, disk: map<nat, Record>, stats: Statistics, actions: seq<Action>)
    requires WellKeyed(disk) && OneAtATime(cfg) && forall k :: k in disk ==> disk[k].deferredUntil == None
    requires Run(Booted(cfg, disk, stats), actions) && WithoutDeferral(actions)
    ensures var s := Reached(Booted(cfg, disk, stats), actions);
      && NonDecreasing(s.trace.picks)
      && (s.thread.Selected? && s.thread.top.Some? && s.thread.top.value < |s.q.objects| ==>
            var x := Serial(s.q, s.thread.top.value);
            && (s.trace.picks != [] ==> s.trace.picks[|s.trace.picks| - 1] <= x)
            && (forall i :: 0 <= i < |s.q.buffer| && s.q.buffer[i] < |s.q.objects| && Serial(s.q, s.q.buffer[i]) < x ==>
                  Finished(s.q.objects[s.q.buffer[i]].state))
            && (forall k :: k in s.q.store && k < x ==> BufferedFinished(s.q, k))
            && (forall k :: k in s.drawn ==> x <= k))
  {
    BootInv(cfg, disk, stats);
    BootOrder(cfg, disk, stats);
    OrderRun(Booted(cfg, disk, stats), actions);
    var s := Reached(Booted(cfg, disk, stats), actions);
    FloorMeans(s);
    StoredFinished(s, Floor(s));
  }

  predicate Finished(state: MessageState) {
    Terminal(state) || state == Shutdown
  }

  /** The message with serial `k` is buffered and finished. */
  ghost predicate BufferedFinished(q: Queue, k: nat) {
    exists i :: 0 <= i < |q.buffer| && q.buffer[i] < |q.objects| && Serial(q, q.buffer[i]) == k
                && Finished(q.objects[q.buffer[i]].state)
  }

  lemma FloorMeans(s: System)
    requires OrderInv(s)
    ensures forall i :: 0 <= i < |s.q.buffer| && s.q.buffer[i] < |s.q.objects| && Serial(s.q, s.q.buffer[i]) < Floor(s) ==>
      Finished(s.q.objects[s.q.buffer[i]].state)
    ensures forall k :: k in s.q.store && k < Floor(s) ==> HasObject(s.q, k)
  {
    forall i | 0 <= i < |s.q.buffer| && s.q.buffer[i] < |s.q.objects| && Serial(s.q, s.q.buffer[i]) < Floor(s)
      ensures Finished(s.q.objects[s.q.buffer[i]].state)
    {
      assert BufferedFrom(s.q, s.q.buffer[i], Floor(s));
    }
  }

  /** A loaded message that is still stored is buffered. */
  lemma StoredFinished(s: System, floor: nat)
    requires StoreOk(s)
    requires forall i :: 0 <= i < |s.q.buffer| && s.q.buffer[i] < |s.q.objects| && Serial(s.q, s.q.buffer[i]) < floor ==>
      Finished(s.q.objects[s.q.buffer[i]].state)
    requires forall k :: k in s.q.store && k < floor ==> HasObject(s.q, k)
    ensures forall k :: k in s.q.store && k < floor ==> BufferedFinished(s.q, k)
  {
    var c := CoreOf(s.q);
    forall k | k in s.q.store && k < floor ensures BufferedFinished(s.q, k) {
      var r :| 0 <= r < |s.q.objects| && Serial(s.q, r) == k;
      assert c.persists && c.recs[r].serial in c.store;
      var i :| 0 <= i < |s.q.buffer| && s.q.buffer[i] == r;
      assert Serial(s.q, s.q.buffer[i]) == k;
    }
  }
}
