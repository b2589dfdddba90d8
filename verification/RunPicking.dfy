/** When a message is picked for delivery on a run: never while nobody is subscribed, and never before the time it was
    deferred to. */
module RunPicking {
  import opened Messages
  import opened DeliveryPass
  import opened QueueState
  import opened QueueEffects
  import opened StoreInvariant
  import opened QueueRun
  import opened RunInvariant
  import opened RunHistory
  import opened RunAccounting
  import opened RunTheorems
  import opened RunPasses

  // ---------- the pick ----------

  /** In every reachable state: what a turn of the thread picks, and when it asks for a hydration. */
  lemma PickOnRuns(s: System, locked: bool, now: Time)
    requires Reachable(s) && Enabled(s, Select(locked, now))
    ensures var s1 := Apply(s, Select(locked, now));
      var room := locked && s.q.outstanding < s.q.cfg.maxOutstanding && s.q.subscribers != {};
      && s1.thread.Selected?
      && (s1.thread.top.Some? <==> room && SomeDeliverable(s.q, now))
      && (s1.thread.top.Some? ==> PicksFirst(s.q, now, s1.thread.top.value))
      && (s1.rehydrate <==> room && s.q.cfg.persistence == Persistent && s.q.depth > |s.q.buffer|
                            && (|s.q.buffer| < 1000 || !SomeDeliverable(s.q, now)))
  {
    ReachableStore(s);
    BufferDistinct(s.q);
    PickExact(s.q, now);
  }

  /** A message is not discarded as delivered for want of subscribers: nothing is picked then. */
  lemma NoSubscribersNoPick(s: System, locked: bool, now: Time)
    requires Reachable(s) && Enabled(s, Select(locked, now)) && s.q.subscribers == {}
    ensures Apply(s, Select(locked, now)).thread == Selected(None) && !Apply(s, Select(locked, now)).rehydrate
  {
    PickOnRuns(s, locked, now);
  }

  /** A hydration is never idle for long: it fills the buffer by 5000 messages, or leaves nothing out of it. */
  lemma HydrationFills(s: System, newIds: nat -> Guid)
    requires Reachable(s) && Enabled(s, Hydrate(true, newIds)) && Persists(s.q)
    ensures var q1 := Apply(s, Hydrate(true, newIds)).q;
      |q1.buffer| == |s.q.buffer| + 5000 || q1.depth == |q1.buffer|
  {
    var s1, ks := Apply(s, Hydrate(true, newIds)), NextKeysOf(s.q);
    ReachableStore(s);
    ReachableStep(s, Hydrate(true, newIds));
    DepthExactOnRuns(s1);
    HydrationShape(s.q, ks, newIds);
    NextKeysAreNext(s.q, PERSISTENT_MESSAGES_BUFFER_SIZE);
    if |ks| != 5000 {
      forall k | k in s1.q.store ensures k in BufferedSerials(s1.q) {
        AllBuffered(s, newIds, k);
      }
    }
  }

  lemma AllBuffered(s: System, newIds: nat -> Guid, k: nat)
    requires StoreOk(s) && Enabled(s, Hydrate(true, newIds)) && Persists(s.q) && k in s.q.store
    requires k in Above(s.q) ==> k in NextKeysOf(s.q)
    ensures var q1 := HydrateStep(s, newIds).q;
      InTable(q1, q1.buffer) && k in BufferedSerials(q1)
  {
    var q1, ks := HydrateStep(s, newIds).q, NextKeysOf(s.q);
    BuffersGrow(s.q, ks, newIds);
    if k in Above(s.q) {
      StoredUnderKey(s, k);
      LoadedIsBuffered(s.q, ks, newIds, k);
    } else {
      NotAboveIsBuffered(s, k);
      assert k in BufferedSerials(q1);
    }
  }

  lemma StoredUnderKey(s: System, k: nat)
    requires StoreOk(s) && k in s.q.store
    ensures s.q.store[k].serial == k
  {
    assert CoreOf(s.q).store[k].serial == k;
  }

  lemma NotAboveIsBuffered(s: System, k: nat)
    requires StoreOk(s) && Persists(s.q) && k in s.q.store && InTable(s.q, s.q.buffer) && k !in Above(s.q)
    ensures k in BufferedSerials(s.q)
  {
    var c := CoreOf(s.q);
    AboveIsAfter(s.q, k);
    var i :| 0 <= i < |c.buffer| && c.recs[c.buffer[i]].serial == k;
    assert s.q.buffer[i] in s.q.buffer && Serial(s.q, s.q.buffer[i]) == k;
  }

  /** Hydration leaves what is buffered where it is. */
  lemma BuffersGrow(q: Queue, ks: seq<nat>, newIds: nat -> Guid)
    requires InTable(q, q.buffer) && forall i :: 0 <= i < |ks| ==> ks[i] in q.store
    ensures var q1 := HydrateKeys(q, ks, newIds);
      InTable(q1, q1.buffer) && BufferedSerials(q) <= BufferedSerials(q1)
  {
    var q1 := HydrateKeys(q, ks, newIds);
    HydrationShape(q, ks, newIds);
    assert InTable(q1, q1.buffer);
    forall r | r in q.buffer ensures Serial(q, r) in BufferedSerials(q1) {
      assert r in q1.buffer && Serial(q1, r) == Serial(q, r);
    }
  }

  lemma LoadedIsBuffered(q: Queue, ks: seq<nat>, newIds: nat -> Guid, k: nat)
    requires Ascending(ks) && (forall i :: 0 <= i < |ks| ==> ks[i] in q.store) && k in ks && q.store[k].serial == k
    requires InTable(HydrateKeys(q, ks, newIds), HydrateKeys(q, ks, newIds).buffer)
    ensures k in BufferedSerials(HydrateKeys(q, ks, newIds))
  {
    var q1 := HydrateKeys(q, ks, newIds);
    HydrationShape(q, ks, newIds);
    HydrationLoads(q, ks, newIds);
    var i :| 0 <= i < |ks| && ks[i] == k;
    assert q1.buffer[|q.buffer| + i] == |q.objects| + i;
    assert q1.objects[|q.objects| + i] == Fresh(Adopted(q.store[ks[i]], newIds));
    assert Serial(q1, |q.objects| + i) == k && |q.objects| + i in q1.buffer;
  }

  // ---------- what leaves a message alone ----------

  /** A message no delivery works on changes only by expiring or by being taken up. */
  lemma ObjectRests(s: System, a: Action, r: nat)
    requires CallInv(s) && Enabled(s, a) && !a.Restart? && r < |s.q.objects| && r !in s.calls && !a.Select? && !a.Begin?
    ensures r < |Apply(s, a).q.objects| && Apply(s, a).q.objects[r] == s.q.objects[r]
  {
    if Quiet(a) {
      QuietKeepsOutcomes(s, a);
    } else if a.TakeAnswer? {
      AnswerShape(s, a.r, a.reply, a.at, Take(s.q.cfg, s.q.objects[a.r], s.calls[a.r].waiting.value, a.reply, a.at));
    }
  }

  /** The record of a message object changes only when a delivery of it is answered Defer. */
  lemma RecordRests(s: System, a: Action, r: nat)
    requires StoreOk(s) && CallInv(s) && Enabled(s, a) && !a.Restart? && r < |s.q.objects|
    requires !(a.TakeAnswer? && a.r == r && a.reply.Defer?)
    ensures r < |Apply(s, a).q.objects| && Apply(s, a).q.objects[r].rec == s.q.objects[r].rec
  {
    if Quiet(a) {
      QuietKeepsOutcomes(s, a);
    } else if a.Select? {
      SelectKeepsRecord(s, a.locked, a.now, r);
    } else if a.Begin? {
      BeginKeepsRecord(s, s.thread.top.value, a.order, r);
    } else if a.TakeAnswer? {
      AnswerKeepsRecord(s, a.r, a.reply, a.at, r);
    } else {
      CallKeepsRecord(s, a, r);
    }
  }

  lemma SelectKeepsRecord(s: System, locked: bool, now: Time, r: nat)
    requires StoreOk(s) && Enabled(s, Select(locked, now)) && r < |s.q.objects|
    ensures var s1 := Apply(s, Select(locked, now));
      r < |s1.q.objects| && s1.q.objects[r].rec == s.q.objects[r].rec
  {
    if locked {
      BufferDistinct(s.q);
      ExpiryEffect(s.q, s.q.buffer, now);
    }
  }

  lemma CallKeepsRecord(s: System, a: Action, r: nat)
    requires Enabled(s, a) && (a.SendNext? || a.EndPass?) && r < |s.q.objects|
    ensures r < |Apply(s, a).q.objects| && Apply(s, a).q.objects[r].rec == s.q.objects[r].rec
  {
  }

  lemma BeginKeepsRecord(s: System, t: nat, order: seq<Guid>, r: nat)
    requires t < |s.q.objects| && r < |s.q.objects|
    ensures r < |BeginStep(s, t, order).q.objects| && BeginStep(s, t, order).q.objects[r].rec == s.q.objects[r].rec
  {
    if order == [] {
      NobodyShape(s, t);
    } else {
      BeginCallShape(s, t, order);
    }
  }

  lemma AnswerKeepsRecord(s: System, t: nat, reply: Reply, at: Time, r: nat)
    requires Enabled(s, TakeAnswer(t, reply, at)) && r < |s.q.objects| && !(t == r && reply.Defer?)
    ensures r < |AnswerStep(s, t, reply, at).q.objects|
    ensures AnswerStep(s, t, reply, at).q.objects[r].rec == s.q.objects[r].rec
  {
    AnswerShape(s, t, reply, at, Take(s.q.cfg, s.q.objects[t], s.calls[t].waiting.value, reply, at));
    RecordAfter(s.q.cfg, s.q.objects[t], s.calls[t].waiting.value, reply, at);
  }

  // ---------- deferral ----------

  /** Message object `r` is not deferred again, and the process does not start anew. */
  ghost predicate NotDeferredAgain(actions: seq<Action>, r: nat) {
    forall i :: 0 <= i < |actions| ==> !actions[i].Restart? && !(actions[i].TakeAnswer? && actions[i].r == r && actions[i].reply.Defer?)
  }

  lemma {:induction false} RecordStays(s: System, actions: seq<Action>, r: nat)
    requires Reachable(s) && Run(s, actions) && NotDeferredAgain(actions, r) && r < |s.q.objects|
    ensures Reachable(Reached(s, actions)) && r < |Reached(s, actions).q.objects|
    ensures Reached(s, actions).q.objects[r].rec == s.q.objects[r].rec
    decreases |actions|
  {
    if actions != [] {
      ReachableStore(s);
      ReachableCalls(s);
      RecordRests(s, actions[0], r);
      ReachableStep(s, actions[0]);
      RecordStays(Apply(s, actions[0]), actions[1..], r);
    }
  }

  /** A subscriber answers Defer with a duration at time `at`: whatever happens then, until the message is deferred
      again no turn of the thread before `at + d` picks it. */
  lemma DeferralHolds(s: System, r: nat, d: Duration, at: Time, actions: seq<Action>, locked: bool, t: Time)
    requires Reachable(s) && Enabled(s, TakeAnswer(r, Defer(Some(d)), at))
    requires Run(Apply(s, TakeAnswer(r, Defer(Some(d)), at)), actions) && NotDeferredAgain(actions, r)
    requires Enabled(Reached(Apply(s, TakeAnswer(r, Defer(Some(d)), at)), actions), Select(locked, t)) && t < at + d
    ensures var s1 := Reached(Apply(s, TakeAnswer(r, Defer(Some(d)), at)), actions);
      Apply(s1, Select(locked, t)).thread != Selected(Some(r))
  {
    var s0 := Apply(s, TakeAnswer(r, Defer(Some(d)), at));
    DeferredTill(s, r, Some(d), at);
    ReachableStep(s, TakeAnswer(r, Defer(Some(d)), at));
    RecordStays(s0, actions, r);
    PickOnRuns(Reached(s0, actions), locked, t);
  }

  /** The other half: once the time has come, or if the deferral named none, and nothing else stands in the way, the
      message is picked. */
  lemma DeferralEnds(s: System, r: nat, duration: Option<Duration>, at: Time, actions: seq<Action>, t: Time)
    requires Reachable(s) && Enabled(s, TakeAnswer(r, Defer(duration), at))
    requires Run(Apply(s, TakeAnswer(r, Defer(duration), at)), actions) && NotDeferredAgain(actions, r)
    requires Enabled(Reached(Apply(s, TakeAnswer(r, Defer(duration), at)), actions), Select(true, t))
    requires duration.Some? ==> at + duration.value <= t
    requires var q := Reached(Apply(s, TakeAnswer(r, Defer(duration), at)), actions).q;
      && q.outstanding < q.cfg.maxOutstanding && q.subscribers != {} && q.cfg.maxAge.None?
      && r < |q.objects| && q.objects[r].state == Ready && q.buffer != [] && q.buffer[0] == r
    ensures var s1 := Reached(Apply(s, TakeAnswer(r, Defer(duration), at)), actions);
      Apply(s1, Select(true, t)).thread == Selected(Some(r))
  {
    var s0 := Apply(s, TakeAnswer(r, Defer(duration), at));
    DeferredTill(s, r, duration, at);
    ReachableStep(s, TakeAnswer(r, Defer(duration), at));
    RecordStays(s0, actions, r);
    var s1 := Reached(s0, actions);
    assert Deliverable(s1.q.cfg, s1.q.objects[s1.q.buffer[0]], t);
    PickOnRuns(s1, true, t);
  }

  /** The message carries the time, and if it is still buffered and the database is open, so does its stored record,
      so the deferral survives a restart. */
  lemma DeferredTill(s: System, r: nat, duration: Option<Duration>, at: Time)
    requires Reachable(s) && Enabled(s, TakeAnswer(r, Defer(duration), at))
    ensures var s1 := Apply(s, TakeAnswer(r, Defer(duration), at));
      && r < |s1.q.objects|
      && s1.q.objects[r].rec.deferredUntil == (match duration case None => None case Some(d) => Some(at + d))
      && s1.q.objects[r].rec.deferDuration == duration
      && s1.q.objects[r].rec.deferredCount == s.q.objects[r].rec.deferredCount + 1
      && (s.q.open && r in s.q.buffer ==>
            Serial(s.q, r) in s1.q.store && s1.q.store[Serial(s.q, r)] == s1.q.objects[r].rec)
  {
    var id := s.calls[r].waiting.value;
    AnswerShape(s, r, Defer(duration), at, Take(s.q.cfg, s.q.objects[r], id, Defer(duration), at));
    AnswerStore(s, r, Defer(duration), at);
    RecordAfter(s.q.cfg, s.q.objects[r], id, Defer(duration), at);
  }

  // ---------- nobody subscribed ----------

  ghost predicate Resting(s: System) {
    s.q.subscribers == {} && !(s.thread.Selected? && s.thread.top.Some?)
  }

  ghost predicate NobodyComes(actions: seq<Action>) {
    forall i :: 0 <= i < |actions| ==> !actions[i].Subscribe? && !actions[i].Restart?
  }

  lemma RestingStep(s: System, a: Action)
    requires Reachable(s) && Resting(s) && Enabled(s, a) && !a.Subscribe? && !a.Restart?
    ensures Resting(Apply(s, a)) && !a.Begin?
  {
    if a.Select? {
      NoSubscribersNoPick(s, a.locked, a.now);
      if a.locked {
        ExpiryFrame(s.q, s.q.buffer, a.now);
      }
    } else {
      OthersBringNobody(s, a);
    }
  }

  lemma OthersBringNobody(s: System, a: Action)
    requires Enabled(s, a) && !a.Subscribe? && !a.Restart? && !a.Select?
    ensures Apply(s, a).q.subscribers <= s.q.subscribers
    ensures Apply(s, a).thread == s.thread || !Apply(s, a).thread.Selected?
  {
    if a.TakeAnswer? {
      AnswerShape(s, a.r, a.reply, a.at, Take(s.q.cfg, s.q.objects[a.r], s.calls[a.r].waiting.value, a.reply, a.at));
    } else if a.Begin? {
      BeginFrame(s, s.thread.top.value, a.order);
    } else if a.Hydrate? && a.locked {
      HydrationShape(s.q, NextKeysOf(s.q), a.newIds);
    } else if a.Sweep? && a.writeLocked {
      SweepEffect(s.q, s.thread.list[..a.upto]);
    }
  }

  lemma ReadyRests(s: System, a: Action, r: nat)
    requires Reachable(s) && Resting(s) && Enabled(s, a) && !a.Subscribe? && !a.Restart?
    requires s.q.cfg.maxAge.None? && r < |s.q.objects| && s.q.objects[r].state == Ready
    ensures r < |Apply(s, a).q.objects| && Apply(s, a).q.objects[r].state == Ready
  {
    ReachableStore(s);
    ReachableCalls(s);
    RestingStep(s, a);
    if a.Select? {
      if a.locked {
        BufferDistinct(s.q);
        ExpiryEffect(s.q, s.q.buffer, a.now);
      }
    } else {
      assert r !in s.calls;
      ObjectRests(s, a, r);
    }
  }

  /** While nobody is subscribed no message is taken up, and without a maximum age a Ready message stays Ready: it is
      neither delivered to nobody nor dropped, whatever else happens. */
  lemma {:induction false} UnsubscribedKeepsReady(s: System, actions: seq<Action>, r: nat)
    requires Reachable(s) && Resting(s) && Run(s, actions) && NobodyComes(actions)
    requires s.q.cfg.maxAge.None? && r < |s.q.objects| && s.q.objects[r].state == Ready
    ensures r < |Reached(s, actions).q.objects| && Reached(s, actions).q.objects[r].state == Ready
    decreases |actions|
  {
    if actions != [] {
      RestingStep(s, actions[0]);
      ReadyRests(s, actions[0], r);
      ReachableStep(s, actions[0]);
      ConfigStays(s, actions[0]);
      UnsubscribedKeepsReady(Apply(s, actions[0]), actions[1..], r);
    }
  }
}
