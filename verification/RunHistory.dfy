/** Every message object of a run is at every moment what its history of answered offers says it is, and every
    call only asks subscribers that are not yet complete. */
module RunHistory {
  import opened Messages
  import opened DeliveryPass
  import opened QueueState
  import opened QueueEffects
  import opened StoreInvariant
  import opened QueueRun
  import opened RunInvariant

  /** The call, if any, still has to ask distinct, incomplete subscribers. */
  ghost predicate CallFits(m: Message, c: Call) {
    && Distinct(c.todo) && SetOf(c.todo) !! Complete(m)
    && (c.waiting.Some? ==> c.waiting.value !in SetOf(c.todo) && c.waiting.value !in Complete(m))
  }

  ghost predicate ObjectOk(cfg: Config, m: Message, h: History, call: Option<Call>) {
    && Mirrors(cfg, m, h, if call.Some? then call.value.waiting else None)
    && Valid(cfg, h)
    && (Ended(cfg, h) ==> Terminal(m.state) && (h.reply != RequestDeadLetter ==> m.state == Drop))
    && (call.Some? ==> !Ended(cfg, h) && CallFits(m, call.value))
  }

  function CallOf(calls: map<nat, Call>, r: nat): Option<Call> {
    if r in calls then Some(calls[r]) else None
  }

  ghost predicate HistoryInv(s: System) {
    && |s.trace.histories| == |s.q.objects|
    && forall r :: 0 <= r < |s.q.objects| ==>
         ObjectOk(s.q.cfg, s.q.objects[r], s.trace.histories[r], CallOf(s.calls, r))
  }

  // ---------- one object ----------

  /** Leaving a call, or never being in one: only the state changes, and nothing had settled the message. */
  lemma ObjectSettles(cfg: Config, m: Message, h: History, call: Option<Call>, state: MessageState)
    requires ObjectOk(cfg, m, h, call) && !Ended(cfg, h)
    requires call.Some? ==> call.value.waiting == None
    ensures ObjectOk(cfg, m.(state := state), h, None)
  {
    assert forall s: Guid :: Attempts(m.(state := state), s) == Attempts(m, s);
  }

  lemma ObjectBegins(cfg: Config, m: Message, h: History, subscribers: set<Guid>, order: seq<Guid>)
    requires ObjectOk(cfg, m, h, None) && m.state == Ready && Lists(order, Remaining(m, subscribers))
    ensures ObjectOk(cfg, m.(state := OutForDelivery), h, Some(OpenCall(m, order)))
  {
    assert forall s: Guid :: Attempts(m.(state := OutForDelivery), s) == Attempts(m, s);
  }

  lemma ObjectSends(cfg: Config, m: Message, h: History, c: Call)
    requires ObjectOk(cfg, m, h, Some(c)) && c.waiting == None && c.todo != []
    ensures ObjectOk(cfg, Send(m, c.todo[0]), h, Some(c.(todo := c.todo[1..], waiting := Some(c.todo[0]))))
  {
    SendMirrors(cfg, m, h, c.todo[0]);
    FirstAndRest(c.todo);
    assert c.todo[0] in SetOf(c.todo);
  }

  /** The answer of the subscriber asked: the history grows by it and the object follows. */
  lemma ObjectAnswers(cfg: Config, m: Message, h: History, c: Call, reply: Reply, now: Time)
    requires ObjectOk(cfg, m, h, Some(c)) && c.waiting.Some? && m.state == OutForDelivery
    ensures var id := c.waiting.value;
      var taken := Take(cfg, m, id, reply, now);
      match taken.outcome
      case Return(v) => ObjectOk(cfg, taken.message.(state := v), Then(h, id, reply), None)
      case Continue(failed) =>
        ObjectOk(cfg, taken.message, Then(h, id, reply), Some(AfterAnswer(c, id, failed, Turn(true, reply, now))))
  {
    var id := c.waiting.value;
    var taken := Take(cfg, m, id, reply, now);
    TakeMirrors(cfg, m, h, id, reply, now);
    assert Complete(taken.message) <= Complete(m) + {id};
    match taken.outcome
    case Return(v) =>
      assert forall s: Guid :: Attempts(taken.message.(state := v), s) == Attempts(taken.message, s);
      assert Ended(cfg, Then(h, id, reply)) ==> Terminal(v) && (reply != RequestDeadLetter ==> v == Drop);
    case Continue(_) =>
  }

  // ---------- one action ----------

  /** At most the object `r` changes, and it is still in order. */
  lemma OneObjectChanges(s: System, s1: System, r: nat)
    requires HistoryInv(s) && r < |s.q.objects| && s1.q.cfg == s.q.cfg
    requires |s1.q.objects| == |s.q.objects| && |s1.trace.histories| == |s.trace.histories|
    requires forall t :: 0 <= t < |s.q.objects| && t != r ==>
      && s1.q.objects[t] == s.q.objects[t] && s1.trace.histories[t] == s.trace.histories[t]
      && CallOf(s1.calls, t) == CallOf(s.calls, t)
    requires ObjectOk(s.q.cfg, s1.q.objects[r], s1.trace.histories[r], CallOf(s1.calls, r))
    ensures HistoryInv(s1)
  {
  }

  lemma ObjectOf(s: System, r: nat)
    requires HistoryInv(s) && r < |s.q.objects|
    ensures ObjectOk(s.q.cfg, s.q.objects[r], s.trace.histories[r], CallOf(s.calls, r))
    ensures !Terminal(s.q.objects[r].state) ==> !Ended(s.q.cfg, s.trace.histories[r])
  {
  }

  lemma BeginKeepsHistory(s: System, order: seq<Guid>)
    requires CallInv(s) && HistoryInv(s) && Enabled(s, Begin(order))
    ensures HistoryInv(Apply(s, Begin(order)))
  {
    var r := s.thread.top.value;
    if order == [] {
      NobodyKeepsHistory(s, r);
    } else {
      ObjectOf(s, r);
      ObjectBegins(s.q.cfg, s.q.objects[r], s.trace.histories[r], s.q.subscribers, order);
      SomebodyKeepsHistory(s, r, order);
    }
  }

  lemma NobodyKeepsHistory(s: System, r: nat)
    requires CallInv(s) && HistoryInv(s) && s.thread == Selected(Some(r))
    ensures HistoryInv(BeginStep(s, r, []))
  {
    var m, s1 := s.q.objects[r], BeginStep(s, r, []);
    ObjectOf(s, r);
    NobodyShape(s, r);
    ObjectSettles(s.q.cfg, m, s.trace.histories[r], None, OpeningVerdict(m));
    assert r !in s.calls;
    NobodyMerges(s, s1, r);
  }

  lemma NobodyMerges(s: System, s1: System, r: nat)
    requires HistoryInv(s) && r < |s.q.objects| && s1.q.cfg == s.q.cfg && r !in s.calls
    requires s1.trace.histories == s.trace.histories && s1.calls == s.calls - {r}
    requires |s1.q.objects| == |s.q.objects| && s1.q.objects == s.q.objects[r := s1.q.objects[r]]
    requires ObjectOk(s.q.cfg, s1.q.objects[r], s.trace.histories[r], None)
    ensures HistoryInv(s1)
  {
    OneObjectChanges(s, s1, r);
  }

  lemma SomebodyKeepsHistory(s: System, r: nat, order: seq<Guid>)
    requires CallInv(s) && HistoryInv(s) && s.thread == Selected(Some(r)) && order != []
    requires ObjectOk(s.q.cfg, s.q.objects[r].(state := OutForDelivery), s.trace.histories[r],
                      Some(OpenCall(s.q.objects[r], order)))
    ensures HistoryInv(BeginStep(s, r, order))
  {
    OneObjectChanges(s, BeginStep(s, r, order), r);
  }

  lemma SendKeepsHistory(s: System, r: nat)
    requires CallInv(s) && HistoryInv(s) && Enabled(s, SendNext(r))
    ensures HistoryInv(Apply(s, SendNext(r)))
  {
    var m, h, c := s.q.objects[r], s.trace.histories[r], s.calls[r];
    ObjectOf(s, r);
    if !s.q.running {
      ObjectSettles(s.q.cfg, m, h, Some(c), Shutdown);
    } else {
      ObjectSends(s.q.cfg, m, h, c);
    }
    OneObjectChanges(s, Apply(s, SendNext(r)), r);
  }

  lemma AnswerKeepsHistory(s: System, r: nat, reply: Reply, at: Time)
    requires CallInv(s) && HistoryInv(s) && Enabled(s, TakeAnswer(r, reply, at))
    ensures HistoryInv(AnswerStep(s, r, reply, at))
  {
    var c := s.calls[r];
    var taken := Take(s.q.cfg, s.q.objects[r], c.waiting.value, reply, at);
    ObjectOf(s, r);
    ObjectAnswers(s.q.cfg, s.q.objects[r], s.trace.histories[r], c, reply, at);
    AnswerShape(s, r, reply, at, taken);
    AnswerMerges(s, AnswerStep(s, r, reply, at), r, c, reply, at, taken);
  }

  lemma AnswerMerges(s: System, s1: System, r: nat, c: Call, reply: Reply, at: Time, taken: Taken)
    requires HistoryInv(s) && r < |s.q.objects| && s1.q.cfg == s.q.cfg && c.waiting.Some?
    requires s1.trace.histories == s.trace.histories[r := Then(s.trace.histories[r], c.waiting.value, reply)]
    requires match taken.outcome
      case Return(v) =>
        && s1.q.objects == s.q.objects[r := taken.message.(state := v)] && s1.calls == s.calls - {r}
        && ObjectOk(s.q.cfg, s1.q.objects[r], s1.trace.histories[r], None)
      case Continue(failed) =>
        && s1.q.objects == s.q.objects[r := taken.message]
        && s1.calls == s.calls[r := AfterAnswer(c, c.waiting.value, failed, Turn(true, reply, at))]
        && ObjectOk(s.q.cfg, s1.q.objects[r], s1.trace.histories[r], Some(s1.calls[r]))
    ensures HistoryInv(s1)
  {
    OneObjectChanges(s, s1, r);
  }

  lemma AnswerShape(s: System, r: nat, reply: Reply, at: Time, taken: Taken)
    requires Enabled(s, TakeAnswer(r, reply, at))
    requires taken == Take(s.q.cfg, s.q.objects[r], s.calls[r].waiting.value, reply, at)
    ensures var s1, c := AnswerStep(s, r, reply, at), s.calls[r];
      && s1.q.cfg == s.q.cfg && s1.q.subscribers == s.q.subscribers
      && s1.thread == s.thread && s1.drawn == s.drawn && s1.uncounted == s.uncounted
      && s1.q.depth == s.q.depth && s1.q.buffer == s.q.buffer && s1.q.lastSerial == s.q.lastSerial
      && s1.q.stats == CountReply(s.q.stats, reply)
      && s1.trace.histories == s.trace.histories[r := Then(s.trace.histories[r], c.waiting.value, reply)]
      && match taken.outcome
         case Return(v) =>
           && s1.q.objects == s.q.objects[r := taken.message.(state := v)]
           && s1.calls == s.calls - {r}
         case Continue(failed) =>
           && s1.q.objects == s.q.objects[r := taken.message]
           && s1.calls == s.calls[r := AfterAnswer(c, c.waiting.value, failed, Turn(true, reply, at))]
  {
    var q1 := Answered(s.q, r, s.calls[r].waiting.value, reply, at);
    AnswerLeavesOthers(s.q, r, s.calls[r].waiting.value, reply, at);
    assert q1.objects == s.q.objects[r := taken.message];
    if taken.outcome.Return? {
      var v := taken.outcome.verdict;
      assert s.q.objects[r := taken.message][r := taken.message.(state := v)] == s.q.objects[r := taken.message.(state := v)];
    }
  }

  lemma EndKeepsHistory(s: System, r: nat)
    requires CallInv(s) && HistoryInv(s) && Enabled(s, EndPass(r))
    ensures HistoryInv(Apply(s, EndPass(r)))
  {
    var s1 := Apply(s, EndPass(r));
    ObjectOf(s, r);
    ObjectSettles(s.q.cfg, s.q.objects[r], s.trace.histories[r], Some(s.calls[r]), s1.q.objects[r].state);
    OneObjectChanges(s, s1, r);
  }

  lemma GrowthKeepsHistory(s: System, s1: System)
    requires CallInv(s) && HistoryInv(s) && s1.calls == s.calls && s1.q.cfg == s.q.cfg
    requires s.q.objects <= s1.q.objects && s.trace.histories <= s1.trace.histories
    requires |s1.trace.histories| == |s1.q.objects|
    requires forall r :: |s.q.objects| <= r < |s1.q.objects| ==>
      s1.q.objects[r] == Fresh(s1.q.objects[r].rec) && s1.trace.histories[r] == Nothing
    ensures HistoryInv(s1)
  {
    forall r | 0 <= r < |s1.q.objects|
      ensures ObjectOk(s.q.cfg, s1.q.objects[r], s1.trace.histories[r], CallOf(s1.calls, r))
    {
      if r < |s.q.objects| {
        ObjectOf(s, r);
        assert s1.q.objects[r] == s.q.objects[r] && s1.trace.histories[r] == s.trace.histories[r];
      } else {
        FreshMirrorsNothing(s.q.cfg, s1.q.objects[r].rec);
      }
    }
  }

  lemma HydrateKeepsHistory(s: System, locked: bool, newIds: nat -> Guid)
    requires StoreOk(s) && CallInv(s) && HistoryInv(s) && Enabled(s, Hydrate(locked, newIds))
    ensures HistoryInv(Apply(s, Hydrate(locked, newIds)))
  {
    if locked && Persists(s.q) {
      var s1, ks := Apply(s, Hydrate(locked, newIds)), NextKeysOf(s.q);
      HydrationShape(s.q, ks, newIds);
      HydrationIsFresh(s.q, ks, newIds);
      GrowthKeepsHistory(s, s1);
    }
  }

  lemma SelectKeepsHistory(s: System, locked: bool, now: Time)
    requires StoreOk(s) && CallInv(s) && HistoryInv(s) && Enabled(s, Select(locked, now))
    ensures HistoryInv(Apply(s, Select(locked, now)))
  {
    if locked {
      var s1 := Apply(s, Select(locked, now));
      BufferDistinct(s.q);
      ExpiryEffect(s.q, s.q.buffer, now);
      forall r | 0 <= r < |s.q.objects|
        ensures ObjectOk(s.q.cfg, s1.q.objects[r], s1.trace.histories[r], CallOf(s1.calls, r))
      {
        var m := s.q.objects[r];
        ObjectOf(s, r);
        if s1.q.objects[r] != m {
          assert m.state == Ready && r !in s.calls;
          ObjectSettles(s.q.cfg, m, s.trace.histories[r], None, s1.q.objects[r].state);
        }
      }
    }
  }

  lemma SameObjectsKeepHistory(s: System, s1: System)
    requires HistoryInv(s) && s1.q.objects == s.q.objects && s1.q.cfg == s.q.cfg
    requires s1.calls == s.calls && s1.trace.histories == s.trace.histories
    ensures HistoryInv(s1)
  {
  }

  lemma DeliveryHistoryStep(s: System, a: Action)
    requires CallInv(s) && HistoryInv(s) && Enabled(s, a) && (a.Begin? || a.SendNext? || a.TakeAnswer? || a.EndPass?)
    ensures HistoryInv(Apply(s, a))
  {
    match a
    case Begin(order) => BeginKeepsHistory(s, order);
    case SendNext(r) => SendKeepsHistory(s, r);
    case TakeAnswer(r, reply, at) => AnswerKeepsHistory(s, r, reply, at);
    case EndPass(r) => EndKeepsHistory(s, r);
  }

  /** Actions after which every message object and history is as before. */
  lemma IdleHistoryStep(s: System, a: Action)
    requires HistoryInv(s) && Enabled(s, a) && !a.EnqueueInMemory? && !a.Hydrate? && !a.Select? && !a.Restart?
    requires !(a.Begin? || a.SendNext? || a.TakeAnswer? || a.EndPass?)
    ensures HistoryInv(Apply(s, a))
  {
    if a.Sweep? && a.writeLocked {
      SweepEffect(s.q, s.thread.list[..a.upto]);
    }
    SameObjectsKeepHistory(s, Apply(s, a));
  }

  /** Histories and message objects stay in step over every action. */
  lemma HistoryStep(s: System, a: Action)
    requires StoreOk(s) && CallInv(s) && HistoryInv(s) && Enabled(s, a)
    ensures HistoryInv(Apply(s, a))
  {
    if a.Begin? || a.SendNext? || a.TakeAnswer? || a.EndPass? {
      DeliveryHistoryStep(s, a);
    } else if a.EnqueueInMemory? {
      GrowthKeepsHistory(s, Apply(s, a));
    } else if a.Hydrate? {
      HydrateKeepsHistory(s, a.locked, a.newIds);
    } else if a.Select? {
      SelectKeepsHistory(s, a.locked, a.now);
    } else if !a.Restart? {
      IdleHistoryStep(s, a);
    }
  }
}
