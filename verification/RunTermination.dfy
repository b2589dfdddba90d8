/** How often a message can be taken up in a run in which nothing but deliveries is decided about it. */
module RunTermination {
  import opened Messages
  import opened DeliveryPass
  import opened QueueState
  import opened QueueEffects
  import opened StoreInvariant
  import opened QueueRun
  import opened RunInvariant
  import opened RunHistory
  import opened RunAccounting
  import opened RunTheorems
  import opened RunPasses

  /** The server stays up, the subscribers stay, and nobody defers message `r`. Everything else is free, deferrals of
      other messages included. */
  predicate Settled(a: Action, r: nat) {
    && !a.Restart? && !a.Stop? && !a.Subscribe? && !a.Unsubscribe?
    && !(a.TakeAnswer? && a.r == r && a.reply.Defer?)
  }

  /** This action is the start of a delivery call for message `r`. */
  predicate TakesUp(s: System, a: Action, r: nat) {
    a.Begin? && s.thread == Selected(Some(r))
  }

  ghost function CallsOf(s: System, actions: seq<Action>, r: nat): nat
    requires Run(s, actions)
    decreases |actions|
  {
    if actions == [] then 0
    else (if TakesUp(s, actions[0], r) then 1 else 0) + CallsOf(Apply(s, actions[0]), actions[1..], r)
  }

  predicate NeverDeferred(h: History) {
    match h
    case Nothing => true
    case Then(p, _, reply) => NeverDeferred(p) && !reply.Defer?
  }

  lemma {:induction false} AllOffersCount(h: History, id: Guid)
    requires NeverDeferred(h)
    ensures UndeferredOffers(h, id) == Offers(h, id)
  {
    if h.Then? {
      AllOffersCount(h.prior, id);
    }
  }

  /** Every subscriber still owed the message has been attempted once per call, but for those the present call has
      yet to ask. */
  ghost predicate AskedEachTime(m: Message, subscribers: set<Guid>, todo: set<Guid>, n: nat) {
    forall id :: id in subscribers && id !in Complete(m) ==> n <= Attempts(m, id) + (if id in todo then 1 else 0)
  }

  ghost predicate Progressing(cfg: Config, subscribers: set<Guid>, m: Message, h: History, call: Option<Call>, n: nat) {
    && NeverDeferred(h)
    && match call
       case Some(c) => n <= cfg.maxAttempts && AskedEachTime(m, subscribers, SetOf(c.todo), n)
       case None =>
         if m.state == Ready then n <= cfg.maxAttempts && AskedEachTime(m, subscribers, {}, n)
         else Terminal(m.state) && n <= cfg.maxAttempts + 1
  }

  /** After `n` calls. */
  ghost predicate BoundedSoFar(s: System, cfg: Config, r: nat, n: nat) {
    && r < |s.q.objects| && r < |s.trace.histories| && s.q.running && s.q.cfg == cfg && cfg.maxAttempts > 0
    && Progressing(cfg, s.q.subscribers, s.q.objects[r], s.trace.histories[r], CallOf(s.calls, r), n)
  }

  // ---------- one message ----------

  /** A Ready message with a limit: after as many calls as the limit nobody is left to be asked. */
  lemma BeginProgresses(cfg: Config, subscribers: set<Guid>, m: Message, h: History, order: seq<Guid>, n: nat)
    requires cfg.maxAttempts > 0 && m.state == Ready && Progressing(cfg, subscribers, m, h, None, n)
    requires ObjectOk(cfg, m, h, None) && Lists(order, Remaining(m, subscribers))
    ensures if order == [] then Progressing(cfg, subscribers, m.(state := OpeningVerdict(m)), h, None, n + 1)
            else Progressing(cfg, subscribers, m.(state := OutForDelivery), h, Some(OpenCall(m, order)), n + 1)
  {
    EmptyListed(order);
    if order != [] {
      var id := order[0];
      assert id in SetOf(order);
      AttemptBound(cfg, h, id);
      AllOffersCount(h, id);
      assert n <= Attempts(m, id) < cfg.maxAttempts;
      assert forall i: Guid :: Attempts(m.(state := OutForDelivery), i) == Attempts(m, i);
    }
  }

  lemma SendProgresses(cfg: Config, subscribers: set<Guid>, m: Message, h: History, c: Call, n: nat)
    requires Progressing(cfg, subscribers, m, h, Some(c), n) && c.todo != [] && Distinct(c.todo)
    ensures Progressing(cfg, subscribers, Send(m, c.todo[0]), h,
                        Some(c.(todo := c.todo[1..], waiting := Some(c.todo[0]))), n)
  {
    FirstAndRest(c.todo);
  }

  lemma AnswerProgresses(
    cfg: Config, subscribers: set<Guid>, m: Message, h: History, c: Call, id: Guid, reply: Reply, now: Time, n: nat)
    requires Progressing(cfg, subscribers, m, h, Some(c), n) && !reply.Defer?
    ensures var taken := Take(cfg, m, id, reply, now);
      match taken.outcome
      case Return(v) => Progressing(cfg, subscribers, taken.message.(state := v), Then(h, id, reply), None, n)
      case Continue(failed) =>
        Progressing(cfg, subscribers, taken.message, Then(h, id, reply),
                    Some(AfterAnswer(c, id, failed, Turn(true, reply, now))), n)
  {
    var taken := Take(cfg, m, id, reply, now);
    assert taken.message.attempts == m.attempts && Complete(m) <= Complete(taken.message);
  }

  lemma EndProgresses(cfg: Config, subscribers: set<Guid>, m: Message, h: History, c: Call, verdict: MessageState, n: nat)
    requires Progressing(cfg, subscribers, m, h, Some(c), n) && c.todo == [] && (verdict == Ready || Terminal(verdict))
    ensures Progressing(cfg, subscribers, m.(state := verdict), h, None, n)
  {
    assert SetOf(c.todo) == {};
    assert forall i: Guid :: Attempts(m.(state := verdict), i) == Attempts(m, i);
  }

  // ---------- one action ----------

  /** Nothing of message `r` changes. */
  lemma Untouched(s: System, s1: System, cfg: Config, r: nat, n: nat)
    requires BoundedSoFar(s, cfg, r, n) && r < |s1.q.objects| && r < |s1.trace.histories|
    requires s1.q.cfg == s.q.cfg && s1.q.running == s.q.running && s1.q.subscribers == s.q.subscribers
    requires s1.q.objects[r] == s.q.objects[r] && s1.trace.histories[r] == s.trace.histories[r]
    requires CallOf(s1.calls, r) == CallOf(s.calls, r)
    ensures BoundedSoFar(s1, cfg, r, n)
  {
  }

  lemma QuietFrame(s: System, a: Action)
    requires Enabled(s, a) && Quiet(a) && !a.Stop? && !a.Subscribe? && !a.Unsubscribe?
    ensures var s1 := Apply(s, a);
      && s.q.objects <= s1.q.objects && s.trace.histories <= s1.trace.histories && s1.calls == s.calls
      && s1.q.cfg == s.q.cfg && s1.q.running == s.q.running && s1.q.subscribers == s.q.subscribers
  {
    QuietKeepsOutcomes(s, a);
    QuietCalls(s, a);
    if a.Hydrate? && a.locked && Persists(s.q) {
      HydrationShape(s.q, NextKeysOf(s.q), a.newIds);
    } else if a.Sweep? && a.writeLocked {
      SweepEffect(s.q, s.thread.list[..a.upto]);
    }
  }

  lemma SelectBounds(s: System, now: Time, cfg: Config, r: nat, n: nat)
    requires StoreOk(s) && CallInv(s) && InTable(s.q, s.q.buffer) && BoundedSoFar(s, cfg, r, n)
    ensures BoundedSoFar(SelectStep(s, now), cfg, r, n)
  {
    BufferDistinct(s.q);
    ExpiryEffect(s.q, s.q.buffer, now);
    var m, m1 := s.q.objects[r], SelectStep(s, now).q.objects[r];
    if m1 != m {
      assert m.state == Ready && r !in s.calls;
    }
  }

  lemma BeginBounds(s: System, t: nat, order: seq<Guid>, cfg: Config, r: nat, n: nat)
    requires CallInv(s) && HistoryInv(s) && s.thread == Selected(Some(t)) && BoundedSoFar(s, cfg, r, n)
    requires Lists(order, Remaining(s.q.objects[t], s.q.subscribers))
    ensures BoundedSoFar(BeginStep(s, t, order), cfg, r, if t == r then n + 1 else n)
  {
    BeginChanges(s, t, order);
    if t == r {
      ObjectOf(s, r);
      BeginProgresses(cfg, s.q.subscribers, s.q.objects[r], s.trace.histories[r], order, n);
    } else {
      Untouched(s, BeginStep(s, t, order), cfg, r, n);
    }
  }

  lemma BeginChanges(s: System, t: nat, order: seq<Guid>)
    requires CallInv(s) && s.thread == Selected(Some(t))
    ensures var s1, m := BeginStep(s, t, order), s.q.objects[t];
      && s1.q.cfg == s.q.cfg && s1.q.running == s.q.running && s1.q.subscribers == s.q.subscribers
      && s1.trace.histories == s.trace.histories
      && s1.q.objects == s.q.objects[t := m.(state := if order == [] then OpeningVerdict(m) else OutForDelivery)]
      && s1.calls == if order == [] then s.calls else s.calls[t := OpenCall(m, order)]
  {
    assert t !in s.calls;
    assert s.calls - {t} == s.calls;
    BeginEffect(s, t, order);
  }

  lemma BeginEffect(s: System, t: nat, order: seq<Guid>)
    requires t < |s.q.objects|
    ensures var s1, m := BeginStep(s, t, order), s.q.objects[t];
      && s1.q.cfg == s.q.cfg && s1.q.running == s.q.running && s1.q.subscribers == s.q.subscribers
      && s1.trace.histories == s.trace.histories
      && s1.q.objects == s.q.objects[t := m.(state := if order == [] then OpeningVerdict(m) else OutForDelivery)]
      && s1.calls == if order == [] then s.calls - {t} else s.calls[t := OpenCall(m, order)]
  {
    if order == [] {
      NobodyShape(s, t);
    } else {
      BeginCallShape(s, t, order);
    }
  }

  lemma CallBounds(s: System, a: Action, cfg: Config, r: nat, n: nat)
    requires CallInv(s) && HistoryInv(s) && Enabled(s, a) && (a.SendNext? || a.EndPass?) && BoundedSoFar(s, cfg, r, n)
    ensures BoundedSoFar(Apply(s, a), cfg, r, n)
  {
    if a.SendNext? {
      SendBounds(s, a.r, cfg, r, n);
    } else {
      EndBounds(s, a.r, cfg, r, n);
    }
  }

  lemma SendBounds(s: System, t: nat, cfg: Config, r: nat, n: nat)
    requires HistoryInv(s) && Calling(s, t) && s.calls[t].todo != [] && s.q.running && BoundedSoFar(s, cfg, r, n)
    ensures BoundedSoFar(SendStep(s, t), cfg, r, n)
  {
    if t != r {
      Untouched(s, SendStep(s, t), cfg, r, n);
    } else {
      ObjectOf(s, r);
      SendProgresses(cfg, s.q.subscribers, s.q.objects[r], s.trace.histories[r], s.calls[r], n);
    }
  }

  lemma EndBounds(s: System, t: nat, cfg: Config, r: nat, n: nat)
    requires Calling(s, t) && s.calls[t].todo == [] && s.q.running && BoundedSoFar(s, cfg, r, n)
    ensures BoundedSoFar(EndStep(s, t), cfg, r, n)
  {
    if t != r {
      Untouched(s, EndStep(s, t), cfg, r, n);
    } else {
      EndProgresses(cfg, s.q.subscribers, s.q.objects[r], s.trace.histories[r], s.calls[r],
                    EndStep(s, r).q.objects[r].state, n);
    }
  }

  lemma AnswerBounds(s: System, t: nat, reply: Reply, at: Time, cfg: Config, r: nat, n: nat)
    requires CallInv(s) && HistoryInv(s) && Enabled(s, TakeAnswer(t, reply, at)) && BoundedSoFar(s, cfg, r, n)
    requires t == r ==> !reply.Defer?
    ensures BoundedSoFar(AnswerStep(s, t, reply, at), cfg, r, n)
  {
    var id := s.calls[t].waiting.value;
    AnswerShape(s, t, reply, at, Take(s.q.cfg, s.q.objects[t], id, reply, at));
    AnswerRunning(s, t, reply, at);
    if t == r {
      AnswerProgresses(cfg, s.q.subscribers, s.q.objects[r], s.trace.histories[r], s.calls[r], id, reply, at, n);
    } else {
      Untouched(s, AnswerStep(s, t, reply, at), cfg, r, n);
    }
  }

  lemma AnswerRunning(s: System, t: nat, reply: Reply, at: Time)
    requires Enabled(s, TakeAnswer(t, reply, at))
    ensures AnswerStep(s, t, reply, at).q.running == s.q.running
  {
  }

  lemma BoundedStep(s: System, a: Action, cfg: Config, r: nat, n: nat)
    requires Inv(s) && Enabled(s, a) && Settled(a, r) && BoundedSoFar(s, cfg, r, n)
    ensures BoundedSoFar(Apply(s, a), cfg, r, if TakesUp(s, a, r) then n + 1 else n)
  {
    if Quiet(a) {
      QuietFrame(s, a);
      Untouched(s, Apply(s, a), cfg, r, n);
    } else if a.Select? {
      if a.locked {
        SelectBounds(s, a.now, cfg, r, n);
      }
    } else if a.Begin? {
      BeginBounds(s, s.thread.top.value, a.order, cfg, r, n);
    } else if a.TakeAnswer? {
      AnswerBounds(s, a.r, a.reply, a.at, cfg, r, n);
    } else {
      CallBounds(s, a, cfg, r, n);
    }
  }

  lemma {:induction false} BoundedRun(s: System, actions: seq<Action>, cfg: Config, r: nat, n: nat)
    requires Inv(s) && Run(s, actions) && BoundedSoFar(s, cfg, r, n)
    requires forall i :: 0 <= i < |actions| ==> Settled(actions[i], r)
    ensures BoundedSoFar(Reached(s, actions), cfg, r, n + CallsOf(s, actions, r))
    decreases |actions|
  {
    if actions != [] {
      BoundedStep(s, actions[0], cfg, r, n);
      StepInv(s, actions[0]);
      BoundedRun(Apply(s, actions[0]), actions[1..], cfg, r, if TakesUp(s, actions[0], r) then n + 1 else n);
    }
  }

  /** Delivery terminates on runs: with a positive limit k, while the server is up, the subscribers stay and nobody
      defers it, a message not yet offered to anybody is taken up for delivery at most k + 1 times, whatever else
      happens; and the call that makes it k + 1 settles it. */
  lemma CallsAreBounded(s: System, actions: seq<Action>, r: nat)
    requires Reachable(s) && s.q.running && s.q.cfg.maxAttempts > 0
    requires r < |s.q.objects| && s.q.objects[r].state == Ready && r < |s.trace.histories| && s.trace.histories[r] == Nothing
    requires Run(s, actions) && forall i :: 0 <= i < |actions| ==> Settled(actions[i], r)
    ensures CallsOf(s, actions, r) <= s.q.cfg.maxAttempts + 1
    ensures var s1 := Reached(s, actions);
      && r < |s1.q.objects|
      && (CallsOf(s, actions, r) == s.q.cfg.maxAttempts + 1 ==> Terminal(s1.q.objects[r].state))
  {
    ReachableInv(s);
    assert r !in s.calls;
    BoundedRun(s, actions, s.q.cfg, r, 0);
  }
}
