/** However deliveries, purges, subscriptions and other messages interleave, each delivery call is one pass: what
    it does to its message and the verdict it returns are those of `DeliveryPass.Pass` for the replies it got. */
module RunPasses {
  import opened Messages
  import opened DeliveryPass
  import opened QueueState
  import opened QueueEffects
  import opened StoreInvariant
  import opened QueueRun
  import opened RunInvariant
  import opened RunHistory
  import opened RunAccounting
  import opened RunTheorems

  // ---------- the loop, turn by turn ----------

  /** One more turn after a loop that ran to its end. */
  lemma {:induction false} LoopSnoc(
    cfg: Config, m: Message, done: seq<Guid>, turns: seq<Turn>, failures: set<Guid>, id: Guid, turn: Turn)
    requires |turns| == |done| && OfferAll(cfg, m, done, turns, failures).returned == None
    ensures var sofar := OfferAll(cfg, m, done, turns, failures);
      OfferAll(cfg, m, done + [id], turns + [turn], failures)
      == OfferAll(cfg, sofar.message, [id], [turn], sofar.failures)
    decreases |done|
  {
    if done == [] {
      assert done + [id] == [id] && turns + [turn] == [turn];
    } else {
      var t := DeliveryPass.Take(cfg, Send(m, done[0]), done[0], turns[0].reply, turns[0].now);
      var f1 := if t.outcome.failed then failures + {done[0]} else failures;
      LoopSnoc(cfg, t.message, done[1..], turns[1..], f1, id, turn);
      assert (done + [id])[1..] == done[1..] + [id] && (turns + [turn])[1..] == turns[1..] + [turn];
    }
  }

  /** A loop that returned early does not look at what comes after. */
  lemma {:induction false} LoopCut(
    cfg: Config, m: Message, done: seq<Guid>, turns: seq<Turn>, failures: set<Guid>, rest: seq<Guid>, more: seq<Turn>)
    requires |turns| == |done| && |more| == |rest| && OfferAll(cfg, m, done, turns, failures).returned.Some?
    ensures OfferAll(cfg, m, done + rest, turns + more, failures) == OfferAll(cfg, m, done, turns, failures)
    decreases |done|
  {
    if turns[0].running {
      var t := DeliveryPass.Take(cfg, Send(m, done[0]), done[0], turns[0].reply, turns[0].now);
      if t.outcome.Continue? {
        var f1 := if t.outcome.failed then failures + {done[0]} else failures;
        LoopCut(cfg, t.message, done[1..], turns[1..], f1, rest, more);
        assert (done + rest)[1..] == done[1..] + rest && (turns + more)[1..] == turns[1..] + more;
      }
    }
  }

  // ---------- the calls of a run ----------

  /** The call has gone through the first turns of its opening snapshot and its message is where they led. */
  ghost predicate Progress(cfg: Config, m: Message, c: Call) {
    && |c.turns| + |c.todo| + (if c.waiting.Some? then 1 else 0) == |c.order|
    && c.todo == c.order[|c.order| - |c.todo|..]
    && var sofar := OfferAll(cfg, c.start, c.order[..|c.turns|], c.turns, {});
    && sofar.returned == None && sofar.failures == c.failures
    && match c.waiting
       case None => m == sofar.message
       case Some(id) => id == c.order[|c.turns|] && m == Send(sofar.message, id)
  }

  ghost predicate PassInv(s: System) {
    forall r :: r in s.calls && r < |s.q.objects| ==>
      s.calls[r].order != [] && Progress(s.q.cfg, s.q.objects[r], s.calls[r])
  }

  lemma ProgressOpens(cfg: Config, m: Message, order: seq<Guid>)
    ensures Progress(cfg, m.(state := OutForDelivery), OpenCall(m, order))
  {
    assert order[..0] == [] && order[0..] == order;
  }

  lemma ProgressSends(cfg: Config, m: Message, c: Call)
    requires Progress(cfg, m, c) && c.waiting == None && c.todo != []
    ensures Progress(cfg, Send(m, c.todo[0]), c.(todo := c.todo[1..], waiting := Some(c.todo[0])))
  {
    assert c.order[|c.turns|..][0] == c.order[|c.turns|];
  }

  /** An answer extends the loop by one turn, or ends it as the whole pass ends. */
  lemma ProgressAnswers(cfg: Config, m: Message, c: Call, reply: Reply, now: Time)
    requires Progress(cfg, m, c) && c.waiting.Some? && c.order != []
    ensures var id := c.waiting.value;
      var taken := Take(cfg, m, id, reply, now);
      match taken.outcome
      case Continue(failed) => Progress(cfg, taken.message, AfterAnswer(c, id, failed, Turn(true, reply, now)))
      case Return(v) => CutPass(cfg, c, Turn(true, reply, now), taken.message, v)
  {
    var id, turn, n := c.waiting.value, Turn(true, reply, now), |c.turns|;
    var taken := Take(cfg, m, id, reply, now);
    var sofar := OfferAll(cfg, c.start, c.order[..n], c.turns, {});
    LoopSnoc(cfg, c.start, c.order[..n], c.turns, {}, id, turn);
    assert c.order[..n + 1] == c.order[..n] + [id];
    OneTurn(cfg, sofar.message, id, turn, sofar.failures);
    if taken.outcome.Return? {
      EarlyEnd(cfg, c, turn);
    }
  }

  lemma OneTurn(cfg: Config, m: Message, id: Guid, turn: Turn, failures: set<Guid>)
    ensures OfferAll(cfg, m, [id], [turn], failures)
         == if !turn.running then LoopEnd(m, failures, Some(Shutdown))
            else
              var taken := Take(cfg, Send(m, id), id, turn.reply, turn.now);
              match taken.outcome
              case Return(v) => LoopEnd(taken.message, failures, Some(v))
              case Continue(failed) => LoopEnd(taken.message, if failed then failures + {id} else failures, None)
  {
    assert [id][1..] == [] && [turn][1..] == [];
  }

  /** The pass over the call's opening snapshot, with the turns the call has had, the running flag and the
      subscribers at its end, ends like this. */
  ghost predicate FullPass(cfg: Config, c: Call, running: bool, closing: set<Guid>, m: Message, verdict: MessageState) {
    |c.turns| == |c.order| && Pass(cfg, c.start, c.order, c.turns, running, closing) == PassEnd(m, verdict)
  }

  /** The pass with the turns the call has had and then `last` ends like this, whatever might have come after. */
  ghost predicate CutPass(cfg: Config, c: Call, last: Turn, m: Message, verdict: MessageState) {
    && |c.turns| < |c.order|
    && forall more: seq<Turn>, running: bool, closing: set<Guid> :: |c.turns + [last] + more| == |c.order| ==>
         Pass(cfg, c.start, c.order, c.turns + [last] + more, running, closing) == PassEnd(m, verdict)
  }

  lemma EarlyEnd(cfg: Config, c: Call, last: Turn)
    requires |c.turns| < |c.order|
    requires OfferAll(cfg, c.start, c.order[..|c.turns| + 1], c.turns + [last], {}).returned.Some?
    ensures var end := OfferAll(cfg, c.start, c.order[..|c.turns| + 1], c.turns + [last], {});
      CutPass(cfg, c, last, end.message, end.returned.value)
  {
    var done, rest := c.order[..|c.turns| + 1], c.order[|c.turns| + 1..];
    assert done + rest == c.order;
    forall more: seq<Turn>, running: bool, closing: set<Guid> | |c.turns + [last] + more| == |c.order|
      ensures var end := OfferAll(cfg, c.start, done, c.turns + [last], {});
        Pass(cfg, c.start, c.order, c.turns + [last] + more, running, closing) == PassEnd(end.message, end.returned.value)
    {
      LoopCut(cfg, c.start, done, c.turns + [last], {}, rest, more);
    }
  }

  /** A subscriber's turn that never comes because the queue is stopped; its reply is not looked at. */
  const STOPPED := Turn(false, Failed, 0)

  lemma ProgressStops(cfg: Config, m: Message, c: Call)
    requires Progress(cfg, m, c) && c.waiting == None && c.todo != [] && c.order != []
    ensures CutPass(cfg, c, STOPPED, m, Shutdown)
  {
    var n := |c.turns|;
    LoopSnoc(cfg, c.start, c.order[..n], c.turns, {}, c.order[n], STOPPED);
    OneTurn(cfg, m, c.order[n], STOPPED, c.failures);
    assert c.order[..n + 1] == c.order[..n] + [c.order[n]];
    EarlyEnd(cfg, c, STOPPED);
  }

  lemma ProgressEnds(cfg: Config, m: Message, c: Call, running: bool, closing: set<Guid>)
    requires Progress(cfg, m, c) && c.waiting == None && c.todo == [] && c.order != []
    ensures FullPass(cfg, c, running, closing, m, ClosingVerdict(cfg, m, SetOf(c.order), c.failures, running, closing))
    ensures |c.turns| == |c.order| && c.failures == FailedOnes(c.order, c.turns)
  {
    assert c.order[..|c.turns|] == c.order;
    LoopEndsFor(cfg, c.start, c.order, c.turns, {});
  }

  // ---------- kept by every action ----------

  /** The calls other than `r` and their messages are untouched. */
  lemma OneCallMoves(s: System, s1: System, r: nat)
    requires PassInv(s) && s1.q.cfg == s.q.cfg && |s1.q.objects| >= |s.q.objects|
    requires forall t :: t in s1.calls && t != r ==>
      t in s.calls && s1.calls[t] == s.calls[t] && t < |s.q.objects| && s1.q.objects[t] == s.q.objects[t]
    requires r in s1.calls && r < |s1.q.objects| ==>
      s1.calls[r].order != [] && Progress(s.q.cfg, s1.q.objects[r], s1.calls[r])
    ensures PassInv(s1)
  {
  }

  lemma CallOfRun(s: System, r: nat)
    requires PassInv(s) && r in s.calls && r < |s.q.objects|
    ensures s.calls[r].order != [] && Progress(s.q.cfg, s.q.objects[r], s.calls[r])
  {
  }

  lemma BeginKeepsPasses(s: System, r: nat, order: seq<Guid>)
    requires CallInv(s) && PassInv(s) && r < |s.q.objects| && s.q.objects[r].state == Ready
    ensures PassInv(BeginStep(s, r, order))
  {
    var s1 := BeginStep(s, r, order);
    if order == [] {
      NobodyShape(s, r);
      assert r !in s.calls;
    } else {
      BeginCallShape(s, r, order);
      ProgressOpens(s.q.cfg, s.q.objects[r], order);
    }
    BegunCallMoves(s, s1, r, order);
  }

  lemma BegunCallMoves(s: System, s1: System, r: nat, order: seq<Guid>)
    requires PassInv(s) && r < |s.q.objects| == |s1.q.objects| && s1.q.cfg == s.q.cfg
    requires forall t :: 0 <= t < |s.q.objects| && t != r ==> s1.q.objects[t] == s.q.objects[t]
    requires if order == [] then s1.calls == s.calls - {r}
             else s1.calls == s.calls[r := OpenCall(s.q.objects[r], order)]
                  && Progress(s.q.cfg, s1.q.objects[r], OpenCall(s.q.objects[r], order))
    requires forall t :: t in s.calls ==> t < |s.q.objects|
    ensures PassInv(s1)
  {
    OneCallMoves(s, s1, r);
  }

  lemma SendKeepsPasses(s: System, r: nat)
    requires CallInv(s) && PassInv(s) && Enabled(s, SendNext(r))
    ensures PassInv(SendStep(s, r))
  {
    CallOfRun(s, r);
    if s.q.running {
      ProgressSends(s.q.cfg, s.q.objects[r], s.calls[r]);
    }
    OneCallMoves(s, SendStep(s, r), r);
  }

  lemma AnswerKeepsPasses(s: System, r: nat, reply: Reply, at: Time)
    requires CallInv(s) && PassInv(s) && Enabled(s, TakeAnswer(r, reply, at))
    ensures PassInv(AnswerStep(s, r, reply, at))
  {
    CallOfRun(s, r);
    ProgressAnswers(s.q.cfg, s.q.objects[r], s.calls[r], reply, at);
    AnswerShape(s, r, reply, at, Take(s.q.cfg, s.q.objects[r], s.calls[r].waiting.value, reply, at));
    OneCallMoves(s, AnswerStep(s, r, reply, at), r);
  }

  lemma SelectKeepsPasses(s: System, now: Time)
    requires StoreOk(s) && CallInv(s) && PassInv(s) && InTable(s.q, s.q.buffer)
    ensures PassInv(SelectStep(s, now))
  {
    BufferDistinct(s.q);
    ExpiryEffect(s.q, s.q.buffer, now);
  }

  lemma QuietKeepsPasses(s: System, a: Action)
    requires CallInv(s) && PassInv(s) && Enabled(s, a) && Quiet(a)
    ensures PassInv(Apply(s, a))
  {
    QuietKeepsOutcomes(s, a);
    QuietCalls(s, a);
  }

  lemma QuietCalls(s: System, a: Action)
    requires Enabled(s, a) && Quiet(a)
    ensures Apply(s, a).calls == s.calls && Apply(s, a).q.cfg == s.q.cfg
  {
    if a.Hydrate? && a.locked && Persists(s.q) {
      HydrationShape(s.q, NextKeysOf(s.q), a.newIds);
    } else if a.Sweep? && a.writeLocked {
      SweepEffect(s.q, s.thread.list[..a.upto]);
    }
  }

  lemma EndKeepsPasses(s: System, r: nat)
    requires PassInv(s) && Calling(s, r) && forall t :: t in s.calls ==> t < |s.q.objects|
    ensures PassInv(EndStep(s, r))
  {
    OneCallMoves(s, EndStep(s, r), r);
  }

  lemma PassStep(s: System, a: Action)
    requires StoreOk(s) && CallInv(s) && PassInv(s) && Enabled(s, a)
    ensures PassInv(Apply(s, a))
  {
    if Quiet(a) {
      QuietKeepsPasses(s, a);
    } else if a.Select? {
      if a.locked {
        SelectKeepsPasses(s, a.now);
      }
    } else if !a.Restart? {
      DeliveryPassStep(s, a);
    }
  }

  lemma DeliveryPassStep(s: System, a: Action)
    requires CallInv(s) && PassInv(s) && Enabled(s, a) && (a.Begin? || a.SendNext? || a.TakeAnswer? || a.EndPass?)
    ensures PassInv(Apply(s, a))
  {
    match a
    case Begin(order) => BeginKeepsPasses(s, s.thread.top.value, order);
    case SendNext(r) => SendKeepsPasses(s, r);
    case TakeAnswer(r, reply, at) => AnswerKeepsPasses(s, r, reply, at);
    case EndPass(r) => EndKeepsPasses(s, r);
  }

  lemma {:induction false} PassRun(s: System, actions: seq<Action>)
    requires Inv(s) && PassInv(s) && Run(s, actions)
    ensures Inv(Reached(s, actions)) && PassInv(Reached(s, actions))
    decreases |actions|
  {
    if actions != [] {
      PassStep(s, actions[0]);
      StepInv(s, actions[0]);
      PassRun(Apply(s, actions[0]), actions[1..]);
    }
  }

  lemma ReachablePasses(s: System)
    requires Reachable(s)
    ensures CallInv(s) && PassInv(s)
  {
    var cfg, disk, stats, actions :|
      WellKeyed(disk) && Run(Booted(cfg, disk, stats), actions) && s == Reached(Booted(cfg, disk, stats), actions);
    BootInv(cfg, disk, stats);
    PassRun(Booted(cfg, disk, stats), actions);
  }

  /** Action `a` ends call `r` and leaves its message as `m1`: as the pass does that got the answers the call got,
      up to and including this one, or was stopped here, or was judged by the running flag and subscribers of now. */
  ghost predicate EndedAsPass(s: System, a: Action, r: nat, m1: Message)
    requires r in s.calls
  {
    var m := m1.(state := OutForDelivery);
    match a
    case EndPass(_) => FullPass(s.q.cfg, s.calls[r], s.q.running, s.q.subscribers, m, m1.state)
    case TakeAnswer(_, reply, at) => CutPass(s.q.cfg, s.calls[r], Turn(true, reply, at), m, m1.state)
    case SendNext(_) => !s.q.running && CutPass(s.q.cfg, s.calls[r], STOPPED, m, m1.state)
    case _ => false
  }

  /** Only the call's own steps end it. */
  lemma EndsItself(s: System, a: Action, r: nat)
    requires CallInv(s) && Enabled(s, a) && !a.Restart? && r in s.calls && r !in Apply(s, a).calls
    ensures (a.SendNext? || a.TakeAnswer? || a.EndPass?) && a.r == r
  {
    if Quiet(a) {
      QuietCalls(s, a);
    } else if a.Begin? {
      BeginKeepsOthers(s, s.thread.top.value, a.order, r);
    } else if a.TakeAnswer? && a.r != r {
      AnswerKeepsOthers(s, a.r, a.reply, a.at, r);
    }
  }

  lemma AnswerKeepsOthers(s: System, t: nat, reply: Reply, at: Time, r: nat)
    requires Enabled(s, TakeAnswer(t, reply, at)) && r in s.calls && r != t
    ensures r in AnswerStep(s, t, reply, at).calls
  {
  }

  lemma BeginKeepsOthers(s: System, t: nat, order: seq<Guid>, r: nat)
    requires CallInv(s) && t < |s.q.objects| && s.q.objects[t].state == Ready && r in s.calls
    ensures r in BeginStep(s, t, order).calls
  {
  }

  /** However it is interleaved, a delivery call is one pass: whatever action ends it, the message is left as
      `Pass` leaves it for the call's opening snapshot, the answers that came and, if everybody was asked, the
      subscribers and the running flag of that moment; and the state it gets is the verdict of that pass. */
  lemma DeliveriesArePasses(s: System, a: Action, r: nat)
    requires Reachable(s) && Enabled(s, a) && !a.Restart? && r in s.calls && r !in Apply(s, a).calls
    ensures r < |Apply(s, a).q.objects| && EndedAsPass(s, a, r, Apply(s, a).q.objects[r])
  {
    ReachablePasses(s);
    CallOfRun(s, r);
    EndsItself(s, a, r);
    CallEnds(s, a);
  }

  lemma CallEnds(s: System, a: Action)
    requires Enabled(s, a) && (a.SendNext? || a.TakeAnswer? || a.EndPass?) && a.r !in Apply(s, a).calls
    requires s.calls[a.r].order != [] && Progress(s.q.cfg, s.q.objects[a.r], s.calls[a.r])
    requires s.q.objects[a.r].state == OutForDelivery
    ensures a.r < |Apply(s, a).q.objects| && EndedAsPass(s, a, a.r, Apply(s, a).q.objects[a.r])
  {
    match a
    case SendNext(r) => StopEnds(s, r);
    case TakeAnswer(r, reply, at) => AnswerEndsCall(s, r, reply, at);
    case EndPass(r) => LoopEnds(s, r);
  }

  lemma StopEnds(s: System, r: nat)
    requires Calling(s, r) && s.calls[r].todo != [] && s.calls[r].waiting == None && s.calls[r].order != []
    requires Progress(s.q.cfg, s.q.objects[r], s.calls[r]) && r !in SendStep(s, r).calls
    requires s.q.objects[r].state == OutForDelivery
    ensures r < |SendStep(s, r).q.objects| && EndedAsPass(s, SendNext(r), r, SendStep(s, r).q.objects[r])
  {
    ProgressStops(s.q.cfg, s.q.objects[r], s.calls[r]);
    assert !s.q.running;
    assert SendStep(s, r).q.objects[r] == s.q.objects[r].(state := Shutdown);
    assert s.q.objects[r] == SendStep(s, r).q.objects[r].(state := OutForDelivery);
  }

  lemma AnswerEndsCall(s: System, r: nat, reply: Reply, at: Time)
    requires Calling(s, r) && s.calls[r].waiting.Some? && s.calls[r].order != []
    requires Progress(s.q.cfg, s.q.objects[r], s.calls[r]) && r !in AnswerStep(s, r, reply, at).calls
    requires s.q.objects[r].state == OutForDelivery
    ensures r < |AnswerStep(s, r, reply, at).q.objects|
    ensures EndedAsPass(s, TakeAnswer(r, reply, at), r, AnswerStep(s, r, reply, at).q.objects[r])
  {
    var taken := Take(s.q.cfg, s.q.objects[r], s.calls[r].waiting.value, reply, at);
    AnswerShape(s, r, reply, at, taken);
    ProgressAnswers(s.q.cfg, s.q.objects[r], s.calls[r], reply, at);
    assert taken.outcome.Return?;
    assert taken.message == AnswerStep(s, r, reply, at).q.objects[r].(state := OutForDelivery);
  }

  lemma LoopEnds(s: System, r: nat)
    requires Enabled(s, EndPass(r)) && s.calls[r].order != [] && Progress(s.q.cfg, s.q.objects[r], s.calls[r])
    requires s.q.objects[r].state == OutForDelivery
    ensures r < |EndStep(s, r).q.objects| && EndedAsPass(s, EndPass(r), r, EndStep(s, r).q.objects[r])
  {
    var m1 := EndStep(s, r).q.objects[r];
    ProgressEnds(s.q.cfg, s.q.objects[r], s.calls[r], s.q.running, s.q.subscribers);
    assert s.q.objects[r] == m1.(state := OutForDelivery);
  }

  // ---------- verdicts of a run ----------

  /** The call asked everybody of its opening snapshot, somebody did not fail, and nobody who is subscribed now is
      still owed the message. */
  ghost predicate Completed(s: System, a: Action, r: nat, m1: Message)
    requires r in s.calls
  {
    var c := s.calls[r];
    && a.EndPass? && s.q.running && Remaining(m1, s.q.subscribers) == {} && |c.turns| == |c.order|
    && exists i :: 0 <= i < |c.order| && c.order[i] !in FailedOnes(c.order, c.turns)
  }

  /** Why the message got its new state when action `a` ended call `r`. */
  ghost predicate VerdictEarned(s: System, a: Action, r: nat, m1: Message)
    requires r in s.calls
  {
    var c, cfg := s.calls[r], s.q.cfg;
    match m1.state
    case Drop =>
      || (a.TakeAnswer? && (a.reply == RequestDrop || (a.reply == Consumed && cfg.consumption == FirstConsumedSubscriber)))
      || (Completed(s, a, r, m1) && (m1.limitReached == {} || cfg.dlq.None?))
    case DeadLetter =>
      || (a.TakeAnswer? && a.reply == RequestDeadLetter)
      || (Completed(s, a, r, m1) && m1.limitReached != {} && cfg.dlq.Some?)
    case Shutdown => !s.q.running && (a.SendNext? || a.EndPass?)
    case Ready =>
      || (a.TakeAnswer? && a.reply.Defer?)
      || (a.EndPass? && s.q.running
          && ((|c.turns| == |c.order| && SetOf(c.order) == FailedOnes(c.order, c.turns))
              || Remaining(m1, s.q.subscribers) != {}))
    case OutForDelivery => false
  }

  /** Verdict soundness on runs: in every reachable state, whatever ends a delivery call gives its message a state
      that the answers received, the running flag and the subscribers of that moment call for. */
  lemma VerdictsOnRuns(s: System, a: Action, r: nat)
    requires Reachable(s) && Enabled(s, a) && !a.Restart? && r in s.calls && r !in Apply(s, a).calls
    ensures r < |Apply(s, a).q.objects| && VerdictEarned(s, a, r, Apply(s, a).q.objects[r])
  {
    ReachablePasses(s);
    CallOfRun(s, r);
    EndsItself(s, a, r);
    CallVerdict(s, a);
  }

  lemma CallVerdict(s: System, a: Action)
    requires Enabled(s, a) && (a.SendNext? || a.TakeAnswer? || a.EndPass?) && a.r !in Apply(s, a).calls
    requires s.calls[a.r].order != [] && Progress(s.q.cfg, s.q.objects[a.r], s.calls[a.r])
    ensures a.r < |Apply(s, a).q.objects| && VerdictEarned(s, a, a.r, Apply(s, a).q.objects[a.r])
  {
    match a
    case SendNext(r) =>
    case TakeAnswer(r, reply, at) => AnswerVerdict(s, r, reply, at);
    case EndPass(r) => ClosingVerdictEarned(s, r);
  }

  lemma AnswerVerdict(s: System, r: nat, reply: Reply, at: Time)
    requires Enabled(s, TakeAnswer(r, reply, at)) && r !in AnswerStep(s, r, reply, at).calls
    ensures r < |AnswerStep(s, r, reply, at).q.objects|
    ensures VerdictEarned(s, TakeAnswer(r, reply, at), r, AnswerStep(s, r, reply, at).q.objects[r])
  {
    AnswerShape(s, r, reply, at, Take(s.q.cfg, s.q.objects[r], s.calls[r].waiting.value, reply, at));
  }

  lemma ClosingVerdictEarned(s: System, r: nat)
    requires Enabled(s, EndPass(r)) && s.calls[r].order != [] && Progress(s.q.cfg, s.q.objects[r], s.calls[r])
    ensures r < |EndStep(s, r).q.objects| && VerdictEarned(s, EndPass(r), r, EndStep(s, r).q.objects[r])
  {
    var c, m, m1 := s.calls[r], s.q.objects[r], EndStep(s, r).q.objects[r];
    ProgressEnds(s.q.cfg, m, c, s.q.running, s.q.subscribers);
    assert m1 == m.(state := ClosingVerdict(s.q.cfg, m, SetOf(c.order), c.failures, s.q.running, s.q.subscribers));
    var lost := FailedOnes(c.order, c.turns);
    assert lost <= SetOf(c.order);
    if SetOf(c.order) - lost != {} {
      var x :| x in SetOf(c.order) - lost;
      var i :| 0 <= i < |c.order| && c.order[i] == x;
    } else {
      assert forall x :: x in SetOf(c.order) ==> x in lost || x in SetOf(c.order) - lost;
    }
  }

  /** ... and a message picked when nobody is owed it gets its state at once: Drop if anybody consumed it. */
  lemma UnaskedVerdict(s: System, order: seq<Guid>)
    requires Reachable(s) && Enabled(s, Begin(order))
    ensures var r, s1 := s.thread.top.value, Apply(s, Begin(order));
      var m := s.q.objects[r];
      && (Remaining(m, s.q.subscribers) == {} <==> r !in s1.calls)
      && (r !in s1.calls ==> s1.q.objects[r] == m.(state := if m.consumed != {} then Drop else DeadLetter))
  {
    ReachablePasses(s);
    EmptyListed(order);
    if order == [] {
      NobodyShape(s, s.thread.top.value);
    }
  }
}
