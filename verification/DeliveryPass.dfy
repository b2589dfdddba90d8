/** One delivery pass: a message is offered to its remaining subscribers one after the other,
    the replies are folded into its per-subscriber sets and counters, and a verdict is returned. */
module DeliveryPass {
  import opened Messages

  // ---------- one offer ----------

  datatype Outcome = Continue(failed: bool) | Return(verdict: MessageState)
  datatype Taken = Taken(message: Message, outcome: Outcome)

  function Attempts(m: Message, s: Guid): nat {
    if s in m.attempts then m.attempts[s] else 0
  }

  function Complete(m: Message): set<Guid> {
    m.limitReached + m.satisfied
  }

  function Remaining(m: Message, subscribers: set<Guid>): set<Guid> {
    subscribers - Complete(m)
  }

  /** The attempt is counted before the query is sent. */
  function Send(m: Message, s: Guid): Message {
    m.(attempts := m.attempts[s := Attempts(m, s) + 1])
  }

  /** Replies after which the loop goes on with the next subscriber. */
  predicate Continues(cfg: Config, reply: Reply) {
    match reply
    case Consumed => cfg.consumption == AllSubscribersSatisfied
    case Defer(_) => false
    case RequestDeadLetter => false
    case RequestDrop => false
    case _ => true
  }

  predicate Fails(reply: Reply) {
    reply == Failed || reply == Unexpected
  }

  predicate Satisfies(reply: Reply) {
    reply == Consumed || reply == NotInterested
  }

  function CheckLimit(cfg: Config, m: Message, s: Guid): Message {
    if cfg.maxAttempts > 0 && Attempts(m, s) >= cfg.maxAttempts && s !in m.satisfied
    then m.(limitReached := m.limitReached + {s})
    else m
  }

  function Postpone(m: Message, duration: Option<Duration>, now: Time): Message {
    var until := if duration.Some? then Some(now + duration.value) else None;
    m.(rec := m.rec.(deferredUntil := until, deferDuration := duration, deferredCount := m.rec.deferredCount + 1))
  }

  /** The effect of subscriber `s` answering `reply` at time `now`. */
  function Take(cfg: Config, m: Message, s: Guid, reply: Reply, now: Time): Taken {
    match reply
    case Consumed =>
      var m1 := m.(satisfied := m.satisfied + {s}, consumed := m.consumed + {s});
      if cfg.consumption == FirstConsumedSubscriber then Taken(m1, Return(Drop))
      else Taken(CheckLimit(cfg, m1, s), Continue(false))
    case NotInterested =>
      Taken(CheckLimit(cfg, m.(satisfied := m.satisfied + {s}), s), Continue(false))
    case NotConsumed => Taken(CheckLimit(cfg, m, s), Continue(false))
    case Defer(duration) => Taken(Postpone(m, duration, now), Return(Ready))
    case RequestDeadLetter => Taken(m, Return(DeadLetter))
    case RequestDrop => Taken(m, Return(Drop))
    case Unexpected => Taken(CheckLimit(cfg, m, s), Continue(true))
    case Failed => Taken(CheckLimit(cfg, m, s), Continue(true))
  }

  /** What an answer does to the record, spelled out: only a deferral changes it, counting one more and setting the
      time before which the message is not to be delivered again; a deferral without a duration sets none. */
  lemma RecordAfter(cfg: Config, m: Message, s: Guid, reply: Reply, now: Time)
    ensures var rec, rec1 := m.rec, Take(cfg, m, s, reply, now).message.rec;
      match reply
      case Defer(duration) =>
        && rec1.deferredUntil == (match duration case None => None case Some(d) => Some(now + d))
        && rec1.deferDuration == duration && rec1.deferredCount == rec.deferredCount + 1
        && rec1.serial == rec.serial && rec1.queueName == rec.queueName && rec1.messageId == rec.messageId
        && rec1.timestamp == rec.timestamp && rec1.typeName == rec.typeName && rec1.body == rec.body
      case _ => rec1 == rec
  {
  }

  function CountReply(st: Statistics, reply: Reply): Statistics {
    match reply
    case Failed => st.(failed := st.failed + 1)
    case Unexpected => st.(delivered := st.delivered + 1, failed := st.failed + 1)
    case Defer(_) => st.(delivered := st.delivered + 1, deferred := st.deferred + 1)
    case RequestDeadLetter => st.(delivered := st.delivered + 1, explicitDeadLetter := st.explicitDeadLetter + 1)
    case RequestDrop => st.(delivered := st.delivered + 1, explicitDrop := st.explicitDrop + 1)
    case _ => st.(delivered := st.delivered + 1)
  }

  // ---------- the history of a message ----------

  /** Every answered offer of one message since it was put in memory, the latest outermost.
      It is the independent account the in-memory sets are compared with. */
  datatype History = Nothing | Then(prior: History, subscriber: Guid, reply: Reply)

  function Offers(h: History, s: Guid): nat {
    match h
    case Nothing => 0
    case Then(p, t, _) => Offers(p, s) + (if t == s then 1 else 0)
  }

  function UndeferredOffers(h: History, s: Guid): nat {
    match h
    case Nothing => 0
    case Then(p, t, r) => UndeferredOffers(p, s) + (if t == s && !r.Defer? then 1 else 0)
  }

  function SatisfiedIn(h: History): set<Guid> {
    match h
    case Nothing => {}
    case Then(p, t, r) => if Satisfies(r) then SatisfiedIn(p) + {t} else SatisfiedIn(p)
  }

  function ConsumedIn(h: History): set<Guid> {
    match h
    case Nothing => {}
    case Then(p, t, r) => if r == Consumed then ConsumedIn(p) + {t} else ConsumedIn(p)
  }

  /** Subscribers some loop-continuing offer found at the limit without having been satisfied. */
  function ExhaustedIn(cfg: Config, h: History): set<Guid> {
    match h
    case Nothing => {}
    case Then(p, t, r) =>
      if Continues(cfg, r) && cfg.maxAttempts > 0 && Offers(h, t) >= cfg.maxAttempts && t !in SatisfiedIn(h)
      then ExhaustedIn(cfg, p) + {t}
      else ExhaustedIn(cfg, p)
  }

  /** The last reply settled the fate of the message. */
  predicate Ended(cfg: Config, h: History) {
    h.Then? && (h.reply == RequestDrop || h.reply == RequestDeadLetter
                || (h.reply == Consumed && cfg.consumption == FirstConsumedSubscriber))
  }

  /** Every offer went to a subscriber that was not yet complete, and none followed a settling reply. */
  ghost predicate Valid(cfg: Config, h: History) {
    match h
    case Nothing => true
    case Then(p, t, _) => Valid(cfg, p) && !Ended(cfg, p) && t !in SatisfiedIn(p) + ExhaustedIn(cfg, p)
  }

  /** The in-memory fields of `m` are what history `h` (plus a pending query) says they are. */
  ghost predicate Mirrors(cfg: Config, m: Message, h: History, pending: Option<Guid>) {
    && m.satisfied == SatisfiedIn(h)
    && m.consumed == ConsumedIn(h)
    && m.limitReached == ExhaustedIn(cfg, h)
    && forall s: Guid :: Attempts(m, s) == Offers(h, s) + (if pending == Some(s) then 1 else 0)
  }

  lemma FreshMirrorsNothing(cfg: Config, rec: Record)
    ensures Mirrors(cfg, Fresh(rec), Nothing, None)
  {
  }

  lemma SendMirrors(cfg: Config, m: Message, h: History, s: Guid)
    requires Mirrors(cfg, m, h, None)
    ensures Mirrors(cfg, Send(m, s), h, Some(s))
  {
  }

  /** The branches of `Take` record exactly what the history functions read off the reply. */
  lemma TakeMirrors(cfg: Config, m: Message, h: History, s: Guid, reply: Reply, now: Time)
    requires Mirrors(cfg, m, h, Some(s))
    ensures Mirrors(cfg, Take(cfg, m, s, reply, now).message, Then(h, s, reply), None)
    ensures Take(cfg, m, s, reply, now).outcome.Continue? == Continues(cfg, reply)
  {
    var h1 := Then(h, s, reply);
    var m1 := Take(cfg, m, s, reply, now).message;
    assert m1.attempts == m.attempts;
    assert Attempts(m, s) == Offers(h1, s);
    forall t: Guid ensures Attempts(m1, t) == Offers(h1, t) {
      assert Attempts(m1, t) == Attempts(m, t);
    }
  }

  /** Satisfied and limit-reached subscribers are never the same; consuming is one way of being satisfied. */
  lemma {:induction false} CompletedSetsAgree(cfg: Config, h: History)
    requires Valid(cfg, h)
    ensures SatisfiedIn(h) !! ExhaustedIn(cfg, h)
    ensures ConsumedIn(h) <= SatisfiedIn(h)
    ensures forall s :: s in ExhaustedIn(cfg, h) ==> 0 < cfg.maxAttempts <= Offers(h, s)
  {
    if h.Then? {
      CompletedSetsAgree(cfg, h.prior);
    }
  }

  lemma {:induction false} UndeferredAtMostOffers(h: History, s: Guid)
    ensures UndeferredOffers(h, s) <= Offers(h, s)
  {
    if h.Then? {
      UndeferredAtMostOffers(h.prior, s);
    }
  }

  /** Attempts not answered Defer never exceed the limit. */
  lemma {:induction false} AttemptBound(cfg: Config, h: History, s: Guid)
    requires Valid(cfg, h) && cfg.maxAttempts > 0
    ensures UndeferredOffers(h, s) <= cfg.maxAttempts
    ensures !Ended(cfg, h) && s !in SatisfiedIn(h) + ExhaustedIn(cfg, h) ==> UndeferredOffers(h, s) < cfg.maxAttempts
  {
    if h.Then? {
      AttemptBound(cfg, h.prior, s);
      UndeferredAtMostOffers(h, s);
    }
  }

  function Deferrals(n: nat, s: Guid): History {
    if n == 0 then Nothing else Then(Deferrals(n - 1, s), s, Defer(Some(0)))
  }

  /** The configuration's comment says the limit includes deferred deliveries. It does not: whatever the
      limit, one subscriber can be offered the same message any number of times by deferring it. */
  lemma {:induction false} DeferralsEscapeTheLimit(cfg: Config, s: Guid, n: nat)
    ensures Valid(cfg, Deferrals(n, s)) && Offers(Deferrals(n, s), s) == n
    ensures SatisfiedIn(Deferrals(n, s)) + ExhaustedIn(cfg, Deferrals(n, s)) == {} && !Ended(cfg, Deferrals(n, s))
  {
    if n > 0 {
      DeferralsEscapeTheLimit(cfg, s, n - 1);
    }
  }

  /** The `k`-th offer to `s` was answered Defer. */
  predicate DeferredAt(h: History, s: Guid, k: nat) {
    match h
    case Nothing => false
    case Then(p, t, r) => DeferredAt(p, s, k) || (t == s && r.Defer? && Offers(h, s) == k)
  }

  /** Exactly when the documented limit breaks: a subscriber that may still be offered the message has
      used up its attempts iff the attempt that reached the limit was answered Defer. */
  lemma {:induction false} LimitBreaksExactly(cfg: Config, h: History, s: Guid)
    requires Valid(cfg, h) && cfg.maxAttempts > 0
    ensures Offers(h, s) > cfg.maxAttempts ==> DeferredAt(h, s, cfg.maxAttempts)
    ensures !Ended(cfg, h) && s !in SatisfiedIn(h) + ExhaustedIn(cfg, h) ==>
              (Offers(h, s) >= cfg.maxAttempts <==> DeferredAt(h, s, cfg.maxAttempts))
  {
    if h.Then? {
      LimitBreaksExactly(cfg, h.prior, s);
      DeferredOffersHappened(h.prior, s, cfg.maxAttempts);
    }
  }

  lemma {:induction false} DeferredOffersHappened(h: History, s: Guid, k: nat)
    ensures DeferredAt(h, s, k) ==> Offers(h, s) >= k
  {
    if h.Then? {
      DeferredOffersHappened(h.prior, s, k);
    }
  }

  /** Under FirstConsumedSubscriber at most one subscriber ever consumes, and nothing follows it. */
  lemma {:induction false} OneConsumer(cfg: Config, h: History)
    requires Valid(cfg, h) && cfg.consumption == FirstConsumedSubscriber
    ensures |ConsumedIn(h)| <= 1
    ensures ConsumedIn(h) != {} ==> h.Then? && h.reply == Consumed && ConsumedIn(h) == {h.subscriber}
  {
    if h.Then? {
      OneConsumer(cfg, h.prior);
    }
  }

  // ---------- the whole pass ----------

  /** What the environment does around one offer: is the queue still running when the loop gets to the
      subscriber, what does the subscriber answer, and when. */
  datatype Turn = Turn(running: bool, reply: Reply, now: Time)
  datatype LoopEnd = LoopEnd(message: Message, failures: set<Guid>, returned: Option<MessageState>)
  datatype PassEnd = PassEnd(message: Message, verdict: MessageState)

  function SetOf(xs: seq<Guid>): set<Guid> {
    set x | x in xs
  }

  predicate Distinct(xs: seq<Guid>) {
    forall i, j :: 0 <= i < j < |xs| ==> xs[i] != xs[j]
  }

  lemma EmptyListed(xs: seq<Guid>)
    ensures xs == [] <==> SetOf(xs) == {}
  {
    if xs != [] {
      assert xs[0] in SetOf(xs);
    }
  }

  /** `order` lists the set `ids`, each once. */
  predicate Lists(order: seq<Guid>, ids: set<Guid>) {
    Distinct(order) && SetOf(order) == ids
  }

  function OfferAll(cfg: Config, m: Message, todo: seq<Guid>, turns: seq<Turn>, failures: set<Guid>): LoopEnd
    requires |turns| == |todo|
    decreases |todo|
  {
    if todo == [] then LoopEnd(m, failures, None)
    else if !turns[0].running then LoopEnd(m, failures, Some(Shutdown))
    else
      var t := Take(cfg, Send(m, todo[0]), todo[0], turns[0].reply, turns[0].now);
      match t.outcome
      case Return(v) => LoopEnd(t.message, failures, Some(v))
      case Continue(failed) =>
        OfferAll(cfg, t.message, todo[1..], turns[1..], if failed then failures + {todo[0]} else failures)
  }

  /** Nobody is left to be offered the message when the pass starts. */
  function OpeningVerdict(m: Message): MessageState {
    if m.consumed != {} then Drop else DeadLetter
  }

  function ClosingVerdict(cfg: Config, m: Message, offered: set<Guid>, failures: set<Guid>, running: bool, closing: set<Guid>)
    : MessageState
  {
    if !running then Shutdown
    else if offered - failures == {} then Ready
    else if Remaining(m, closing) == {} then
      if m.limitReached != {} && cfg.dlq.Some? then DeadLetter else Drop
    else Ready
  }

  /** `order` is the opening snapshot of the remaining subscribers, `closing` the subscribers at the end. */
  function Pass(cfg: Config, m: Message, order: seq<Guid>, turns: seq<Turn>, running: bool, closing: set<Guid>): PassEnd
    requires |turns| == |order|
  {
    if order == [] then PassEnd(m, OpeningVerdict(m))
    else
      var end := OfferAll(cfg, m, order, turns, {});
      match end.returned
      case Some(v) => PassEnd(end.message, v)
      case None => PassEnd(end.message, ClosingVerdict(cfg, end.message, SetOf(order), end.failures, running, closing))
  }

  function FailedOnes(todo: seq<Guid>, turns: seq<Turn>): set<Guid>
    requires |turns| == |todo|
  {
    set i | 0 <= i < |todo| && Fails(turns[i].reply) :: todo[i]
  }

  /** How the loop ends, by the first turn that does not continue. */
  lemma {:induction false} LoopEndsFor(cfg: Config, m: Message, todo: seq<Guid>, turns: seq<Turn>, failures: set<Guid>)
    requires |turns| == |todo|
    ensures var end := OfferAll(cfg, m, todo, turns, failures);
      match end.returned
      case None =>
        && (forall i :: 0 <= i < |turns| ==> turns[i].running && Continues(cfg, turns[i].reply))
        && end.failures == failures + FailedOnes(todo, turns)
      case Some(v) =>
        exists i :: 0 <= i < |turns| && EndsWith(cfg, turns[i], v)
    decreases |todo|
  {
    if todo != [] && turns[0].running {
      var t := Take(cfg, Send(m, todo[0]), todo[0], turns[0].reply, turns[0].now);
      if t.outcome.Continue? {
        var f1 := if t.outcome.failed then failures + {todo[0]} else failures;
        LoopEndsFor(cfg, t.message, todo[1..], turns[1..], f1);
        var end := OfferAll(cfg, t.message, todo[1..], turns[1..], f1);
        if end.returned.None? {
          forall i | 0 <= i < |turns| ensures turns[i].running && Continues(cfg, turns[i].reply) {
            assert i > 0 ==> turns[i] == turns[1..][i - 1];
          }
          FailedOnesFirst(todo, turns);
        } else {
          var i :| 0 <= i < |turns[1..]| && EndsWith(cfg, turns[1..][i], end.returned.value);
          assert EndsWith(cfg, turns[i + 1], end.returned.value);
        }
      } else {
        assert EndsWith(cfg, turns[0], t.outcome.verdict);
      }
    } else if todo != [] {
      assert EndsWith(cfg, turns[0], Shutdown);
    }
  }

  lemma FailedOnesFirst(todo: seq<Guid>, turns: seq<Turn>)
    requires |turns| == |todo| > 0
    ensures FailedOnes(todo, turns)
         == (if Fails(turns[0].reply) then {todo[0]} else {}) + FailedOnes(todo[1..], turns[1..])
  {
    var rest := FailedOnes(todo[1..], turns[1..]);
    forall x | x in FailedOnes(todo, turns) ensures (x == todo[0] && Fails(turns[0].reply)) || x in rest {
      var i :| 0 <= i < |todo| && Fails(turns[i].reply) && todo[i] == x;
      assert i > 0 ==> todo[i] == todo[1..][i - 1] && turns[i] == turns[1..][i - 1];
    }
    forall x | x in rest ensures x in FailedOnes(todo, turns) {
      var i :| 0 <= i < |todo[1..]| && Fails(turns[1..][i].reply) && todo[1..][i] == x;
      assert todo[i + 1] == x && turns[i + 1] == turns[1..][i];
    }
  }

  /** The reply (or the stop) that makes the loop return `v` early. */
  predicate EndsWith(cfg: Config, turn: Turn, v: MessageState) {
    match v
    case Shutdown => !turn.running
    case Ready => turn.running && turn.reply.Defer?
    case DeadLetter => turn.running && turn.reply == RequestDeadLetter
    case Drop => turn.running && (turn.reply == RequestDrop
                                  || (turn.reply == Consumed && cfg.consumption == FirstConsumedSubscriber))
    case OutForDelivery => false
  }

  /** Verdict soundness, one clause a verdict: a pass drops or dead-letters only for the listed reasons. */
  lemma VerdictSound(cfg: Config, m: Message, order: seq<Guid>, turns: seq<Turn>, running: bool, closing: set<Guid>)
    requires |turns| == |order|
    ensures var end := Pass(cfg, m, order, turns, running, closing);
      var asked := exists i :: 0 <= i < |turns| && EndsWith(cfg, turns[i], end.verdict);
      var completed := order != [] && running && Remaining(end.message, closing) == {}
                       && exists i :: 0 <= i < |order| && order[i] !in FailedOnes(order, turns);
      match end.verdict
      case Drop =>
        || asked
        || (order == [] && m.consumed != {})
        || (completed && (end.message.limitReached == {} || cfg.dlq.None?))
      case DeadLetter =>
        || asked
        || (order == [] && m.consumed == {})
        || (completed && end.message.limitReached != {} && cfg.dlq.Some?)
      case Shutdown => asked || !running
      case Ready =>
        || asked
        || SetOf(order) == FailedOnes(order, turns)
        || Remaining(end.message, closing) != {}
      case OutForDelivery => false
  {
    LoopEndsFor(cfg, m, order, turns, {});
    var lost := FailedOnes(order, turns);
    assert lost <= SetOf(order);
    if SetOf(order) - lost != {} {
      var x :| x in SetOf(order) - lost;
      var i :| 0 <= i < |order| && order[i] == x;
    } else {
      assert forall x :: x in SetOf(order) ==> x in lost || x in SetOf(order) - lost;
    }
  }

  /** This reply takes the subscriber to the limit without satisfying it. */
  predicate Exhausts(cfg: Config, m: Message, s: Guid, reply: Reply) {
    cfg.maxAttempts > 0 && Attempts(m, s) + 1 >= cfg.maxAttempts && !Satisfies(reply)
  }

  /** Over a loop that asks everybody, the limit is newly reached by exactly the subscribers whose reply exhausts
      them, and satisfied newly are exactly those whose reply says so. */
  lemma {:induction false} LoopLimits(cfg: Config, m: Message, todo: seq<Guid>, turns: seq<Turn>, failures: set<Guid>, s: Guid)
    requires |turns| == |todo| && Distinct(todo) && SetOf(todo) !! m.satisfied
    requires forall i :: 0 <= i < |turns| ==> turns[i].running && Continues(cfg, turns[i].reply)
    ensures var m1 := OfferAll(cfg, m, todo, turns, failures).message;
      && (s in m1.limitReached <==>
            s in m.limitReached || exists i :: 0 <= i < |todo| && todo[i] == s && Exhausts(cfg, m, s, turns[i].reply))
      && (s in m1.satisfied <==> s in m.satisfied || exists i :: 0 <= i < |todo| && todo[i] == s && Satisfies(turns[i].reply))
    decreases |todo|
  {
    if todo != [] {
      var s0, t0 := todo[0], turns[0];
      var t := Take(cfg, Send(m, s0), s0, t0.reply, t0.now);
      FirstAndRest(todo);
      assert s0 in SetOf(todo);
      LoopLimits(cfg, t.message, todo[1..], turns[1..], if t.outcome.failed then failures + {s0} else failures, s);
      assert s != s0 ==> Attempts(t.message, s) == Attempts(m, s);
      SameLater(cfg, m, t.message, todo, turns, s);
    }
  }

  /** Only the first subscriber's attempts change in its own turn. */
  lemma SameLater(cfg: Config, m: Message, m1: Message, todo: seq<Guid>, turns: seq<Turn>, s: Guid)
    requires |turns| == |todo| > 0 && todo[0] !in SetOf(todo[1..])
    requires s != todo[0] ==> Attempts(m1, s) == Attempts(m, s)
    ensures (exists i :: 0 <= i < |todo| && todo[i] == s && Exhausts(cfg, m, s, turns[i].reply)) <==>
              (s == todo[0] && Exhausts(cfg, m, s, turns[0].reply))
              || exists i :: 0 <= i < |todo[1..]| && todo[1..][i] == s && Exhausts(cfg, m1, s, turns[1..][i].reply)
    ensures (exists i :: 0 <= i < |todo| && todo[i] == s && Satisfies(turns[i].reply)) <==>
              (s == todo[0] && Satisfies(turns[0].reply))
              || exists i :: 0 <= i < |todo[1..]| && todo[1..][i] == s && Satisfies(turns[1..][i].reply)
  {
    assert forall i :: 0 <= i < |todo[1..]| ==> todo[1..][i] == todo[i + 1] && turns[1..][i] == turns[i + 1];
    assert forall i :: 0 < i < |todo| ==> todo[i] == todo[1..][i - 1] && turns[i] == turns[1..][i - 1];
    assert forall i :: 0 <= i < |todo[1..]| ==> todo[1..][i] in SetOf(todo[1..]);
  }

  /** Somebody is at the limit when a pass that asks everybody is over. */
  ghost predicate SomebodyExhausted(cfg: Config, m: Message, order: seq<Guid>, turns: seq<Turn>)
    requires |turns| == |order|
  {
    m.limitReached != {} || exists i :: 0 <= i < |order| && Exhausts(cfg, m, order[i], turns[i].reply)
  }

  /** The comment at the closing verdict promises that a message with any failed delivery is retained in the
      dead-letter queue. When exactly a finished message is, for every pass that is not cut short by a reply or a
      stop: if there was anybody to ask, when somebody has reached the limit; if not, when nobody consumed it. */
  lemma RetentionExact(cfg: Config, m: Message, order: seq<Guid>, turns: seq<Turn>, running: bool, closing: set<Guid>)
    requires |turns| == |order| && Distinct(order) && SetOf(order) !! Complete(m) && cfg.dlq.Some?
    requires forall i :: 0 <= i < |turns| ==> turns[i].running && Continues(cfg, turns[i].reply)
    requires Terminal(Pass(cfg, m, order, turns, running, closing).verdict)
    ensures Pass(cfg, m, order, turns, running, closing).verdict == DeadLetter <==>
              if order == [] then m.consumed == {} else SomebodyExhausted(cfg, m, order, turns)
  {
    LoopEndsFor(cfg, m, order, turns, {});
    if order != [] {
      ExhaustedAtEnd(cfg, m, order, turns);
    }
  }

  lemma ExhaustedAtEnd(cfg: Config, m: Message, order: seq<Guid>, turns: seq<Turn>)
    requires |turns| == |order| && Distinct(order) && SetOf(order) !! Complete(m)
    requires forall i :: 0 <= i < |turns| ==> turns[i].running && Continues(cfg, turns[i].reply)
    ensures OfferAll(cfg, m, order, turns, {}).message.limitReached != {} <==> SomebodyExhausted(cfg, m, order, turns)
  {
    var m1 := OfferAll(cfg, m, order, turns, {}).message;
    forall s ensures s in m1.limitReached <==>
      s in m.limitReached || exists i :: 0 <= i < |order| && order[i] == s && Exhausts(cfg, m, s, turns[i].reply)
    {
      LoopLimits(cfg, m, order, turns, {}, s);
    }
    if SomebodyExhausted(cfg, m, order, turns) && m.limitReached == {} {
      var i :| 0 <= i < |order| && Exhausts(cfg, m, order[i], turns[i].reply);
      assert order[i] in m1.limitReached;
    }
    if m.limitReached != {} {
      var s :| s in m.limitReached;
      assert s in m1.limitReached;
    }
  }

  /** Whoever was never satisfied and never reached the limit, in whatever pass it failed, is not subscribed any more
      when such a pass finishes the message. */
  lemma UnservedHasLeft(cfg: Config, m: Message, order: seq<Guid>, turns: seq<Turn>, closing: set<Guid>, s: Guid)
    requires |turns| == |order| && order != []
    requires forall j :: 0 <= j < |turns| ==> turns[j].running && Continues(cfg, turns[j].reply)
    requires Terminal(Pass(cfg, m, order, turns, true, closing).verdict)
    ensures s !in Complete(Pass(cfg, m, order, turns, true, closing).message) ==> s !in closing
  {
    LoopEndsFor(cfg, m, order, turns, {});
    var m1 := Pass(cfg, m, order, turns, true, closing).message;
    assert Remaining(m1, closing) == {};
    assert s in closing && s !in Complete(m1) ==> s in Remaining(m1, closing);
  }

  /** The same for one subscriber that was asked in the finishing pass and not satisfied: it is the reason for a
      copy exactly if its reply took it to the limit, and if it did not, then the message is finished only because
      it is not subscribed any more when the closing snapshot is taken. */
  lemma RetentionPerSubscriber(
    cfg: Config, m: Message, order: seq<Guid>, turns: seq<Turn>, closing: set<Guid>, i: nat)
    requires |turns| == |order| && Distinct(order) && SetOf(order) !! Complete(m) && cfg.dlq.Some?
    requires forall j :: 0 <= j < |turns| ==> turns[j].running && Continues(cfg, turns[j].reply)
    requires Terminal(Pass(cfg, m, order, turns, true, closing).verdict)
    requires i < |order| && !Satisfies(turns[i].reply)
    ensures Exhausts(cfg, m, order[i], turns[i].reply) ==> Pass(cfg, m, order, turns, true, closing).verdict == DeadLetter
    ensures m.limitReached == {} && (forall j :: 0 <= j < |order| && j != i ==> !Exhausts(cfg, m, order[j], turns[j].reply)) ==>
              (Pass(cfg, m, order, turns, true, closing).verdict == DeadLetter <==> Exhausts(cfg, m, order[i], turns[i].reply))
    ensures !Exhausts(cfg, m, order[i], turns[i].reply) ==> order[i] !in closing
  {
    RetentionExact(cfg, m, order, turns, true, closing);
    LoopEndsFor(cfg, m, order, turns, {});
    UnservedHasLeft(cfg, m, order, turns, closing, order[i]);
    if !Exhausts(cfg, m, order[i], turns[i].reply) {
      StaysIncomplete(cfg, m, order, turns, i);
    }
  }

  lemma StaysIncomplete(cfg: Config, m: Message, order: seq<Guid>, turns: seq<Turn>, i: nat)
    requires |turns| == |order| && Distinct(order) && SetOf(order) !! Complete(m) && i < |order|
    requires forall j :: 0 <= j < |turns| ==> turns[j].running && Continues(cfg, turns[j].reply)
    requires !Satisfies(turns[i].reply) && !Exhausts(cfg, m, order[i], turns[i].reply)
    ensures order[i] !in Complete(OfferAll(cfg, m, order, turns, {}).message)
  {
    assert order[i] in SetOf(order);
    LoopLimits(cfg, m, order, turns, {}, order[i]);
    assert forall j :: 0 <= j < |order| && order[j] == order[i] ==> j == i;
  }

  /** The promise fails for a subscriber that leaves: below the limit, one consumes, the other fails and is gone
      when the closing snapshot is taken. The message is dropped without a dead-letter copy. */
  lemma RetentionMissesTheGone(cfg: Config, rec: Record, now: Time)
    requires cfg.dlq.Some? && cfg.maxAttempts > 1 && cfg.consumption == AllSubscribersSatisfied
    ensures var turns := [Turn(true, Consumed, now), Turn(true, Failed, now)];
      && FailedOnes([1, 2], turns) == {2}
      && Pass(cfg, Fresh(rec), [1, 2], turns, true, {1}).verdict == Drop
      && Pass(cfg, Fresh(rec), [1, 2], turns, true, {1, 2}).verdict == Ready
  {
    var lost := Turn(true, Failed, now);
    var turns := [Turn(true, Consumed, now), lost];
    var m := Fresh(rec);
    var a := Take(cfg, Send(m, 1), 1, Consumed, now).message;
    var b := Take(cfg, Send(a, 2), 2, Failed, now).message;
    assert [1, 2][1..] == [2] && turns[1..] == [lost] && [2][1..] == [] && [lost][1..] == [];
    assert OfferAll(cfg, b, [], [], {2}) == LoopEnd(b, {2}, None);
    assert OfferAll(cfg, a, [2], [lost], {}) == LoopEnd(b, {2}, None);
    assert OfferAll(cfg, m, [1, 2], turns, {}) == LoopEnd(b, {2}, None);
    assert 1 in SetOf([1, 2]) - {2};
    assert b.limitReached == {} && Remaining(b, {1}) == {} && 2 in Remaining(b, {1, 2});
    assert FailedOnes([1, 2], turns) == {2} by {
      assert turns[1].reply == Failed && [1, 2][1] == 2;
      assert forall i :: 0 <= i < |[1, 2]| && Fails(turns[i].reply) ==> i == 1;
    }
  }

  /** It also fails at the limit: limit 2, two subscribers, the first consumes in the first pass and the second fails
      twice. The second pass only fails, so it answers Ready although the limit is reached, and the third
      pass finds nobody left and drops the message without a dead-letter copy. */
  lemma RetentionFails(cfg: Config, rec: Record, now: Time)
    requires cfg.dlq.Some? && cfg.maxAttempts == 2 && cfg.consumption == AllSubscribersSatisfied
    ensures var lost := Turn(true, Failed, now);
      var p1 := Pass(cfg, Fresh(rec), [1, 2], [Turn(true, Consumed, now), lost], true, {1, 2});
      var p2 := Pass(cfg, p1.message, [2], [lost], true, {1, 2});
      var p3 := Pass(cfg, p2.message, [], [], true, {1, 2});
      && p1.verdict == Ready && Lists([2], Remaining(p1.message, {1, 2}))
      && p2.verdict == Ready && Lists([], Remaining(p2.message, {1, 2}))
      && p3.message.limitReached == {2} && p3.verdict == Drop
  {
    var lost := Turn(true, Failed, now);
    var turns := [Turn(true, Consumed, now), lost];
    var m := Fresh(rec);
    var a := Take(cfg, Send(m, 1), 1, Consumed, now).message;
    var b := Take(cfg, Send(a, 2), 2, Failed, now).message;
    assert [1, 2][1..] == [2] && turns[1..] == [lost];
    assert OfferAll(cfg, a, [2], [lost], {}) == LoopEnd(b, {2}, None) by {
      assert [2][1..] == [] && [lost][1..] == [];
      assert OfferAll(cfg, b, [], [], {2}) == LoopEnd(b, {2}, None);
    }
    assert OfferAll(cfg, m, [1, 2], turns, {}) == LoopEnd(b, {2}, None);
    assert 1 in SetOf([1, 2]) - {2};
    assert Remaining(b, {1, 2}) == {2};
    var c := Take(cfg, Send(b, 2), 2, Failed, now).message;
    assert OfferAll(cfg, b, [2], [lost], {}) == LoopEnd(c, {2}, None) by {
      assert [2][1..] == [] && [lost][1..] == [];
    }
    assert SetOf([2]) - {2} == {};
    assert c.limitReached == {2} && Remaining(c, {1, 2}) == {};
  }

  // ---------- termination ----------

  /** A pass with the given subscribers, complete with what the environment does around it. */
  datatype PassInput = PassInput(order: seq<Guid>, turns: seq<Turn>)

  /** Running throughout, nobody defers, the subscribers stay `subscribers`. */
  predicate Steady(m: Message, subscribers: set<Guid>, p: PassInput) {
    && |p.turns| == |p.order|
    && Lists(p.order, Remaining(m, subscribers))
    && forall i :: 0 <= i < |p.turns| ==> p.turns[i].running && !p.turns[i].reply.Defer?
  }

  function RunPass(cfg: Config, m: Message, subscribers: set<Guid>, p: PassInput): PassEnd
    requires |p.turns| == |p.order|
  {
    Pass(cfg, m, p.order, p.turns, true, subscribers)
  }

  function Budget(cfg: Config, m: Message, ids: set<Guid>): int {
    if ids == {} then 0
    else
      var s := Least(ids);
      cfg.maxAttempts - Attempts(m, s) + Budget(cfg, m, ids - {s})
  }

  function Least(ids: set<Guid>): (s: Guid)
    requires ids != {}
    ensures IsLeast(s, ids)
  {
    HasLeast(ids);
    var s :| IsLeast(s, ids);
    s
  }

  predicate IsLeast(s: Guid, ids: set<Guid>) {
    s in ids && forall t :: t in ids ==> s <= t
  }

  lemma {:induction false} HasLeast(ids: set<Guid>)
    requires ids != {}
    ensures exists s :: IsLeast(s, ids)
  {
    var x :| x in ids;
    var rest := ids - {x};
    assert forall t :: t in ids ==> t == x || t in rest;
    if rest == {} {
      assert IsLeast(x, ids);
    } else {
      HasLeast(rest);
      var y :| IsLeast(y, rest);
      assert IsLeast(if x <= y then x else y, ids);
    }
  }

  lemma TurnProgress(cfg: Config, m: Message, s: Guid, turn: Turn)
    requires Take(cfg, Send(m, s), s, turn.reply, turn.now).outcome.Continue?
    ensures var m1 := Take(cfg, Send(m, s), s, turn.reply, turn.now).message;
      && (forall t :: Attempts(m1, t) == Attempts(m, t) + if t == s then 1 else 0)
      && Complete(m) <= Complete(m1)
      && (s !in Complete(m1) && cfg.maxAttempts > 0 ==> Attempts(m1, s) < cfg.maxAttempts)
  {
  }

  /** Over a loop that runs to its end every listed subscriber is attempted once more and nobody else is;
      the completed sets only grow, and who was offered and is still incomplete is below the limit. */
  lemma {:induction false} LoopProgress(cfg: Config, m: Message, todo: seq<Guid>, turns: seq<Turn>, failures: set<Guid>)
    requires |turns| == |todo| && Distinct(todo)
    requires OfferAll(cfg, m, todo, turns, failures).returned.None?
    ensures var m1 := OfferAll(cfg, m, todo, turns, failures).message;
      && (forall s :: Attempts(m1, s) == Attempts(m, s) + if s in todo then 1 else 0)
      && Complete(m) <= Complete(m1)
      && (forall s :: s in todo && s !in Complete(m1) && cfg.maxAttempts > 0 ==> Attempts(m1, s) < cfg.maxAttempts)
    decreases |todo|
  {
    if todo != [] {
      var s0 := todo[0];
      var t := Take(cfg, Send(m, s0), s0, turns[0].reply, turns[0].now);
      assert todo == [s0] + todo[1..];
      assert s0 !in todo[1..];
      TurnProgress(cfg, m, s0, turns[0]);
      LoopProgress(cfg, t.message, todo[1..], turns[1..], if t.outcome.failed then failures + {s0} else failures);
    }
  }

  ghost predicate BelowLimit(cfg: Config, m: Message) {
    forall s: Guid :: s !in Complete(m) ==> Attempts(m, s) < cfg.maxAttempts
  }

  /** A steady pass that ends Ready used one attempt of every subscriber it started with. */
  lemma ReadyPassProgress(cfg: Config, m: Message, subscribers: set<Guid>, p: PassInput)
    requires cfg.maxAttempts > 0 && BelowLimit(cfg, m) && Steady(m, subscribers, p)
    requires RunPass(cfg, m, subscribers, p).verdict == Ready
    ensures var m1 := RunPass(cfg, m, subscribers, p).message;
      && p.order != []
      && BelowLimit(cfg, m1)
      && Remaining(m1, subscribers) <= Remaining(m, subscribers)
      && forall s :: s in Remaining(m1, subscribers) ==> Attempts(m1, s) == Attempts(m, s) + 1
  {
    LoopEndsFor(cfg, m, p.order, p.turns, {});
    var end := OfferAll(cfg, m, p.order, p.turns, {});
    assert forall i :: 0 <= i < |p.turns| ==> !EndsWith(cfg, p.turns[i], Ready);
    assert end.returned.None?;
    LoopProgress(cfg, m, p.order, p.turns, {});
    forall s: Guid | s !in Complete(end.message) ensures Attempts(end.message, s) < cfg.maxAttempts {
      assert s in p.order || Attempts(end.message, s) == Attempts(m, s);
    }
    assert forall s :: s in SetOf(p.order) ==> s in p.order;
  }

  lemma {:induction false} BudgetNonNegative(cfg: Config, m: Message, ids: set<Guid>)
    requires BelowLimit(cfg, m) && ids !! Complete(m)
    ensures Budget(cfg, m, ids) >= |ids|
  {
    if ids != {} {
      BudgetNonNegative(cfg, m, ids - {Least(ids)});
    }
  }

  lemma {:induction false} BudgetDrops(cfg: Config, m: Message, m1: Message, ids: set<Guid>, ids1: set<Guid>)
    requires ids1 <= ids && BelowLimit(cfg, m) && ids !! Complete(m)
    requires forall s :: s in ids1 ==> Attempts(m1, s) == Attempts(m, s) + 1
    ensures Budget(cfg, m1, ids1) <= Budget(cfg, m, ids) - |ids|
  {
    if ids1 == {} {
      BudgetNonNegative(cfg, m, ids);
    } else {
      var s := Least(ids1);
      BudgetDrops(cfg, m, m1, ids - {s}, ids1 - {s});
      BudgetWithout(cfg, m, ids, s);
    }
  }

  lemma {:induction false} BudgetWithout(cfg: Config, m: Message, ids: set<Guid>, s: Guid)
    requires s in ids
    ensures Budget(cfg, m, ids) == cfg.maxAttempts - Attempts(m, s) + Budget(cfg, m, ids - {s})
  {
    var l := Least(ids);
    if l != s {
      BudgetWithout(cfg, m, ids - {l}, s);
      assert Least(ids - {s}) == l by {
        assert l in ids - {s} && Least(ids - {s}) in ids;
      }
      assert ids - {l} - {s} == ids - {s} - {l};
    }
  }

  /** The summed remaining attempts of the incomplete subscribers strictly decrease over every Ready pass. */
  lemma ReadyPassCostsBudget(cfg: Config, m: Message, subscribers: set<Guid>, p: PassInput)
    requires cfg.maxAttempts > 0 && BelowLimit(cfg, m) && Steady(m, subscribers, p)
    requires RunPass(cfg, m, subscribers, p).verdict == Ready
    ensures var m1 := RunPass(cfg, m, subscribers, p).message;
      0 <= Budget(cfg, m1, Remaining(m1, subscribers)) < Budget(cfg, m, Remaining(m, subscribers))
  {
    var m1 := RunPass(cfg, m, subscribers, p).message;
    ReadyPassProgress(cfg, m, subscribers, p);
    BudgetNonNegative(cfg, m1, Remaining(m1, subscribers));
    BudgetDrops(cfg, m, m1, Remaining(m, subscribers), Remaining(m1, subscribers));
    assert p.order[0] in Remaining(m, subscribers);
  }

  /** `ps` is a sequence of consecutive steady passes, every one of them ending Ready. */
  ghost predicate ReadyPasses(cfg: Config, m: Message, subscribers: set<Guid>, ps: seq<PassInput>)
    decreases |ps|
  {
    ps == [] || (Steady(m, subscribers, ps[0])
                 && RunPass(cfg, m, subscribers, ps[0]).verdict == Ready
                 && ReadyPasses(cfg, RunPass(cfg, m, subscribers, ps[0]).message, subscribers, ps[1..]))
  }

  ghost function AfterPasses(cfg: Config, m: Message, subscribers: set<Guid>, ps: seq<PassInput>): Message
    requires ReadyPasses(cfg, m, subscribers, ps)
    decreases |ps|
  {
    if ps == [] then m else AfterPasses(cfg, RunPass(cfg, m, subscribers, ps[0]).message, subscribers, ps[1..])
  }

  lemma {:induction false} ReadyPassesCount(cfg: Config, m: Message, subscribers: set<Guid>, ps: seq<PassInput>, done: nat)
    requires cfg.maxAttempts > 0 && BelowLimit(cfg, m) && ReadyPasses(cfg, m, subscribers, ps)
    requires forall s :: s in Remaining(m, subscribers) ==> Attempts(m, s) >= done
    ensures var m1 := AfterPasses(cfg, m, subscribers, ps);
      && BelowLimit(cfg, m1)
      && forall s :: s in Remaining(m1, subscribers) ==> Attempts(m1, s) >= done + |ps|
    ensures done <= cfg.maxAttempts ==> done + |ps| <= cfg.maxAttempts
    decreases |ps|
  {
    if ps != [] {
      ReadyPassProgress(cfg, m, subscribers, ps[0]);
      var s := ps[0].order[0];
      assert s in Remaining(m, subscribers);
      ReadyPassesCount(cfg, RunPass(cfg, m, subscribers, ps[0]).message, subscribers, ps[1..], done + 1);
    }
  }

  /** With limit k > 0, fixed subscribers and no deferral a fresh message gets at most k passes that leave it
      Ready, and a further pass removes it: at most k + 1 passes in all. */
  lemma DeliveryTerminates(cfg: Config, rec: Record, subscribers: set<Guid>, ps: seq<PassInput>, last: PassInput)
    requires cfg.maxAttempts > 0 && ReadyPasses(cfg, Fresh(rec), subscribers, ps)
    ensures |ps| <= cfg.maxAttempts
    ensures var m := AfterPasses(cfg, Fresh(rec), subscribers, ps);
      |ps| == cfg.maxAttempts && Steady(m, subscribers, last) ==> Terminal(RunPass(cfg, m, subscribers, last).verdict)
  {
    ReadyPassesCount(cfg, Fresh(rec), subscribers, ps, 0);
    var m := AfterPasses(cfg, Fresh(rec), subscribers, ps);
    if |ps| == cfg.maxAttempts && Steady(m, subscribers, last) {
      assert Remaining(m, subscribers) == {};
      EmptyListed(last.order);
    }
  }

  // ---------- order independence ----------

  predicate Neutral(reply: Reply) {
    reply == Consumed || reply == NotInterested || reply == NotConsumed || Fails(reply)
  }

  /** The message after everybody in `ids` answered as `answer` says, whatever the order. */
  ghost function Settled(cfg: Config, m: Message, ids: set<Guid>, answer: Guid -> Reply): Message {
    m.(attempts := map s | s in m.attempts.Keys + ids :: Attempts(m, s) + (if s in ids then 1 else 0),
       satisfied := m.satisfied + (set s | s in ids && Satisfies(answer(s))),
       consumed := m.consumed + (set s | s in ids && answer(s) == Consumed),
       limitReached := m.limitReached + (set s | s in ids && !Satisfies(answer(s)) && cfg.maxAttempts > 0
                                                 && Attempts(m, s) + 1 >= cfg.maxAttempts))
  }

  ghost predicate Answers(order: seq<Guid>, turns: seq<Turn>, answer: Guid -> Reply) {
    && |turns| == |order|
    && forall i :: 0 <= i < |order| ==> turns[i].running && turns[i].reply == answer(order[i])
  }

  ghost function Failing(ids: set<Guid>, answer: Guid -> Reply): set<Guid> {
    set s | s in ids && Fails(answer(s))
  }

  lemma {:induction false} LoopSettles(
    cfg: Config, m: Message, todo: seq<Guid>, turns: seq<Turn>, failures: set<Guid>, answer: Guid -> Reply)
    requires cfg.consumption == AllSubscribersSatisfied && Distinct(todo) && Answers(todo, turns, answer)
    requires SetOf(todo) !! m.satisfied && forall s :: s in SetOf(todo) ==> Neutral(answer(s))
    ensures OfferAll(cfg, m, todo, turns, failures)
         == LoopEnd(Settled(cfg, m, SetOf(todo), answer), failures + Failing(SetOf(todo), answer), None)
    decreases |todo|
  {
    if todo == [] {
      NobodySettles(cfg, m, answer);
    } else {
      var s0, rest := todo[0], todo[1..];
      FirstAndRest(todo);
      var m1 := Take(cfg, Send(m, s0), s0, turns[0].reply, turns[0].now).message;
      var f1 := if Fails(answer(s0)) then failures + {s0} else failures;
      NeutralOffer(cfg, m, s0, turns[0].reply, turns[0].now);
      LoopSettles(cfg, m1, rest, turns[1..], f1, answer);
      SettledOneMore(cfg, m, s0, SetOf(rest), answer, turns[0].now);
      FailingOneMore(failures, s0, SetOf(rest), answer);
    }
  }

  lemma FirstAndRest(xs: seq<Guid>)
    requires xs != [] && Distinct(xs)
    ensures Distinct(xs[1..]) && xs[0] !in SetOf(xs[1..]) && SetOf(xs) == SetOf(xs[1..]) + {xs[0]}
  {
    assert xs == [xs[0]] + xs[1..];
  }

  lemma NobodySettles(cfg: Config, m: Message, answer: Guid -> Reply)
    ensures Settled(cfg, m, {}, answer) == m && Failing({}, answer) == {}
  {
    assert Settled(cfg, m, {}, answer).attempts == m.attempts;
  }

  lemma FailingOneMore(failures: set<Guid>, s0: Guid, rest: set<Guid>, answer: Guid -> Reply)
    ensures (if Fails(answer(s0)) then failures + {s0} else failures) + Failing(rest, answer)
         == failures + Failing(rest + {s0}, answer)
  {
  }

  ghost function Marked(ids: set<Guid>, s: Guid, mark: bool): set<Guid> {
    if mark then ids + {s} else ids
  }

  lemma NeutralOffer(cfg: Config, m: Message, s: Guid, reply: Reply, now: Time)
    requires cfg.consumption == AllSubscribersSatisfied && s !in m.satisfied && Neutral(reply)
    ensures Take(cfg, Send(m, s), s, reply, now)
         == Taken(Send(m, s).(satisfied := Marked(m.satisfied, s, Satisfies(reply)),
                              consumed := Marked(m.consumed, s, reply == Consumed),
                              limitReached := Marked(m.limitReached, s, !Satisfies(reply) && cfg.maxAttempts > 0
                                                     && Attempts(m, s) + 1 >= cfg.maxAttempts)),
                  Continue(Fails(reply)))
  {
  }

  lemma SettledOneMore(cfg: Config, m: Message, s0: Guid, rest: set<Guid>, answer: Guid -> Reply, now: Time)
    requires cfg.consumption == AllSubscribersSatisfied && s0 !in rest && s0 !in m.satisfied && Neutral(answer(s0))
    ensures Settled(cfg, Take(cfg, Send(m, s0), s0, answer(s0), now).message, rest, answer)
         == Settled(cfg, m, rest + {s0}, answer)
  {
    var m1 := Take(cfg, Send(m, s0), s0, answer(s0), now).message;
    NeutralOffer(cfg, m, s0, answer(s0), now);
    SettledAttempts(cfg, m, m1, s0, rest, answer);
    SettledSets(cfg, m, m1, s0, rest, answer);
    assert m1.rec == m.rec && m1.state == m.state;
  }

  lemma SettledAttempts(cfg: Config, m: Message, m1: Message, s0: Guid, rest: set<Guid>, answer: Guid -> Reply)
    requires s0 !in rest && m1.attempts == Send(m, s0).attempts
    ensures Settled(cfg, m1, rest, answer).attempts == Settled(cfg, m, rest + {s0}, answer).attempts
  {
    var a, b := Settled(cfg, m1, rest, answer).attempts, Settled(cfg, m, rest + {s0}, answer).attempts;
    assert m1.attempts.Keys + rest == m.attempts.Keys + (rest + {s0});
    assert forall s: Guid :: s != s0 ==> Attempts(m1, s) == Attempts(m, s);
    assert Attempts(m1, s0) == Attempts(m, s0) + 1;
    assert a.Keys == b.Keys;
    assert forall s :: s in a ==> a[s] == b[s];
  }

  lemma SettledSets(cfg: Config, m: Message, m1: Message, s0: Guid, rest: set<Guid>, answer: Guid -> Reply)
    requires s0 !in rest && m1.attempts == Send(m, s0).attempts
    requires m1.satisfied == Marked(m.satisfied, s0, Satisfies(answer(s0)))
    requires m1.consumed == Marked(m.consumed, s0, answer(s0) == Consumed)
    requires m1.limitReached == Marked(m.limitReached, s0, !Satisfies(answer(s0)) && cfg.maxAttempts > 0
                                                           && Attempts(m, s0) + 1 >= cfg.maxAttempts)
    ensures var a, b := Settled(cfg, m1, rest, answer), Settled(cfg, m, rest + {s0}, answer);
      a.satisfied == b.satisfied && a.consumed == b.consumed && a.limitReached == b.limitReached
  {
    assert forall s: Guid :: s != s0 ==> Attempts(m1, s) == Attempts(m, s);
  }

  /** Under AllSubscribersSatisfied and ordinary replies the order of the remaining subscribers (random or
      balanced) changes neither the verdict nor any per-message set or attempt count. */
  lemma OrderIndependence(
    cfg: Config, m: Message, subscribers: set<Guid>, answer: Guid -> Reply,
    order: seq<Guid>, turns: seq<Turn>, order': seq<Guid>, turns': seq<Turn>)
    requires cfg.consumption == AllSubscribersSatisfied
    requires Lists(order, Remaining(m, subscribers)) && Lists(order', Remaining(m, subscribers))
    requires Answers(order, turns, answer) && Answers(order', turns', answer)
    requires forall s :: s in subscribers ==> Neutral(answer(s))
    ensures Pass(cfg, m, order, turns, true, subscribers) == Pass(cfg, m, order', turns', true, subscribers)
  {
    LoopSettles(cfg, m, order, turns, {}, answer);
    LoopSettles(cfg, m, order', turns', {}, answer);
    EmptyListed(order);
    EmptyListed(order');
  }
}
