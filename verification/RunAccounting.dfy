/** Every message has at most one terminal outcome, is counted for it at most once, and none gets lost from
    the books of a run. */
module RunAccounting {
  import opened Messages
  import opened DeliveryPass
  import opened QueueState
  import opened QueueEffects
  import opened StoreInvariant
  import opened QueueRun
  import opened RunInvariant
  import opened RunHistory

  // ---------- message objects over one action ----------

  /** Only the deferral fields of a record ever change. */
  predicate SameIdentity(rec: Record, rec1: Record) {
    rec1 == rec.(deferredCount := rec1.deferredCount, deferredUntil := rec1.deferredUntil, deferDuration := rec1.deferDuration)
  }

  ghost predicate ObjectsEvolve(s: System, s1: System) {
    && |s.q.objects| <= |s1.q.objects|
    && forall r :: 0 <= r < |s.q.objects| ==>
         && SameIdentity(s.q.objects[r].rec, s1.q.objects[r].rec)
         && (s1.q.objects[r].state == s.q.objects[r].state || s.q.objects[r].state in {Ready, OutForDelivery})
  }

  lemma PrefixEvolves(s: System, s1: System)
    requires s.q.objects <= s1.q.objects
    ensures ObjectsEvolve(s, s1)
  {
  }

  lemma AnswerEvolves(s: System, r: nat, reply: Reply, at: Time)
    requires CallInv(s) && Enabled(s, TakeAnswer(r, reply, at))
    ensures ObjectsEvolve(s, AnswerStep(s, r, reply, at))
  {
    var taken := Take(s.q.cfg, s.q.objects[r], s.calls[r].waiting.value, reply, at);
    AnswerShape(s, r, reply, at, taken);
    OneEvolves(s, AnswerStep(s, r, reply, at), r);
  }

  /** Only a message out for delivery changes, and only in its deferral fields. */
  lemma OneEvolves(s: System, s1: System, r: nat)
    requires r < |s.q.objects| == |s1.q.objects| && s.q.objects[r].state == OutForDelivery
    requires SameIdentity(s.q.objects[r].rec, s1.q.objects[r].rec)
    requires forall t :: 0 <= t < |s.q.objects| && t != r ==> s1.q.objects[t] == s.q.objects[t]
    ensures ObjectsEvolve(s, s1)
  {
  }

  /** Actions that leave the existing message objects and the outcome counters alone. */
  predicate Quiet(a: Action) {
    !a.Select? && !a.Begin? && !a.SendNext? && !a.TakeAnswer? && !a.EndPass? && !a.Restart?
  }

  ghost predicate OutcomesKept(s: System, s1: System) {
    && s.q.objects <= s1.q.objects
    && s1.trace.base == s.trace.base && s1.trace.expired == s.trace.expired
    && s1.trace.dropped == s.trace.dropped && s1.trace.deadLettered == s.trace.deadLettered
    && s1.q.stats == s.q.stats.(received := s1.q.stats.received)
  }

  lemma ThreadIsQuiet(s: System, a: Action)
    requires Enabled(s, a) && (a.Hydrate? || a.Sweep?)
    ensures OutcomesKept(s, Apply(s, a))
  {
    match a
    case Hydrate(locked, newIds) =>
      if locked && Persists(s.q) {
        HydrationShape(s.q, NextKeysOf(s.q), newIds);
      }
    case Sweep(locked, upto) =>
      if locked {
        SweepEffect(s.q, s.thread.list[..upto]);
      }
  }

  lemma QuietKeepsOutcomes(s: System, a: Action)
    requires Enabled(s, a) && Quiet(a)
    ensures OutcomesKept(s, Apply(s, a))
  {
    if a.Hydrate? || a.Sweep? {
      ThreadIsQuiet(s, a);
    }
  }

  lemma SelectEvolves(s: System, locked: bool, now: Time)
    requires StoreOk(s) && Enabled(s, Select(locked, now))
    ensures ObjectsEvolve(s, Apply(s, Select(locked, now)))
  {
    if locked {
      BufferDistinct(s.q);
      ExpiryEffect(s.q, s.q.buffer, now);
    }
  }

  lemma CallEvolves(s: System, a: Action)
    requires CallInv(s) && Enabled(s, a) && (a.SendNext? || a.EndPass?)
    ensures ObjectsEvolve(s, Apply(s, a))
  {
    if a.SendNext? {
      OneEvolves(s, SendStep(s, a.r), a.r);
    } else {
      OneEvolves(s, EndStep(s, a.r), a.r);
    }
  }

  /** Drop, DeadLetter and Shutdown are absorbing, and a message keeps its identity, serial, time and body, over
      every action but a restart, which leaves no message object at all. */
  lemma ObjectStep(s: System, a: Action)
    requires StoreOk(s) && CallInv(s) && Enabled(s, a) && !a.Restart?
    ensures ObjectsEvolve(s, Apply(s, a))
  {
    if Quiet(a) {
      QuietKeepsOutcomes(s, a);
      PrefixEvolves(s, Apply(s, a));
    } else {
      match a
      case Select(locked, now) => SelectEvolves(s, locked, now);
      case Begin(order) => BeginEvolves(s, s.thread.top.value, order);
      case TakeAnswer(r, reply, at) => AnswerEvolves(s, r, reply, at);
      case _ => CallEvolves(s, a);
    }
  }

  lemma BeginEvolves(s: System, r: nat, order: seq<Guid>)
    requires r < |s.q.objects| && s.q.objects[r].state == Ready
    ensures ObjectsEvolve(s, BeginStep(s, r, order))
  {
    if order == [] {
      NobodyShape(s, r);
    }
  }

  // ---------- one count per message ----------

  ghost predicate Tallied(q: Queue, counted: set<nat>) {
    forall r :: r in counted ==> r < |q.objects| && Terminal(q.objects[r].state)
  }

  ghost predicate TallyInv(s: System) {
    && var t := s.trace;
    && Tallied(s.q, t.expired) && Tallied(s.q, t.dropped) && Tallied(s.q, t.deadLettered)
    && t.expired !! t.dropped && t.expired !! t.deadLettered && t.dropped !! t.deadLettered
    && s.q.stats.expired == t.base.expired + |t.expired|
    && s.q.stats.explicitDrop == t.base.explicitDrop + |t.dropped|
    && s.q.stats.explicitDeadLetter == t.base.explicitDeadLetter + |t.deadLettered|
  }

  lemma TalliesPersist(s: System, s1: System)
    requires TallyInv(s) && ObjectsEvolve(s, s1)
    requires s1.trace.base == s.trace.base && s1.trace.expired == s.trace.expired
    requires s1.trace.dropped == s.trace.dropped && s1.trace.deadLettered == s.trace.deadLettered
    requires s1.q.stats.expired == s.q.stats.expired && s1.q.stats.explicitDrop == s.q.stats.explicitDrop
    requires s1.q.stats.explicitDeadLetter == s.q.stats.explicitDeadLetter
    ensures TallyInv(s1)
  {
  }

  /** Messages that become terminal now. */
  ghost predicate Settling(s: System, s1: System, now: set<nat>) {
    forall r :: r in now ==>
      r < |s.q.objects| && r < |s1.q.objects| && !Terminal(s.q.objects[r].state) && Terminal(s1.q.objects[r].state)
  }

  lemma OneTally(s: System, s1: System, counted: set<nat>, now: set<nat>)
    requires ObjectsEvolve(s, s1) && Tallied(s.q, counted) && Settling(s, s1, now)
    ensures Tallied(s1.q, counted + now) && counted !! now && |counted + now| == |counted| + |now|
  {
    assert counted !! now;
  }

  /** Messages that were not terminal join one of the three sets. */
  lemma TalliesGrow(s: System, s1: System, expired: set<nat>, dropped: set<nat>, deadLettered: set<nat>)
    requires TallyInv(s) && ObjectsEvolve(s, s1)
    requires expired !! dropped && expired !! deadLettered && dropped !! deadLettered
    requires Settling(s, s1, expired) && Settling(s, s1, dropped) && Settling(s, s1, deadLettered)
    requires s1.trace.base == s.trace.base && s1.trace.expired == s.trace.expired + expired
    requires s1.trace.dropped == s.trace.dropped + dropped
    requires s1.trace.deadLettered == s.trace.deadLettered + deadLettered
    requires s1.q.stats.expired == s.q.stats.expired + |expired|
    requires s1.q.stats.explicitDrop == s.q.stats.explicitDrop + |dropped|
    requires s1.q.stats.explicitDeadLetter == s.q.stats.explicitDeadLetter + |deadLettered|
    ensures TallyInv(s1)
  {
    var t := s.trace;
    OneTally(s, s1, t.expired, expired);
    OneTally(s, s1, t.dropped, dropped);
    OneTally(s, s1, t.deadLettered, deadLettered);
    assert t.expired !! dropped && t.expired !! deadLettered by {
      OneTally(s, s1, t.expired, dropped);
      OneTally(s, s1, t.expired, deadLettered);
    }
    assert t.dropped !! expired && t.dropped !! deadLettered by {
      OneTally(s, s1, t.dropped, expired);
      OneTally(s, s1, t.dropped, deadLettered);
    }
    assert t.deadLettered !! expired && t.deadLettered !! dropped by {
      OneTally(s, s1, t.deadLettered, expired);
      OneTally(s, s1, t.deadLettered, dropped);
    }
  }

  lemma SelectTallies(s: System, now: Time)
    requires InTable(s.q, s.q.buffer) && Distinct(s.q.buffer) && ObjectsEvolve(s, SelectStep(s, now)) && TallyInv(s)
    ensures TallyInv(SelectStep(s, now))
  {
    StaleSettles(s, now);
    TalliesGrow(s, SelectStep(s, now), Stale(s.q, s.q.buffer, now), {}, {});
  }

  lemma StaleSettles(s: System, now: Time)
    requires InTable(s.q, s.q.buffer) && Distinct(s.q.buffer)
    ensures Settling(s, SelectStep(s, now), Stale(s.q, s.q.buffer, now))
    ensures var q, q1, t, t1 := s.q, SelectStep(s, now).q, s.trace, SelectStep(s, now).trace;
      && q1.stats == q.stats.(expired := q.stats.expired + |Stale(q, q.buffer, now)|)
      && t1 == t.(expired := t.expired + Stale(q, q.buffer, now))
  {
    ExpiryEffect(s.q, s.q.buffer, now);
    ExpiryCount(s.q, s.q.buffer, now);
  }

  lemma AnswerTallies(s: System, r: nat, reply: Reply, at: Time)
    requires Calling(s, r) && s.calls[r].waiting.Some? && TallyInv(s)
    requires ObjectsEvolve(s, AnswerStep(s, r, reply, at))
    requires Settling(s, AnswerStep(s, r, reply, at), DroppedBy(r, reply))
    requires Settling(s, AnswerStep(s, r, reply, at), DeadLetteredBy(r, reply))
    requires AnswerStep(s, r, reply, at).q.stats == CountReply(s.q.stats, reply)
    ensures TallyInv(AnswerStep(s, r, reply, at))
  {
    AnswerTrace(s, r, reply, at);
    ReplyCounts(s.q.stats, r, reply);
    TalliesGrow(s, AnswerStep(s, r, reply, at), {}, DroppedBy(r, reply), DeadLetteredBy(r, reply));
  }

  lemma ReplyCounts(st: Statistics, r: nat, reply: Reply)
    ensures var st1 := CountReply(st, reply);
      && st1.expired == st.expired
      && st1.explicitDrop == st.explicitDrop + |DroppedBy(r, reply)|
      && st1.explicitDeadLetter == st.explicitDeadLetter + |DeadLetteredBy(r, reply)|
    ensures DroppedBy(r, reply) !! DeadLetteredBy(r, reply)
  {
  }

  function DroppedBy(r: nat, reply: Reply): set<nat> {
    if reply == RequestDrop then {r} else {}
  }

  function DeadLetteredBy(r: nat, reply: Reply): set<nat> {
    if reply == RequestDeadLetter then {r} else {}
  }

  lemma AnswerSettles(s: System, r: nat, reply: Reply, at: Time)
    requires CallInv(s) && Enabled(s, TakeAnswer(r, reply, at))
    ensures var s1 := AnswerStep(s, r, reply, at);
      && Settling(s, s1, DroppedBy(r, reply)) && Settling(s, s1, DeadLetteredBy(r, reply))
      && s1.q.stats == CountReply(s.q.stats, reply)
  {
    AnswerShape(s, r, reply, at, Take(s.q.cfg, s.q.objects[r], s.calls[r].waiting.value, reply, at));
    assert s.q.objects[r].state == OutForDelivery;
  }

  lemma AnswerTrace(s: System, r: nat, reply: Reply, at: Time)
    requires Calling(s, r) && s.calls[r].waiting.Some?
    ensures var t, t1 := s.trace, AnswerStep(s, r, reply, at).trace;
      && t1 == t.(histories := t1.histories, dropped := t1.dropped, deadLettered := t1.deadLettered)
      && t1.dropped == t.dropped + DroppedBy(r, reply)
      && t1.deadLettered == t.deadLettered + DeadLetteredBy(r, reply)
  {
  }

  /** No message is counted twice among expired, explicitly dropped and explicitly dead-lettered. */
  lemma TallyStep(s: System, a: Action)
    requires StoreOk(s) && CallInv(s) && TallyInv(s) && Enabled(s, a)
    ensures TallyInv(Apply(s, a))
  {
    if a.Select? && a.locked {
      BufferDistinct(s.q);
      SelectEvolves(s, true, a.now);
      SelectTallies(s, a.now);
    } else if a.TakeAnswer? {
      AnswerEvolves(s, a.r, a.reply, a.at);
      AnswerSettles(s, a.r, a.reply, a.at);
      AnswerTallies(s, a.r, a.reply, a.at);
    } else if !a.Restart? {
      ObjectStep(s, a);
      QuietCounts(s, a);
      TalliesPersist(s, Apply(s, a));
    }
  }

  lemma QuietCounts(s: System, a: Action)
    requires Enabled(s, a) && !a.Restart? && !a.TakeAnswer? && !(a.Select? && a.locked)
    ensures var s1 := Apply(s, a);
      && s1.trace.base == s.trace.base && s1.trace.expired == s.trace.expired
      && s1.trace.dropped == s.trace.dropped && s1.trace.deadLettered == s.trace.deadLettered
      && s1.q.stats.expired == s.q.stats.expired && s1.q.stats.explicitDrop == s.q.stats.explicitDrop
      && s1.q.stats.explicitDeadLetter == s.q.stats.explicitDeadLetter
  {
    if Quiet(a) {
      QuietKeepsOutcomes(s, a);
    }
  }

  // ---------- the books ----------

  /** Held at the start plus received equals still held plus swept plus purged. */
  ghost predicate AccountInv(s: System) {
    s.trace.initial + (s.q.stats.received - s.trace.base.received) == s.q.depth + s.trace.swept + s.trace.purged
  }

  /** With no enqueue under way the depth is the number of messages held. */
  lemma DepthIsHeld(s: System)
    requires StoreOk(s) && NoReaders(s)
    ensures s.q.depth == Held(s.q)
  {
  }

  lemma ThreadKeepsBooks(s: System, a: Action)
    requires AccountInv(s) && Enabled(s, a) && (a.Hydrate? || a.Sweep? || a.Select?)
    ensures AccountInv(Apply(s, a))
  {
    match a
    case Hydrate(locked, newIds) =>
      if locked && Persists(s.q) {
        HydrationShape(s.q, NextKeysOf(s.q), newIds);
      }
    case Select(locked, now) =>
      if locked {
        ExpiryFrame(s.q, s.q.buffer, now);
        ExpiryReceived(s.q, s.q.buffer, now);
      }
    case Sweep(locked, upto) =>
      if locked {
        SweepEffect(s.q, s.thread.list[..upto]);
      }
  }

  lemma CallKeepsBooks(s: System, a: Action)
    requires AccountInv(s) && Enabled(s, a) && (a.Begin? || a.SendNext? || a.EndPass?)
    ensures AccountInv(Apply(s, a))
  {
    match a
    case Begin(order) => BeginBooks(s, s.thread.top.value, order);
    case SendNext(r) => SendBooks(s, r);
    case EndPass(r) =>
  }

  lemma BeginBooks(s: System, r: nat, order: seq<Guid>)
    requires AccountInv(s) && r < |s.q.objects|
    ensures AccountInv(BeginStep(s, r, order))
  {
    BeginFrame(s, r, order);
  }

  lemma BeginFrame(s: System, r: nat, order: seq<Guid>)
    requires r < |s.q.objects|
    ensures var s1 := BeginStep(s, r, order);
      && s1.q == s.q.(objects := s1.q.objects, outstanding := s1.q.outstanding)
      && s1.trace == s.trace.(picks := s1.trace.picks)
  {
  }

  lemma SendBooks(s: System, r: nat)
    requires AccountInv(s) && Calling(s, r) && s.calls[r].todo != []
    ensures AccountInv(SendStep(s, r))
  {
  }

  lemma AnswerKeepsBooks(s: System, r: nat, reply: Reply, at: Time)
    requires AccountInv(s) && Enabled(s, TakeAnswer(r, reply, at))
    ensures AccountInv(AnswerStep(s, r, reply, at))
  {
    AnswerShape(s, r, reply, at, Take(s.q.cfg, s.q.objects[r], s.calls[r].waiting.value, reply, at));
    AnswerBooks(s, r, reply, at);
  }

  lemma AnswerBooks(s: System, r: nat, reply: Reply, at: Time)
    requires Enabled(s, TakeAnswer(r, reply, at))
    ensures var t, t1 := s.trace, AnswerStep(s, r, reply, at).trace;
      t1.initial == t.initial && t1.base == t.base && t1.swept == t.swept && t1.purged == t.purged
  {
  }

  /** The books balance over every action. */
  lemma AccountStep(s: System, a: Action)
    requires StoreOk(s) && AccountInv(s) && Enabled(s, a)
    ensures AccountInv(Apply(s, a))
  {
    if a.Hydrate? || a.Sweep? || a.Select? {
      ThreadKeepsBooks(s, a);
    } else if a.Begin? || a.SendNext? || a.EndPass? {
      CallKeepsBooks(s, a);
    } else if a.TakeAnswer? {
      AnswerKeepsBooks(s, a.r, a.reply, a.at);
    } else if a.Purge? {
      DepthIsHeld(s);
    }
  }

  lemma {:induction false} ExpiryReceived(q: Queue, rs: seq<nat>, now: Time)
    requires InTable(q, rs)
    ensures ExpireAll(q, rs, now).stats.received == q.stats.received
    decreases |rs|
  {
    if rs != [] {
      ExpiryReceived(ExpireOne(q, rs[0], now), rs[1..], now);
    }
  }
}
