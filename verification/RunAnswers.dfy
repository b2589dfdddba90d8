/** The delivery counters of a queue are the answers its subscribers gave. */
module RunAnswers {
  import opened Messages
  import opened DeliveryPass
  import opened QueueState
  import opened QueueEffects
  import opened StoreInvariant
  import opened QueueRun
  import opened RunInvariant
  import opened RunHistory
  import opened RunAccounting
  import opened RunTheorems

  /** Answers that came, deliveries that failed (an answer no branch handles counts as both), and deferrals. */
  datatype Kind = Came | Failure | Deferral

  predicate Is(reply: Reply, kind: Kind) {
    match kind
    case Came => reply != Failed
    case Failure => reply == Failed || reply == Unexpected
    case Deferral => reply.Defer?
  }

  function AnswersTo(h: History, kind: Kind): nat {
    if h.Then? then AnswersTo(h.prior, kind) + (if Is(h.reply, kind) then 1 else 0) else 0
  }

  function AllAnswers(hs: seq<History>, kind: Kind): nat {
    if hs == [] then 0 else AnswersTo(hs[0], kind) + AllAnswers(hs[1..], kind)
  }

  lemma {:induction false} AllAnswersAppend(hs: seq<History>, n: nat, kind: Kind)
    ensures AllAnswers(hs + NoHistories(n), kind) == AllAnswers(hs, kind)
    decreases |hs| + n
  {
    if hs != [] {
      assert (hs + NoHistories(n))[1..] == hs[1..] + NoHistories(n);
      AllAnswersAppend(hs[1..], n, kind);
    } else if n > 0 {
      assert [] + NoHistories(n) == NoHistories(n) && NoHistories(n)[1..] == [] + NoHistories(n - 1);
      AllAnswersAppend([], n - 1, kind);
    } else {
      assert [] + NoHistories(0) == [];
    }
  }

  /** One more answer to one message. */
  lemma {:induction false} AllAnswersGrow(hs: seq<History>, hs1: seq<History>, r: nat, id: Guid, reply: Reply, kind: Kind)
    requires r < |hs| == |hs1| && hs1[r] == Then(hs[r], id, reply)
    requires forall i :: 0 <= i < |hs| && i != r ==> hs1[i] == hs[i]
    ensures AllAnswers(hs1, kind) == AllAnswers(hs, kind) + if Is(reply, kind) then 1 else 0
    decreases |hs|
  {
    if r == 0 {
      assert hs1[1..] == hs[1..];
    } else {
      AllAnswersGrow(hs[1..], hs1[1..], r - 1, id, reply, kind);
    }
  }

  function Counter(st: Statistics, kind: Kind): nat {
    match kind
    case Came => st.delivered
    case Failure => st.failed
    case Deferral => st.deferred
  }

  ghost predicate AnswersCounted(s: System) {
    forall kind :: Counter(s.q.stats, kind) == Counter(s.trace.base, kind) + AllAnswers(s.trace.histories, kind)
  }

  ghost predicate SameCounters(st: Statistics, st1: Statistics) {
    st1.delivered == st.delivered && st1.failed == st.failed && st1.deferred == st.deferred
  }

  /** Neither an answer came nor did any counter of answers move. */
  ghost predicate NoAnswer(s: System, s1: System) {
    && SameCounters(s.q.stats, s1.q.stats) && s1.trace.base == s.trace.base
    && exists n: nat :: s1.trace.histories == s.trace.histories + NoHistories(n)
  }

  lemma SameHistories(s: System, s1: System)
    requires SameCounters(s.q.stats, s1.q.stats) && s1.trace.base == s.trace.base
    requires s1.trace.histories == s.trace.histories
    ensures NoAnswer(s, s1)
  {
    assert s.trace.histories + NoHistories(0) == s.trace.histories;
  }

  lemma ThreadHearsNothing(s: System, a: Action)
    requires StoreOk(s) && Enabled(s, a) && (a.Hydrate? || a.Select? || a.Sweep?)
    ensures NoAnswer(s, Apply(s, a))
  {
    if a.Hydrate? {
      HydrationHearsNothing(s, a.locked, a.newIds);
    } else {
      if a.Select? {
        SelectCounts(s, a.locked, a.now);
      } else if a.Sweep? && a.writeLocked {
        SweepEffect(s.q, s.thread.list[..a.upto]);
      }
      SameHistories(s, Apply(s, a));
    }
  }

  lemma SelectCounts(s: System, locked: bool, now: Time)
    requires StoreOk(s) && Enabled(s, Select(locked, now))
    ensures SameCounters(s.q.stats, Apply(s, Select(locked, now)).q.stats)
  {
    if locked {
      BufferDistinct(s.q);
      ExpiryCount(s.q, s.q.buffer, now);
    }
  }

  lemma HydrationHearsNothing(s: System, locked: bool, newIds: nat -> Guid)
    requires Enabled(s, Hydrate(locked, newIds))
    ensures NoAnswer(s, Apply(s, Hydrate(locked, newIds)))
  {
    var s1 := Apply(s, Hydrate(locked, newIds));
    if locked && Persists(s.q) {
      HydrationShape(s.q, NextKeysOf(s.q), newIds);
      assert s1.trace.histories == s.trace.histories + NoHistories(|s1.q.objects| - |s.q.objects|);
    } else {
      SameHistories(s, s1);
    }
  }

  lemma OthersHearNothing(s: System, a: Action)
    requires Enabled(s, a) && !a.Hydrate? && !a.Select? && !a.Sweep? && !a.TakeAnswer? && !a.Restart?
    ensures NoAnswer(s, Apply(s, a))
  {
    if a.EnqueueInMemory? {
      assert NoHistories(1) == [Nothing];
    } else {
      if a.Begin? {
        BeginFrame(s, s.thread.top.value, a.order);
      }
      SameHistories(s, Apply(s, a));
    }
  }

  lemma AnswerHeard(s: System, r: nat, reply: Reply, at: Time)
    requires Enabled(s, TakeAnswer(r, reply, at)) && AnswersCounted(s)
    ensures AnswersCounted(AnswerStep(s, r, reply, at))
  {
    var s1 := AnswerStep(s, r, reply, at);
    AnswerCounts(s, r, reply, at);
    forall kind ensures Counter(s1.q.stats, kind) == Counter(s1.trace.base, kind) + AllAnswers(s1.trace.histories, kind) {
      AllAnswersGrow(s.trace.histories, s1.trace.histories, r, s.calls[r].waiting.value, reply, kind);
    }
  }

  lemma AnswerCounts(s: System, r: nat, reply: Reply, at: Time)
    requires Enabled(s, TakeAnswer(r, reply, at))
    ensures var s1 := AnswerStep(s, r, reply, at);
      && s1.trace.base == s.trace.base
      && s1.trace.histories == s.trace.histories[r := Then(s.trace.histories[r], s.calls[r].waiting.value, reply)]
      && forall kind :: Counter(s1.q.stats, kind) == Counter(s.q.stats, kind) + if Is(reply, kind) then 1 else 0
  {
    AnswerShape(s, r, reply, at, Take(s.q.cfg, s.q.objects[r], s.calls[r].waiting.value, reply, at));
    AnswerBooks(s, r, reply, at);
  }

  lemma AnswersStep(s: System, a: Action)
    requires StoreOk(s) && AnswersCounted(s) && Enabled(s, a)
    ensures AnswersCounted(Apply(s, a))
  {
    if a.TakeAnswer? {
      AnswerHeard(s, a.r, a.reply, a.at);
    } else if !a.Restart? {
      if a.Hydrate? || a.Select? || a.Sweep? {
        ThreadHearsNothing(s, a);
      } else {
        OthersHearNothing(s, a);
      }
      var n: nat :| Apply(s, a).trace.histories == s.trace.histories + NoHistories(n);
      NothingHeard(s, Apply(s, a), n);
    }
  }

  lemma NothingHeard(s: System, s1: System, n: nat)
    requires AnswersCounted(s) && SameCounters(s.q.stats, s1.q.stats) && s1.trace.base == s.trace.base
    requires s1.trace.histories == s.trace.histories + NoHistories(n)
    ensures AnswersCounted(s1)
  {
    forall kind ensures Counter(s1.q.stats, kind) == Counter(s1.trace.base, kind) + AllAnswers(s1.trace.histories, kind) {
      AllAnswersAppend(s.trace.histories, n, kind);
      assert Counter(s.q.stats, kind) == Counter(s.trace.base, kind) + AllAnswers(s.trace.histories, kind);
    }
  }

  lemma {:induction false} AnswersRun(s: System, actions: seq<Action>)
    requires Inv(s) && AnswersCounted(s) && Run(s, actions)
    ensures AnswersCounted(Reached(s, actions))
    decreases |actions|
  {
    if actions != [] {
      AnswersStep(s, actions[0]);
      StepInv(s, actions[0]);
      AnswersRun(Apply(s, actions[0]), actions[1..]);
    }
  }

  /** In every reachable state the counters are those the process started with plus the answers to all its messages,
      those gone since included: every answer is counted as delivered, every failure as failed, an unexpected
      answer as both, every deferral as deferred, and each of them once. */
  lemma AnswersOnRuns(s: System)
    requires Reachable(s)
    ensures s.q.stats.delivered == s.trace.base.delivered + AllAnswers(s.trace.histories, Came)
    ensures s.q.stats.failed == s.trace.base.failed + AllAnswers(s.trace.histories, Failure)
    ensures s.q.stats.deferred == s.trace.base.deferred + AllAnswers(s.trace.histories, Deferral)
  {
    var cfg, disk, stats, actions :|
      WellKeyed(disk) && Run(Booted(cfg, disk, stats), actions) && s == Reached(Booted(cfg, disk, stats), actions);
    BootInv(cfg, disk, stats);
    AnswersRun(Booted(cfg, disk, stats), actions);
    assert forall kind :: Counter(s.q.stats, kind) == Counter(s.trace.base, kind) + AllAnswers(s.trace.histories, kind);
    assert Counter(s.q.stats, Came) == s.q.stats.delivered && Counter(s.q.stats, Failure) == s.q.stats.failed;
    assert Counter(s.q.stats, Deferral) == s.q.stats.deferred;
  }
}
