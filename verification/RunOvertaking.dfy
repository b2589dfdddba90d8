/** The configuration's comment on asynchronous delivery says that messages are still delivered in order per
    subscriber. That holds of exactly the queues with one delivery at a time. */
module RunOvertaking {
  import opened Messages
  import opened DeliveryPass
  import opened QueueState
  import opened QueueEffects
  import opened StoreInvariant
  import opened QueueRun
  import opened RunInvariant
  import opened RunHistory
  import opened RunAccounting
  import opened RunTheorems
  import opened RunOrder
  import opened RunPasses

  /** Subscriber `id` is being asked about message `t` while it is still owed the older message `r` and has never been
      asked about that one. */
  ghost predicate OvertakenBy(s: System, id: Guid, r: nat, t: nat) {
    && r in s.q.buffer && r < |s.q.objects| && t < |s.q.objects| && Serial(s.q, r) < Serial(s.q, t)
    && Undelivered(s.q.objects[r].state) && id in Remaining(s.q.objects[r], s.q.subscribers)
    && Attempts(s.q.objects[r], id) == 0
    && t in s.calls && s.calls[t].waiting == Some(id)
  }

  // ---------- one delivery at a time ----------

  /** What is out for delivery was picked, so it is not above the last pick. */
  ghost predicate CallsPicked(s: System) {
    forall t :: t in s.calls ==> t < |s.q.objects| && Serial(s.q, t) <= LastPick(s)
  }

  lemma CallsOnlyBegin(s: System, a: Action)
    requires CallInv(s) && Enabled(s, a) && !a.Begin? && !a.Restart?
    ensures Apply(s, a).calls.Keys <= s.calls.Keys && Apply(s, a).trace.picks == s.trace.picks
  {
    if Quiet(a) {
      QuietCalls(s, a);
    } else if a.TakeAnswer? {
      AnswerShape(s, a.r, a.reply, a.at, Take(s.q.cfg, s.q.objects[a.r], s.calls[a.r].waiting.value, a.reply, a.at));
      AnswerPicks(s, a.r, a.reply, a.at);
    }
  }

  lemma PickedStep(s: System, a: Action)
    requires StoreOk(s) && CallInv(s) && Orderly(s) && CallsPicked(s) && Enabled(s, a)
    ensures CallsPicked(Apply(s, a))
  {
    if a.Begin? {
      BeginPicked(s, s.thread.top.value, a.order);
    } else if !a.Restart? {
      CallsOnlyBegin(s, a);
      ObjectStep(s, a);
      SamePicks(s, Apply(s, a));
    }
  }

  lemma SamePicks(s: System, s1: System)
    requires CallsPicked(s) && ObjectsEvolve(s, s1) && s1.calls.Keys <= s.calls.Keys && s1.trace.picks == s.trace.picks
    ensures CallsPicked(s1)
  {
    forall t | t in s1.calls ensures t < |s1.q.objects| && Serial(s1.q, t) <= LastPick(s1) {
      assert t in s.calls.Keys;
      assert SameIdentity(s.q.objects[t].rec, s1.q.objects[t].rec);
    }
  }

  lemma BeginPicked(s: System, r: nat, order: seq<Guid>)
    requires CallInv(s) && OrderInv(s) && CallsPicked(s) && s.thread == Selected(Some(r))
    ensures CallsPicked(BeginStep(s, r, order))
  {
    var s1 := BeginStep(s, r, order);
    BeginPicks(s, r, order);
    BeginIsSameOrder(s, r, order);
    assert LastPick(s1) == Floor(s) == Serial(s.q, r);
    forall t | t in s1.calls ensures t < |s1.q.objects| && Serial(s1.q, t) <= LastPick(s1) {
      assert t == r || t in s.calls;
    }
  }

  lemma {:induction false} PickedRun(s: System, actions: seq<Action>)
    requires Inv(s) && Orderly(s) && CallsPicked(s) && Run(s, actions) && WithoutDeferral(actions)
    ensures Orderly(Reached(s, actions)) && CallsPicked(Reached(s, actions))
    decreases |actions|
  {
    if actions != [] {
      PickedStep(s, actions[0]);
      OrderStep(s, actions[0]);
      StepInv(s, actions[0]);
      PickedRun(Apply(s, actions[0]), actions[1..]);
    }
  }

  /** With one delivery at a time and without deferrals nobody is ever asked about a message before an older one it
      is still owed. */
  lemma InOrderPerSubscriber(
    cfg: Config, disk: map<nat, Record>, stats: Statistics, actions: seq<Action>, id: Guid, r: nat, t: nat)
    requires WellKeyed(disk) && OneAtATime(cfg) && forall k :: k in disk ==> disk[k].deferredUntil == None
    requires Run(Booted(cfg, disk, stats), actions) && WithoutDeferral(actions)
    ensures !OvertakenBy(Reached(Booted(cfg, disk, stats), actions), id, r, t)
  {
    BootInv(cfg, disk, stats);
    BootOrder(cfg, disk, stats);
    PickedRun(Booted(cfg, disk, stats), actions);
    NothingOlder(Reached(Booted(cfg, disk, stats), actions), id, r, t);
  }

  lemma NothingOlder(s: System, id: Guid, r: nat, t: nat)
    requires OrderInv(s) && CallsPicked(s)
    ensures !OvertakenBy(s, id, r, t)
  {
    if r in s.q.buffer && r < |s.q.objects| && Undelivered(s.q.objects[r].state) {
      var i :| 0 <= i < |s.q.buffer| && s.q.buffer[i] == r;
      assert BufferedFrom(s.q, s.q.buffer[i], Floor(s));
    }
  }

  // ---------- two at a time ----------

  /** Reached from some start of a queue `cfg`, over some saved messages, none of which is or gets deferred. */
  ghost predicate Attained(cfg: Config, s: System) {
    exists disk, stats, actions :: AttainedBy(cfg, disk, stats, actions, s)
  }

  ghost predicate AttainedBy(cfg: Config, disk: map<nat, Record>, stats: Statistics, actions: seq<Action>, s: System) {
    && WellKeyed(disk) && (forall k :: k in disk ==> disk[k].deferredUntil == None)
    && Run(Booted(cfg, disk, stats), actions) && WithoutDeferral(actions)
    && s == Reached(Booted(cfg, disk, stats), actions)
  }

  lemma Further(cfg: Config, s: System, a: Action)
    requires Attained(cfg, s) && Enabled(s, a) && Undeferring(a)
    ensures Attained(cfg, Apply(s, a))
  {
    var disk, stats, actions :| AttainedBy(cfg, disk, stats, actions, s);
    OneMore(Booted(cfg, disk, stats), actions, a);
    assert AttainedBy(cfg, disk, stats, actions + [a], Apply(s, a));
  }

  /** A running queue with subscribers 1 and 2, two buffered messages and the given calls out. */
  predicate Stage(s: System, cfg: Config, m0: Message, m1: Message, thread: Thread, calls: map<nat, Call>) {
    && s.q.cfg == cfg && s.q.objects == [m0, m1] && s.q.buffer == [0, 1] && s.q.depth == 2
    && s.q.subscribers == {1, 2} && s.q.running && s.q.outstanding == |calls|
    && s.thread == thread && !s.rehydrate && s.calls == calls && |s.trace.histories| == 2
  }

  function Sample(cfg: Config, k: nat): Record {
    Record(cfg.name, k, 1, 0, 0, None, None, "type", "body")
  }

  /** A moment at which a message of time zero is not too old, whatever the configured age. */
  function Early(cfg: Config): Time {
    if cfg.maxAge.Some? && cfg.maxAge.value < 0 then cfg.maxAge.value else 0
  }

  /** Ephemeral: both messages are enqueued. Persistent: both were stored before, and the first pick of the thread
      asks for a hydration. */
  lemma TwoEnqueued(cfg: Config, stats: Statistics) returns (s: System)
    requires cfg.persistence == Ephemeral
    ensures Attained(cfg, s) && Stage(s, cfg, Fresh(Sample(cfg, 1)), Fresh(Sample(cfg, 2)), Top, map[])
  {
    s := TwoSubscribed(cfg, map[], stats);
    Further(cfg, s, EnqueueInMemory(Sample(cfg, 1)));
    s := Apply(s, EnqueueInMemory(Sample(cfg, 1)));
    Further(cfg, s, EnqueueInMemory(Sample(cfg, 2)));
    s := Apply(s, EnqueueInMemory(Sample(cfg, 2)));
  }

  /** A running queue with subscribers 1 and 2 and nothing in its memory yet. */
  predicate Bare(s: System, cfg: Config, disk: map<nat, Record>, thread: Thread, rehydrate: bool) {
    && s.q.cfg == cfg && s.q.objects == [] && s.q.buffer == [] && s.q.subscribers == {1, 2} && s.q.running
    && s.q.outstanding == 0 && s.calls == map[] && s.trace.histories == []
    && s.drawn == map[] && s.uncounted == {} && s.thread == thread && s.rehydrate == rehydrate
    && if Persists(s.q) then s.q.store == disk && s.q.depth == |disk| else s.q.lastSerial == 0 && s.q.depth == 0
  }

  lemma TwoSubscribed(cfg: Config, disk: map<nat, Record>, stats: Statistics) returns (s: System)
    requires WellKeyed(disk) && forall k :: k in disk ==> disk[k].deferredUntil == None
    ensures Attained(cfg, s) && Bare(s, cfg, disk, Top, false)
  {
    var s0 := Booted(cfg, disk, stats);
    assert AttainedBy(cfg, disk, stats, [], s0);
    Further(cfg, s0, Subscribe(1));
    var s1 := Apply(s0, Subscribe(1));
    Further(cfg, s1, Subscribe(2));
    s := Apply(s1, Subscribe(2));
    assert {} + {1} + {2} == {1, 2};
  }

  function TwoStored(cfg: Config): map<nat, Record> {
    map[1 := Sample(cfg, 1), 2 := Sample(cfg, 2)]
  }

  lemma TwoHydrated(cfg: Config, stats: Statistics) returns (s: System)
    requires cfg.persistence == Persistent && cfg.maxOutstanding > 0
    ensures Attained(cfg, s) && Stage(s, cfg, Fresh(Sample(cfg, 1)), Fresh(Sample(cfg, 2)), Top, map[])
  {
    s := TwoSubscribed(cfg, TwoStored(cfg), stats);
    s := HungryPick(cfg, TwoStored(cfg), s);
    s := NothingToSweep(cfg, TwoStored(cfg), s);
    s := ReadBoth(cfg, s);
  }

  lemma HungryPick(cfg: Config, disk: map<nat, Record>, s: System) returns (s1: System)
    requires Attained(cfg, s) && Bare(s, cfg, disk, Top, false) && Persists(s.q) && |disk| > 0 && cfg.maxOutstanding > 0
    ensures Attained(cfg, s1) && Bare(s1, cfg, disk, Selected(None), true)
  {
    assert 1 in s.q.subscribers;
    Further(cfg, s, Select(true, 0));
    s1 := Apply(s, Select(true, 0));
  }

  lemma NothingToSweep(cfg: Config, disk: map<nat, Record>, s: System) returns (s1: System)
    requires Attained(cfg, s) && Bare(s, cfg, disk, Selected(None), true)
    ensures Attained(cfg, s1) && Bare(s1, cfg, disk, Top, true)
  {
    Further(cfg, s, Resume);
    s1 := Apply(s, Resume);
    Further(cfg, s1, Collect);
    s1 := Apply(s1, Collect);
  }

  lemma ReadBoth(cfg: Config, s: System) returns (s1: System)
    requires Attained(cfg, s) && Bare(s, cfg, TwoStored(cfg), Top, true) && Persists(s.q)
    ensures Attained(cfg, s1) && Stage(s1, cfg, Fresh(Sample(cfg, 1)), Fresh(Sample(cfg, 2)), Top, map[])
  {
    var newIds: nat -> Guid := _ => 1;
    Further(cfg, s, Hydrate(true, newIds));
    s1 := HydrateStep(s, newIds);
    StageRead(cfg, s, newIds);
  }

  lemma StageRead(cfg: Config, s: System, newIds: nat -> Guid)
    requires Bare(s, cfg, TwoStored(cfg), Top, true) && Persists(s.q)
    ensures Stage(HydrateStep(s, newIds), cfg, Fresh(Sample(cfg, 1)), Fresh(Sample(cfg, 2)), Top, map[])
  {
    TwoRead(s.q, newIds);
    assert |TwoStored(cfg)| == 2;
  }

  lemma TwoRead(q: Queue, newIds: nat -> Guid)
    requires q.store == TwoStored(q.cfg) && q.buffer == [] && q.objects == []
    ensures Hydrated(q, PERSISTENT_MESSAGES_BUFFER_SIZE, newIds) ==
              q.(objects := [Fresh(Sample(q.cfg, 1)), Fresh(Sample(q.cfg, 2))], buffer := [0, 1])
  {
    NextTwo(q);
    BothLoaded(q, newIds);
  }

  lemma NextTwo(q: Queue)
    requires q.store == TwoStored(q.cfg) && q.buffer == []
    ensures NextKeys(q, PERSISTENT_MESSAGES_BUFFER_SIZE) == [1, 2]
  {
    assert Above(q) == {1, 2};
    TwoSorted();
  }

  lemma BothLoaded(q: Queue, newIds: nat -> Guid)
    requires q.store == TwoStored(q.cfg) && q.buffer == [] && q.objects == []
    ensures HydrateKeys(q, [1, 2], newIds) ==
              q.(objects := [Fresh(Sample(q.cfg, 1)), Fresh(Sample(q.cfg, 2))], buffer := [0, 1])
  {
    var q1 := HydrateOne(q, 1, newIds);
    ReadStored(q, 1, newIds);
    ReadStored(q1, 2, newIds);
    assert HydrateKeys(q, [1, 2], newIds) == HydrateKeys(q1, [2], newIds);
    assert HydrateKeys(q1, [2], newIds) == HydrateKeys(HydrateOne(q1, 2, newIds), [], newIds);
  }

  lemma ReadStored(q: Queue, k: nat, newIds: nat -> Guid)
    requires k in q.store && q.store[k].messageId != EMPTY_GUID
    ensures HydrateOne(q, k, newIds) == BufferNew(q, q.store[k])
  {
    assert q.store[k := q.store[k]] == q.store;
  }

  lemma TwoSorted()
    ensures SortedKeys({1, 2}) == [1, 2]
  {
    var ks := SortedKeys({1, 2});
    assert ks[0] in SetOf(ks) && ks[1] in SetOf(ks);
  }

  // ---------- both out at once ----------

  lemma Pick(cfg: Config, m0: Message, m1: Message, calls: map<nat, Call>, s: System, r: nat) returns (s1: System)
    requires Attained(cfg, s) && Stage(s, cfg, m0, m1, Top, calls) && |calls| < cfg.maxOutstanding && r < 2
    requires m0.rec == Sample(cfg, 1) && m1.rec == Sample(cfg, 2) && m1.state == Ready
    requires m0.state == if r == 0 then Ready else OutForDelivery
    ensures Attained(cfg, s1) && Stage(s1, cfg, m0, m1, Selected(Some(r)), calls)
  {
    var now := Early(cfg);
    Unexpired(s.q, now, r);
    Further(cfg, s, Select(true, now));
    s1 := SelectStep(s, now);
    assert 1 in s.q.subscribers;
  }

  lemma Unexpired(q: Queue, now: Time, r: nat)
    requires |q.objects| == 2 && q.buffer == [0, 1] && r < 2
    requires !Expired(q.cfg, q.objects[0], now) && !Expired(q.cfg, q.objects[1], now)
    requires Eligible(q.objects[r], now) && (r == 1 ==> !Eligible(q.objects[0], now))
    ensures ExpireAll(q, [0, 1], now) == q && FirstEligible(q, [0, 1], now) == Some(r)
  {
    assert [0, 1][1..] == [1] && [1][1..] == [];
    assert ExpireAll(q, [], now) == q;
    assert ExpireAll(q, [1], now) == q;
    assert FirstEligible(q, [1], now) == (if Eligible(q.objects[1], now) then Some(1) else None);
  }

  /** The thread hands the picked message to a task of its own and goes round. */
  lemma Launch(cfg: Config, m0: Message, m1: Message, calls: map<nat, Call>, s: System, r: nat) returns (s1: System)
    requires Attained(cfg, s) && Stage(s, cfg, m0, m1, Selected(Some(r)), calls) && r < 2 && r !in calls
    requires cfg.asynchronous && Complete(if r == 0 then m0 else m1) == {} && !Terminal(m0.state) && !Terminal(m1.state)
    ensures Attained(cfg, s1)
    ensures var m := if r == 0 then m0 else m1;
      var out := m.(state := OutForDelivery);
      Stage(s1, cfg, if r == 0 then out else m0, if r == 1 then out else m1, Top, calls[r := OpenCall(m, [1, 2])])
  {
    var m := if r == 0 then m0 else m1;
    var out := m.(state := OutForDelivery);
    BothListed();
    assert Remaining(m, s.q.subscribers) == {1, 2};
    Further(cfg, s, Begin([1, 2]));
    s1 := BeginStep(s, r, [1, 2]);
    s1 := NothingCollected(
      cfg, if r == 0 then out else m0, if r == 1 then out else m1, calls[r := OpenCall(m, [1, 2])], s1);
  }

  lemma NothingCollected(cfg: Config, m0: Message, m1: Message, calls: map<nat, Call>, s: System) returns (s1: System)
    requires Attained(cfg, s) && Stage(s, cfg, m0, m1, Sweeping, calls) && !Terminal(m0.state) && !Terminal(m1.state)
    ensures Attained(cfg, s1) && Stage(s1, cfg, m0, m1, Top, calls)
  {
    NoneDisposed(s.q);
    Further(cfg, s, Collect);
    s1 := Apply(s, Collect);
  }

  lemma BothListed()
    ensures Lists([1, 2], {1, 2})
  {
    assert SetOf([1, 2]) == {1, 2};
  }

  lemma NoneDisposed(q: Queue)
    requires |q.objects| == 2 && q.buffer == [0, 1]
    requires !Terminal(q.objects[0].state) && !Terminal(q.objects[1].state)
    ensures Disposed(q, q.buffer) == []
  {
    assert [0, 1][1..] == [1] && [1][1..] == [];
    assert Disposed(q, [1]) == [];
  }

  /** A call asks its next subscriber. */
  lemma Ask(cfg: Config, m0: Message, m1: Message, calls: map<nat, Call>, s: System) returns (s1: System)
    requires Attained(cfg, s) && Stage(s, cfg, m0, m1, Top, calls)
    requires 1 in calls && calls[1].waiting == None && calls[1].todo != []
    ensures Attained(cfg, s1)
    ensures Stage(s1, cfg, m0, Send(m1, calls[1].todo[0]), Top,
                  calls[1 := calls[1].(todo := calls[1].todo[1..], waiting := Some(calls[1].todo[0]))])
  {
    Further(cfg, s, SendNext(1));
    s1 := SendStep(s, 1);
    assert s1.q.objects == [m0, Send(m1, calls[1].todo[0])];
    assert s1.calls.Keys == s.calls.Keys && |s1.calls| == |s1.calls.Keys| && |s.calls| == |s.calls.Keys|;
  }

  /** The subscriber asked is not interested, which ends nothing. */
  lemma Decline(cfg: Config, m0: Message, m1: Message, calls: map<nat, Call>, s: System) returns (s1: System, m2: Message)
    requires Attained(cfg, s) && Stage(s, cfg, m0, m1, Top, calls) && 1 in calls && calls[1].waiting.Some?
    ensures Attained(cfg, s1)
    ensures exists c :: Stage(s1, cfg, m0, m2, Top, calls[1 := c]) && c.waiting == None && c.todo == calls[1].todo
    ensures m2.rec == m1.rec
  {
    Further(cfg, s, TakeAnswer(1, NotInterested, 0));
    s1 := AnswerStep(s, 1, NotInterested, 0);
    m2 := s1.q.objects[1];
    var c := s1.calls[1];
    assert s1.calls.Keys == s.calls.Keys;
    assert Stage(s1, cfg, m0, m2, Top, calls[1 := c]);
  }

  /** The reverse: with two deliveries at a time, both messages offered to 1 and 2 in this order, subscriber 2 is
      asked about the second message first whenever 1 answers that one sooner. No deferral is involved and the
      delivery scheme does not matter. */
  lemma AsynchronousOvertakes(cfg: Config, stats: Statistics) returns (s: System)
    requires !OneAtATime(cfg)
    ensures Attained(cfg, s) && OvertakenBy(s, 2, 0, 1)
  {
    if cfg.persistence == Ephemeral {
      s := TwoEnqueued(cfg, stats);
    } else {
      s := TwoHydrated(cfg, stats);
    }
    s := BothOut(cfg, s);
    s := SecondAhead(cfg, s);
  }

  function OneOut(cfg: Config, k: nat): Message {
    Fresh(Sample(cfg, k)).(state := OutForDelivery)
  }

  function BothCalls(cfg: Config): map<nat, Call> {
    map[0 := OpenCall(Fresh(Sample(cfg, 1)), [1, 2]), 1 := OpenCall(Fresh(Sample(cfg, 2)), [1, 2])]
  }

  lemma BothOut(cfg: Config, s: System) returns (s1: System)
    requires !OneAtATime(cfg) && Attained(cfg, s)
    requires Stage(s, cfg, Fresh(Sample(cfg, 1)), Fresh(Sample(cfg, 2)), Top, map[])
    ensures Attained(cfg, s1) && Stage(s1, cfg, OneOut(cfg, 1), OneOut(cfg, 2), Top, BothCalls(cfg))
  {
    var m0, m1 := Fresh(Sample(cfg, 1)), Fresh(Sample(cfg, 2));
    var one := map[][0 := OpenCall(m0, [1, 2])];
    s1 := Pick(cfg, m0, m1, map[], s, 0);
    s1 := Launch(cfg, m0, m1, map[], s1, 0);
    s1 := Pick(cfg, OneOut(cfg, 1), m1, one, s1, 1);
    s1 := Launch(cfg, OneOut(cfg, 1), m1, one, s1, 1);
    assert one[1 := OpenCall(m1, [1, 2])] == BothCalls(cfg);
  }

  lemma SecondAhead(cfg: Config, s: System) returns (s1: System)
    requires Attained(cfg, s) && Stage(s, cfg, OneOut(cfg, 1), OneOut(cfg, 2), Top, BothCalls(cfg))
    ensures Attained(cfg, s1) && OvertakenBy(s1, 2, 0, 1)
  {
    var m0, m1, calls := OneOut(cfg, 1), OneOut(cfg, 2), BothCalls(cfg);
    s1 := Ask(cfg, m0, m1, calls, s);
    m1 := Send(m1, 1);
    calls := calls[1 := calls[1].(todo := [2], waiting := Some(1))];
    s1, m1 := Decline(cfg, m0, m1, calls, s1);
    var c :| Stage(s1, cfg, m0, m1, Top, calls[1 := c]) && c.waiting == None && c.todo == [2];
    s1 := Ask(cfg, m0, m1, calls[1 := c], s1);
    assert s1.q.objects[0] == m0 && 0 in s1.q.buffer;
  }

  /** No run of queue `cfg` without deferrals asks anybody about a message before an older one owed to it. */
  ghost predicate OrderedPerSubscriber(cfg: Config) {
    forall s, id, r, t :: Attained(cfg, s) ==> !OvertakenBy(s, id, r, t)
  }

  /** The documented order per subscriber holds of exactly the queues with one delivery at a time. */
  lemma OrderPerSubscriberExact(cfg: Config)
    ensures OrderedPerSubscriber(cfg) <==> OneAtATime(cfg)
  {
    if OneAtATime(cfg) {
      forall s, id, r, t | Attained(cfg, s) ensures !OvertakenBy(s, id, r, t) {
        var disk, stats, actions :| AttainedBy(cfg, disk, stats, actions, s);
        InOrderPerSubscriber(cfg, disk, stats, actions, id, r, t);
      }
    } else {
      var s := AsynchronousOvertakes(cfg, Statistics(0, 0, 0, 0, 0, 0, 0));
      assert OvertakenBy(s, 2, 0, 1);
    }
  }
}
