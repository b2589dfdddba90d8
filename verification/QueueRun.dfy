/** Whole runs of one queue. Every critical section, and every point where an asynchronous delivery waits for a
    subscriber, is one action; enqueues, deliveries, purges, subscriptions, stops and restarts interleave freely
    with the steps of the delivery thread. */
module QueueRun {
  import opened Messages
  import opened DeliveryPass
  import opened QueueState

  /** Where the delivery thread is. `Selected` lies between picking a message and marking it out for delivery;
      `Collected` between the two phases of the sweep. */
  datatype Thread =
    | Top
    | Selected(top: Option<nat>)
    | Awaiting(r: nat)
    | Sweeping
    | Collected(list: seq<nat>)
    | Exited

  /** One delivery call in flight: who is still to be asked, whose answer is awaited and the failures so far;
      and, for the record, the opening snapshot of the remaining subscribers, the message as the call found it
      and the turns it has had. */
  datatype Call = Call(
    todo: seq<Guid>,
    waiting: Option<Guid>,
    failures: set<Guid>,
    order: seq<Guid>,
    start: Message,
    turns: seq<Turn>)

  function OpenCall(m: Message, order: seq<Guid>): Call {
    Call(order, None, {}, order, m.(state := OutForDelivery), [])
  }

  /** What happened so far in this run: the answered offers of every message object, the serials picked for
      delivery, the depth and counters the run started with, and how messages left or were counted. */
  datatype Trace = Trace(
    histories: seq<History>,
    picks: seq<nat>,
    initial: int,
    base: Statistics,
    swept: nat,
    purged: nat,
    expired: set<nat>,
    dropped: set<nat>,
    deadLettered: set<nat>)

  datatype System = System(
    q: Queue,
    thread: Thread,
    rehydrate: bool,
    calls: map<nat, Call>,
    drawn: map<nat, Record>,
    uncounted: set<nat>,
    trace: Trace)

  datatype Action =
    | DrawSerial(draft: Record)
    | StoreDrawn(serial: nat)
    | CountStored(serial: nat)
    | EnqueueInMemory(draft: Record)
    | Hydrate(locked: bool, newIds: nat -> Guid)
    | Select(locked: bool, now: Time)
    | Begin(order: seq<Guid>)
    | SendNext(r: nat)
    | TakeAnswer(r: nat, reply: Reply, at: Time)
    | EndPass(r: nat)
    | Resume
    | Collect
    | Sweep(writeLocked: bool, upto: nat)
    | Exit
    | Purge
    | Subscribe(id: Guid)
    | Unsubscribe(id: Guid)
    | Stop
    | Close
    | Restart(stats: Statistics)

  /** No enqueue is inside its shared lock, so the exclusive lock can be taken. */
  predicate NoReaders(s: System) {
    s.drawn == map[] && s.uncounted == {}
  }

  predicate Calling(s: System, r: nat) {
    r in s.calls && r < |s.q.objects| && r < |s.trace.histories|
  }

  /** When an action can happen. Failing to get a lock is the action with its flag off. */
  ghost predicate Enabled(s: System, a: Action) {
    match a
    case DrawSerial(draft) =>
      Persists(s.q) && s.q.open && s.q.lastSerial + 1 < U64_LIMIT
    case StoreDrawn(k) => Persists(s.q) && k in s.drawn
    case CountStored(k) => Persists(s.q) && k in s.uncounted
    case EnqueueInMemory(draft) =>
      !Persists(s.q) && s.q.lastSerial + 1 < U64_LIMIT
    case Hydrate(locked, newIds) =>
      && s.thread == Top && s.rehydrate && (forall k :: newIds(k) != EMPTY_GUID)
      && (locked ==> NoReaders(s) && InTable(s.q, s.q.buffer))
    case Select(locked, now) => s.thread == Top && !s.rehydrate && InTable(s.q, s.q.buffer)
    case Begin(order) =>
      && s.thread.Selected? && s.thread.top.Some? && s.thread.top.value < |s.q.objects|
      && Lists(order, Remaining(s.q.objects[s.thread.top.value], s.q.subscribers))
    case SendNext(r) => Calling(s, r) && s.calls[r].waiting == None && s.calls[r].todo != []
    case TakeAnswer(r, _, _) => Calling(s, r) && s.calls[r].waiting.Some?
    case EndPass(r) => Calling(s, r) && s.calls[r].waiting == None && s.calls[r].todo == []
    case Resume => s.thread == Selected(None) || (s.thread.Awaiting? && s.thread.r !in s.calls)
    case Collect => s.thread == Sweeping && InTable(s.q, s.q.buffer)
    case Sweep(locked, upto) =>
      && s.thread.Collected? && InTable(s.q, s.thread.list) && upto <= |s.thread.list|
      && (locked ==> NoReaders(s))
    case Exit => s.thread == Top && !s.q.running
    case Purge => NoReaders(s) && (Persists(s.q) ==> s.q.open)
    case Stop => true
    case Subscribe(_) => true
    case Unsubscribe(_) => true
    case Close => s.thread == Exited && NoReaders(s)
    case Restart(_) => true
  }

  function Finish(s: System, r: nat, verdict: MessageState): System
    requires r < |s.q.objects|
  {
    s.(q := Finished(s.q, r, verdict), calls := s.calls - {r})
  }

  function NoHistories(n: nat): seq<History> {
    seq(n, _ => Nothing)
  }

  function Booted(cfg: Config, disk: map<nat, Record>, stats: Statistics): System {
    var q := Loaded(cfg, disk, stats);
    System(q, Top, false, map[], map[], {}, Trace([], [], q.depth, stats, 0, 0, {}, {}, {}))
  }

  function HydrateStep(s: System, newIds: nat -> Guid): System
    requires InTable(s.q, s.q.buffer)
  {
    var q1 := Hydrated(s.q, PERSISTENT_MESSAGES_BUFFER_SIZE, newIds);
    var added := if |q1.objects| >= |s.q.objects| then |q1.objects| - |s.q.objects| else 0;
    s.(q := q1, rehydrate := false, trace := s.trace.(histories := s.trace.histories + NoHistories(added)))
  }

  function SelectStep(s: System, now: Time): System
    requires InTable(s.q, s.q.buffer)
  {
    var picked := ExpireAndPick(s.q, now);
    s.(q := picked.queue, thread := Selected(picked.top), rehydrate := picked.rehydrate,
       trace := s.trace.(expired := s.trace.expired + Stale(s.q, s.q.buffer, now)))
  }

  function BeginStep(s: System, r: nat, order: seq<Guid>): System
    requires r < |s.q.objects|
  {
    var s1 := s.(q := Begun(s.q, r), trace := s.trace.(picks := s.trace.picks + [Serial(s.q, r)]));
    if order == [] then Finish(s1, r, OpeningVerdict(s.q.objects[r])).(thread := Sweeping)
    else s1.(thread := if s.q.cfg.asynchronous then Sweeping else Awaiting(r),
             calls := s.calls[r := OpenCall(s.q.objects[r], order)])
  }

  function SendStep(s: System, r: nat): System
    requires Calling(s, r) && s.calls[r].todo != []
  {
    var c := s.calls[r];
    if !s.q.running then Finish(s, r, Shutdown)
    else s.(q := Sent(s.q, r, c.todo[0]), calls := s.calls[r := c.(todo := c.todo[1..], waiting := Some(c.todo[0]))])
  }

  function AfterAnswer(c: Call, id: Guid, failed: bool, turn: Turn): Call {
    c.(waiting := None, failures := if failed then c.failures + {id} else c.failures, turns := c.turns + [turn])
  }

  function AnswerStep(s: System, r: nat, reply: Reply, now: Time): System
    requires Calling(s, r) && s.calls[r].waiting.Some?
  {
    var c := s.calls[r];
    var id := c.waiting.value;
    var t := s.trace;
    var trace1 := t.(histories := t.histories[r := Then(t.histories[r], id, reply)],
                     dropped := if reply == RequestDrop then t.dropped + {r} else t.dropped,
                     deadLettered := if reply == RequestDeadLetter then t.deadLettered + {r} else t.deadLettered);
    var s1 := s.(q := Answered(s.q, r, id, reply, now), trace := trace1);
    match Take(s.q.cfg, s.q.objects[r], id, reply, now).outcome
    case Return(verdict) => Finish(s1, r, verdict)
    case Continue(failed) =>
      s1.(calls := s.calls[r := AfterAnswer(c, id, failed, Turn(true, reply, now))])
  }

  function EndStep(s: System, r: nat): System
    requires Calling(s, r)
  {
    var c := s.calls[r];
    Finish(s, r, ClosingVerdict(s.q.cfg, s.q.objects[r], SetOf(c.order), c.failures, s.q.running, s.q.subscribers))
  }

  function SweepStep(s: System, list: seq<nat>): System
    requires InTable(s.q, list)
  {
    var q1 := SweepAll(s.q, list);
    var gone := if |q1.buffer| <= |s.q.buffer| then |s.q.buffer| - |q1.buffer| else 0;
    s.(q := q1, thread := Top, trace := s.trace.(swept := s.trace.swept + gone))
  }

  function Held(q: Queue): nat {
    if Persists(q) then |q.store| else |q.buffer|
  }

  /** What an action does. */
  ghost function Apply(s: System, a: Action): System
    requires Enabled(s, a)
  {
    match a
    case DrawSerial(draft) =>
      var rec := Addressed(s.q, draft);
      s.(q := TakeSerial(s.q), drawn := s.drawn[rec.serial := rec])
    case StoreDrawn(k) =>
      s.(q := StoreRecord(s.q, s.drawn[k]), drawn := s.drawn - {k}, uncounted := s.uncounted + {k})
    case CountStored(k) => s.(q := CountReceived(s.q), uncounted := s.uncounted - {k})
    case EnqueueInMemory(draft) =>
      s.(q := Enqueued(s.q, draft), trace := s.trace.(histories := s.trace.histories + [Nothing]))
    case Hydrate(locked, newIds) => if locked && Persists(s.q) then HydrateStep(s, newIds) else s.(rehydrate := false)
    case Select(locked, now) => if locked then SelectStep(s, now) else s.(thread := Selected(None))
    case Begin(order) => BeginStep(s, s.thread.top.value, order)
    case SendNext(r) => SendStep(s, r)
    case TakeAnswer(r, reply, at) => AnswerStep(s, r, reply, at)
    case EndPass(r) => EndStep(s, r)
    case Resume => s.(thread := Sweeping)
    case Collect =>
      var list := Disposed(s.q, s.q.buffer);
      s.(thread := if list == [] then Top else Collected(list))
    case Sweep(locked, upto) => if locked then SweepStep(s, s.thread.list[..upto]) else s.(thread := Top)
    case Exit => s.(thread := Exited)
    case Purge => s.(q := Purged(s.q), trace := s.trace.(purged := s.trace.purged + Held(s.q)))
    case Subscribe(id) => s.(q := s.q.(subscribers := s.q.subscribers + {id}))
    case Unsubscribe(id) => s.(q := s.q.(subscribers := s.q.subscribers - {id}))
    case Stop => s.(q := s.q.(running := false))
    case Close => s.(q := s.q.(open := false))
    case Restart(stats) => Booted(s.q.cfg, s.q.store, stats)
  }

  // ---------- runs ----------

  ghost predicate Run(s: System, actions: seq<Action>)
    decreases |actions|
  {
    actions == [] || (Enabled(s, actions[0]) && Run(Apply(s, actions[0]), actions[1..]))
  }

  ghost function Reached(s: System, actions: seq<Action>): System
    requires Run(s, actions)
    decreases |actions|
  {
    if actions == [] then s else Reached(Apply(s, actions[0]), actions[1..])
  }

  /** Runs grow at the end, too. */
  lemma {:induction false} OneMore(s: System, actions: seq<Action>, a: Action)
    requires Run(s, actions) && Enabled(Reached(s, actions), a)
    ensures Run(s, actions + [a]) && Reached(s, actions + [a]) == Apply(Reached(s, actions), a)
    decreases |actions|
  {
    if actions == [] {
      assert [a][1..] == [];
    } else {
      OneMore(Apply(s, actions[0]), actions[1..], a);
      assert (actions + [a])[1..] == actions[1..] + [a];
    }
  }
}
