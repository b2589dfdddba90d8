/** The queue as the server keeps it: message objects on the heap, shared by the buffer, the delivery thread and
    deliveries, and a queue object whose methods are the critical sections. Every method is proved to do to the
    abstract queue what the specification functions say. */
module QueueServer {
  import opened Messages
  import opened DeliveryPass
  import opened QueueState
  import opened StoreInvariant
  import opened QueueEffects
  import opened DeadLetterMove
  import opened RetryLoop
  import KeyOrder
  import Recovery
  import RunInvariant
  import RunTheorems

  // ---------- what the methods are compared with ----------

  datatype CallResult =
    | Accepted
    | TypeRequired
    | BodyRequired
    | NotRunning
    | TimedOut
    | QueueNotFound
    | NotInitialized
    | Trying

  predicate IsSpace(c: char) {
    var n := c as int;
    || 9 <= n <= 13 || n == 0x20 || n == 0x85 || n == 0xA0 || n == 0x1680 || 0x2000 <= n <= 0x200A
    || n == 0x2028 || n == 0x2029 || n == 0x202F || n == 0x205F || n == 0x3000
  }

  predicate Blank(s: string) {
    forall i :: 0 <= i < |s| ==> IsSpace(s[i])
  }

  /** How a call ends for its caller. */
  function Admission(initialized: bool, rounds: seq<Round>): CallResult {
    match Decide(rounds)
    case Stopped => NotRunning
    case TooLate => TimedOut
    case Missing => QueueNotFound
    case Entered => if initialized then Accepted else NotInitialized
    case Undecided => Trying
  }

  /** A call is accepted exactly if the first round that is not a failed try-lock finds the server running, the
      deadline ahead, and the queue there, locked and initialized. */
  lemma AcceptedExactly(initialized: bool, rounds: seq<Round>)
    ensures Admission(initialized, rounds) == Accepted <==>
              initialized && exists i :: DecidedAt(rounds, i) && rounds[i] == Round(true, false, true, true)
  {
    EnteredExactly(rounds);
  }

  /** The caller is told that the server is not running, that time is up or that the queue is missing exactly if that
      round says so. */
  lemma RefusedExactly(initialized: bool, rounds: seq<Round>)
    ensures Admission(initialized, rounds) == NotRunning <==> exists i :: DecidedAt(rounds, i) && Means(rounds[i], Stopped)
    ensures Admission(initialized, rounds) == TimedOut <==> exists i :: DecidedAt(rounds, i) && Means(rounds[i], TooLate)
    ensures Admission(initialized, rounds) == QueueNotFound <==> exists i :: DecidedAt(rounds, i) && Means(rounds[i], Missing)
    ensures Admission(initialized, rounds) == NotInitialized <==>
              !initialized && exists i :: DecidedAt(rounds, i) && Means(rounds[i], Entered)
    ensures Admission(initialized, rounds) == Trying <==> forall i :: 0 <= i < |rounds| ==> Retries(rounds[i])
  {
    DecidedByFirst(rounds, Stopped);
    DecidedByFirst(rounds, TooLate);
    DecidedByFirst(rounds, Missing);
    DecidedByFirst(rounds, Entered);
  }

  datatype Asked = Asked(queue: Queue, failures: set<Guid>, returned: Option<MessageState>)

  /** The loop of a delivery pass on the whole queue: counters, message and, for a deferral, the database. */
  function AskAll(q: Queue, r: nat, todo: seq<Guid>, turns: seq<Turn>, failures: set<Guid>): Asked
    requires r < |q.objects| && |turns| == |todo|
    decreases |todo|
  {
    if todo == [] then Asked(q, failures, None)
    else if !turns[0].running then Asked(q, failures, Some(Shutdown))
    else
      var sent := Sent(q, r, todo[0]);
      var q1 := Answered(sent, r, todo[0], turns[0].reply, turns[0].now);
      match Take(q.cfg, sent.objects[r], todo[0], turns[0].reply, turns[0].now).outcome
      case Return(v) => Asked(q1, failures, Some(v))
      case Continue(failed) => AskAll(q1, r, todo[1..], turns[1..], if failed then failures + {todo[0]} else failures)
  }

  datatype Judged = Judged(queue: Queue, verdict: MessageState)

  function Distribution(q: Queue, r: nat, order: seq<Guid>, turns: seq<Turn>, running: bool, closing: set<Guid>): Judged
    requires r < |q.objects| && |turns| == |order|
  {
    if order == [] then Judged(q, OpeningVerdict(q.objects[r]))
    else
      var end := AskAll(q, r, order, turns, {});
      match end.returned
      case Some(v) => Judged(end.queue, v)
      case None =>
        if r < |end.queue.objects|
        then Judged(end.queue, ClosingVerdict(q.cfg, end.queue.objects[r], SetOf(order), end.failures, running, closing))
        else Judged(end.queue, Ready)
  }

  /** The loop on the queue does to the message what the delivery pass says and changes no other message. */
  lemma {:induction false} AskingIsOffering(q: Queue, r: nat, todo: seq<Guid>, turns: seq<Turn>, failures: set<Guid>)
    requires r < |q.objects| && |turns| == |todo|
    ensures var end, loop := AskAll(q, r, todo, turns, failures), OfferAll(q.cfg, q.objects[r], todo, turns, failures);
      && end.queue.objects == q.objects[r := loop.message]
      && end.failures == loop.failures && end.returned == loop.returned
      && end.queue.cfg == q.cfg && end.queue.outstanding == q.outstanding && end.queue.open == q.open
    decreases |todo|
  {
    if todo != [] && turns[0].running {
      var t := turns[0];
      var q1 := Answered(Sent(q, r, todo[0]), r, todo[0], t.reply, t.now);
      var taken := Take(q.cfg, Send(q.objects[r], todo[0]), todo[0], t.reply, t.now);
      AskedOne(q, r, todo[0], t);
      if taken.outcome.Continue? {
        AskingIsOffering(q1, r, todo[1..], turns[1..], if taken.outcome.failed then failures + {todo[0]} else failures);
      }
    }
  }

  lemma AskedOne(q: Queue, r: nat, id: Guid, t: Turn)
    requires r < |q.objects|
    ensures var q1 := Answered(Sent(q, r, id), r, id, t.reply, t.now);
      && q1.objects == q.objects[r := Take(q.cfg, Send(q.objects[r], id), id, t.reply, t.now).message]
      && q1.cfg == q.cfg && q1.outstanding == q.outstanding && q1.open == q.open
  {
  }

  /** ... and keeps buffer, store and depth consistent. */
  lemma {:induction false} AskingKeeps(q: Queue, r: nat, todo: seq<Guid>, turns: seq<Turn>, failures: set<Guid>)
    requires r < |q.objects| && |turns| == |todo| && StoreInv(q, map[], {})
    ensures StoreInv(AskAll(q, r, todo, turns, failures).queue, map[], {})
    decreases |todo|
  {
    if todo != [] && turns[0].running {
      var sent, t := Sent(q, r, todo[0]), turns[0];
      AskKeeps(q, r, todo[0], t);
      var taken := Take(q.cfg, sent.objects[r], todo[0], t.reply, t.now);
      if taken.outcome.Continue? {
        AskingKeeps(Answered(sent, r, todo[0], t.reply, t.now), r, todo[1..], turns[1..],
                    if taken.outcome.failed then failures + {todo[0]} else failures);
      }
    }
  }

  lemma AskKeeps(q: Queue, r: nat, id: Guid, t: Turn)
    requires r < |q.objects| && StoreInv(q, map[], {})
    ensures r < |Sent(q, r, id).objects| && StoreInv(Answered(Sent(q, r, id), r, id, t.reply, t.now), map[], {})
  {
    SameCore(q, Sent(q, r, id));
    AnswerKeeps(Sent(q, r, id), map[], {}, r, id, t.reply, t.now);
  }

  /** A synchronous delivery is one delivery pass. */
  lemma DistributionIsPass(q: Queue, r: nat, order: seq<Guid>, turns: seq<Turn>, running: bool, closing: set<Guid>)
    requires r < |q.objects| && |turns| == |order|
    ensures var end := Distribution(q, r, order, turns, running, closing);
      var pass := Pass(q.cfg, q.objects[r], order, turns, running, closing);
      && end.queue.objects == q.objects[r := pass.message] && end.verdict == pass.verdict
      && end.queue.cfg == q.cfg && end.queue.outstanding == q.outstanding && end.queue.open == q.open
  {
    AskingIsOffering(q, r, order, turns, {});
  }

  /** A whole synchronous delivery of the message at position `r`. */
  function Delivered(q: Queue, r: nat, order: seq<Guid>, turns: seq<Turn>, running: bool, closing: set<Guid>): Queue
    requires r < |q.objects| && |turns| == |order|
  {
    var end := Distribution(Begun(q, r), r, order, turns, running, closing);
    if r < |end.queue.objects| then Finished(end.queue, r, end.verdict) else end.queue
  }

  /** It leaves the message as one delivery pass does, with the pass's verdict as its state, no other message
      touched and the counter of outstanding deliveries where it was. */
  lemma DeliveredIsPass(q: Queue, r: nat, order: seq<Guid>, turns: seq<Turn>, running: bool, closing: set<Guid>)
    requires r < |q.objects| && |turns| == |order|
    ensures var q1, pass := Delivered(q, r, order, turns, running, closing),
                            Pass(q.cfg, q.objects[r].(state := OutForDelivery), order, turns, running, closing);
      && q1.objects == q.objects[r := pass.message.(state := pass.verdict)]
      && q1.outstanding == q.outstanding && q1.cfg == q.cfg
  {
    var q0 := Begun(q, r);
    DistributionIsPass(q0, r, order, turns, running, closing);
    var pass := Pass(q.cfg, q0.objects[r], order, turns, running, closing);
    assert q.objects[r := q0.objects[r]][r := pass.message][r := pass.message.(state := pass.verdict)]
        == q.objects[r := pass.message.(state := pass.verdict)];
  }

  /** Expiry and, if a message is picked, its delivery to the remaining subscribers as `arrange` orders them. */
  function DeliveryTurned(
    q: Queue, now: Time, arrange: set<Guid> -> seq<Guid>, answer: Guid -> Turn, running: bool, closing: set<Guid>): Queue
    requires InTable(q, q.buffer)
  {
    var picked := ExpireAndPick(q, now);
    match picked.top
    case None => picked.queue
    case Some(r) =>
      if r < |picked.queue.objects| then
        var order := arrange(Remaining(picked.queue.objects[r], q.subscribers));
        Delivered(picked.queue, r, order, Answering(order, answer), running, closing)
      else picked.queue
  }

  /** A turn without its sweep, by the pick and the pass: with room, a subscriber and something deliverable, the first
      deliverable message goes through one delivery pass over those it is still owed to, asked in the arranged order;
      every other message is as expiry by age leaves it. */
  lemma TurnIsPass(
    q: Queue, now: Time, arrange: set<Guid> -> seq<Guid>, answer: Guid -> Turn, running: bool, closing: set<Guid>)
    requires InTable(q, q.buffer) && Distinct(q.buffer)
    ensures var q1 := DeliveryTurned(q, now, arrange, answer, running, closing);
      var aged := ExpireAll(q, q.buffer, now);
      if q.outstanding < q.cfg.maxOutstanding && q.subscribers != {} && SomeDeliverable(q, now) then
        exists r: nat :: r < |q.objects| && PicksFirst(q, now, r)
                         && q1.objects == aged.objects[r := Passed(q, r, arrange, answer, running, closing)]
      else q1 == aged
  {
    PickExact(q, now);
    ExpiryEffect(q, q.buffer, now);
    var picked := ExpireAndPick(q, now);
    if picked.top.Some? {
      var r := picked.top.value;
      var i :| 0 <= i < |q.buffer| && q.buffer[i] == r && Deliverable(q.cfg, q.objects[r], now);
      assert r in q.buffer && picked.queue.objects[r] == q.objects[r];
      var order := arrange(q.subscribers - q.objects[r].satisfied - q.objects[r].limitReached);
      assert Remaining(q.objects[r], q.subscribers) == q.subscribers - q.objects[r].satisfied - q.objects[r].limitReached;
      DeliveredIsPass(picked.queue, r, order, Answering(order, answer), running, closing);
    }
  }

  /** The message after its pass. */
  function Passed(
    q: Queue, r: nat, arrange: set<Guid> -> seq<Guid>, answer: Guid -> Turn, running: bool, closing: set<Guid>): Message
    requires r < |q.objects|
  {
    var m := q.objects[r];
    var order := arrange(q.subscribers - m.satisfied - m.limitReached);
    var pass := Pass(q.cfg, m.(state := OutForDelivery), order, Answering(order, answer), running, closing);
    pass.message.(state := pass.verdict)
  }

  function Answering(order: seq<Guid>, answer: Guid -> Turn): (turns: seq<Turn>)
    ensures |turns| == |order| && forall i :: 0 <= i < |order| ==> turns[i] == answer(order[i])
  {
    seq(|order|, i requires 0 <= i < |order| => answer(order[i]))
  }

  // ---------- what an iterator over the database visits ----------

  /** The keys that hydration loads among `keys`: the first `count` beyond the greatest buffered serial. */
  function Scan(keys: seq<nat>, greatest: Option<nat>, count: nat): seq<nat> {
    if keys == [] || count == 0 then []
    else if greatest.None? || keys[0] > greatest.value then [keys[0]] + Scan(keys[1..], greatest, count - 1)
    else Scan(keys[1..], greatest, count)
  }

  lemma {:induction false} ScanVisits(keys: seq<nat>, greatest: Option<nat>, count: nat)
    ensures forall i :: 0 <= i < |Scan(keys, greatest, count)| ==> Scan(keys, greatest, count)[i] in keys
  {
    if keys != [] && count > 0 {
      ScanVisits(keys[1..], greatest, if greatest.None? || keys[0] > greatest.value then count - 1 else count);
      assert keys == [keys[0]] + keys[1..];
    }
  }

  /** Once a key is beyond the greatest buffered serial, so are all that follow. */
  lemma {:induction false} ScanTail(keys: seq<nat>, greatest: Option<nat>, count: nat)
    requires greatest.Some? ==> forall i :: 0 <= i < |keys| ==> keys[i] > greatest.value
    ensures Scan(keys, greatest, count) == Leading(keys, count)
  {
    if keys != [] && count > 0 {
      ScanTail(keys[1..], greatest, count - 1);
      assert Leading(keys, count) == [keys[0]] + Leading(keys[1..], count - 1);
    }
  }

  lemma {:induction false} ScanSkips(keys: seq<nat>, from: nat, greatest: nat, count: nat)
    requires from <= |keys| && forall i :: 0 <= i < from ==> keys[i] <= greatest
    ensures Scan(keys, Some(greatest), count) == Scan(keys[from..], Some(greatest), count)
  {
    if from == 0 {
      assert keys[0..] == keys;
    } else if count > 0 {
      ScanSkips(keys[1..], from - 1, greatest, count);
      assert keys[1..][from - 1..] == keys[from..];
    }
  }

  lemma ScanStep(keys: seq<nat>, i: nat, greatest: Option<nat>, count: nat)
    requires i < |keys| && count > 0
    ensures var ks := Scan(keys[i..], greatest, count);
      if Beyond(keys[i], greatest) then ks != [] && ks[0] == keys[i] && ks[1..] == Scan(keys[i + 1..], greatest, count - 1)
      else ks == Scan(keys[i + 1..], greatest, count)
  {
    assert keys[i..][1..] == keys[i + 1..];
  }

  lemma ScanEnds(keys: seq<nat>, i: nat, greatest: Option<nat>, count: nat)
    requires i <= |keys| && (i == |keys| || count == 0)
    ensures Scan(keys[i..], greatest, count) == []
  {
  }

  lemma HydrateStep(q: Queue, ks: seq<nat>, newIds: nat -> Guid)
    requires ks != [] && Stored(ks, q.store)
    ensures var q1 := HydrateOne(q, ks[0], newIds);
      Stored(ks[1..], q1.store) && HydrateKeys(q, ks, newIds) == HydrateKeys(q1, ks[1..], newIds)
  {
  }

  /** Hydrating from where the iterator starts is hydrating. */
  lemma ScanHydrates(q: Queue, keys: seq<nat>, start: nat, greatest: Option<nat>, count: nat, newIds: nat -> Guid)
    requires InTable(q, q.buffer) && GreatestBuffered(q, greatest) && keys == SortedKeys(q.store.Keys)
    requires start <= |keys| && Scan(keys[start..], greatest, count) == Scan(keys, greatest, count)
    ensures Stored(keys, q.store) && Stored(Scan(keys[start..], greatest, count), q.store)
    ensures HydrateKeys(q, Scan(keys[start..], greatest, count), newIds) == Hydrated(q, count, newIds)
  {
    ScanIsNext(q, greatest, count);
    forall i | 0 <= i < |keys| ensures keys[i] in q.store {
      assert keys[i] in SetOf(keys);
    }
  }

  predicate Stored(keys: seq<nat>, store: map<nat, Record>) {
    forall i :: 0 <= i < |keys| ==> keys[i] in store
  }

  /** How many of the ascending `keys` are at most `greatest`. */
  function UpTo(keys: seq<nat>, greatest: Option<nat>): (n: nat)
    requires Ascending(keys)
    ensures n <= |keys| && (greatest.None? ==> n == 0)
    ensures greatest.Some? ==> forall i :: 0 <= i < |keys| ==> (keys[i] <= greatest.value <==> i < n)
  {
    if keys == [] || greatest.None? || keys[0] > greatest.value then 0 else 1 + UpTo(keys[1..], greatest)
  }

  /** The greatest serial in the buffer, if any. */
  ghost predicate GreatestBuffered(q: Queue, greatest: Option<nat>)
    requires InTable(q, q.buffer)
  {
    match greatest
    case None => q.buffer == []
    case Some(k) =>
      && (exists i :: 0 <= i < |q.buffer| && Serial(q, q.buffer[i]) == k)
      && forall i :: 0 <= i < |q.buffer| ==> Serial(q, q.buffer[i]) <= k
  }

  /** Scanning the whole database in key order and skipping what is buffered reads exactly the next messages. */
  lemma ScanIsNext(q: Queue, greatest: Option<nat>, count: nat)
    requires InTable(q, q.buffer) && GreatestBuffered(q, greatest)
    ensures Scan(SortedKeys(q.store.Keys), greatest, count) == NextKeys(q, count)
  {
    forall k ensures k in Above(q) <==> k in q.store && Beyond(k, greatest) {
      AboveIsBeyond(q, greatest, k);
    }
    ScanReads(SortedKeys(q.store.Keys), greatest, Above(q), count);
  }

  predicate Beyond(k: nat, greatest: Option<nat>) {
    greatest.None? || k > greatest.value
  }

  lemma AboveIsBeyond(q: Queue, greatest: Option<nat>, k: nat)
    requires InTable(q, q.buffer) && GreatestBuffered(q, greatest)
    ensures k in Above(q) <==> k in q.store && Beyond(k, greatest)
  {
    if k in q.store && Beyond(k, greatest) {
      forall r | r in q.buffer ensures Serial(q, r) < k {
        var j :| 0 <= j < |q.buffer| && q.buffer[j] == r;
      }
    }
    if k in Above(q) && greatest.Some? {
      var j :| 0 <= j < |q.buffer| && Serial(q, q.buffer[j]) == greatest.value;
      assert q.buffer[j] in q.buffer;
    }
  }

  lemma ScanReads(keys: seq<nat>, greatest: Option<nat>, beyond: set<nat>, count: nat)
    requires Ascending(keys) && forall k :: k in beyond <==> k in SetOf(keys) && Beyond(k, greatest)
    ensures Scan(keys, greatest, count) == Leading(SortedKeys(beyond), count)
  {
    var n := UpTo(keys, greatest);
    if greatest.Some? {
      ScanSkips(keys, n, greatest.value, count);
    } else {
      assert keys[0..] == keys;
    }
    ScanTail(keys[n..], greatest, count);
    TailIsBeyond(keys, greatest, beyond, n);
    Recovery.AscendingUnique(keys[n..], SortedKeys(beyond));
  }

  lemma TailIsBeyond(keys: seq<nat>, greatest: Option<nat>, beyond: set<nat>, n: nat)
    requires n <= |keys| && forall i :: 0 <= i < |keys| ==> (Beyond(keys[i], greatest) <==> i >= n)
    requires forall k :: k in beyond <==> k in SetOf(keys) && Beyond(k, greatest)
    ensures SetOf(keys[n..]) == beyond
  {
    forall k ensures k in SetOf(keys[n..]) <==> k in beyond {
      if k in SetOf(keys[n..]) {
        var i :| 0 <= i < |keys[n..]| && keys[n..][i] == k;
        assert keys[n + i] == k;
      }
      if k in beyond {
        var i :| 0 <= i < |keys| && keys[i] == k;
        assert keys[n..][i - n] == k;
      }
    }
  }

  function MoveOutcomes(initialized: bool, rounds: seq<seq<Round>>): (results: seq<MoveResult>)
    ensures |results| == |rounds| && forall i :: 0 <= i < |rounds| ==> results[i] == MoveOutcome(initialized, rounds[i])
  {
    seq(|rounds|, i requires 0 <= i < |rounds| => MoveOutcome(initialized, rounds[i]))
  }

  predicate SameEnd(a: Swept, b: Swept) {
    a.src == b.src && a.dlq == b.dlq
  }

  ghost predicate Sound(q: Queue) {
    StoreInv(q, map[], {}) && (Persists(q) ==> q.open)
  }

  lemma LoadIsSound(cfg: Config, disk: map<nat, Record>, saved: Statistics)
    ensures RunTheorems.WellKeyed(disk) ==> Sound(Loaded(cfg, disk, saved))
  {
    if RunTheorems.WellKeyed(disk) {
      LoadKeeps(cfg, disk, saved);
    }
  }

  lemma EnqueueStaysValid(q: Queue, draft: Record)
    ensures Sound(q) && q.lastSerial + 1 < U64_LIMIT ==> Sound(Enqueued(q, draft))
  {
    if Sound(q) && q.lastSerial + 1 < U64_LIMIT {
      EnqueueKeeps(q, map[], {}, draft);
    }
  }

  lemma EnqueueOutcome(q: Queue, typeName: string, body: string, deferFor: Option<Duration>, id: Guid, now: Time)
    ensures var q1 := Enqueued(q, Draft(typeName, body, deferFor, id, now));
      Sound(q) && q.lastSerial + 1 < U64_LIMIT ==>
        && Sound(q1)
        && Holding(q1) == Holding(q) + {Item(q.lastSerial + 1, Payload(id, now, 0, typeName, body))}
        && Newest(q, q1, Record(
             q.cfg.name, q.lastSerial + 1, id, now, 0, if deferFor.Some? then Some(now + deferFor.value) else None, deferFor,
             typeName, body))
  {
    if Sound(q) && q.lastSerial + 1 < U64_LIMIT {
      EnqueueHolds(q, map[], {}, typeName, body, deferFor, id, now);
      EnqueueStaysValid(q, Draft(typeName, body, deferFor, id, now));
    }
  }

  lemma HydrationStaysValid(q: Queue, count: nat, newIds: nat -> Guid)
    requires InTable(q, q.buffer) && Persists(q)
    ensures Sound(q) ==> Sound(Hydrated(q, count, newIds))
  {
    if Sound(q) {
      HydrationKeeps(q, count, newIds);
      HydrationShape(q, NextKeys(q, count), newIds);
    }
  }

  lemma DistributionStaysValid(q: Queue, r: nat, order: seq<Guid>, turns: seq<Turn>, running: bool, closing: set<Guid>)
    requires r < |q.objects| && |turns| == |order|
    ensures Sound(q) ==> Sound(Delivered(q, r, order, turns, running, closing))
  {
    var q0, end := Begun(q, r), Distribution(Begun(q, r), r, order, turns, running, closing);
    AskingIsOffering(q0, r, order, turns, {});
    if Sound(q) {
      SameCore(q, q0);
      AskingKeeps(q0, r, order, turns, {});
      SameCore(end.queue, Finished(end.queue, r, end.verdict));
    }
  }

  lemma SweepStaysValid(src: Queue, dlq: Queue, list: seq<nat>, results: seq<MoveResult>)
    requires InTable(src, list) && |results| == |list|
    ensures var end := SweepMove(src, dlq, list, results);
      && (Sound(src) ==> Sound(end.src))
      && (Sound(src) && Sound(dlq) && Room(dlq, |list|) ==> Sound(end.dlq))
  {
    if Sound(src) {
      SweepMoveSweeps(src, dlq, list, results);
      SweepKeeps(src, list[..|SweepMove(src, dlq, list, results).fates|]);
      SweepKeepsHandles(src, dlq, list, results);
      if Sound(dlq) && Room(dlq, |list|) {
        SweepConserves(src, dlq, map[], {}, list, results);
      }
    }
  }

  lemma {:induction false} SweepKeepsHandles(src: Queue, dlq: Queue, list: seq<nat>, results: seq<MoveResult>)
    requires InTable(src, list) && |results| == |list|
    ensures var end := SweepMove(src, dlq, list, results);
      && end.src.cfg == src.cfg && end.src.open == src.open && end.dlq.cfg == dlq.cfg && end.dlq.open == dlq.open
    decreases |list|
  {
    if SweepMove(src, dlq, list, results).fates != [] {
      SweepKeepsHandles(SweepOne(src, list[0]), DlqAfter(src, dlq, list[0], results[0]), list[1..], results[1..]);
    }
  }

  /** No buffered message has a Drop or DeadLetter verdict. */
  ghost predicate Clean(q: Queue) {
    forall i :: 0 <= i < |q.buffer| ==> q.buffer[i] < |q.objects| && !Terminal(q.objects[q.buffer[i]].state)
  }

  /** A sweep whose moves do not fail leaves no message with a verdict in the buffer. */
  lemma NothingDisposedLeft(src: Queue, dlq: Queue, list: seq<nat>, results: seq<MoveResult>)
    requires InTable(src, src.buffer) && Distinct(src.buffer) && list == Disposed(src, src.buffer) && |results| == |list|
    requires forall i :: 0 <= i < |results| ==> results[i] != Threw && results[i] != Waiting
    ensures InTable(src, list)
    ensures Clean(SweepMove(src, dlq, list, results).src)
  {
    forall i | 0 <= i < |list| ensures list[i] < |src.objects| {
      assert list[i] in list;
    }
    SweepMoveSweeps(src, dlq, list, results);
    assert list[..|list|] == list;
    SweptClean(src, list);
  }

  /** The sweep of everything with a verdict; `rounds` are those of the move of each listed message. Without the write
      lock nothing happens. */
  function TurnSwept(q: Queue, dlq: Queue, locked: bool, initialized: bool, rounds: nat -> seq<Round>): Swept
    requires InTable(q, q.buffer)
  {
    var list := Disposed(q, q.buffer);
    DisposedInTable(q, list);
    if locked then SweepMove(q, dlq, list, MoveOutcomes(initialized, EachRounds(|list|, rounds))) else Swept(q, dlq, [])
  }

  function EachRounds(n: nat, rounds: nat -> seq<Round>): (each: seq<seq<Round>>)
    ensures |each| == n && forall i :: 0 <= i < n ==> each[i] == rounds(i)
  {
    seq(n, i requires 0 <= i < n => rounds(i))
  }

  predicate SweptAs(
    q: Queue, dlq: Queue, locked: bool, initialized: bool, rounds: nat -> seq<Round>, q1: Queue, dlq1: Queue)
  {
    InTable(q, q.buffer) && q1 == TurnSwept(q, dlq, locked, initialized, rounds).src
    && dlq1 == TurnSwept(q, dlq, locked, initialized, rounds).dlq
  }

  lemma DisposedInTable(q: Queue, list: seq<nat>)
    requires InTable(q, q.buffer) && list == Disposed(q, q.buffer)
    ensures InTable(q, list)
  {
    forall i | 0 <= i < |list| ensures list[i] < |q.objects| {
      assert list[i] in list;
    }
  }

  lemma SweepCleans(src: Queue, dlq: Queue, initialized: bool, rounds: nat -> seq<Round>)
    requires Sound(src) && InTable(src, src.buffer)
    requires forall i: nat :: MoveOutcome(initialized, rounds(i)) !in {Threw, Waiting}
    ensures Clean(TurnSwept(src, dlq, true, initialized, rounds).src)
  {
    var list := Disposed(src, src.buffer);
    DisposedInTable(src, list);
    var each := EachRounds(|list|, rounds);
    var results := MoveOutcomes(initialized, each);
    forall i | 0 <= i < |results| ensures results[i] !in {Threw, Waiting} {
      assert each[i] == rounds(i);
    }
    AscendingPositions(src);
    NothingDisposedLeft(src, dlq, list, results);
  }

  lemma SweptClean(q: Queue, list: seq<nat>)
    requires InTable(q, q.buffer) && InTable(q, list) && Distinct(q.buffer) && list == Disposed(q, q.buffer)
    ensures Clean(SweepAll(q, list))
  {
    SweepRemovesListed(q, list);
    SweepEffect(q, list);
    var end := SweepAll(q, list);
    forall i | 0 <= i < |end.buffer| ensures end.buffer[i] < |q.objects| && !Terminal(q.objects[end.buffer[i]].state) {
      assert end.buffer[i] in end.buffer && end.buffer[i] in q.buffer;
    }
  }

  lemma PurgeStaysValid(q: Queue)
    ensures Sound(q) ==> Sound(Purged(q))
  {
    if Sound(q) {
      PurgeKeeps(q);
    }
  }

  // ---------- the objects ----------

  class EnqueuedMessage {
    var record: Record
    var state: MessageState
    var deliveries: map<Guid, nat>
    var satisfied: set<Guid>
    var consumed: set<Guid>
    var limitReached: set<Guid>

    constructor (record: Record)
      ensures Value() == Fresh(record)
    {
      this.record, state, deliveries := record, Ready, map[];
      satisfied, consumed, limitReached := {}, {}, {};
    }

    function Value(): Message
      reads this
    {
      Message(record, state, deliveries, satisfied, consumed, limitReached)
    }

    /** Ready, and the time it was deferred to, if any, has come. */
    ghost predicate Due(now: Time)
      reads this
    {
      state == Ready && (record.deferredUntil.Some? ==> record.deferredUntil.value <= now)
    }

    method CloneForDeadLetter(queueName: string, serial: nat) returns (clone: EnqueuedMessage)
      ensures fresh(clone) && clone.Value() == Fresh(DeadLetterRecord(record, queueName, serial))
    {
      clone := new EnqueuedMessage(Record(queueName, serial, record.messageId, record.timestamp, record.deferredCount,
                                          None, None, record.typeName, record.body));
    }
  }

  class MessageQueue {
    const configuration: Config
    var messageBuffer: seq<EnqueuedMessage>
    var database: map<nat, Record>
    var isOpen: bool
    var lastSerialNumber: nat
    var queueDepth: int
    var outstandingDeliveries: int
    var statistics: Statistics
    var subscribers: set<Guid>
    var isRunning: bool
    /** Every message object this queue ever held, and where the buffered ones are in that list. */
    ghost var table: seq<EnqueuedMessage>
    ghost var positions: seq<nat>

    ghost predicate Linked()
      reads this
    {
      && (forall i, j :: 0 <= i < j < |table| ==> table[i] != table[j])
      && |positions| == |messageBuffer|
      && forall i :: 0 <= i < |positions| ==> positions[i] < |table| && table[positions[i]] == messageBuffer[i]
    }

    /** The two queues share no message object. */
    ghost predicate Apart(other: MessageQueue)
      reads this, other
    {
      forall i, j :: 0 <= i < |table| && 0 <= j < |other.table| ==> table[i] != other.table[j]
    }

    /** A persistent queue needs its database. */
    predicate Initialized()
      reads this
    {
      configuration.persistence == Ephemeral || isOpen
    }

    ghost function Snapshot(): (q: Queue)
      reads this, table
    {
      Queue(configuration, seq(|table|, i requires 0 <= i < |table| reads this, table => table[i].Value()), positions,
            database, isOpen, lastSerialNumber, queueDepth, outstandingDeliveries, statistics, subscribers, isRunning)
    }

    /** Buffer, database and counters agree (see `StoreInvariant`). */
    ghost predicate Valid()
      reads this, table
    {
      Linked() && Sound(Snapshot())
    }

    // ---------- start ----------

    /** One scan of the database finds the number of messages and the last key. */
    static method ScanDatabase(disk: map<nat, Record>) returns (lastSerial: nat, messagesLoaded: nat)
      ensures lastSerial == LastKey(disk) && messagesLoaded == |disk|
    {
      var keys := SortedKeys(disk.Keys);
      lastSerial, messagesLoaded := 0, 0;
      while messagesLoaded < |keys|
        invariant 0 <= messagesLoaded <= |keys|
        invariant lastSerial == if messagesLoaded == 0 then 0 else keys[messagesLoaded - 1]
      {
        lastSerial := keys[messagesLoaded];
        messagesLoaded := messagesLoaded + 1;
      }
    }

    /** A queue over what its database holds; consistent if every record is stored under its own serial. */
    constructor (configuration: Config, disk: map<nat, Record>, saved: Statistics)
      ensures Linked() && Snapshot() == Loaded(configuration, disk, saved)
      ensures isRunning && subscribers == {} && messageBuffer == [] && outstandingDeliveries == 0 && statistics == saved
      ensures RunTheorems.WellKeyed(disk) ==> Valid()
    {
      this.configuration := configuration;
      messageBuffer, table, positions := [], [], [];
      outstandingDeliveries, statistics, subscribers, isRunning := 0, saved, {}, true;
      if configuration.persistence == Persistent {
        var lastSerial, messagesLoaded := ScanDatabase(disk);
        queueDepth, lastSerialNumber, database, isOpen := messagesLoaded, lastSerial, disk, true;
      } else {
        queueDepth, lastSerialNumber, database, isOpen := 0, 0, map[], false;
      }
      new;
      assert Snapshot().objects == [];
      LoadIsValid(disk, saved);
    }

    lemma LoadIsValid(disk: map<nat, Record>, saved: Statistics)
      requires Linked() && Snapshot() == Loaded(configuration, disk, saved)
      ensures RunTheorems.WellKeyed(disk) ==> Valid()
    {
      LoadIsSound(configuration, disk, saved);
    }

    // ---------- one message object ----------

    /** The object at position `r` changes state; nothing else in the table is the same object. */
    method SetState(ghost r: nat, message: EnqueuedMessage, state: MessageState)
      requires Linked() && r < |table| && table[r] == message
      modifies message`state
      ensures Linked() && Snapshot() == WithState(old(Snapshot()), r, state)
    {
      message.state := state;
      assert Snapshot().objects == WithState(old(Snapshot()), r, state).objects;
    }

    // ---------- expiry and picking ----------

    method FlagIfExpired(ghost r: nat, message: EnqueuedMessage, now: Time)
      requires Linked() && r < |table| && table[r] == message
      modifies this`statistics, message`state
      ensures Linked() && Snapshot() == ExpireOne(old(Snapshot()), r, now)
    {
      ghost var q := Snapshot();
      assert q.objects[r] == message.Value();
      if configuration.maxAge.None? || message.state != Ready || now - message.record.timestamp <= configuration.maxAge.value {
        return;
      }
      var dlq := configuration.dlq;
      if dlq.None? || (dlq.value.maxAge.Some? && now - message.record.timestamp > dlq.value.maxAge.value) {
        SetState(r, message, Drop);
      } else {
        SetState(r, message, DeadLetter);
      }
      statistics := statistics.(expired := statistics.expired + 1);
    }

    method FlagExpired(now: Time)
      requires Linked()
      modifies this`statistics, messageBuffer
      ensures Linked() && InTable(old(Snapshot()), positions)
      ensures Snapshot() == ExpireAll(old(Snapshot()), positions, now)
    {
      var i := 0;
      while i < |messageBuffer|
        invariant 0 <= i <= |messageBuffer| && Linked()
        invariant InTable(Snapshot(), positions[i..]) && InTable(old(Snapshot()), positions)
        invariant ExpireAll(Snapshot(), positions[i..], now) == ExpireAll(old(Snapshot()), positions, now)
      {
        FlagIfExpired(positions[i], messageBuffer[i], now);
        assert positions[i..][1..] == positions[i + 1..];
        i := i + 1;
      }
    }

    /** Flags expired messages and returns the first one that may be delivered, if the bound on outstanding
        deliveries allows and anybody is subscribed, and whether the buffer should be hydrated. */
    method ExpireAndSelect(now: Time) returns (top: EnqueuedMessage?, rehydrate: bool)
      requires Linked()
      modifies this`statistics, messageBuffer
      ensures Linked() && InTable(old(Snapshot()), positions) && InTable(Snapshot(), positions)
      ensures var picked := ExpireAndPick(old(Snapshot()), now);
        && Snapshot() == picked.queue && rehydrate == picked.rehydrate
        && match picked.top
           case None => top == null
           case Some(r) => r < |table| && top == table[r]
      ensures subscribers == {} ==> top == null && !rehydrate
      ensures top != null <==> outstandingDeliveries < configuration.maxOutstanding && subscribers != {} && SomeDue(now)
      ensures top != null ==> FirstDue(top, now)
      ensures rehydrate <==> outstandingDeliveries < configuration.maxOutstanding && subscribers != {}
                             && configuration.persistence == Persistent && queueDepth > |messageBuffer|
                             && (|messageBuffer| < 1000 || !SomeDue(now))
      ensures old(Valid()) ==> Valid()
    {
      ExpiryStaysValid(now);
      FlagExpired(now);
      top, rehydrate := null, false;
      if outstandingDeliveries < configuration.maxOutstanding && subscribers != {} {
        top := FirstDeliverable(now);
        if configuration.persistence == Persistent && queueDepth > |messageBuffer|
           && (top == null || |messageBuffer| < PERSISTENT_MESSAGES_MIN_BUFFER) {
          rehydrate := queueDepth > |messageBuffer|;
        }
      }
    }

    lemma ExpiryStaysValid(now: Time)
      requires Linked()
      ensures InTable(Snapshot(), positions)
      ensures Valid() ==> Sound(ExpireAll(Snapshot(), positions, now))
    {
      if Valid() {
        ExpiryKeepsCore(Snapshot(), positions, now);
        RunInvariant.ExpiryFrame(Snapshot(), positions, now);
      }
    }

    ghost predicate SomeDue(now: Time)
      reads this, messageBuffer
    {
      exists i :: 0 <= i < |messageBuffer| && messageBuffer[i].Due(now)
    }

    ghost predicate FirstDue(message: EnqueuedMessage, now: Time)
      reads this, messageBuffer
    {
      exists i :: 0 <= i < |messageBuffer| && messageBuffer[i] == message && message.Due(now)
                  && forall j :: 0 <= j < i ==> !messageBuffer[j].Due(now)
    }

    method FirstDeliverable(now: Time) returns (top: EnqueuedMessage?)
      requires Linked()
      ensures InTable(Snapshot(), positions)
      ensures top != null <==> SomeDue(now)
      ensures top != null ==> FirstDue(top, now)
      ensures match FirstEligible(Snapshot(), positions, now)
        case None => top == null
        case Some(r) => r < |table| && top == table[r]
    {
      var i := 0;
      while i < |messageBuffer|
        invariant 0 <= i <= |messageBuffer|
        invariant InTable(Snapshot(), positions) && InTable(Snapshot(), positions[i..])
        invariant FirstEligible(Snapshot(), positions[i..], now) == FirstEligible(Snapshot(), positions, now)
        invariant forall j :: 0 <= j < i ==> !messageBuffer[j].Due(now)
      {
        var message := messageBuffer[i];
        assert Snapshot().objects[positions[i]] == message.Value();
        if message.state == Ready && (message.record.deferredUntil.None? || now >= message.record.deferredUntil.value) {
          assert messageBuffer[i].Due(now);
          return message;
        }
        assert !messageBuffer[i].Due(now);
        assert positions[i..][1..] == positions[i + 1..];
        i := i + 1;
      }
      return null;
    }

    // ---------- enqueue ----------

    method GetNextSerialNumber() returns (serial: nat)
      requires Linked()
      modifies this`lastSerialNumber
      ensures Linked() && Snapshot() == TakeSerial(old(Snapshot())) && serial == lastSerialNumber
    {
      lastSerialNumber := (lastSerialNumber + 1) % U64_LIMIT;
      serial := lastSerialNumber;
    }

    method Store(message: EnqueuedMessage)
      requires Linked()
      modifies this`database
      ensures Linked() && Snapshot() == StoreRecord(old(Snapshot()), message.record)
    {
      database := database[message.record.serial := message.record];
    }

    method AddToBuffer(message: EnqueuedMessage)
      requires Linked() && message !in table && message.Value() == Fresh(message.record)
      modifies this`messageBuffer, this`table, this`positions
      ensures Linked() && Snapshot() == BufferNew(old(Snapshot()), message.record)
      ensures table == old(table) + [message] && messageBuffer == old(messageBuffer) + [message]
    {
      ghost var q := Snapshot();
      messageBuffer := messageBuffer + [message];
      positions := positions + [|table|];
      table := table + [message];
      assert Snapshot().objects == q.objects + [message.Value()];
    }

    method CountReceivedMessage()
      requires Linked()
      modifies this`statistics, this`queueDepth
      ensures Linked() && Snapshot() == CountReceived(old(Snapshot()))
    {
      statistics := statistics.(received := statistics.received + 1);
      queueDepth := queueDepth + 1;
    }

    /** The critical section of an enqueue: stored only (persistent) or buffered only (ephemeral), then counted. */
    method Admit(draft: Record)
      requires Linked()
      modifies this
      ensures Linked() && Snapshot() == Enqueued(old(Snapshot()), draft)
      ensures table == old(table) || exists m :: fresh(m) && table == old(table) + [m]
    {
      var serial := GetNextSerialNumber();
      var message := new EnqueuedMessage(draft.(queueName := configuration.name, serial := serial));
      if configuration.persistence == Persistent {
        Store(message);
      } else {
        AddToBuffer(message);
      }
      CountReceivedMessage();
    }

    method Enqueue(typeName: string, body: string, deferFor: Option<Duration>, id: Guid, now: Time, rounds: seq<Round>)
      returns (result: CallResult)
      requires Linked()
      modifies this
      ensures Linked()
      ensures result == if Blank(typeName) then TypeRequired else if body == "" then BodyRequired
                        else Admission(old(Initialized()), rounds)
      ensures result == TypeRequired <==> forall c :: c in typeName ==> IsSpace(c)
      ensures Snapshot() == if result == Accepted then Enqueued(old(Snapshot()), Draft(typeName, body, deferFor, id, now))
                            else old(Snapshot())
      ensures old(Valid()) && old(lastSerialNumber) + 1 < U64_LIMIT ==> Valid()
      ensures result == Accepted && old(Valid()) && old(lastSerialNumber) + 1 < U64_LIMIT ==>
                Holding(Snapshot()) == old(Holding(Snapshot())) + {Item(old(lastSerialNumber) + 1, Payload(
                  messageId := id, timestamp := now, deferredCount := 0, typeName := typeName, body := body))}
      ensures result == Accepted && old(Valid()) && old(lastSerialNumber) + 1 < U64_LIMIT ==>
                Newest(old(Snapshot()), Snapshot(), Record(
                  queueName := configuration.name, serial := old(lastSerialNumber) + 1, messageId := id, timestamp := now,
                  deferredCount := 0, deferredUntil := if deferFor.Some? then Some(now + deferFor.value) else None,
                  deferDuration := deferFor, typeName := typeName, body := body))
    {
      EnqueueOutcome(Snapshot(), typeName, body, deferFor, id, now);
      if Blank(typeName) {
        return TypeRequired;
      }
      if body == "" {
        return BodyRequired;
      }
      var i := 0;
      while i < |rounds| && rounds[i].running
        invariant 0 <= i <= |rounds| && Linked() && Snapshot() == old(Snapshot()) && isOpen == old(isOpen)
        invariant Decide(rounds[i..]) == Decide(rounds)
        invariant table == old(table)
      {
        if rounds[i].late {
          return TimedOut;
        }
        if !rounds[i].found {
          return QueueNotFound;
        }
        if rounds[i].locked {
          if configuration.persistence == Persistent && !isOpen {
            return NotInitialized;
          }
          var until := if deferFor.Some? then Some(now + deferFor.value) else None;
          Admit(Record("", 0, id, now, 0, until, deferFor, typeName, body));
          return Accepted;
        }
        assert rounds[i..][1..] == rounds[i + 1..];
        i := i + 1;
      }
      return if i < |rounds| then NotRunning else Trying;
    }

    // ---------- hydration ----------

    method MaxBufferedSerial() returns (greatest: Option<nat>)
      requires Linked()
      ensures InTable(Snapshot(), positions) && GreatestBuffered(Snapshot(), greatest)
    {
      if messageBuffer == [] {
        return None;
      }
      var max, i := messageBuffer[0].record.serial, 1;
      ghost var q := Snapshot();
      assert Serial(q, positions[0]) == max;
      while i < |messageBuffer|
        invariant 1 <= i <= |messageBuffer| && InTable(q, positions)
        invariant exists j :: 0 <= j < i && Serial(q, positions[j]) == max
        invariant forall j :: 0 <= j < i ==> Serial(q, positions[j]) <= max
      {
        assert Serial(q, positions[i]) == messageBuffer[i].record.serial;
        if messageBuffer[i].record.serial > max {
          max := messageBuffer[i].record.serial;
        }
        i := i + 1;
      }
      return Some(max);
    }

    /** Loads one record; one without an id gets one, which is written back. */
    method LoadOne(k: nat, newIds: nat -> Guid)
      requires Linked() && k in database
      modifies this`database, this`messageBuffer, this`table, this`positions
      ensures Linked() && Snapshot() == HydrateOne(old(Snapshot()), k, newIds)
    {
      var message := new EnqueuedMessage(database[k]);
      if message.record.messageId == EMPTY_GUID {
        message.record := message.record.(messageId := newIds(message.record.serial));
        database := database[k := message.record];
      } else {
        assert database == database[k := message.record];
      }
      AddToBuffer(message);
    }

    /** Reads up to `countToGet` messages behind the buffered ones. `None` is an exception, `Some(false)` a lock not
        obtained or nothing to do. */
    method HydrateMessageBuffer(countToGet: nat, locked: bool, newIds: nat -> Guid) returns (result: Option<bool>)
      requires Linked()
      modifies this`database, this`messageBuffer, this`table, this`positions
      ensures Linked() && InTable(old(Snapshot()), old(positions))
      ensures result == if configuration.persistence == Ephemeral || !locked then Some(false)
                        else if old(isOpen) then Some(true) else None
      ensures Snapshot() == if result == Some(true) then Hydrated(old(Snapshot()), countToGet, newIds) else old(Snapshot())
      ensures old(Valid()) ==> Valid()
    {
      if configuration.persistence != Persistent || !locked {
        return Some(false);
      }
      if !isOpen {
        return None;
      }
      HydrationStaysValid(Snapshot(), countToGet, newIds);
      LoadNext(countToGet, newIds);
      return Some(true);
    }

    method LoadNext(countToGet: nat, newIds: nat -> Guid)
      requires Linked()
      modifies this`database, this`messageBuffer, this`table, this`positions
      ensures Linked() && InTable(old(Snapshot()), old(positions))
      ensures Snapshot() == Hydrated(old(Snapshot()), countToGet, newIds)
    {
      var greatest := MaxBufferedSerial();
      var keys := SortedKeys(database.Keys);
      var start := SeekBeyond(keys, greatest, countToGet);
      ScanHydrates(Snapshot(), keys, start, greatest, countToGet, newIds);
      LoadBeyond(keys, start, greatest, countToGet, newIds, Hydrated(Snapshot(), countToGet, newIds));
    }

    /** Where the iterator starts; nothing that should be loaded is before it, even if the sum wraps around. */
    static method SeekBeyond(keys: seq<nat>, greatest: Option<nat>, ghost count: nat) returns (at: nat)
      requires Ascending(keys)
      ensures at <= |keys| && Scan(keys[at..], greatest, count) == Scan(keys, greatest, count)
    {
      if greatest.Some? {
        at := Seek(keys, KeyOrder.SeekTarget(greatest.value));
        assert KeyOrder.SeekTarget(greatest.value) <= greatest.value + 1;
        ScanSkips(keys, at, greatest.value, count);
      } else {
        at := 0;
        assert keys[0..] == keys;
      }
    }

    /** Positions an iterator on the first key not before `target`. */
    static method Seek(keys: seq<nat>, target: nat) returns (at: nat)
      requires Ascending(keys)
      ensures at <= |keys|
      ensures forall i :: 0 <= i < |keys| ==> (keys[i] < target <==> i < at)
    {
      at := 0;
      while at < |keys| && keys[at] < target
        invariant at <= |keys| && forall i :: 0 <= i < at ==> keys[i] < target
      {
        at := at + 1;
      }
    }

    method LoadFirst(k: nat, ghost ks: seq<nat>, newIds: nat -> Guid, ghost goal: Queue)
      requires Linked() && ks != [] && ks[0] == k && Stored(ks, database)
      requires HydrateKeys(Snapshot(), ks, newIds) == goal
      modifies this`database, this`messageBuffer, this`table, this`positions
      ensures Linked() && Stored(ks[1..], database) && HydrateKeys(Snapshot(), ks[1..], newIds) == goal
    {
      HydrateStep(Snapshot(), ks, newIds);
      LoadOne(k, newIds);
    }

    /** What is still to be loaded: scanning on from key `i` leads from here to `goal`. */
    ghost predicate Loading(keys: seq<nat>, i: nat, greatest: Option<nat>, count: int, newIds: nat -> Guid, goal: Queue)
      reads this, table
    {
      && Linked() && i <= |keys| && count >= 0 && Stored(Scan(keys[i..], greatest, count), database)
      && HydrateKeys(Snapshot(), Scan(keys[i..], greatest, count), newIds) == goal
    }

    /** One key under the iterator: loaded if it is beyond the buffer. */
    method Visit(keys: seq<nat>, i: nat, greatest: Option<nat>, ghost count: nat, newIds: nat -> Guid, ghost goal: Queue)
      returns (loaded: bool)
      requires Loading(keys, i, greatest, count, newIds, goal) && i < |keys| && count > 0
      modifies this`database, this`messageBuffer, this`table, this`positions
      ensures Loading(keys, i + 1, greatest, if loaded then count - 1 else count, newIds, goal)
    {
      ghost var ks := Scan(keys[i..], greatest, count);
      ScanStep(keys, i, greatest, count);
      loaded := Beyond(keys[i], greatest);
      if loaded {
        LoadFirst(keys[i], ks, newIds, goal);
      }
    }

    method LoadBeyond(keys: seq<nat>, start: nat, greatest: Option<nat>, countToGet: nat, newIds: nat -> Guid,
                      ghost goal: Queue)
      requires Loading(keys, start, greatest, countToGet, newIds, goal)
      modifies this`database, this`messageBuffer, this`table, this`positions
      ensures Linked() && Snapshot() == goal
    {
      var i, messagesLoaded := start, 0;
      while i < |keys| && messagesLoaded < countToGet
        invariant messagesLoaded <= countToGet
        invariant Loading(keys, i, greatest, countToGet - messagesLoaded, newIds, goal)
      {
        var loaded := Visit(keys, i, greatest, countToGet - messagesLoaded, newIds, goal);
        i, messagesLoaded := i + 1, if loaded then messagesLoaded + 1 else messagesLoaded;
      }
      LoadingEnds(keys, i, greatest, countToGet - messagesLoaded, newIds, goal);
    }

    lemma LoadingEnds(keys: seq<nat>, i: nat, greatest: Option<nat>, count: nat, newIds: nat -> Guid, goal: Queue)
      requires Loading(keys, i, greatest, count, newIds, goal) && (i >= |keys| || count == 0)
      ensures Linked() && Snapshot() == goal
    {
      ScanEnds(keys, i, greatest, count);
    }

    // ---------- delivery ----------

    method CountAttempt(ghost r: nat, message: EnqueuedMessage, id: Guid)
      requires Linked() && r < |table| && table[r] == message
      modifies message`deliveries
      ensures Linked() && Snapshot() == Sent(old(Snapshot()), r, id)
    {
      if id in message.deliveries {
        message.deliveries := message.deliveries[id := message.deliveries[id] + 1];
      } else {
        message.deliveries := message.deliveries[id := 1];
      }
      assert Snapshot().objects == Sent(old(Snapshot()), r, id).objects;
    }

    /** The counters a reply moves. */
    method CountDelivery(reply: Reply)
      requires Linked()
      modifies this`statistics
      ensures Linked() && Snapshot() == old(Snapshot()).(stats := CountReply(old(statistics), reply))
      ensures statistics == old(statistics).(
                delivered := old(statistics).delivered + (if reply == Failed then 0 else 1),
                failed := old(statistics).failed + (if reply == Failed || reply == Unexpected then 1 else 0),
                deferred := old(statistics).deferred + (if reply.Defer? then 1 else 0),
                explicitDrop := old(statistics).explicitDrop + (if reply == RequestDrop then 1 else 0),
                explicitDeadLetter := old(statistics).explicitDeadLetter + (if reply == RequestDeadLetter then 1 else 0))
    {
      if reply != Failed {
        statistics := statistics.(delivered := statistics.delivered + 1);
      }
      match reply {
        case Defer(_) => statistics := statistics.(deferred := statistics.deferred + 1);
        case RequestDeadLetter => statistics := statistics.(explicitDeadLetter := statistics.explicitDeadLetter + 1);
        case RequestDrop => statistics := statistics.(explicitDrop := statistics.explicitDrop + 1);
        case Unexpected => statistics := statistics.(failed := statistics.failed + 1);
        case Failed => statistics := statistics.(failed := statistics.failed + 1);
        case _ =>
      }
    }

    /** What the reply does to the message object. */
    method ApplyReply(ghost r: nat, message: EnqueuedMessage, id: Guid, reply: Reply, now: Time) returns (outcome: Outcome)
      requires Linked() && r < |table| && table[r] == message
      modifies message
      ensures Linked()
      ensures var q := old(Snapshot());
        var taken := Take(configuration, q.objects[r], id, reply, now);
        outcome == taken.outcome && Snapshot() == WithObject(q, r, taken.message)
      ensures match reply
        case Defer(duration) =>
          && message.record.deferredUntil == (match duration case None => None case Some(d) => Some(now + d))
          && message.record.deferDuration == duration
          && message.record.deferredCount == old(message.record.deferredCount) + 1
          && message.record == old(message.record).(deferredUntil := message.record.deferredUntil,
                                                    deferDuration := duration, deferredCount := message.record.deferredCount)
        case _ => message.record == old(message.record)
    {
      ghost var m := message.Value();
      assert Snapshot().objects[r] == m;
      outcome := Continue(reply == Failed || reply == Unexpected);
      match reply {
        case Consumed =>
          message.satisfied := message.satisfied + {id};
          message.consumed := message.consumed + {id};
          if configuration.consumption == FirstConsumedSubscriber {
            outcome := Return(Drop);
          }
        case NotInterested => message.satisfied := message.satisfied + {id};
        case Defer(duration) =>
          var until := if duration.Some? then Some(now + duration.value) else None;
          message.record := message.record.(deferredUntil := until, deferDuration := duration,
                                            deferredCount := message.record.deferredCount + 1);
          outcome := Return(Ready);
        case RequestDeadLetter => outcome := Return(DeadLetter);
        case RequestDrop => outcome := Return(Drop);
        case _ =>
      }
      if outcome.Continue? && configuration.maxAttempts > 0
         && (if id in message.deliveries then message.deliveries[id] else 0) >= configuration.maxAttempts
         && id !in message.satisfied {
        message.limitReached := message.limitReached + {id};
      }
      assert message.Value() == Take(configuration, m, id, reply, now).message;
      assert Snapshot().objects == WithObject(old(Snapshot()), r, message.Value()).objects;
    }

    method TakeReply(ghost r: nat, message: EnqueuedMessage, id: Guid, reply: Reply, now: Time) returns (outcome: Outcome)
      requires Linked() && r < |table| && table[r] == message
      modifies this`statistics, this`database, message
      ensures Linked() && Snapshot() == Answered(old(Snapshot()), r, id, reply, now)
      ensures outcome == Take(configuration, old(Snapshot()).objects[r], id, reply, now).outcome
      ensures match reply
        case Defer(duration) =>
          && message.record.deferredUntil == (match duration case None => None case Some(d) => Some(now + d))
          && message.record.deferDuration == duration
          && message.record.deferredCount == old(message.record.deferredCount) + 1
          && message.record == old(message.record).(deferredUntil := message.record.deferredUntil,
                                                    deferDuration := duration, deferredCount := message.record.deferredCount)
        case _ => message.record == old(message.record)
      ensures database == if reply.Defer? && isOpen && message in messageBuffer
                          then old(database)[message.record.serial := message.record] else old(database)
    {
      ghost var q := Snapshot();
      outcome := ApplyReply(r, message, id, reply, now);
      CountDelivery(reply);
      assert message.record == Snapshot().objects[r].rec;
      BufferedByPosition(r, message);
      if reply.Defer? && message in messageBuffer && isOpen {
        Store(message);
      }
    }

    /** A message object is in the buffer iff its position is. */
    lemma BufferedByPosition(r: nat, message: EnqueuedMessage)
      requires Linked() && r < |table| && table[r] == message
      ensures message in messageBuffer <==> r in positions
    {
      if message in messageBuffer {
        var i :| 0 <= i < |messageBuffer| && messageBuffer[i] == message;
        assert positions[i] == r;
      }
      if r in positions {
        var i :| 0 <= i < |positions| && positions[i] == r;
        assert messageBuffer[i] == message;
      }
    }

    /** The loop over the remaining subscribers; ends early with a verdict or has asked them all. */
    method AskSubscribers(ghost r: nat, message: EnqueuedMessage, order: seq<Guid>, turns: seq<Turn>)
      returns (failures: set<Guid>, returned: Option<MessageState>)
      requires Linked() && r < |table| && table[r] == message && |turns| == |order|
      modifies this`statistics, this`database, message
      ensures Linked() && Asked(Snapshot(), failures, returned) == AskAll(old(Snapshot()), r, order, turns, {})
    {
      failures := {};
      ghost var goal := AskAll(Snapshot(), r, order, turns, {});
      var i := 0;
      while i < |order|
        invariant 0 <= i <= |order| && Linked()
        invariant AskAll(Snapshot(), r, order[i..], turns[i..], failures) == goal
      {
        if !turns[i].running {
          return failures, Some(Shutdown);
        }
        ghost var q := Snapshot();
        CountAttempt(r, message, order[i]);
        var outcome := TakeReply(r, message, order[i], turns[i].reply, turns[i].now);
        assert order[i..][1..] == order[i + 1..] && turns[i..][1..] == turns[i + 1..];
        match outcome {
          case Return(verdict) => return failures, Some(verdict);
          case Continue(failed) =>
            if failed {
              failures := failures + {order[i]};
            }
        }
        i := i + 1;
      }
      return failures, None;
    }

    /** Delivers the message to its remaining subscribers, in the order they were listed, and judges the outcome. */
    method DistributeWithDisposition(
      ghost r: nat, message: EnqueuedMessage, order: seq<Guid>, turns: seq<Turn>, running: bool, closing: set<Guid>)
      returns (verdict: MessageState)
      requires Linked() && r < |table| && table[r] == message && |turns| == |order|
      modifies this`statistics, this`database, message
      ensures Linked() && Judged(Snapshot(), verdict) == Distribution(old(Snapshot()), r, order, turns, running, closing)
    {
      assert Snapshot().objects[r] == message.Value();
      if |order| == 0 {
        return if message.consumed != {} then Drop else DeadLetter;
      }
      var failures, returned := AskSubscribers(r, message, order, turns);
      if returned.Some? {
        return returned.value;
      }
      if !running {
        return Shutdown;
      }
      var allDeliveriesFailed := (set id | id in order && id !in failures) == {};
      assert SetOf(order) - failures == set id | id in order && id !in failures;
      var remaining := closing - (message.limitReached + message.satisfied);
      assert Snapshot().objects[r] == message.Value();
      if allDeliveriesFailed {
        return Ready;
      } else if remaining == {} {
        return if message.limitReached != {} && configuration.dlq.Some? then DeadLetter else Drop;
      } else {
        return Ready;
      }
    }

    /** A whole synchronous delivery: the message goes out, one pass is made, and its verdict becomes its state. */
    method Distribute(
      ghost r: nat, message: EnqueuedMessage, order: seq<Guid>, turns: seq<Turn>, running: bool, closing: set<Guid>)
      requires Linked() && r < |table| && table[r] == message && |turns| == |order|
      modifies this`statistics, this`database, this`outstandingDeliveries, message
      ensures Linked() && Snapshot() == Delivered(old(Snapshot()), r, order, turns, running, closing)
      ensures old(Valid()) ==> Valid()
      ensures outstandingDeliveries == old(outstandingDeliveries)
    {
      DistributionStaysValid(Snapshot(), r, order, turns, running, closing);
      SendOut(r, message);
      var verdict := DistributeWithDisposition(r, message, order, turns, running, closing);
      Settle(r, message, verdict);
    }

    method SendOut(ghost r: nat, message: EnqueuedMessage)
      requires Linked() && r < |table| && table[r] == message
      modifies this`outstandingDeliveries, message`state
      ensures Linked() && Snapshot() == Begun(old(Snapshot()), r) && outstandingDeliveries == old(outstandingDeliveries) + 1
    {
      outstandingDeliveries := outstandingDeliveries + 1;
      SetState(r, message, OutForDelivery);
    }

    method Settle(ghost r: nat, message: EnqueuedMessage, verdict: MessageState)
      requires Linked() && r < |table| && table[r] == message
      modifies this`outstandingDeliveries, message`state
      ensures Linked() && Snapshot() == Finished(old(Snapshot()), r, verdict)
      ensures outstandingDeliveries == old(outstandingDeliveries) - 1
    {
      SetState(r, message, verdict);
      outstandingDeliveries := outstandingDeliveries - 1;
    }

    // ---------- sweep ----------

    /** `list` are the objects at the positions `at` of the table. */
    ghost predicate Objects(at: seq<nat>, list: seq<EnqueuedMessage>)
      reads this
    {
      |at| == |list| && forall i :: 0 <= i < |at| ==> at[i] < |table| && table[at[i]] == list[i]
    }

    /** What is still to be collected: going on from buffer position `i` completes `at`. */
    ghost predicate Collecting(i: nat, at: seq<nat>, list: seq<EnqueuedMessage>)
      reads this, table
    {
      && Linked() && i <= |positions| && InTable(Snapshot(), positions) && InTable(Snapshot(), positions[i..])
      && at + Disposed(Snapshot(), positions[i..]) == Disposed(Snapshot(), positions) && Objects(at, list)
    }

    method CollectDisposed() returns (list: seq<EnqueuedMessage>)
      requires Linked()
      ensures InTable(Snapshot(), positions) && Objects(Disposed(Snapshot(), positions), list)
    {
      list := [];
      ghost var at := [];
      var i := 0;
      while i < |messageBuffer|
        invariant Collecting(i, at, list)
      {
        CollectOne(i, at, list);
        if messageBuffer[i].state == DeadLetter || messageBuffer[i].state == Drop {
          list, at := list + [messageBuffer[i]], at + [positions[i]];
        }
        i := i + 1;
      }
    }

    lemma CollectOne(i: nat, at: seq<nat>, list: seq<EnqueuedMessage>)
      requires Collecting(i, at, list) && i < |messageBuffer|
      ensures var message := messageBuffer[i];
        if Terminal(message.state) then Collecting(i + 1, at + [positions[i]], list + [message])
        else Collecting(i + 1, at, list)
    {
      assert Snapshot().objects[positions[i]] == messageBuffer[i].Value();
      assert positions[i..][1..] == positions[i + 1..];
      var rest := Disposed(Snapshot(), positions[i + 1..]);
      assert at + ([positions[i]] + rest) == at + [positions[i]] + rest;
    }

    method IndexOf(ghost r: nat, message: EnqueuedMessage) returns (i: nat)
      requires Linked() && r < |table| && table[r] == message && message in messageBuffer
      ensures i < |positions| == |messageBuffer| && messageBuffer[i] == message
      ensures Without(positions, r) == positions[..i] + positions[i + 1..]
    {
      i := 0;
      while messageBuffer[i] != message
        invariant 0 <= i < |messageBuffer| && message in messageBuffer[i..]
        invariant forall j :: 0 <= j < i ==> positions[j] != r
        decreases |messageBuffer| - i
      {
        assert messageBuffer[i..] == [messageBuffer[i]] + messageBuffer[i + 1..];
        i := i + 1;
      }
      WithoutFirst(positions, r, i);
    }

    method RemoveFromDatabase(serial: nat)
      requires Linked()
      modifies this`database
      ensures Linked() && Snapshot() == old(Snapshot()).(store := if isOpen then old(database) - {serial} else old(database))
    {
      if isOpen {
        database := database - {serial};
      }
    }

    method RemoveAt(i: nat)
      requires Linked() && i < |messageBuffer|
      modifies this`messageBuffer, this`positions
      ensures Linked() && Snapshot() == old(Snapshot()).(buffer := old(positions)[..i] + old(positions)[i + 1..])
    {
      messageBuffer := messageBuffer[..i] + messageBuffer[i + 1..];
      positions := positions[..i] + positions[i + 1..];
    }

    /** Takes the message out of the buffer and, if there is a database, out of that. */
    method RemoveFromBufferAndDatabase(ghost r: nat, message: EnqueuedMessage)
      requires Linked() && r < |table| && table[r] == message && message in messageBuffer
      modifies this`messageBuffer, this`positions, this`database, this`queueDepth
      ensures Linked() && Snapshot() == Removed(old(Snapshot()), r)
    {
      assert Snapshot().objects[r] == message.Value();
      RemoveFromDatabase(message.record.serial);
      var i := IndexOf(r, message);
      RemoveAt(i);
      queueDepth := queueDepth - 1;
    }

    /** The dead-letter queue takes a copy. Retried until its lock is obtained. */
    method MoveMessageToDeadLetter(dlq: MessageQueue, rec: Record, rounds: seq<Round>) returns (result: MoveResult)
      requires dlq.Linked()
      modifies dlq
      ensures dlq.Linked()
      ensures result == MoveOutcome(old(dlq.Initialized()), rounds)
      ensures dlq.Snapshot() == if result == Copied then Deposited(old(dlq.Snapshot()), rec) else old(dlq.Snapshot())
      ensures dlq.table == old(dlq.table) || exists m :: fresh(m) && dlq.table == old(dlq.table) + [m]
    {
      var i := 0;
      while i < |rounds| && rounds[i].running
        invariant 0 <= i <= |rounds| && dlq.Linked() && dlq.Snapshot() == old(dlq.Snapshot())
        invariant dlq.isOpen == old(dlq.isOpen) && dlq.table == old(dlq.table)
        invariant Decide(rounds[i..]) == Decide(rounds)
      {
        if rounds[i].late {
          return Threw;
        }
        if !rounds[i].found {
          return Discarded;
        }
        if rounds[i].locked {
          if dlq.configuration.persistence == Persistent && !dlq.isOpen {
            return Threw;
          }
          dlq.Admit(DeadLetterRecord(rec, dlq.configuration.name, NextSerial(dlq.lastSerialNumber)));
          return Copied;
        }
        assert rounds[i..][1..] == rounds[i + 1..];
        i := i + 1;
      }
      return if i < |rounds| then Skipped else Waiting;
    }

    /** One collected message: skipped if it was purged meanwhile, else copied if it has to be, then removed. An
        exception in the move ends the sweep with the message still here. */
    method DisposeOf(dlq: MessageQueue, ghost r: nat, message: EnqueuedMessage, rounds: seq<Round>) returns (ok: bool)
      requires this != dlq && Linked() && dlq.Linked() && r < |table| && table[r] == message
      modifies this`messageBuffer, this`positions, this`database, this`queueDepth, dlq
      ensures Linked() && dlq.Linked() && table == old(table) && dlq.isOpen == old(dlq.isOpen)
      ensures forall m :: m in dlq.table ==> m in old(dlq.table) || fresh(m)
      ensures var src, d := old(Snapshot()), old(dlq.Snapshot());
        var result := MoveOutcome(old(dlq.Initialized()), rounds);
        && ok == !(Moves(src, r) && (result == Threw || result == Waiting))
        && Snapshot() == (if ok then SweepOne(src, r) else src)
        && dlq.Snapshot() == if ok then DlqAfter(src, d, r, result) else d
    {
      BufferedByPosition(r, message);
      assert Snapshot().objects[r] == message.Value();
      if message !in messageBuffer {
        return true;
      }
      match message.state {
        case DeadLetter =>
          if configuration.dlq.Some? {
            var result := MoveMessageToDeadLetter(dlq, message.record, rounds);
            if result == Threw || result == Waiting {
              return false;
            }
          }
          RemoveFromBufferAndDatabase(r, message);
        case Drop => RemoveFromBufferAndDatabase(r, message);
        case _ =>
      }
      return true;
    }

    /** What is still to be swept: going on from list position `i` leads from here to `goal`. */
    ghost predicate Disposing(dlq: MessageQueue, at: seq<nat>, i: nat, results: seq<MoveResult>, goal: Swept)
      reads this, table, dlq, dlq.table
    {
      && Linked() && dlq.Linked() && i <= |at| == |results| && InTable(Snapshot(), at[i..])
      && SameEnd(SweepMove(Snapshot(), dlq.Snapshot(), at[i..], results[i..]), goal)
    }

    method DisposeNext(dlq: MessageQueue, ghost at: seq<nat>, i: nat, message: EnqueuedMessage, rounds: seq<Round>,
                       ghost results: seq<MoveResult>, ghost goal: Swept)
      returns (ok: bool)
      requires this != dlq && Disposing(dlq, at, i, results, goal) && i < |at| && at[i] < |table| && table[at[i]] == message
      requires results[i] == MoveOutcome(dlq.Initialized(), rounds)
      modifies this`messageBuffer, this`positions, this`database, this`queueDepth, dlq
      ensures table == old(table) && dlq.isOpen == old(dlq.isOpen)
      ensures forall m :: m in dlq.table ==> m in old(dlq.table) || fresh(m)
      ensures if ok then Disposing(dlq, at, i + 1, results, goal)
              else Linked() && dlq.Linked() && Snapshot() == goal.src && dlq.Snapshot() == goal.dlq
    {
      assert at[i..][1..] == at[i + 1..] && results[i..][1..] == results[i + 1..];
      ok := DisposeOf(dlq, at[i], message, rounds);
    }

    /** The second phase of the sweep, over the messages collected in the first. */
    method ApplyDispositions(dlq: MessageQueue, list: seq<EnqueuedMessage>, ghost at: seq<nat>, rounds: seq<seq<Round>>)
      requires this != dlq && Linked() && dlq.Linked() && |at| == |list| == |rounds|
      requires Objects(at, list)
      modifies this`messageBuffer, this`positions, this`database, this`queueDepth, dlq
      ensures Linked() && dlq.Linked() && InTable(old(Snapshot()), at)
      ensures table == old(table) && (old(Apart(dlq)) ==> Apart(dlq))
      ensures var results := MoveOutcomes(old(dlq.Initialized()), rounds);
        var end := SweepMove(old(Snapshot()), old(dlq.Snapshot()), at, results);
        Snapshot() == end.src && dlq.Snapshot() == end.dlq
      ensures old(Valid()) ==> Valid()
      ensures old(Valid()) && old(dlq.Valid()) && old(Room(dlq.Snapshot(), |list|)) ==> dlq.Valid()
    {
      ghost var results := MoveOutcomes(dlq.Initialized(), rounds);
      assert InTable(Snapshot(), at);
      SweepStaysValid(Snapshot(), dlq.Snapshot(), at, results);
      ghost var mine, others := table, dlq.table;
      DisposeAll(dlq, list, at, rounds, results, SweepMove(Snapshot(), dlq.Snapshot(), at, results));
      if old(Apart(dlq)) {
        StillApart(mine, others, dlq.table);
      }
    }

    method DisposeAll(dlq: MessageQueue, list: seq<EnqueuedMessage>, ghost at: seq<nat>, rounds: seq<seq<Round>>,
                      ghost results: seq<MoveResult>, ghost goal: Swept)
      requires this != dlq && Linked() && dlq.Linked() && |at| == |list| == |rounds| && InTable(Snapshot(), at)
      requires Objects(at, list)
      requires results == MoveOutcomes(dlq.Initialized(), rounds)
      requires goal == SweepMove(Snapshot(), dlq.Snapshot(), at, results)
      modifies this`messageBuffer, this`positions, this`database, this`queueDepth, dlq
      ensures Linked() && dlq.Linked() && Snapshot() == goal.src && dlq.Snapshot() == goal.dlq
      ensures table == old(table) && forall m :: m in dlq.table ==> m in old(dlq.table) || fresh(m)
    {
      assert at[0..] == at && results[0..] == results;
      var i := 0;
      while i < |list|
        invariant i <= |list| && table == old(table) && dlq.isOpen == old(dlq.isOpen)
        invariant forall m :: m in dlq.table ==> m in old(dlq.table) || fresh(m)
        invariant Disposing(dlq, at, i, results, goal)
      {
        var ok := DisposeNext(dlq, at, i, list[i], rounds[i], results, goal);
        if !ok {
          return;
        }
        i := i + 1;
      }
    }

    // ---------- one turn of the delivery thread ----------

    /** After any hydration: expire and pick, deliver what was picked (synchronously), sweep. `arrange` puts the
        remaining subscribers in order; `answer` is what a subscriber does when asked. If no move fails, no message
        with a Drop or DeadLetter verdict is left in the buffer. */
    method ThreadTurn(dlq: MessageQueue, now: Time, arrange: set<Guid> -> seq<Guid>, answer: Guid -> Turn, running: bool,
                      closing: set<Guid>, locked: bool, rounds: nat -> seq<Round>)
      returns (rehydrate: bool)
      requires this != dlq && Valid() && dlq.Linked()
      modifies this, table, dlq
      ensures Valid() && dlq.Linked() && table == old(table) && outstandingDeliveries == old(outstandingDeliveries)
      ensures InTable(old(Snapshot()), old(positions))
      ensures rehydrate == ExpireAndPick(old(Snapshot()), now).rehydrate
      ensures old(Apart(dlq)) ==> Apart(dlq)
      ensures old(Apart(dlq)) ==>
        SweptAs(DeliveryTurned(old(Snapshot()), now, arrange, answer, running, closing), old(dlq.Snapshot()), locked,
                old(dlq.Initialized()), rounds, Snapshot(), dlq.Snapshot())
      ensures locked && (forall i: nat :: MoveOutcome(old(dlq.Initialized()), rounds(i)) !in {Threw, Waiting}) ==>
                Clean(Snapshot())
    {
      rehydrate := DeliveryTurn(now, arrange, answer, running, closing);
      assert old(Apart(dlq)) ==> Apart(dlq) && dlq.Snapshot() == old(dlq.Snapshot());
      SweepTurn(dlq, locked, rounds);
    }

    static lemma StillApart(mine: seq<EnqueuedMessage>, others: seq<EnqueuedMessage>, all: seq<EnqueuedMessage>)
      requires forall i, j :: 0 <= i < |mine| && 0 <= j < |others| ==> mine[i] != others[j]
      requires forall m :: m in all ==> m in others || m !in mine
      ensures forall i, j :: 0 <= i < |mine| && 0 <= j < |all| ==> mine[i] != all[j]
    {
      forall i, j | 0 <= i < |mine| && 0 <= j < |all| ensures mine[i] != all[j] {
        assert all[j] in all && mine[i] in mine;
      }
    }

    /** Expire, pick and deliver. */
    method DeliveryTurn(now: Time, arrange: set<Guid> -> seq<Guid>, answer: Guid -> Turn, running: bool, closing: set<Guid>)
      returns (rehydrate: bool)
      requires Valid()
      modifies this`statistics, this`database, this`outstandingDeliveries, table
      ensures Valid() && outstandingDeliveries == old(outstandingDeliveries)
      ensures InTable(old(Snapshot()), old(positions))
      ensures rehydrate == ExpireAndPick(old(Snapshot()), now).rehydrate
      ensures Snapshot() == DeliveryTurned(old(Snapshot()), now, arrange, answer, running, closing)
    {
      assert forall i :: 0 <= i < |messageBuffer| ==> messageBuffer[i] in table;
      var top;
      ghost var r := ExpireAndPick(Snapshot(), now).top;
      top, rehydrate := ExpireAndSelect(now);
      if top != null {
        var order := arrange(subscribers - (top.limitReached + top.satisfied));
        assert Snapshot().objects[r.value] == top.Value();
        Distribute(r.value, top, order, Answering(order, answer), running, closing);
      }
    }

    /** Both phases of the sweep. */
    method SweepTurn(dlq: MessageQueue, locked: bool, rounds: nat -> seq<Round>)
      requires this != dlq && Valid() && dlq.Linked()
      modifies this`messageBuffer, this`positions, this`database, this`queueDepth, dlq
      ensures Valid() && dlq.Linked() && InTable(old(Snapshot()), old(positions))
      ensures old(Apart(dlq)) ==> Apart(dlq)
      ensures SweptAs(old(Snapshot()), old(dlq.Snapshot()), locked, old(dlq.Initialized()), rounds, Snapshot(), dlq.Snapshot())
      ensures locked && (forall i: nat :: MoveOutcome(old(dlq.Initialized()), rounds(i)) !in {Threw, Waiting}) ==>
                Clean(Snapshot())
    {
      var list := CollectDisposed();
      ghost var at := Disposed(Snapshot(), positions);
      if locked {
        if forall i: nat :: MoveOutcome(dlq.Initialized(), rounds(i)) !in {Threw, Waiting} {
          SweepCleans(Snapshot(), dlq.Snapshot(), dlq.Initialized(), rounds);
        }
        ApplyDispositions(dlq, list, at, EachRounds(|list|, rounds));
      }
    }

    // ---------- purge, subscriptions ----------

    static method RemoveAll(keys: seq<nat>, db: map<nat, Record>) returns (rest: map<nat, Record>)
      requires Ascending(keys) && SetOf(keys) == db.Keys
      ensures rest == map[]
    {
      rest := db;
      var i := 0;
      while i < |keys|
        invariant 0 <= i <= |keys| && SetOf(keys[i..]) == rest.Keys
      {
        AscendingTail(keys, i);
        rest := rest - {keys[i]};
        i := i + 1;
      }
      assert rest.Keys == {};
    }

    /** Collects every key, then deletes them one by one. */
    static method Purge(db: map<nat, Record>) returns (rest: map<nat, Record>)
      ensures rest == map[]
    {
      var keys := SortedKeys(db.Keys);
      rest := RemoveAll(keys, db);
    }

    method PurgeDatabase()
      requires Linked()
      modifies this`database
      ensures Linked() && Snapshot() == old(Snapshot()).(store := map[])
    {
      database := Purge(database);
    }

    method PurgeQueue(rounds: seq<Round>) returns (result: CallResult)
      requires Linked()
      modifies this
      ensures Linked()
      ensures result == Admission(old(Initialized()), rounds)
      ensures Snapshot() == if result == Accepted then Purged(old(Snapshot())) else old(Snapshot())
      ensures old(Valid()) ==> Valid()
    {
      PurgeStaysValid(Snapshot());
      var i := 0;
      while i < |rounds| && rounds[i].running
        invariant 0 <= i <= |rounds| && Linked() && Snapshot() == old(Snapshot()) && isOpen == old(isOpen)
        invariant Decide(rounds[i..]) == Decide(rounds)
      {
        if rounds[i].late {
          return TimedOut;
        }
        if !rounds[i].found {
          return QueueNotFound;
        }
        if rounds[i].locked {
          if configuration.persistence == Persistent {
            if !isOpen {
              return NotInitialized;
            }
            PurgeDatabase();
          }
          messageBuffer, positions := [], [];
          queueDepth := 0;
          return Accepted;
        }
        assert rounds[i..][1..] == rounds[i + 1..];
        i := i + 1;
      }
      return if i < |rounds| then NotRunning else Trying;
    }

    /** The server makes the subscriber known to the queue; a second subscription changes nothing. */
    method Subscribe(id: Guid, rounds: seq<Round>) returns (result: CallResult)
      requires Linked()
      modifies this`subscribers
      ensures Linked() && result == Admission(true, rounds)
      ensures Snapshot() == old(Snapshot()).(subscribers := subscribers)
      ensures subscribers == if result == Accepted then old(subscribers) + {id} else old(subscribers)
    {
      var i := 0;
      while i < |rounds| && rounds[i].running
        invariant 0 <= i <= |rounds| && Decide(rounds[i..]) == Decide(rounds)
      {
        if rounds[i].late {
          return TimedOut;
        }
        if !rounds[i].found {
          return QueueNotFound;
        }
        if rounds[i].locked {
          if id !in subscribers {
            subscribers := subscribers + {id};
          }
          return Accepted;
        }
        assert rounds[i..][1..] == rounds[i + 1..];
        i := i + 1;
      }
      return if i < |rounds| then NotRunning else Trying;
    }

    /** Unsubscribing and disconnecting. Only running out of time is an error; a missing queue or a stopped server is
        not. */
    method Unsubscribe(id: Guid, rounds: seq<Round>) returns (result: CallResult, threw: bool)
      requires Linked()
      modifies this`subscribers
      ensures Linked() && result == Admission(true, rounds)
      ensures threw == exists i :: DecidedAt(rounds, i) && rounds[i].running && rounds[i].late
      ensures Snapshot() == old(Snapshot()).(subscribers := subscribers)
      ensures subscribers == if result == Accepted then old(subscribers) - {id} else old(subscribers)
    {
      threw := false;
      RefusedExactly(true, rounds);
      var i := 0;
      while i < |rounds| && rounds[i].running
        invariant 0 <= i <= |rounds| && Decide(rounds[i..]) == Decide(rounds)
      {
        if rounds[i].late {
          return TimedOut, true;
        }
        if !rounds[i].found {
          return QueueNotFound, false;
        }
        if rounds[i].locked {
          subscribers := subscribers - {id};
          return Accepted, false;
        }
        assert rounds[i..][1..] == rounds[i + 1..];
        i := i + 1;
      }
      result := if i < |rounds| then NotRunning else Trying;
    }
  }

  lemma {:induction false} WithoutFirst(xs: seq<nat>, x: nat, at: nat)
    requires at < |xs| && xs[at] == x && forall i :: 0 <= i < at ==> xs[i] != x
    ensures Without(xs, x) == xs[..at] + xs[at + 1..]
  {
    if at > 0 {
      WithoutFirst(xs[1..], x, at - 1);
      assert xs[..at] == [xs[0]] + xs[1..][..at - 1];
    }
  }

  lemma AscendingTail(keys: seq<nat>, i: nat)
    requires Ascending(keys) && i < |keys|
    ensures keys[i] !in SetOf(keys[i + 1..]) && SetOf(keys[i..]) == {keys[i]} + SetOf(keys[i + 1..])
  {
    assert keys[i..] == [keys[i]] + keys[i + 1..];
  }
}
