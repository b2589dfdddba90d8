/** Dead-lettering: the sweep copies a message to the companion queue first and removes it second. */
module DeadLetterMove {
  import opened Messages
  import opened DeliveryPass
  import opened QueueState
  import opened StoreInvariant
  import opened QueueEffects
  import opened QueueRun
  import opened RetryLoop

  // ---------- the retry loop ----------

  datatype MoveResult = Copied | Discarded | Skipped | Threw | Waiting

  /** A stopping server returns without copying and a missing queue discards the message; neither is an error. */
  function MoveOutcome(initialized: bool, rounds: seq<Round>): MoveResult {
    match Decide(rounds)
    case Stopped => Skipped
    case TooLate => Threw
    case Missing => Discarded
    case Entered => if initialized then Copied else Threw
    case Undecided => Waiting
  }

  /** The message is copied exactly if the first round that is not a failed try-lock finds the server running, the
      deadline ahead, and the queue there, locked and initialized. */
  lemma CopiedExactly(initialized: bool, rounds: seq<Round>)
    ensures MoveOutcome(initialized, rounds) == Copied <==>
              initialized && exists i :: DecidedAt(rounds, i) && rounds[i] == Round(true, false, true, true)
  {
    EnteredExactly(rounds);
  }

  /** How a move ends otherwise: skipped if the deciding round finds the server stopping, discarded if the queue is
      missing, an exception if time is up or the queue is not initialized, and still waiting if every round was a
      failed try-lock. */
  lemma NotCopiedExactly(initialized: bool, rounds: seq<Round>)
    ensures MoveOutcome(initialized, rounds) == Skipped <==> exists i :: DecidedAt(rounds, i) && Means(rounds[i], Stopped)
    ensures MoveOutcome(initialized, rounds) == Discarded <==> exists i :: DecidedAt(rounds, i) && Means(rounds[i], Missing)
    ensures MoveOutcome(initialized, rounds) == Threw <==>
              || (exists i :: DecidedAt(rounds, i) && Means(rounds[i], TooLate))
              || (!initialized && exists i :: DecidedAt(rounds, i) && Means(rounds[i], Entered))
    ensures MoveOutcome(initialized, rounds) == Waiting <==> forall i :: 0 <= i < |rounds| ==> Retries(rounds[i])
  {
    DecidedByFirst(rounds, Stopped);
    DecidedByFirst(rounds, TooLate);
    DecidedByFirst(rounds, Missing);
    DecidedByFirst(rounds, Entered);
  }

  // ---------- what a queue holds ----------

  datatype Payload = Payload(messageId: Guid, timestamp: Time, deferredCount: nat, typeName: string, body: string)
  datatype Item = Item(serial: nat, payload: Payload)

  function PayloadOf(rec: Record): Payload {
    Payload(rec.messageId, rec.timestamp, rec.deferredCount, rec.typeName, rec.body)
  }

  function ItemOf(rec: Record): Item {
    Item(rec.serial, PayloadOf(rec))
  }

  /** The database of a persistent queue, the buffer of an ephemeral one. */
  ghost function Holding(q: Queue): set<Item> {
    if Persists(q) then set k | k in q.store :: ItemOf(q.store[k])
    else set r | r in q.buffer && r < |q.objects| :: ItemOf(q.objects[r].rec)
  }

  // ---------- the copy ----------

  lemma FreshSerial(q: Queue, drawn: map<nat, Record>, uncounted: set<nat>, draft: Record)
    requires StoreInv(q, drawn, uncounted) && q.lastSerial + 1 < U64_LIMIT
    ensures var k := Addressed(q, draft).serial;
      k == q.lastSerial + 1 && k !in q.store && k !in drawn && (Persists(q) ==> k !in uncounted)
  {
  }

  lemma HeldBelowLast(q: Queue, drawn: map<nat, Record>, uncounted: set<nat>)
    requires StoreInv(q, drawn, uncounted)
    ensures forall item :: item in Holding(q) ==> item.serial <= q.lastSerial
  {
    var c := CoreOf(q);
    forall item | item in Holding(q) ensures item.serial <= q.lastSerial {
      if Persists(q) {
        var k :| k in q.store && item == ItemOf(q.store[k]);
        assert c.store[k].serial == k;
      } else {
        var r :| r in q.buffer && r < |q.objects| && item == ItemOf(q.objects[r].rec);
        assert c.recs[r].serial <= c.lastSerial;
      }
    }
  }

  /** `q1` is `q` with the record `rec` as its newest: stored only, or buffered only. */
  ghost predicate Newest(q: Queue, q1: Queue, rec: Record) {
    && q1.lastSerial == rec.serial && q1.depth == q.depth + 1
    && if q.cfg.persistence == Persistent then
         && q1.store == q.store[rec.serial := rec] && q1.objects == q.objects && q1.buffer == q.buffer
       else
         && q1.objects == q.objects + [Message(rec, Ready, map[], {}, {}, {})] && q1.buffer == q.buffer + [|q.objects|]
         && q1.store == q.store
  }

  /** An enqueue adds exactly one item, under the next serial, and that is above all the queue holds. */
  lemma EnqueueAdds(q: Queue, drawn: map<nat, Record>, uncounted: set<nat>, draft: Record)
    requires StoreInv(q, drawn, uncounted) && q.lastSerial + 1 < U64_LIMIT
    ensures var q1 := Enqueued(q, draft);
      && StoreInv(q1, drawn, uncounted)
      && Holding(q1) == Holding(q) + {Item(q.lastSerial + 1, PayloadOf(draft))}
      && Newest(q, q1, draft.(queueName := q.cfg.name, serial := q.lastSerial + 1))
    ensures forall item :: item in Holding(q) ==> item.serial <= q.lastSerial
  {
    EnqueueKeeps(q, drawn, uncounted, draft);
    HeldBelowLast(q, drawn, uncounted);
    FreshSerial(q, drawn, uncounted, draft);
    if Persists(q) {
      StoredOneMore(q, Addressed(q, draft));
    } else {
      BufferedOneMore(q, Addressed(q, draft), drawn, uncounted);
    }
  }

  /** What an enqueue called for leaves behind: type, body, id and time as given, never deferred before, and not to be
      delivered before the asked-for time has passed. */
  lemma EnqueueHolds(
    q: Queue, drawn: map<nat, Record>, uncounted: set<nat>,
    typeName: string, body: string, deferFor: Option<Duration>, id: Guid, now: Time)
    requires StoreInv(q, drawn, uncounted) && q.lastSerial + 1 < U64_LIMIT
    ensures var q1 := Enqueued(q, Draft(typeName, body, deferFor, id, now));
      && Holding(q1) == Holding(q) + {Item(q.lastSerial + 1, Payload(messageId := id, timestamp := now, deferredCount := 0,
                                                                     typeName := typeName, body := body))}
      && Newest(q, q1, Record(
           queueName := q.cfg.name, serial := q.lastSerial + 1, messageId := id, timestamp := now, deferredCount := 0,
           deferredUntil := if deferFor.Some? then Some(now + deferFor.value) else None, deferDuration := deferFor,
           typeName := typeName, body := body))
  {
    EnqueueAdds(q, drawn, uncounted, Draft(typeName, body, deferFor, id, now));
  }

  /** The copy adds exactly one item to the dead-letter queue, under a serial above all it holds, with the id,
      body, time and deferral count of the original; it is not deferred there. */
  lemma DepositAdds(dlq: Queue, drawn: map<nat, Record>, uncounted: set<nat>, rec: Record)
    requires StoreInv(dlq, drawn, uncounted) && dlq.lastSerial + 1 < U64_LIMIT
    ensures var dlq1 := Deposited(dlq, rec);
      && StoreInv(dlq1, drawn, uncounted)
      && Holding(dlq1) == Holding(dlq) + {Item(dlq.lastSerial + 1, PayloadOf(rec))}
      && dlq1.lastSerial == dlq.lastSerial + 1 && dlq1.depth == dlq.depth + 1
    ensures Newest(dlq, Deposited(dlq, rec), Record(
              queueName := dlq.cfg.name, serial := dlq.lastSerial + 1, messageId := rec.messageId,
              timestamp := rec.timestamp, deferredCount := rec.deferredCount, deferredUntil := None,
              deferDuration := None, typeName := rec.typeName, body := rec.body))
    ensures forall item :: item in Holding(dlq) ==> item.serial <= dlq.lastSerial
  {
    EnqueueAdds(dlq, drawn, uncounted, DeadLetterRecord(rec, dlq.cfg.name, NextSerial(dlq.lastSerial)));
  }

  lemma StoredOneMore(q: Queue, rec: Record)
    requires Persists(q) && rec.serial !in q.store
    ensures Holding(StoreRecord(q, rec)) == Holding(q) + {ItemOf(rec)}
  {
    var q1 := StoreRecord(q, rec);
    forall item | item in Holding(q) ensures item in Holding(q1) {
      var k :| k in q.store && item == ItemOf(q.store[k]);
      assert q1.store[k] == q.store[k];
    }
    assert q1.store[rec.serial] == rec;
  }

  lemma BufferedOneMore(q: Queue, rec: Record, drawn: map<nat, Record>, uncounted: set<nat>)
    requires !Persists(q) && StoreInv(q, drawn, uncounted)
    ensures Holding(BufferNew(q, rec)) == Holding(q) + {ItemOf(rec)}
  {
    var q1 := BufferNew(q, rec);
    var c := CoreOf(q);
    forall item | item in Holding(q) ensures item in Holding(q1) {
      var r :| r in q.buffer && r < |q.objects| && item == ItemOf(q.objects[r].rec);
      assert q1.objects[r] == q.objects[r] && r in q1.buffer;
    }
    assert |q.objects| in q1.buffer && q1.objects[|q.objects|].rec == rec;
    forall item | item in Holding(q1) ensures item in Holding(q) || item == ItemOf(rec) {
      var r :| r in q1.buffer && r < |q1.objects| && item == ItemOf(q1.objects[r].rec);
      assert r < |q.objects| ==> q1.objects[r] == q.objects[r] && r in q.buffer;
    }
  }

  /** The dead-letter queue once it has its copy. */
  function Deposited(dlq: Queue, rec: Record): Queue {
    Enqueued(dlq, DeadLetterRecord(rec, dlq.cfg.name, NextSerial(dlq.lastSerial)))
  }

  /** Seen from the dead-letter queue's own run, a deposit is an ordinary enqueue, so everything that holds of
      every run of a queue holds while messages are being moved into it. */
  lemma DepositIsEnqueue(s: System, rec: Record)
    requires Enabled(s, if Persists(s.q) then DrawSerial(rec) else EnqueueInMemory(rec))
    requires NextSerial(s.q.lastSerial) !in s.drawn && NextSerial(s.q.lastSerial) !in s.uncounted
    ensures var actions := DepositActions(s, rec);
      && Run(s, actions) && Reached(s, actions).q == Deposited(s.q, rec)
      && Reached(s, actions).drawn == s.drawn && Reached(s, actions).uncounted == s.uncounted
  {
    var k := NextSerial(s.q.lastSerial);
    var draft := DeadLetterRecord(rec, s.q.cfg.name, k);
    assert Addressed(s.q, draft) == draft;
    if Persists(s.q) {
      var s1 := Apply(s, DrawSerial(draft));
      var s2 := Apply(s1, StoreDrawn(k));
      var s3 := Apply(s2, CountStored(k));
      RunOne(s2, CountStored(k), []);
      RunOne(s1, StoreDrawn(k), [CountStored(k)]);
      RunOne(s, DrawSerial(draft), [StoreDrawn(k), CountStored(k)]);
      assert s2.drawn == s.drawn;
      assert s3.uncounted == s.uncounted;
    } else {
      RunOne(s, EnqueueInMemory(draft), []);
    }
  }

  lemma RunOne(s: System, a: Action, rest: seq<Action>)
    requires Enabled(s, a) && Run(Apply(s, a), rest)
    ensures Run(s, [a] + rest) && Reached(s, [a] + rest) == Reached(Apply(s, a), rest)
    ensures rest == [] ==> [a] + rest == [a]
  {
    assert ([a] + rest)[1..] == rest;
  }

  function DepositActions(s: System, rec: Record): seq<Action> {
    var k := NextSerial(s.q.lastSerial);
    var draft := DeadLetterRecord(rec, s.q.cfg.name, k);
    if Persists(s.q) then [DrawSerial(draft), StoreDrawn(k), CountStored(k)] else [EnqueueInMemory(draft)]
  }

  // ---------- the sweep over both queues ----------

  /** What became of one collected message. `Passed` was purged meanwhile; `Lost` is one dead-lettered while the
      server was stopping, or with no dead-letter queue there or configured. */
  datatype Fate = Passed | Dropped | Lost | Moved(serial: nat)

  datatype Swept = Swept(src: Queue, dlq: Queue, fates: seq<Fate>)

  predicate Moves(q: Queue, r: nat)
    requires r < |q.objects|
  {
    r in q.buffer && q.objects[r].state == DeadLetter && q.cfg.dlq.Some?
  }

  function FateOf(src: Queue, dlq: Queue, r: nat, result: MoveResult): Fate
    requires r < |src.objects|
  {
    if r !in src.buffer || !Terminal(src.objects[r].state) then Passed
    else if src.objects[r].state == Drop then Dropped
    else if Moves(src, r) && result == Copied then Moved(NextSerial(dlq.lastSerial))
    else Lost
  }

  function DlqAfter(src: Queue, dlq: Queue, r: nat, result: MoveResult): Queue
    requires r < |src.objects|
  {
    if FateOf(src, dlq, r, result).Moved? then Deposited(dlq, src.objects[r].rec) else dlq
  }

  /** `results` are the ends of the moves that are made, by list position. An exception ends the sweep before the
      message is removed. */
  function SweepMove(src: Queue, dlq: Queue, list: seq<nat>, results: seq<MoveResult>): Swept
    requires InTable(src, list) && |results| == |list|
    decreases |list|
  {
    if list == [] || (Moves(src, list[0]) && (results[0] == Threw || results[0] == Waiting)) then Swept(src, dlq, [])
    else
      var rest := SweepMove(SweepOne(src, list[0]), DlqAfter(src, dlq, list[0], results[0]), list[1..], results[1..]);
      rest.(fates := [FateOf(src, dlq, list[0], results[0])] + rest.fates)
  }

  /** On the source queue this is the sweep of a prefix of the list. */
  lemma {:induction false} SweepMoveSweeps(src: Queue, dlq: Queue, list: seq<nat>, results: seq<MoveResult>)
    requires InTable(src, list) && |results| == |list|
    ensures var end := SweepMove(src, dlq, list, results);
      && |end.fates| <= |list| && end.src == SweepAll(src, list[..|end.fates|])
      && (|end.fates| < |list| ==> results[|end.fates|] == Threw || results[|end.fates|] == Waiting)
    decreases |list|
  {
    var end := SweepMove(src, dlq, list, results);
    if end.fates != [] {
      SweepMoveSweeps(SweepOne(src, list[0]), DlqAfter(src, dlq, list[0], results[0]), list[1..], results[1..]);
      var n := |end.fates|;
      assert list[..n][1..] == list[1..][..n - 1];
    }
  }

  /** One message, by its state: only one that is dead-lettered, and only with a dead-letter queue configured, is
      copied; one that is dropped never is, whatever a move would do. */
  lemma FateByState(src: Queue, dlq: Queue, r: nat, result: MoveResult)
    requires r < |src.objects|
    ensures var fate, m := FateOf(src, dlq, r, result), src.objects[r];
      && (fate == Passed <==> r !in src.buffer || (m.state != Drop && m.state != DeadLetter))
      && (fate == Dropped <==> r in src.buffer && m.state == Drop)
      && (fate.Moved? <==> r in src.buffer && m.state == DeadLetter && src.cfg.dlq.Some? && result == Copied)
      && (m.state != DeadLetter ==> DlqAfter(src, dlq, r, result) == dlq)
  {
  }

  /** The message listed at `i` is still buffered when its turn comes. */
  predicate InTurn(src: Queue, list: seq<nat>, i: nat)
    requires InTable(src, list) && i < |list|
  {
    list[i] in SweepAll(src, list[..i]).buffer
  }

  /** What a fate says about the message listed at `i`, in terms of its state. */
  ghost predicate FateFits(src: Queue, list: seq<nat>, i: nat, fate: Fate)
    requires InTable(src, list) && i < |list|
  {
    var state := src.objects[list[i]].state;
    && (fate == Passed <==> !InTurn(src, list, i) || (state != Drop && state != DeadLetter))
    && (fate == Dropped <==> InTurn(src, list, i) && state == Drop)
    && (fate.Moved? ==> InTurn(src, list, i) && state == DeadLetter && src.cfg.dlq.Some?)
    && (fate == Lost ==> InTurn(src, list, i) && state == DeadLetter)
  }

  ghost predicate FatesFit(src: Queue, list: seq<nat>, fates: seq<Fate>)
    requires InTable(src, list) && |fates| <= |list|
  {
    forall i :: 0 <= i < |fates| ==> FateFits(src, list, i, fates[i])
  }

  lemma TurnLater(src: Queue, list: seq<nat>, i: nat)
    requires InTable(src, list) && 0 < i < |list|
    ensures InTable(SweepOne(src, list[0]), list[1..])
    ensures InTurn(src, list, i) <==> InTurn(SweepOne(src, list[0]), list[1..], i - 1)
  {
    assert list[..i][1..] == list[1..][..i - 1] && list[1..][i - 1] == list[i];
  }

  /** Every fate of a sweep fits the state of its message. */
  lemma {:induction false} FatesByState(src: Queue, dlq: Queue, list: seq<nat>, results: seq<MoveResult>)
    requires InTable(src, list) && |results| == |list|
    ensures var fates := SweepMove(src, dlq, list, results).fates;
      |fates| <= |list| && FatesFit(src, list, fates)
    decreases |list|
  {
    var fates := SweepMove(src, dlq, list, results).fates;
    if fates != [] {
      var src1, dlq1 := SweepOne(src, list[0]), DlqAfter(src, dlq, list[0], results[0]);
      var rest := SweepMove(src1, dlq1, list[1..], results[1..]).fates;
      FatesByState(src1, dlq1, list[1..], results[1..]);
      FateByState(src, dlq, list[0], results[0]);
      assert list[..0] == [] && (InTurn(src, list, 0) <==> list[0] in src.buffer);
      forall i | 0 < i < |fates| ensures FateFits(src, list, i, fates[i]) {
        TurnLater(src, list, i);
        assert FateFits(src1, list[1..], i - 1, rest[i - 1]);
      }
    }
  }

  /** A message is moved exactly if it is to be dead-lettered when its turn comes, there is a dead-letter queue, and
      its move ends with a copy. */
  lemma {:induction false} MovedExactly(src: Queue, dlq: Queue, list: seq<nat>, results: seq<MoveResult>, i: nat)
    requires InTable(src, list) && |results| == |list|
    requires i < |SweepMove(src, dlq, list, results).fates| <= |list|
    ensures SweepMove(src, dlq, list, results).fates[i].Moved? <==>
              InTurn(src, list, i) && src.objects[list[i]].state == DeadLetter && src.cfg.dlq.Some? && results[i] == Copied
    decreases |list|
  {
    FateByState(src, dlq, list[0], results[0]);
    if i == 0 {
      assert list[..0] == [];
    } else {
      TurnLater(src, list, i);
      FatesByState(src, dlq, list, results);
      MovedExactly(SweepOne(src, list[0]), DlqAfter(src, dlq, list[0], results[0]), list[1..], results[1..], i - 1);
    }
  }

  /** Messages that are not to be dead-lettered leave the dead-letter queue alone. */
  lemma {:induction false} OnlyDeadLettersMove(src: Queue, dlq: Queue, list: seq<nat>, results: seq<MoveResult>)
    requires InTable(src, list) && |results| == |list|
    requires forall i :: 0 <= i < |list| ==> src.objects[list[i]].state != DeadLetter
    ensures SweepMove(src, dlq, list, results).dlq == dlq
    decreases |list|
  {
    if list != [] {
      FateByState(src, dlq, list[0], results[0]);
      OnlyDeadLettersMove(SweepOne(src, list[0]), dlq, list[1..], results[1..]);
    }
  }

  /** The messages that sweeping the first `n` of the list takes away in state `state`. */
  ghost function TakenAway(src: Queue, list: seq<nat>, n: nat, state: MessageState): set<nat>
    requires n <= |list|
  {
    set r | r in list[..n] && r in src.buffer && r < |src.objects| && src.objects[r].state == state
  }

  lemma TakenOneMore(src: Queue, list: seq<nat>, n: nat, state: MessageState)
    requires InTable(src, list) && Distinct(src.buffer) && n < |list| && Terminal(state)
    ensures |TakenAway(src, list, n + 1, state)|
         == |TakenAway(src, list, n, state)| + if InTurn(src, list, n) && src.objects[list[n]].state == state then 1 else 0
  {
    var r, before := list[n], TakenAway(src, list, n, state);
    assert list[..n + 1] == list[..n] + [r];
    if src.objects[r].state == state && r in src.buffer && r !in list[..n] {
      assert TakenAway(src, list, n + 1, state) == before + {r} && r !in before;
    } else {
      assert TakenAway(src, list, n + 1, state) == before;
    }
    if Terminal(src.objects[r].state) {
      TurnMeans(src, list, n);
    }
  }

  /** For a message with a verdict its turn comes once. */
  lemma TurnMeans(src: Queue, list: seq<nat>, n: nat)
    requires InTable(src, list) && Distinct(src.buffer) && n < |list| && Terminal(src.objects[list[n]].state)
    ensures InTurn(src, list, n) <==> list[n] in src.buffer && list[n] !in list[..n]
  {
    PrefixInTable(src, list, n);
    SweepRemovesListed(src, list[..n]);
    SweepEffect(src, list[..n]);
  }

  lemma PrefixInTable(q: Queue, list: seq<nat>, n: nat)
    requires InTable(q, list) && n <= |list|
    ensures InTable(q, list[..n])
  {
  }

  /** Counting fates is counting messages by their state. */
  lemma {:induction false} CountsByState(src: Queue, list: seq<nat>, fates: seq<Fate>)
    requires InTable(src, list) && |fates| <= |list| && Distinct(src.buffer) && FatesFit(src, list, fates)
    ensures DropCount(fates) == |TakenAway(src, list, |fates|, Drop)|
    ensures MovedCount(fates) + LostCount(fates) == |TakenAway(src, list, |fates|, DeadLetter)|
    decreases |fates|
  {
    if fates == [] {
      assert TakenAway(src, list, 0, Drop) == {} && TakenAway(src, list, 0, DeadLetter) == {};
    } else {
      var n := |fates| - 1;
      assert fates == fates[..n] + [fates[n]];
      CountsByState(src, list, fates[..n]);
      CountsOneMore(fates[..n], fates[n]);
      TakenOneMore(src, list, n, Drop);
      TakenOneMore(src, list, n, DeadLetter);
      assert FateFits(src, list, n, fates[n]);
    }
  }

  lemma {:induction false} CountsOneMore(fates: seq<Fate>, fate: Fate)
    ensures DropCount(fates + [fate]) == DropCount(fates) + if fate == Dropped then 1 else 0
    ensures LostCount(fates + [fate]) == LostCount(fates) + if fate == Lost then 1 else 0
    ensures MovedCount(fates + [fate]) == MovedCount(fates) + if fate.Moved? then 1 else 0
    ensures RemovedCount(fates + [fate]) == RemovedCount(fates) + if fate == Passed then 0 else 1
  {
    if fates != [] {
      CountsOneMore(fates[1..], fate);
      assert (fates + [fate])[1..] == fates[1..] + [fate];
    }
  }

  /** The source gives up exactly the item of a removed message. */
  lemma RemovalTakes(src: Queue, r: nat)
    requires StoreInv(src, map[], {}) && (Persists(src) ==> src.open) && r < |src.objects|
    requires r in src.buffer && Terminal(src.objects[r].state)
    ensures ItemOf(src.objects[r].rec) in Holding(src)
    ensures Holding(SweepOne(src, r)) == Holding(src) - {ItemOf(src.objects[r].rec)}
  {
    if Persists(src) {
      StoredAgrees(src, r);
      StoredOneLess(src, r);
    } else {
      BufferedOneLess(src, r);
    }
  }

  lemma StoredAgrees(q: Queue, r: nat)
    requires StoreInv(q, map[], {}) && Persists(q) && q.open && r < |q.objects| && r in q.buffer
    ensures Serial(q, r) in q.store && q.store[Serial(q, r)] == q.objects[r].rec
    ensures forall k :: k in q.store ==> q.store[k].serial == k
  {
    var c := CoreOf(q);
    var i :| 0 <= i < |c.buffer| && c.buffer[i] == r;
    assert c.recs[c.buffer[i]].serial in c.store;
    assert c.store[c.recs[c.buffer[i]].serial] == c.recs[c.buffer[i]];
    assert c.store == q.store;
  }

  lemma StoredOneLess(q: Queue, r: nat)
    requires Persists(q) && q.open && r < |q.objects| && r in q.buffer && Terminal(q.objects[r].state)
    requires Serial(q, r) in q.store && q.store[Serial(q, r)] == q.objects[r].rec
    requires forall k :: k in q.store ==> q.store[k].serial == k
    ensures ItemOf(q.objects[r].rec) in Holding(q)
    ensures Holding(SweepOne(q, r)) == Holding(q) - {ItemOf(q.objects[r].rec)}
  {
    var q1, gone := SweepOne(q, r), Serial(q, r);
    assert q1.store == q.store - {gone};
    forall item | item in Holding(q) && item != ItemOf(q.objects[r].rec) ensures item in Holding(q1) {
      var k :| k in q.store && item == ItemOf(q.store[k]);
      assert k in q1.store && q1.store[k] == q.store[k];
    }
  }

  lemma BufferedOneLess(q: Queue, r: nat)
    requires StoreInv(q, map[], {}) && !Persists(q) && r < |q.objects| && r in q.buffer && Terminal(q.objects[r].state)
    ensures ItemOf(q.objects[r].rec) in Holding(q)
    ensures Holding(SweepOne(q, r)) == Holding(q) - {ItemOf(q.objects[r].rec)}
  {
    var q1, c := SweepOne(q, r), CoreOf(q);
    AscendingPositions(q);
    WithoutDistinct(q.buffer, r);
    WithoutShrinks(q.buffer, r);
    forall t | t in q.buffer && t != r && t < |q.objects| ensures q.objects[t].rec.serial != q.objects[r].rec.serial {
      assert c.recs[t].serial != c.recs[r].serial;
    }
    forall item | item in Holding(q) && item != ItemOf(q.objects[r].rec) ensures item in Holding(q1) {
      var t :| t in q.buffer && t < |q.objects| && item == ItemOf(q.objects[t].rec);
      assert t in q1.buffer;
    }
  }

  lemma AscendingPositions(q: Queue)
    requires StoreInv(q, map[], {})
    ensures Distinct(q.buffer)
  {
    var c := CoreOf(q);
    assert forall i, j :: 0 <= i < j < |c.buffer| ==> c.recs[c.buffer[i]].serial < c.recs[c.buffer[j]].serial;
  }

  function MovedCount(fates: seq<Fate>): nat {
    if fates == [] then 0 else (if fates[0].Moved? then 1 else 0) + MovedCount(fates[1..])
  }

  function RemovedCount(fates: seq<Fate>): nat {
    if fates == [] then 0 else (if fates[0] == Passed then 0 else 1) + RemovedCount(fates[1..])
  }

  /** Room for `n` more serials. */
  predicate Room(q: Queue, n: nat) {
    q.lastSerial + n < U64_LIMIT
  }

  /** The preconditions of a sweep: both invariants, the source's exclusive lock, and no serial overflow. */
  ghost predicate SweepReady(src: Queue, dlq: Queue, drawn: map<nat, Record>, uncounted: set<nat>, list: seq<nat>) {
    && StoreInv(src, map[], {}) && (Persists(src) ==> src.open) && InTable(src, list)
    && StoreInv(dlq, drawn, uncounted) && Room(dlq, |list|)
  }

  lemma SweepStepKeeps(
    src: Queue, dlq: Queue, drawn: map<nat, Record>, uncounted: set<nat>, list: seq<nat>, result: MoveResult)
    requires SweepReady(src, dlq, drawn, uncounted, list) && list != []
    ensures SweepReady(SweepOne(src, list[0]), DlqAfter(src, dlq, list[0], result), drawn, uncounted, list[1..])
  {
    SweepOneKeeps(src, list[0]);
    if FateOf(src, dlq, list[0], result).Moved? {
      DepositAdds(dlq, drawn, uncounted, src.objects[list[0]].rec);
    }
  }

  /** One message: removed or passed over on one side, one copy or none on the other; between the copy and the
      removal it is on both. */
  lemma StepMoves(src: Queue, dlq: Queue, drawn: map<nat, Record>, uncounted: set<nat>, r: nat, result: MoveResult)
    requires r < |src.objects| && SweepReady(src, dlq, drawn, uncounted, [r])
    ensures var fate, item := FateOf(src, dlq, r, result), ItemOf(src.objects[r].rec);
      && (fate == Passed ==> SweepOne(src, r) == src)
      && (fate != Passed ==> item in Holding(src) && Holding(SweepOne(src, r)) == Holding(src) - {item})
      && (fate.Moved? ==>
            && fate.serial == dlq.lastSerial + 1
            && Item(fate.serial, item.payload) !in Holding(dlq)
            && Holding(Deposited(dlq, src.objects[r].rec)) == Holding(dlq) + {Item(fate.serial, item.payload)})
  {
    if FateOf(src, dlq, r, result) != Passed {
      RemovalTakes(src, r);
    }
    CopyAdds(dlq, drawn, uncounted, src.objects[r].rec);
  }

  lemma CopyAdds(dlq: Queue, drawn: map<nat, Record>, uncounted: set<nat>, rec: Record)
    requires StoreInv(dlq, drawn, uncounted) && Room(dlq, 1)
    ensures var item := Item(NextSerial(dlq.lastSerial), PayloadOf(rec));
      && item.serial == dlq.lastSerial + 1 && item !in Holding(dlq)
      && Holding(Deposited(dlq, rec)) == Holding(dlq) + {item}
  {
    DepositAdds(dlq, drawn, uncounted, rec);
  }

  /** One step of a sweep that goes on. */
  ghost predicate Steps(
    src: Queue, dlq: Queue, drawn: map<nat, Record>, uncounted: set<nat>, list: seq<nat>, results: seq<MoveResult>,
    src1: Queue, dlq1: Queue)
    requires InTable(src, list) && list != [] && |results| == |list|
  {
    && SweepReady(src1, dlq1, drawn, uncounted, list[1..])
    && var end, rest := SweepMove(src, dlq, list, results), SweepMove(src1, dlq1, list[1..], results[1..]);
    var fate, item := FateOf(src, dlq, list[0], results[0]), ItemOf(src.objects[list[0]].rec);
    && end.src == rest.src && end.dlq == rest.dlq && end.fates == [fate] + rest.fates && end.fates[1..] == rest.fates
    && Holding(src1) == (if fate == Passed then Holding(src) else Holding(src) - {item})
    && (fate != Passed ==> item in Holding(src))
    && (if fate.Moved? then
          && fate.serial == dlq.lastSerial + 1 == dlq1.lastSerial
          && Item(fate.serial, item.payload) !in Holding(dlq)
          && Holding(dlq1) == Holding(dlq) + {Item(fate.serial, item.payload)}
        else dlq1 == dlq)
    && src1.cfg == src.cfg && |src1.objects| == |src.objects|
    && forall r :: 0 <= r < |src.objects| ==> src1.objects[r] == src.objects[r]
  }

  lemma TakeStep(
    src: Queue, dlq: Queue, drawn: map<nat, Record>, uncounted: set<nat>, list: seq<nat>, results: seq<MoveResult>)
    returns (src1: Queue, dlq1: Queue)
    requires SweepReady(src, dlq, drawn, uncounted, list) && |results| == |list|
    requires SweepMove(src, dlq, list, results).fates != []
    ensures Steps(src, dlq, drawn, uncounted, list, results, src1, dlq1)
  {
    var r := list[0];
    src1, dlq1 := SweepOne(src, r), DlqAfter(src, dlq, r, results[0]);
    StepMoves(src, dlq, drawn, uncounted, r, results[0]);
    SweepStepKeeps(src, dlq, drawn, uncounted, list, results[0]);
    if FateOf(src, dlq, r, results[0]).Moved? {
      DepositAdds(dlq, drawn, uncounted, src.objects[r].rec);
    }
  }

  /** Conservation: what leaves the source is what the fates say, what arrives in the dead-letter queue is what
      was moved, and both queues stay consistent. Only `Dropped` and `Lost` messages are in neither queue. */
  lemma {:induction false} SweepConserves(
    src: Queue, dlq: Queue, drawn: map<nat, Record>, uncounted: set<nat>, list: seq<nat>, results: seq<MoveResult>)
    requires SweepReady(src, dlq, drawn, uncounted, list) && |results| == |list|
    ensures var end := SweepMove(src, dlq, list, results);
      && StoreInv(end.src, map[], {}) && StoreInv(end.dlq, drawn, uncounted)
      && Holding(end.src) <= Holding(src) && Holding(dlq) <= Holding(end.dlq)
      && |Holding(end.src)| + RemovedCount(end.fates) == |Holding(src)|
      && |Holding(end.dlq)| == |Holding(dlq)| + MovedCount(end.fates)
    decreases |list|
  {
    if SweepMove(src, dlq, list, results).fates != [] {
      var src1, dlq1 := TakeStep(src, dlq, drawn, uncounted, list, results);
      SweepConserves(src1, dlq1, drawn, uncounted, list[1..], results[1..]);
      StepCounts(src, dlq, drawn, uncounted, list, results, src1, dlq1);
    }
  }

  lemma StepCounts(
    src: Queue, dlq: Queue, drawn: map<nat, Record>, uncounted: set<nat>, list: seq<nat>, results: seq<MoveResult>,
    src1: Queue, dlq1: Queue)
    requires InTable(src, list) && list != [] && |results| == |list|
    requires Steps(src, dlq, drawn, uncounted, list, results, src1, dlq1)
    ensures var fates := SweepMove(src, dlq, list, results).fates;
      var rest := SweepMove(src1, dlq1, list[1..], results[1..]).fates;
      && |Holding(src)| == |Holding(src1)| + RemovedCount(fates) - RemovedCount(rest)
      && |Holding(dlq1)| == |Holding(dlq)| + MovedCount(fates) - MovedCount(rest)
      && Holding(src1) <= Holding(src) && Holding(dlq) <= Holding(dlq1)
  {
  }

  /** The fate of each single message: a moved one is in the dead-letter queue with the same payload under a serial
      that queue did not hold, and no longer in the source; a dropped or lost one is in the source no more. */
  lemma {:induction false} EachMovedOnce(
    src: Queue, dlq: Queue, drawn: map<nat, Record>, uncounted: set<nat>, list: seq<nat>, results: seq<MoveResult>, i: nat)
    requires SweepReady(src, dlq, drawn, uncounted, list) && |results| == |list|
    requires i < |SweepMove(src, dlq, list, results).fates| <= |list|
    ensures var end, item := SweepMove(src, dlq, list, results), ItemOf(src.objects[list[i]].rec);
      && (end.fates[i] != Passed ==> item in Holding(src) && item !in Holding(end.src))
      && (end.fates[i].Moved? ==>
            end.fates[i].serial > dlq.lastSerial && Item(end.fates[i].serial, item.payload) in Holding(end.dlq))
    decreases |list|
  {
    var src1, dlq1 := TakeStep(src, dlq, drawn, uncounted, list, results);
    SweepConserves(src1, dlq1, drawn, uncounted, list[1..], results[1..]);
    if i > 0 {
      EachMovedOnce(src1, dlq1, drawn, uncounted, list[1..], results[1..], i - 1);
      assert list[1..][i - 1] == list[i];
    }
  }

  /** With the server running and the dead-letter queue there, nothing that is to be dead-lettered is lost: the two
      queues together lose exactly the messages taken away in state Drop. */
  lemma NothingLost(
    src: Queue, dlq: Queue, drawn: map<nat, Record>, uncounted: set<nat>, list: seq<nat>, results: seq<MoveResult>)
    requires SweepReady(src, dlq, drawn, uncounted, list) && |results| == |list| && src.cfg.dlq.Some?
    requires forall i :: 0 <= i < |results| ==> results[i] == Copied
    ensures var end := SweepMove(src, dlq, list, results);
      && |end.fates| == |list| && Lost !in end.fates
      && |Holding(end.dlq)| == |Holding(dlq)| + |TakenAway(src, list, |list|, DeadLetter)|
      && |Holding(end.src)| + |Holding(end.dlq)| + |TakenAway(src, list, |list|, Drop)| == |Holding(src)| + |Holding(dlq)|
  {
    var fates := SweepMove(src, dlq, list, results).fates;
    SweepConserves(src, dlq, drawn, uncounted, list, results);
    AllSettled(src, dlq, list, results);
    FatesAdd(fates);
    NoneLost(fates);
    FatesByState(src, dlq, list, results);
    AscendingPositions(src);
    CountsByState(src, list, fates);
  }

  lemma {:induction false} AllSettled(src: Queue, dlq: Queue, list: seq<nat>, results: seq<MoveResult>)
    requires InTable(src, list) && |results| == |list| && src.cfg.dlq.Some?
    requires forall i :: 0 <= i < |results| ==> results[i] == Copied
    ensures var fates := SweepMove(src, dlq, list, results).fates;
      |fates| == |list| && forall i :: 0 <= i < |fates| ==> fates[i] != Lost
    decreases |list|
  {
    if list != [] {
      AllSettled(SweepOne(src, list[0]), DlqAfter(src, dlq, list[0], results[0]), list[1..], results[1..]);
    }
  }

  lemma {:induction false} NoneLost(fates: seq<Fate>)
    requires forall i :: 0 <= i < |fates| ==> fates[i] != Lost
    ensures LostCount(fates) == 0
  {
    if fates != [] {
      NoneLost(fates[1..]);
    }
  }

  lemma {:induction false} FatesAdd(fates: seq<Fate>)
    ensures RemovedCount(fates) == MovedCount(fates) + DropCount(fates) + LostCount(fates)
  {
    if fates != [] {
      FatesAdd(fates[1..]);
    }
  }

  function LostCount(fates: seq<Fate>): nat {
    if fates == [] then 0 else (if fates[0] == Lost then 1 else 0) + LostCount(fates[1..])
  }

  function DropCount(fates: seq<Fate>): nat {
    if fates == [] then 0 else (if fates[0] == Dropped then 1 else 0) + DropCount(fates[1..])
  }

  /** A stopping server, or no dead-letter queue. */
  predicate Loses(round: Round) {
    !round.running || (!round.late && !round.found)
  }

  /** Exactly when a message to be dead-lettered ends up in neither queue: none is configured, the server was
      stopping, or the dead-letter queue was missing. In every case it has left the source. */
  lemma LostExactly(
    src: Queue, dlq: Queue, drawn: map<nat, Record>, uncounted: set<nat>, r: nat, initialized: bool, rounds: seq<Round>)
    requires r < |src.objects| && SweepReady(src, dlq, drawn, uncounted, [r])
    requires r in src.buffer && src.objects[r].state == DeadLetter
    requires MoveOutcome(initialized, rounds) != Threw && MoveOutcome(initialized, rounds) != Waiting
    ensures var dlq1 := DlqAfter(src, dlq, r, MoveOutcome(initialized, rounds));
      && ItemOf(src.objects[r].rec) in Holding(src) && ItemOf(src.objects[r].rec) !in Holding(SweepOne(src, r))
      && (Holding(dlq1) == Holding(dlq) <==>
            src.cfg.dlq.None? || exists i :: DecidedAt(rounds, i) && Loses(rounds[i]))
  {
    var result := MoveOutcome(initialized, rounds);
    StepMoves(src, dlq, drawn, uncounted, r, result);
    LosingRound(rounds);
    if FateOf(src, dlq, r, result).Moved? {
      CopyAdds(dlq, drawn, uncounted, src.objects[r].rec);
    }
  }

  lemma LosingRound(rounds: seq<Round>)
    ensures Decide(rounds) in {Stopped, Missing} <==> exists i :: DecidedAt(rounds, i) && Loses(rounds[i])
  {
    DecidedByFirst(rounds, Stopped);
    DecidedByFirst(rounds, Missing);
    if i :| DecidedAt(rounds, i) && Loses(rounds[i]) {
      assert Means(rounds[i], Stopped) || Means(rounds[i], Missing);
    }
  }

  /** A dead-letter queue has none of its own: its sweeps move nothing, so no message is moved twice. */
  lemma {:induction false} NeverMovedTwice(
    d: DeadLetterConfig, parent: string, src: Queue, dlq: Queue, list: seq<nat>, results: seq<MoveResult>)
    requires src.cfg == d.ToConfiguration(parent) && InTable(src, list) && |results| == |list|
    ensures SweepMove(src, dlq, list, results).dlq == dlq
    ensures MovedCount(SweepMove(src, dlq, list, results).fates) == 0
    decreases |list|
  {
    if list != [] {
      NeverMovedTwice(d, parent, SweepOne(src, list[0]), dlq, list[1..], results[1..]);
      var end := SweepMove(src, dlq, list, results);
      assert !FateOf(src, dlq, list[0], results[0]).Moved?;
      assert end.fates[1..] == SweepMove(SweepOne(src, list[0]), dlq, list[1..], results[1..]).fates;
    }
  }
}
