/** The client's side of buffered subscriptions: received messages collect per subscription and are handed to the
    subscriber in batches. */
module ClientBatching {
  import opened Messages

  datatype Received = Received(queueName: string, typeName: string, body: string)

  /** A subscription with a batch size is buffered; one without has every message delivered as it comes. */
  datatype Line = Line(id: Guid, queueName: string, batchSize: Option<int>, interval: Duration, lastFlushed: Time)

  /** Live subscriptions by queue name and buffers by subscription id; and, as the record a run is judged by, what
      was ever accepted into each buffer (and reported to the server as consumed), the batches ever handed over, and
      what a reset threw away. */
  datatype State = State(
    lines: map<string, Line>,
    buffers: map<Guid, seq<Received>>,
    accepted: map<Guid, seq<Received>>,
    delivered: map<Guid, seq<seq<Received>>>,
    lost: map<Guid, seq<Received>>)

  const EMPTY := State(map[], map[], map[], map[], map[])

  function At<T>(m: map<Guid, seq<T>>, id: Guid): seq<T> {
    if id in m then m[id] else []
  }

  function Joined(batches: seq<seq<Received>>): seq<Received> {
    if batches == [] then [] else batches[0] + Joined(batches[1..])
  }

  lemma {:induction false} JoinedAppend(xs: seq<seq<Received>>, ys: seq<seq<Received>>)
    ensures Joined(xs + ys) == Joined(xs) + Joined(ys)
  {
    if xs == [] {
      assert xs + ys == ys;
    } else {
      JoinedAppend(xs[1..], ys);
      assert (xs + ys)[1..] == xs[1..] + ys;
    }
  }

  // ---------- cutting one buffer ----------

  datatype Slices = Slices(batches: seq<seq<Received>>, rest: seq<Received>)

  /** Full batches always; a partial one only if `all` must go. */
  function Cut(buffered: seq<Received>, size: nat, all: bool): Slices
    requires size > 0
    decreases |buffered|
  {
    if |buffered| >= size || (buffered != [] && all) then
      var n := if |buffered| < size then |buffered| else size;
      var more := Cut(buffered[n..], size, all);
      Slices([buffered[..n]] + more.batches, more.rest)
    else Slices([], buffered)
  }

  /** Nothing is lost, added or reordered; every batch is full, except that when all must go the last one may be
      short, and then nothing stays behind; otherwise less than a batch stays. */
  ghost predicate CutRight(buffered: seq<Received>, size: nat, all: bool, cut: Slices) {
    && Joined(cut.batches) + cut.rest == buffered
    && (forall i :: 0 <= i < |cut.batches| ==> 0 < |cut.batches[i]| <= size)
    && (forall i :: 0 <= i < |cut.batches| && |cut.batches[i]| < size ==> all && i == |cut.batches| - 1)
    && (if all then cut.rest == [] else |cut.rest| < size)
  }

  lemma {:induction false} CutIsRight(buffered: seq<Received>, size: nat, all: bool)
    requires size > 0
    ensures CutRight(buffered, size, all, Cut(buffered, size, all))
    decreases |buffered|
  {
    if |buffered| >= size || (buffered != [] && all) {
      var n := if |buffered| < size then |buffered| else size;
      CutIsRight(buffered[n..], size, all);
      CutOneMore(buffered, n, size, all, Cut(buffered[n..], size, all));
    }
  }

  lemma CutOneMore(buffered: seq<Received>, n: nat, size: nat, all: bool, more: Slices)
    requires 0 < n <= size && n <= |buffered| && (n < size ==> all && n == |buffered|)
    requires CutRight(buffered[n..], size, all, more)
    ensures CutRight(buffered, size, all, Slices([buffered[..n]] + more.batches, more.rest))
  {
    var cut := Slices([buffered[..n]] + more.batches, more.rest);
    assert buffered == buffered[..n] + buffered[n..];
    assert cut.batches[1..] == more.batches;
    assert forall i :: 0 < i < |cut.batches| ==> cut.batches[i] == more.batches[i - 1];
    if n < size {
      EmptyCut(more.batches);
    }
  }

  lemma EmptyCut(batches: seq<seq<Received>>)
    requires forall i :: 0 <= i < |batches| ==> 0 < |batches[i]|
    ensures Joined(batches) == [] ==> batches == []
  {
    if batches != [] {
      assert |Joined(batches)| >= |batches[0]|;
    }
  }

  /** There is no other way to meet these rules. */
  lemma {:induction false} CutIsUnique(buffered: seq<Received>, size: nat, all: bool, cut: Slices)
    requires size > 0 && CutRight(buffered, size, all, cut)
    ensures cut == Cut(buffered, size, all)
    decreases |buffered|
  {
    if cut.batches != [] {
      var first, more := cut.batches[0], Slices(cut.batches[1..], cut.rest);
      FirstBatch(buffered, size, all, cut);
      LaterBatches(buffered, size, all, cut);
      CutIsUnique(buffered[|first|..], size, all, more);
      assert cut.batches == [first] + more.batches;
    }
  }

  lemma LaterBatches(buffered: seq<Received>, size: nat, all: bool, cut: Slices)
    requires CutRight(buffered, size, all, cut) && cut.batches != [] && |cut.batches[0]| <= |buffered|
    requires Joined(cut.batches[1..]) + cut.rest == buffered[|cut.batches[0]|..]
    ensures CutRight(buffered[|cut.batches[0]|..], size, all, Slices(cut.batches[1..], cut.rest))
  {
    assert forall i :: 0 <= i < |cut.batches[1..]| ==> cut.batches[1..][i] == cut.batches[i + 1];
  }

  lemma FirstBatch(buffered: seq<Received>, size: nat, all: bool, cut: Slices)
    requires CutRight(buffered, size, all, cut) && cut.batches != []
    ensures var first := cut.batches[0];
      && |first| <= |buffered| && buffered[..|first|] == first
      && Joined(cut.batches[1..]) + cut.rest == buffered[|first|..]
      && (|first| == size || (all && |first| == |buffered| < size))
  {
    var first, tail := cut.batches[0], Joined(cut.batches[1..]) + cut.rest;
    assert buffered == first + tail;
    if |first| < size {
      assert cut.batches[1..] == [];
    }
  }

  // ---------- flushing ----------

  function BatchLimit(batchSize: int): nat {
    if batchSize > 1 then batchSize else 1
  }

  predicate IntervalElapsed(line: Line, now: Time) {
    line.interval != 0 && now - line.lastFlushed >= line.interval
  }

  predicate Flushable(st: State, name: string) {
    name in st.lines && st.lines[name].batchSize.Some? && st.lines[name].id in st.buffers
  }

  function FlushCut(st: State, name: string, force: bool, now: Time): Slices
    requires Flushable(st, name)
  {
    var line := st.lines[name];
    Cut(st.buffers[line.id], BatchLimit(line.batchSize.value), force || IntervalElapsed(line, now))
  }

  function HandedOver(delivered: map<Guid, seq<seq<Received>>>, id: Guid, batches: seq<seq<Received>>)
    : map<Guid, seq<seq<Received>>>
  {
    if batches == [] then delivered else delivered[id := At(delivered, id) + batches]
  }

  /** The subscription after its turn. */
  function Touched(st: State, name: string, cut: Slices, now: Time): Line
    requires Flushable(st, name)
  {
    var line := st.lines[name];
    line.(lastFlushed := if st.buffers[line.id] == [] || cut.batches != [] then now else line.lastFlushed)
  }

  /** One live subscription's turn in a flush. */
  function FlushLine(st: State, name: string, force: bool, now: Time): State {
    if !Flushable(st, name) then st
    else
      var line := st.lines[name];
      var cut := FlushCut(st, name, force, now);
      st.(lines := st.lines[name := Touched(st, name, cut, now)],
          buffers := st.buffers[line.id := cut.rest],
          delivered := HandedOver(st.delivered, line.id, cut.batches))
  }

  /** `names` is the order in which the subscriptions are enumerated; each reads the clock when its turn comes. */
  function FlushLines(st: State, names: seq<string>, force: bool, clock: string -> Time): State
    decreases |names|
  {
    if names == [] then st
    else FlushLines(FlushLine(st, names[0], force, clock(names[0])), names[1..], force, clock)
  }

  ghost predicate Enumerates(names: seq<string>, lines: map<string, Line>) {
    (forall n :: n in names <==> n in lines) && forall i, j :: 0 <= i < j < |names| ==> names[i] != names[j]
  }

  // ---------- a run of the client ----------

  datatype Event =
    | Register(line: Line)
    | Discard(name: string, id: Guid)
    | Unsubscribe(name: string)
    | Append(id: Guid, message: Received)
    | Flush(names: seq<string>, force: bool, clock: string -> Time)
    | Reset

  ghost predicate Possible(st: State, e: Event) {
    match e
    case Register(line) => line.queueName !in st.lines
    case Flush(names, _, _) => Enumerates(names, st.lines)
    case _ => true
  }

  /** Looking up the subscription of a received message and appending the message to its buffer are two separate
      critical sections, so an append can also come for a subscription that has just gone. */
  function After(st: State, e: Event): State {
    match e
    case Register(line) => st.(lines := st.lines[line.queueName := line])
    case Discard(name, id) =>
      if name in st.lines && st.lines[name].id == id then st.(lines := st.lines - {name}) else st
    case Unsubscribe(name) => st.(lines := st.lines - {name})
    case Append(id, message) =>
      st.(buffers := st.buffers[id := At(st.buffers, id) + [message]],
          accepted := st.accepted[id := At(st.accepted, id) + [message]])
    case Flush(names, force, clock) => FlushLines(st, names, force, clock)
    case Reset => State(map[], map[], st.accepted, st.delivered, ThrownAway(st.lost, st.buffers))
  }

  function ThrownAway(lost: map<Guid, seq<Received>>, buffers: map<Guid, seq<Received>>): map<Guid, seq<Received>> {
    map id | id in lost.Keys + buffers.Keys :: At(lost, id) + At(buffers, id)
  }

  ghost predicate Happens(st: State, events: seq<Event>)
    decreases |events|
  {
    events == [] || (Possible(st, events[0]) && Happens(After(st, events[0]), events[1..]))
  }

  function Outcome(st: State, events: seq<Event>): State
    decreases |events|
  {
    if events == [] then st else Outcome(After(st, events[0]), events[1..])
  }

  /** What was handed over followed by what is still buffered is what was accepted, in order, per subscription. */
  ghost predicate Conserved(st: State) {
    forall id: Guid :: Joined(At(st.delivered, id)) + At(st.buffers, id) == At(st.accepted, id)
  }

  lemma LineConserves(st: State, name: string, force: bool, now: Time)
    requires Conserved(st)
    ensures Conserved(FlushLine(st, name, force, now))
  {
    if Flushable(st, name) {
      var line, st1 := st.lines[name], FlushLine(st, name, force, now);
      forall id: Guid ensures Joined(At(st1.delivered, id)) + At(st1.buffers, id) == At(st1.accepted, id) {
        assert Joined(At(st.delivered, id)) + At(st.buffers, id) == At(st.accepted, id);
        if id == line.id {
          CutConserves(At(st.delivered, id), st.buffers[id], BatchLimit(line.batchSize.value),
                       force || IntervalElapsed(line, now));
        }
      }
    }
  }

  lemma CutConserves(before: seq<seq<Received>>, buffered: seq<Received>, size: nat, all: bool)
    requires size > 0
    ensures var cut := Cut(buffered, size, all);
      Joined(before + cut.batches) + cut.rest == Joined(before) + buffered
    ensures before + [] == before
  {
    var cut := Cut(buffered, size, all);
    CutIsRight(buffered, size, all);
    JoinedAppend(before, cut.batches);
    assert Joined(before) + Joined(cut.batches) + cut.rest == Joined(before) + (Joined(cut.batches) + cut.rest);
  }

  lemma {:induction false} LinesConserve(st: State, names: seq<string>, force: bool, clock: string -> Time)
    requires Conserved(st)
    ensures Conserved(FlushLines(st, names, force, clock))
    decreases |names|
  {
    if names != [] {
      LineConserves(st, names[0], force, clock(names[0]));
      LinesConserve(FlushLine(st, names[0], force, clock(names[0])), names[1..], force, clock);
    }
  }

  lemma AppendConserves(st: State, id: Guid, message: Received)
    requires Conserved(st)
    ensures Conserved(After(st, Append(id, message)))
  {
    var st1 := After(st, Append(id, message));
    forall i: Guid ensures Joined(At(st1.delivered, i)) + At(st1.buffers, i) == At(st1.accepted, i) {
      assert Joined(At(st.delivered, i)) + At(st.buffers, i) == At(st.accepted, i);
      if i == id {
        assert Joined(At(st.delivered, i)) + (At(st.buffers, i) + [message])
            == (Joined(At(st.delivered, i)) + At(st.buffers, i)) + [message];
      }
    }
  }

  /** A reset, which connecting again makes, keeps this exactly if every buffer is empty when it happens: what is
      buffered has been reported as consumed and is thrown away. */
  lemma ResetExact(st: State)
    requires Conserved(st)
    ensures Conserved(After(st, Reset)) <==> forall id: Guid :: At(st.buffers, id) == []
  {
    var st1 := After(st, Reset);
    forall id: Guid ensures Joined(At(st1.delivered, id)) + At(st1.buffers, id) == At(st1.accepted, id) <==> At(st.buffers, id) == []
    {
      assert Joined(At(st.delivered, id)) + At(st.buffers, id) == At(st.accepted, id);
      assert At(st1.buffers, id) == [];
      if At(st.buffers, id) != [] {
        assert |Joined(At(st1.delivered, id)) + At(st1.buffers, id)| < |At(st1.accepted, id)|;
      }
    }
  }

  /** Nothing accepted goes unaccounted for: it was handed over, is still buffered, or was thrown away by a reset. */
  ghost predicate Accounted(st: State) {
    forall id: Guid :: AccountedFor(st, id)
  }

  ghost predicate AccountedFor(st: State, id: Guid) {
    Balances(Joined(At(st.delivered, id)), At(st.buffers, id), At(st.lost, id), At(st.accepted, id))
  }

  ghost predicate Balances(handed: seq<Received>, buffered: seq<Received>, lost: seq<Received>, accepted: seq<Received>) {
    multiset(handed) + multiset(buffered) + multiset(lost) == multiset(accepted)
  }

  lemma BalancesMoved(
    handed: seq<Received>, buffered: seq<Received>, lost: seq<Received>, accepted: seq<Received>,
    handed1: seq<Received>, buffered1: seq<Received>)
    requires Balances(handed, buffered, lost, accepted) && handed1 + buffered1 == handed + buffered
    ensures Balances(handed1, buffered1, lost, accepted)
  {
    assert multiset(handed1 + buffered1) == multiset(handed + buffered);
  }

  lemma LineAccounts(st: State, name: string, force: bool, now: Time)
    requires Accounted(st)
    ensures Accounted(FlushLine(st, name, force, now))
  {
    if Flushable(st, name) {
      var line, st1 := st.lines[name], FlushLine(st, name, force, now);
      forall id: Guid ensures AccountedFor(st1, id) {
        assert AccountedFor(st, id);
        if id == line.id {
          var cut := FlushCut(st, name, force, now);
          CutConserves(At(st.delivered, id), st.buffers[id], BatchLimit(line.batchSize.value),
                       force || IntervalElapsed(line, now));
          BalancesMoved(Joined(At(st.delivered, id)), At(st.buffers, id), At(st.lost, id), At(st.accepted, id),
                        Joined(At(st.delivered, id) + cut.batches), cut.rest);
        }
      }
    }
  }

  lemma {:induction false} LinesAccount(st: State, names: seq<string>, force: bool, clock: string -> Time)
    requires Accounted(st)
    ensures Accounted(FlushLines(st, names, force, clock))
    decreases |names|
  {
    if names != [] {
      LineAccounts(st, names[0], force, clock(names[0]));
      LinesAccount(FlushLine(st, names[0], force, clock(names[0])), names[1..], force, clock);
    }
  }

  lemma BalancesOneMore(
    handed: seq<Received>, buffered: seq<Received>, lost: seq<Received>, accepted: seq<Received>, message: Received)
    requires Balances(handed, buffered, lost, accepted)
    ensures Balances(handed, buffered + [message], lost, accepted + [message])
  {
  }

  lemma AppendedAt(st: State, id: Guid, message: Received, i: Guid)
    ensures var st1, more := After(st, Append(id, message)), if i == id then [message] else [];
      && At(st1.buffers, i) == At(st.buffers, i) + more && At(st1.accepted, i) == At(st.accepted, i) + more
      && At(st1.delivered, i) == At(st.delivered, i) && At(st1.lost, i) == At(st.lost, i)
  {
  }

  lemma AppendAccounts(st: State, id: Guid, message: Received)
    requires Accounted(st)
    ensures Accounted(After(st, Append(id, message)))
  {
    forall i: Guid ensures AccountedFor(After(st, Append(id, message)), i) {
      assert AccountedFor(st, i);
      AppendedAt(st, id, message, i);
      if i == id {
        BalancesOneMore(Joined(At(st.delivered, i)), At(st.buffers, i), At(st.lost, i), At(st.accepted, i), message);
      } else {
        assert At(st.buffers, i) + [] == At(st.buffers, i) && At(st.accepted, i) + [] == At(st.accepted, i);
      }
    }
  }

  lemma BalancesThrownAway(handed: seq<Received>, buffered: seq<Received>, lost: seq<Received>, accepted: seq<Received>)
    requires Balances(handed, buffered, lost, accepted)
    ensures Balances(handed, [], lost + buffered, accepted)
  {
  }

  lemma ResetAccounts(st: State)
    requires Accounted(st)
    ensures Accounted(After(st, Reset))
  {
    var st1 := After(st, Reset);
    forall id: Guid ensures AccountedFor(st1, id) {
      assert AccountedFor(st, id);
      BalancesThrownAway(Joined(At(st.delivered, id)), At(st.buffers, id), At(st.lost, id), At(st.accepted, id));
      assert At(st1.lost, id) == At(st.lost, id) + At(st.buffers, id);
    }
  }

  lemma EventAccounts(st: State, e: Event)
    requires Accounted(st)
    ensures Accounted(After(st, e))
  {
    match e {
      case Flush(names, force, clock) => LinesAccount(st, names, force, clock);
      case Append(id, message) => AppendAccounts(st, id, message);
      case Reset => ResetAccounts(st);
      case _ =>
        assert forall id: Guid :: AccountedFor(st, id) ==> AccountedFor(After(st, e), id);
    }
  }

  /** Over any run of registrations, receipts, flushes, unsubscriptions and resets. */
  lemma {:induction false} BatchingAccounts(st: State, events: seq<Event>)
    requires Accounted(st)
    ensures Accounted(Outcome(st, events))
    decreases |events|
  {
    if events != [] {
      EventAccounts(st, events[0]);
      BatchingAccounts(After(st, events[0]), events[1..]);
    }
  }

  ghost predicate NothingLost(st: State) {
    forall id: Guid :: At(st.lost, id) == []
  }

  lemma {:induction false} FlushLosesNothing(st: State, names: seq<string>, force: bool, clock: string -> Time)
    ensures FlushLines(st, names, force, clock).lost == st.lost
    decreases |names|
  {
    if names != [] {
      FlushLosesNothing(FlushLine(st, names[0], force, clock(names[0])), names[1..], force, clock);
    }
  }

  lemma {:induction false} LostStaysLost(st: State, events: seq<Event>)
    ensures NothingLost(Outcome(st, events)) ==> NothingLost(st)
    decreases |events|
  {
    if events != [] {
      var e, st1 := events[0], After(st, events[0]);
      LostStaysLost(st1, events[1..]);
      if e.Flush? {
        FlushLosesNothing(st, e.names, e.force, e.clock);
      } else if e.Reset? && NothingLost(st1) {
        forall id: Guid ensures At(st.lost, id) == [] {
          assert At(st1.lost, id) == At(st.lost, id) + At(st.buffers, id);
        }
      }
    }
  }

  lemma EventConserves(st: State, e: Event)
    requires Conserved(st) && NothingLost(After(st, e))
    ensures Conserved(After(st, e))
  {
    match e {
      case Flush(names, force, clock) => LinesConserve(st, names, force, clock);
      case Append(id, message) => AppendConserves(st, id, message);
      case Reset =>
        forall id: Guid ensures At(st.buffers, id) == [] {
          assert At(After(st, e).lost, id) == At(st.lost, id) + At(st.buffers, id);
        }
        ResetExact(st);
      case _ =>
    }
  }

  lemma {:induction false} ConservedUnlessLost(st: State, events: seq<Event>)
    requires Conserved(st) && NothingLost(Outcome(st, events))
    ensures Conserved(Outcome(st, events))
    decreases |events|
  {
    if events != [] {
      LostStaysLost(After(st, events[0]), events[1..]);
      EventConserves(st, events[0]);
      ConservedUnlessLost(After(st, events[0]), events[1..]);
    }
  }

  /** Over any run from the start, the batches handed over followed by what is buffered are what was accepted, per
      subscription and in order, exactly if no reset has thrown anything away. */
  lemma BatchingConserves(events: seq<Event>)
    requires Happens(EMPTY, events)
    ensures Conserved(Outcome(EMPTY, events)) <==> NothingLost(Outcome(EMPTY, events))
  {
    var end := Outcome(EMPTY, events);
    if NothingLost(end) {
      assert Conserved(EMPTY);
      ConservedUnlessLost(EMPTY, events);
    }
    assert Accounted(EMPTY);
    BatchingAccounts(EMPTY, events);
    if Conserved(end) {
      forall id: Guid ensures At(end.lost, id) == [] {
        assert AccountedFor(end, id);
        assert |multiset(Joined(At(end.delivered, id)) + At(end.buffers, id))| == |multiset(At(end.accepted, id))|;
      }
    }
  }

  // ---------- what one flush leaves ----------

  ghost predicate Flushed(st: State, name: string, force: bool) {
    Flushable(st, name) ==>
      if force then st.buffers[st.lines[name].id] == []
      else |st.buffers[st.lines[name].id]| < (if st.lines[name].batchSize.value <= 0 then 1 else st.lines[name].batchSize.value)
  }

  /** The line of a name keeps its id, batch size and interval through a flush. */
  ghost predicate SameLines(st: State, st1: State) {
    && st1.lines.Keys == st.lines.Keys && st1.accepted == st.accepted && st1.buffers.Keys == st.buffers.Keys
    && forall n :: n in st.lines ==> st1.lines[n] == st.lines[n].(lastFlushed := st1.lines[n].lastFlushed)
  }

  lemma LineFlushed(st: State, name: string, force: bool, now: Time)
    ensures var st1 := FlushLine(st, name, force, now);
      && Flushed(st1, name, force) && SameLines(st, st1)
      && forall id :: id in st.buffers ==> |st1.buffers[id]| <= |st.buffers[id]|
  {
    if Flushable(st, name) {
      var line, cut := st.lines[name], FlushCut(st, name, force, now);
      CutIsRight(st.buffers[line.id], BatchLimit(line.batchSize.value), force || IntervalElapsed(line, now));
      assert |cut.rest| <= |st.buffers[line.id]|;
    }
  }

  lemma {:induction false} LinesFlushed(st: State, names: seq<string>, force: bool, clock: string -> Time)
    ensures var st1 := FlushLines(st, names, force, clock);
      && SameLines(st, st1)
      && (forall i :: 0 <= i < |names| ==> Flushed(st1, names[i], force))
      && (forall id :: id in st.buffers ==> |st1.buffers[id]| <= |st.buffers[id]|)
    decreases |names|
  {
    if names != [] {
      var st0, st1 := FlushLine(st, names[0], force, clock(names[0])), FlushLines(st, names, force, clock);
      LineFlushed(st, names[0], force, clock(names[0]));
      LinesFlushed(st0, names[1..], force, clock);
      assert forall i :: 1 <= i < |names| ==> names[i] == names[1..][i - 1];
      StaysFlushed(st0, st1, names[0], force);
    }
  }

  lemma StaysFlushed(st: State, st1: State, name: string, force: bool)
    requires Flushed(st, name, force) && SameLines(st, st1)
    requires forall id :: id in st.buffers ==> |st1.buffers[id]| <= |st.buffers[id]|
    ensures Flushed(st1, name, force)
  {
  }

  /** After a forced flush every live subscription's buffer is empty; after any flush less than one batch is left.
      A buffer whose subscription is gone is not touched: those messages are stranded. */
  lemma FlushLeaves(st: State, names: seq<string>, force: bool, clock: string -> Time, id: Guid)
    requires Enumerates(names, st.lines)
    ensures var st1 := FlushLines(st, names, force, clock);
      && (forall n :: n in st.lines ==> Flushed(st1, n, force))
      && ((forall n :: n in st.lines ==> st.lines[n].id != id || st.lines[n].batchSize.None?) ==>
            At(st1.buffers, id) == At(st.buffers, id) && At(st1.delivered, id) == At(st.delivered, id))
  {
    LinesFlushed(st, names, force, clock);
    forall n | n in st.lines ensures Flushed(FlushLines(st, names, force, clock), n, force) {
      assert n in names;
    }
    if forall n :: n in st.lines ==> st.lines[n].id != id || st.lines[n].batchSize.None? {
      Stranded(st, names, force, clock, id);
    }
  }

  lemma {:induction false} Stranded(st: State, names: seq<string>, force: bool, clock: string -> Time, id: Guid)
    requires forall n :: n in st.lines ==> st.lines[n].id != id || st.lines[n].batchSize.None?
    ensures var st1 := FlushLines(st, names, force, clock);
      At(st1.buffers, id) == At(st.buffers, id) && At(st1.delivered, id) == At(st.delivered, id)
    decreases |names|
  {
    if names != [] {
      Stranded(FlushLine(st, names[0], force, clock(names[0])), names[1..], force, clock, id);
    }
  }

  /** With ids unique among the live subscriptions, one flush cuts each buffer exactly once, as `Cut` says: full
      batches, and a short last one only when forced or when the interval had elapsed. */
  ghost predicate DistinctIds(lines: map<string, Line>) {
    forall m, n :: m in lines && n in lines && m != n ==> lines[m].id != lines[n].id
  }

  lemma FlushCutsOnce(st: State, names: seq<string>, force: bool, clock: string -> Time, name: string)
    requires DistinctIds(st.lines) && Flushable(st, name) && Enumerates(names, st.lines)
    ensures var st1, line, now := FlushLines(st, names, force, clock), st.lines[name], clock(name);
      var size := if line.batchSize.value <= 0 then 1 else line.batchSize.value;
      var elapsed := line.interval != 0 && now - line.lastFlushed >= line.interval;
      var cut := Cut(st.buffers[line.id], size, force || elapsed);
      && At(st1.buffers, line.id) == cut.rest && At(st1.delivered, line.id) == At(st.delivered, line.id) + cut.batches
      && CutRight(st.buffers[line.id], size, force || elapsed, cut)
  {
    var line := st.lines[name];
    CutIsRight(st.buffers[line.id], BatchLimit(line.batchSize.value), force || IntervalElapsed(line, clock(name)));
    TurnComes(st, names, force, clock, name);
  }

  /** What one flush does for a live subscription, without the cut: the batches it hands over are what leaves the
      buffer, in order; each has exactly the batch size (at least one), except that a last one may be short, and that
      only if forced or if the interval, which must not be zero, has passed since the last flush; then the buffer is
      empty afterwards, and otherwise less than a batch stays. The flush counts as one exactly if there was nothing
      to flush or something was handed over. */
  lemma FlushHandsOver(st: State, names: seq<string>, force: bool, clock: string -> Time, name: string)
    requires DistinctIds(st.lines) && Enumerates(names, st.lines)
    requires name in st.lines && st.lines[name].batchSize.Some? && st.lines[name].id in st.buffers
    ensures var st1, line, now := FlushLines(st, names, force, clock), st.lines[name], clock(name);
      && name in st1.lines && At(st.delivered, line.id) <= At(st1.delivered, line.id)
      && var batches, rest := At(st1.delivered, line.id)[|At(st.delivered, line.id)|..], At(st1.buffers, line.id);
      var size := if line.batchSize.value <= 0 then 1 else line.batchSize.value;
      var all := force || (line.interval != 0 && now - line.lastFlushed >= line.interval);
      && Joined(batches) + rest == st.buffers[line.id]
      && (forall i :: 0 <= i < |batches| ==>
            |batches[i]| == size || (all && i == |batches| - 1 && 0 < |batches[i]| < size))
      && (if all then rest == [] else |rest| < size)
      && st1.lines[name].lastFlushed == if st.buffers[line.id] == [] || batches != [] then now else line.lastFlushed
  {
    var st1, line := FlushLines(st, names, force, clock), st.lines[name];
    FlushCutsOnce(st, names, force, clock, name);
    TurnComes(st, names, force, clock, name);
    var cut := FlushCut(st, name, force, clock(name));
    assert At(st1.delivered, line.id)[|At(st.delivered, line.id)|..] == cut.batches;
  }

  lemma {:induction false} TurnComes(st: State, names: seq<string>, force: bool, clock: string -> Time, name: string)
    requires DistinctIds(st.lines) && Flushable(st, name)
    requires name in names && forall i, j :: 0 <= i < j < |names| ==> names[i] != names[j]
    ensures var st1, id := FlushLines(st, names, force, clock), st.lines[name].id;
      var cut := FlushCut(st, name, force, clock(name));
      && At(st1.buffers, id) == cut.rest && At(st1.delivered, id) == At(st.delivered, id) + cut.batches
      && name in st1.lines && st1.lines[name] == Touched(st, name, cut, clock(name))
    decreases |names|
  {
    var first, rest := names[0], names[1..];
    assert names == [first] + rest;
    LineTakesTurn(st, first, force, clock(first), name);
    if first == name {
      assert name !in rest;
      LeavesOthers(FlushLine(st, first, force, clock(first)), rest, force, clock, name);
    } else {
      TurnComes(FlushLine(st, first, force, clock(first)), rest, force, clock, name);
    }
  }

  /** A turn changes one buffer and keeps every other subscription as it was. */
  lemma LineTakesTurn(st: State, first: string, force: bool, now: Time, name: string)
    requires DistinctIds(st.lines) && Flushable(st, name)
    ensures var st0, id := FlushLine(st, first, force, now), st.lines[name].id;
      && DistinctIds(st0.lines) && Flushable(st0, name) && st0.lines[name].id == id
      && (first != name ==> st0.lines[name] == st.lines[name] && st0.buffers[id] == st.buffers[id]
                            && At(st0.delivered, id) == At(st.delivered, id))
      && (first == name ==> var cut := FlushCut(st, name, force, now);
            && st0.buffers[id] == cut.rest && At(st0.delivered, id) == At(st.delivered, id) + cut.batches
            && st0.lines[name] == Touched(st, name, cut, now))
  {
  }

  lemma {:induction false} LeavesOthers(st: State, names: seq<string>, force: bool, clock: string -> Time, name: string)
    requires DistinctIds(st.lines) && name in st.lines && name !in names
    ensures var st1, id := FlushLines(st, names, force, clock), st.lines[name].id;
      && At(st1.buffers, id) == At(st.buffers, id) && At(st1.delivered, id) == At(st.delivered, id)
      && name in st1.lines && st1.lines[name] == st.lines[name]
    decreases |names|
  {
    if names != [] {
      assert names[0] in names;
      var st0 := FlushLine(st, names[0], force, clock(names[0]));
      assert forall n :: n in names[1..] ==> n in names;
      LeavesOthers(st0, names[1..], force, clock, name);
    }
  }

  // ---------- the objects ----------

  class Subscription {
    const id: Guid
    const queueName: string
    const batchSize: Option<int>
    var autoFlushInterval: Duration
    var lastBufferFlushed: Time

    constructor (id: Guid, queueName: string, batchSize: Option<int>, interval: Duration, now: Time)
      ensures Value() == Line(id, queueName, batchSize, interval, now)
    {
      this.id, this.queueName, this.batchSize := id, queueName, batchSize;
      autoFlushInterval, lastBufferFlushed := interval, now;
    }

    function Value(): Line
      reads this
    {
      Line(id, queueName, batchSize, autoFlushInterval, lastBufferFlushed)
    }
  }

  /** Which of the two locks one attempt to flush obtains. */
  datatype Attempt = Attempt(buffers: bool, subscriptions: bool)

  predicate Succeeds(attempt: Attempt, empty: bool) {
    attempt.buffers && (empty || attempt.subscriptions)
  }

  class Client {
    var subscriptions: map<string, Subscription>
    var messageBuffer: map<Guid, seq<Received>>
    ghost var accepted: map<Guid, seq<Received>>
    ghost var delivered: map<Guid, seq<seq<Received>>>
    ghost var lost: map<Guid, seq<Received>>

    ghost predicate Valid()
      reads this, subscriptions.Values
    {
      forall n :: n in subscriptions ==> subscriptions[n].queueName == n
    }

    ghost function Snapshot(): State
      reads this, subscriptions.Values
    {
      State(map n | n in subscriptions :: subscriptions[n].Value(), messageBuffer, accepted, delivered, lost)
    }

    constructor ()
      ensures Valid() && Snapshot() == EMPTY
    {
      subscriptions, messageBuffer, accepted, delivered, lost := map[], map[], map[], map[], map[];
    }

    /** Throws if the queue is already subscribed to. */
    method RegisterSubscription(subscription: Subscription) returns (ok: bool)
      requires Valid() && subscription !in subscriptions.Values
      modifies this
      ensures Valid() && ok == (subscription.queueName !in old(subscriptions))
      ensures Snapshot() == if ok then After(old(Snapshot()), Register(old(subscription.Value()))) else old(Snapshot())
      ensures subscriptions == if ok then old(subscriptions)[subscription.queueName := subscription] else old(subscriptions)
    {
      ok := subscription.queueName !in subscriptions;
      if ok {
        subscriptions := subscriptions[subscription.queueName := subscription];
      }
    }

    method DiscardSubscription(subscription: Subscription)
      requires Valid()
      modifies this
      ensures Valid() && Snapshot() == After(old(Snapshot()), Discard(subscription.queueName, subscription.id))
      ensures subscriptions == if exists n :: n in old(subscriptions) && n == subscription.queueName
                                              && old(subscriptions)[n].id == subscription.id
                               then old(subscriptions) - {subscription.queueName} else old(subscriptions)
    {
      if subscription.queueName in subscriptions && subscriptions[subscription.queueName].id == subscription.id {
        subscriptions := subscriptions - {subscription.queueName};
      }
    }

    /** Throws if there is no such subscription; `agreed` is the server's answer. */
    method UnsubscribeFrom(queueName: string, agreed: bool) returns (ok: bool)
      requires Valid()
      modifies this
      ensures Valid() && ok == (queueName in old(subscriptions) && agreed)
      ensures Snapshot() == if ok then After(old(Snapshot()), Unsubscribe(queueName)) else old(Snapshot())
      ensures subscriptions == if ok then old(subscriptions) - {queueName} else old(subscriptions)
    {
      ok := queueName in subscriptions && agreed;
      if ok {
        subscriptions := subscriptions - {queueName};
      }
    }

    /** A message arrives: buffered and at once reported as consumed, or passed to the delivery event, whose answer
        (`handled`) goes back to the server; with no subscription the answer is that nobody is interested. */
    method InvokeOnReceived(message: Received, handled: Reply) returns (reply: Reply)
      requires Valid()
      modifies this
      ensures Valid()
      ensures var lines := old(Snapshot()).lines;
        if message.queueName !in lines then reply == NotInterested && Snapshot() == old(Snapshot())
        else if lines[message.queueName].batchSize.None? then reply == handled && Snapshot() == old(Snapshot())
        else reply == Consumed && Snapshot() == After(old(Snapshot()), Append(lines[message.queueName].id, message))
    {
      if message.queueName in subscriptions {
        var subscription := subscriptions[message.queueName];
        if subscription.batchSize.Some? {
          var id := subscription.id;
          if id in messageBuffer {
            messageBuffer := messageBuffer[id := messageBuffer[id] + [message]];
          } else {
            messageBuffer := messageBuffer[id := [message]];
          }
          accepted := accepted[id := At(accepted, id) + [message]];
          assert [] + [message] == [message];
          assert Snapshot().lines == old(Snapshot()).lines;
          return Consumed;
        }
        return handled;
      }
      return NotInterested;
    }

    /** One subscription's turn in a flush: batches are cut off the front of its buffer in place. */
    method FlushOne(queueName: string, force: bool, now: Time)
      requires Valid() && queueName in subscriptions
      modifies this, subscriptions.Values
      ensures Valid() && subscriptions == old(subscriptions)
      ensures Snapshot() == FlushLine(old(Snapshot()), queueName, force, now)
    {
      var subscription := subscriptions[queueName];
      var id := subscription.id;
      if subscription.batchSize.None? || id !in messageBuffer {
        return;
      }
      if messageBuffer[id] == [] {
        subscription.lastBufferFlushed := now;
        return;
      }
      var batchSize := BatchLimit(subscription.batchSize.value);
      var intervalElapsed := subscription.autoFlushInterval != 0
                             && now - subscription.lastBufferFlushed >= subscription.autoFlushInterval;
      CutBatches(subscription, batchSize, force || intervalElapsed, now);
    }

    /** The inner loop; whether the interval had elapsed was decided before it. */
    method CutBatches(subscription: Subscription, batchSize: nat, all: bool, now: Time)
      requires batchSize > 0 && subscription.id in messageBuffer
      modifies this`messageBuffer, this`delivered, subscription`lastBufferFlushed
      ensures var id := subscription.id;
        var cut := Cut(old(messageBuffer)[id], batchSize, all);
        && messageBuffer == old(messageBuffer)[id := cut.rest]
        && delivered == HandedOver(old(delivered), id, cut.batches)
        && subscription.lastBufferFlushed == if cut.batches == [] then old(subscription.lastBufferFlushed) else now
    {
      var id := subscription.id;
      ghost var batches := [];
      while |messageBuffer[id]| >= batchSize || (|messageBuffer[id]| > 0 && all)
        invariant id in messageBuffer && messageBuffer == old(messageBuffer)[id := messageBuffer[id]]
        invariant delivered == HandedOver(old(delivered), id, batches)
        invariant subscription.lastBufferFlushed == if batches == [] then old(subscription.lastBufferFlushed) else now
        invariant var more := Cut(messageBuffer[id], batchSize, all);
          Cut(old(messageBuffer)[id], batchSize, all) == Slices(batches + more.batches, more.rest)
        decreases |messageBuffer[id]|
      {
        var buffered := messageBuffer[id];
        var n := if |buffered| < batchSize then |buffered| else batchSize;
        ghost var batch := buffered[..n];
        messageBuffer := messageBuffer[id := buffered[n..]];
        subscription.lastBufferFlushed := now;
        delivered := delivered[id := At(delivered, id) + [batch]];
        ghost var more := Cut(buffered[n..], batchSize, all);
        assert (batches + [batch]) + more.batches == batches + ([batch] + more.batches);
        HandOverOneMore(old(delivered), id, batches, batch);
        batches := batches + [batch];
      }
      assert batches + [] == batches;
    }

    /** One flush, once both locks are held; `names` is the order in which the dictionary is enumerated. */
    method FlushAll(names: seq<string>, force: bool, clock: string -> Time)
      requires Valid() && Enumerates(names, Snapshot().lines)
      modifies this, subscriptions.Values
      ensures Valid() && Snapshot() == After(old(Snapshot()), Flush(names, force, clock))
    {
      if messageBuffer == map[] {
        NothingToFlush(Snapshot(), names, force, clock);
        return;
      }
      var i := 0;
      while i < |names|
        invariant 0 <= i <= |names| && Valid() && subscriptions == old(subscriptions)
        invariant FlushLines(Snapshot(), names[i..], force, clock) == FlushLines(old(Snapshot()), names, force, clock)
      {
        assert names[i] in names;
        FlushOne(names[i], force, clock(names[i]));
        i := i + 1;
      }
    }

    /** Tries for both locks once, or while forced until it has them; the second one is not needed if there is no
        buffer at all. */
    method FlushBufferedMessages(names: seq<string>, force: bool, clock: string -> Time, attempts: seq<Attempt>)
      returns (flushed: bool)
      requires Valid() && Enumerates(names, Snapshot().lines)
      modifies this, subscriptions.Values
      ensures Valid()
      ensures flushed <==> exists i :: 0 <= i < |attempts| && (force || i == 0) && attempts[i].buffers
                                       && (old(messageBuffer) == map[] || attempts[i].subscriptions)
      ensures Snapshot() == if flushed then After(old(Snapshot()), Flush(names, force, clock)) else old(Snapshot())
    {
      var i := 0;
      while i < |attempts| && (force || i == 0)
        invariant 0 <= i <= |attempts| && (force || i <= 1)
        invariant Valid() && Snapshot() == old(Snapshot()) && subscriptions == old(subscriptions)
        invariant forall j :: 0 <= j < i ==> !Succeeds(attempts[j], messageBuffer == map[])
      {
        if Succeeds(attempts[i], messageBuffer == map[]) {
          FlushAll(names, force, clock);
          return true;
        }
        i := i + 1;
      }
      return false;
    }

    /** Connecting forgets every subscription and throws away every buffer. */
    method ResetBufferedMessagesAndSubscriptions()
      requires Valid()
      modifies this
      ensures Valid() && Snapshot() == After(old(Snapshot()), Reset)
      ensures subscriptions == map[] && messageBuffer == map[]
    {
      lost := ThrownAway(lost, messageBuffer);
      subscriptions, messageBuffer := map[], map[];
    }
  }

  lemma HandOverOneMore(delivered: map<Guid, seq<seq<Received>>>, id: Guid, batches: seq<seq<Received>>, batch: seq<Received>)
    ensures var d := HandedOver(delivered, id, batches);
      d[id := At(d, id) + [batch]] == HandedOver(delivered, id, batches + [batch])
  {
    var d := HandedOver(delivered, id, batches);
    assert At(d, id) + [batch] == At(delivered, id) + (batches + [batch]);
    assert d[id := At(d, id) + [batch]] == delivered[id := At(d, id) + [batch]];
  }

  lemma {:induction false} NothingToFlush(st: State, names: seq<string>, force: bool, clock: string -> Time)
    requires st.buffers == map[]
    ensures FlushLines(st, names, force, clock) == st
    decreases |names|
  {
    if names != [] {
      NothingToFlush(st, names[1..], force, clock);
    }
  }
}
