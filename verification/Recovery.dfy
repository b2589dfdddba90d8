/** Restarting: what a stopped or crashed queue finds again when its database is reloaded and hydrated. */
module Recovery {
  import opened Messages
  import opened DeliveryPass
  import opened QueueState
  import opened QueueEffects
  import opened StoreInvariant
  import opened QueueRun
  import opened RunInvariant
  import opened RunTheorems

  /** Two ascending lists of the same keys are the same list. */
  lemma {:induction false} AscendingUnique(xs: seq<nat>, ys: seq<nat>)
    requires Ascending(xs) && Ascending(ys) && SetOf(xs) == SetOf(ys)
    ensures xs == ys
    decreases |xs|
  {
    EmptyListed(xs);
    EmptyListed(ys);
    if xs != [] {
      assert xs[0] in SetOf(ys) && ys[0] in SetOf(xs);
      var i :| 0 <= i < |ys| && ys[i] == xs[0];
      var j :| 0 <= j < |xs| && xs[j] == ys[0];
      assert xs[0] == ys[0];
      AscendingDistinct(xs);
      AscendingDistinct(ys);
      FirstAndRest(xs);
      FirstAndRest(ys);
      AscendingUnique(xs[1..], ys[1..]);
    }
  }

  lemma AscendingDistinct(xs: seq<nat>)
    requires Ascending(xs)
    ensures Distinct(xs)
  {
  }

  /** Hydrating in chunks loads the same messages in the same order as hydrating at once. */
  lemma ChunksCompose(q: Queue, first: nat, second: nat, newIds: nat -> Guid)
    requires StoreInv(q, map[], {}) && Persists(q) && q.open
    ensures InTable(q, q.buffer) && InTable(Hydrated(q, first, newIds), Hydrated(q, first, newIds).buffer)
    ensures Hydrated(Hydrated(q, first, newIds), second, newIds) == Hydrated(q, first + second, newIds)
  {
    var q1 := Hydrated(q, first, newIds);
    HydrationKeeps(q, first, newIds);
    NextChunk(q, first, second, newIds);
    HydrateAppend(q, NextKeys(q, first), NextKeys(q1, second), newIds);
  }

  lemma {:induction false} HydrateAppend(q: Queue, ks: seq<nat>, ls: seq<nat>, newIds: nat -> Guid)
    requires forall i :: 0 <= i < |ks| ==> ks[i] in q.store
    requires forall i :: 0 <= i < |ls| ==> ls[i] in q.store
    ensures forall i :: 0 <= i < |ls| ==> ls[i] in HydrateKeys(q, ks, newIds).store
    ensures forall i :: 0 <= i < |ks + ls| ==> (ks + ls)[i] in q.store
    ensures HydrateKeys(HydrateKeys(q, ks, newIds), ls, newIds) == HydrateKeys(q, ks + ls, newIds)
    decreases |ks|
  {
    if ks == [] {
      assert ks + ls == ls;
    } else {
      HydrationShape(q, ks, newIds);
      HydrateAppend(HydrateOne(q, ks[0], newIds), ks[1..], ls, newIds);
      assert (ks + ls)[1..] == ks[1..] + ls;
    }
  }

  lemma NextChunk(q: Queue, first: nat, second: nat, newIds: nat -> Guid)
    requires StoreInv(q, map[], {}) && Persists(q) && q.open && InTable(q, q.buffer)
    requires InTable(Hydrated(q, first, newIds), Hydrated(q, first, newIds).buffer)
    ensures var q1 := Hydrated(q, first, newIds);
      && NextKeys(q, first + second) == NextKeys(q, first) + NextKeys(q1, second)
      && forall i :: 0 <= i < |NextKeys(q1, second)| ==> NextKeys(q1, second)[i] in q.store
  {
    var q1 := Hydrated(q, first, newIds);
    HydrationShape(q, NextKeys(q, first), newIds);
    AboveAfterHydration(q, first, newIds);
    SplitAscending(SortedKeys(Above(q)), SortedKeys(Above(q1)), first, second);
    NextKeysStored(q1, second);
  }

  lemma NextKeysStored(q: Queue, count: nat)
    requires InTable(q, q.buffer)
    ensures forall i :: 0 <= i < |NextKeys(q, count)| ==> NextKeys(q, count)[i] in q.store
  {
  }

  lemma SplitAscending(all: seq<nat>, rest: seq<nat>, first: nat, second: nat)
    requires Ascending(all) && Ascending(rest) && SetOf(rest) == SetOf(all) - SetOf(Leading(all, first))
    ensures Leading(all, first + second) == Leading(all, first) + Leading(rest, second)
  {
    if first < |all| {
      SetOfSplit(all, first);
      AscendingUnique(rest, all[first..]);
    } else {
      assert SetOf(rest) == {};
      EmptyListed(rest);
    }
  }

  lemma SetOfSplit(all: seq<nat>, n: nat)
    requires Ascending(all) && n <= |all|
    ensures SetOf(all[n..]) == SetOf(all) - SetOf(all[..n])
  {
    forall x ensures x in SetOf(all[n..]) <==> x in SetOf(all) - SetOf(all[..n]) {
      if x in SetOf(all[n..]) {
        var i :| 0 <= i < |all[n..]| && all[n..][i] == x;
        assert all[n + i] == x;
      }
      if x in SetOf(all) - SetOf(all[..n]) {
        var i :| 0 <= i < |all| && all[i] == x;
        assert forall j :: 0 <= j < n ==> all[j] in SetOf(all[..n]);
        assert all[n..][i - n] == x;
      }
    }
  }

  lemma AboveAfterHydration(q: Queue, count: nat, newIds: nat -> Guid)
    requires StoreInv(q, map[], {}) && Persists(q) && q.open && InTable(q, q.buffer)
    ensures InTable(Hydrated(q, count, newIds), Hydrated(q, count, newIds).buffer)
    ensures Above(Hydrated(q, count, newIds)) == Above(q) - SetOf(NextKeys(q, count))
  {
    var q1, ks := Hydrated(q, count, newIds), NextKeys(q, count);
    HydrationOrder(q, count);
    HydrateKeysAfter(q, ks, newIds);
    HydrationShape(q, ks, newIds);
    AboveShrinks(q, q1, SetOf(ks));
  }

  lemma AboveShrinks(q: Queue, q1: Queue, read: set<nat>)
    requires InTable(q, q.buffer) && BufferInTable(CoreOf(q1)) && q1.store.Keys == q.store.Keys
    requires BufferInTable(CoreOf(q))
    requires forall x :: x in q.store ==> (AfterBuffer(CoreOf(q1), x) <==> AfterBuffer(CoreOf(q), x) && x !in read)
    ensures InTable(q1, q1.buffer) && Above(q1) == Above(q) - read
  {
    forall i | 0 <= i < |q1.buffer| ensures q1.buffer[i] < |q1.objects| {
      assert CoreOf(q1).buffer[i] < |CoreOf(q1).recs|;
    }
    forall x ensures x in Above(q1) <==> x in Above(q) - read {
      AboveIsAfter(q, x);
      AboveIsAfter(q1, x);
    }
  }

  lemma {:induction false} HydrateKeysAfter(q: Queue, ks: seq<nat>, newIds: nat -> Guid)
    requires StoreInv(q, map[], {}) && Persists(q) && q.open && NextAfter(CoreOf(q), ks)
    ensures var q1 := HydrateKeys(q, ks, newIds);
      && BufferInTable(CoreOf(q1))
      && forall x :: x in q.store ==> (AfterBuffer(CoreOf(q1), x) <==> AfterBuffer(CoreOf(q), x) && x !in SetOf(ks))
    decreases |ks|
  {
    if ks != [] {
      HydrateOneKeeps(q, ks, newIds);
      HydrateKeysAfter(HydrateOne(q, ks[0], newIds), ks[1..], newIds);
      AscendingDistinct(ks);
      FirstAndRest(ks);
    }
  }

  /** `rounds` hydrations of `size` messages each. */
  ghost function Rounds(q: Queue, size: nat, rounds: nat, newIds: nat -> Guid): Queue {
    if rounds == 0 then q else OneRound(Rounds(q, size, rounds - 1, newIds), size, newIds)
  }

  ghost function OneRound(q: Queue, size: nat, newIds: nat -> Guid): Queue {
    if InTable(q, q.buffer) then Hydrated(q, size, newIds) else q
  }

  /** Hydrating `first` and then `second` messages is hydrating the sum at once. */
  ghost predicate Composes(q: Queue, first: nat, second: nat, newIds: nat -> Guid) {
    OneRound(OneRound(q, first, newIds), second, newIds) == OneRound(q, first + second, newIds)
  }

  lemma RoundsAreOne(q: Queue, size: nat, rounds: nat, newIds: nat -> Guid)
    requires StoreInv(q, map[], {}) && Persists(q) && q.open
    ensures InTable(q, q.buffer) && Rounds(q, size, rounds, newIds) == Hydrated(q, Total(size, rounds), newIds)
  {
    NoRound(q, newIds);
    forall first: nat ensures Composes(q, first, size, newIds) {
      ChunksCompose(q, first, size, newIds);
    }
    RoundsCompose(q, size, rounds, newIds, (p: Queue, n: nat) => OneRound(p, n, newIds));
  }

  /** The same for any way of taking `n` more steps that adds up. */
  ghost function Repeated(q: Queue, size: nat, rounds: nat, more: (Queue, nat) -> Queue): Queue {
    if rounds == 0 then q else more(Repeated(q, size, rounds - 1, more), size)
  }

  lemma {:induction false} RepeatedSteps(q: Queue, size: nat, rounds: nat, more: (Queue, nat) -> Queue)
    requires more(q, 0) == q
    requires forall first: nat :: AddsUp(q, first, size, more)
    ensures Repeated(q, size, rounds, more) == more(q, Total(size, rounds))
  {
    if rounds > 0 {
      RepeatedSteps(q, size, rounds - 1, more);
      assert AddsUp(q, Total(size, rounds - 1), size, more);
    }
  }

  ghost predicate AddsUp(q: Queue, first: nat, second: nat, more: (Queue, nat) -> Queue) {
    more(more(q, first), second) == more(q, first + second)
  }

  lemma {:induction false} RoundsRepeat(q: Queue, size: nat, rounds: nat, newIds: nat -> Guid, more: (Queue, nat) -> Queue)
    requires forall p: Queue, n: nat :: more(p, n) == OneRound(p, n, newIds)
    ensures Rounds(q, size, rounds, newIds) == Repeated(q, size, rounds, more)
  {
    if rounds > 0 {
      RoundsRepeat(q, size, rounds - 1, newIds, more);
    }
  }

  lemma RoundsCompose(q: Queue, size: nat, rounds: nat, newIds: nat -> Guid, more: (Queue, nat) -> Queue)
    requires forall p: Queue, n: nat :: more(p, n) == OneRound(p, n, newIds)
    requires OneRound(q, 0, newIds) == q && forall first: nat :: Composes(q, first, size, newIds)
    ensures Rounds(q, size, rounds, newIds) == OneRound(q, Total(size, rounds), newIds)
  {
    forall first: nat ensures AddsUp(q, first, size, more) {
      assert Composes(q, first, size, newIds);
    }
    RepeatedSteps(q, size, rounds, more);
    RoundsRepeat(q, size, rounds, newIds, more);
  }

  function Total(size: nat, rounds: nat): nat {
    if rounds == 0 then 0 else Total(size, rounds - 1) + size
  }

  lemma NoRound(q: Queue, newIds: nat -> Guid)
    requires StoreInv(q, map[], {})
    ensures InTable(q, q.buffer) && Hydrated(q, 0, newIds) == q
  {
    assert NextKeys(q, 0) == [];
  }

  /** Stop or crash anywhere, start again and hydrate often enough, in chunks of any size: every stored message
      is back, in serial order, Ready, with its record (and an id if an old version stored it without one), and the
      depth is the number of stored messages. */
  lemma RestartRecovers(s: System, stats: Statistics, newIds: nat -> Guid, size: nat, rounds: nat)
    requires Reachable(s) && Persists(s.q) && |s.q.store| <= Total(size, rounds)
    ensures Recovered(Rounds(Apply(s, Restart(stats)).q, size, rounds, newIds), s.q.store, newIds)
  {
    ReachableKeys(s);
    DiskRecovers(s.q.cfg, s.q.store, stats, newIds, size, rounds);
    assert Apply(s, Restart(stats)).q == Loaded(s.q.cfg, s.q.store, stats);
  }

  /** ... and the next serial drawn after the restart is above every stored key. */
  lemma RestartSerials(s: System, stats: Statistics)
    requires Reachable(s) && Persists(s.q) && s.q.lastSerial + 1 < U64_LIMIT
    ensures forall k :: k in s.q.store ==> k < NextSerial(Apply(s, Restart(stats)).q.lastSerial)
  {
    ReachableKeys(s);
    LoadedSerials(s.q.cfg, s.q.store, stats);
    assert Apply(s, Restart(stats)).q == Loaded(s.q.cfg, s.q.store, stats);
  }

  lemma LoadedSerials(cfg: Config, disk: map<nat, Record>, stats: Statistics)
    requires cfg.persistence == Persistent && LastKey(disk) + 1 < U64_LIMIT
    ensures forall k :: k in disk ==> k < NextSerial(Loaded(cfg, disk, stats).lastSerial)
  {
    LastKeyIsGreatest(disk);
    NextSerialGrows(LastKey(disk));
  }

  /** The next serial is above the last one exactly as long as the 64-bit counter does not wrap. */
  lemma NextSerialGrows(n: nat)
    requires n < U64_LIMIT
    ensures NextSerial(n) > n <==> n + 1 < U64_LIMIT
    ensures n + 1 < U64_LIMIT ==> NextSerial(n) == n + 1
  {
  }

  lemma DiskRecovers(cfg: Config, disk: map<nat, Record>, stats: Statistics, newIds: nat -> Guid, size: nat, rounds: nat)
    requires cfg.persistence == Persistent && WellKeyed(disk)
    requires |disk| <= Total(size, rounds)
    ensures Recovered(Rounds(Loaded(cfg, disk, stats), size, rounds, newIds), disk, newIds)
  {
    var q0 := Loaded(cfg, disk, stats);
    LoadKeeps(cfg, disk, stats);
    RoundsLoad(q0, size, rounds, newIds);
    HydratesAll(q0, SortedKeys(disk.Keys), newIds);
  }

  lemma ReachableKeys(s: System)
    requires Reachable(s)
    ensures WellKeyed(s.q.store)
    ensures LastKey(s.q.store) <= s.q.lastSerial && forall k :: k in s.q.store ==> k <= LastKey(s.q.store)
  {
    ReachableStore(s);
    LastKeyIsGreatest(s.q.store);
    StoredBelowLast(s);
  }

  /** The queue holds exactly the messages of `disk`. */
  ghost predicate Recovered(q: Queue, disk: map<nat, Record>, newIds: nat -> Guid) {
    RecoveredKeys(q, disk, SortedKeys(disk.Keys), newIds)
  }

  ghost predicate RecoveredKeys(q: Queue, disk: map<nat, Record>, ks: seq<nat>, newIds: nat -> Guid) {
    && q.buffer == Positions(0, |ks|) && |q.objects| == |ks|
    && (forall i :: 0 <= i < |ks| ==> ks[i] in disk && q.objects[i] == Fresh(Adopted(disk[ks[i]], newIds)))
    && q.depth == |disk|
  }

  lemma StoredBelowLast(s: System)
    requires StoreOk(s)
    ensures WellKeyed(s.q.store) && forall k :: k in s.q.store ==> k <= s.q.lastSerial
  {
    assert CoreOf(s.q).store == s.q.store;
  }

  lemma RoundsLoad(q: Queue, size: nat, rounds: nat, newIds: nat -> Guid)
    requires StoreInv(q, map[], {}) && Persists(q) && q.open && q.buffer == []
    requires |q.store| <= Total(size, rounds)
    ensures forall i :: 0 <= i < |SortedKeys(q.store.Keys)| ==> SortedKeys(q.store.Keys)[i] in q.store
    ensures Rounds(q, size, rounds, newIds) == HydrateKeys(q, SortedKeys(q.store.Keys), newIds)
  {
    RoundsAreOne(q, size, rounds, newIds);
    FirstHydrationReadsAll(q, Total(size, rounds));
  }

  lemma HydratesAll(q: Queue, ks: seq<nat>, newIds: nat -> Guid)
    requires q.buffer == [] && q.objects == [] && q.depth == |q.store|
    requires Ascending(ks) && forall i :: 0 <= i < |ks| ==> ks[i] in q.store
    ensures RecoveredKeys(HydrateKeys(q, ks, newIds), q.store, ks, newIds)
    ensures HydrateKeys(q, ks, newIds).lastSerial == q.lastSerial
  {
    HydrationLoads(q, ks, newIds);
    HydrationShape(q, ks, newIds);
    var q1 := HydrateKeys(q, ks, newIds);
    forall i | 0 <= i < |ks| ensures q1.objects[i] == Fresh(Adopted(q.store[ks[i]], newIds)) {
      assert q1.objects[|q.objects| + i] == Fresh(Adopted(q.store[ks[i]], newIds));
    }
  }

  lemma FirstHydrationReadsAll(q: Queue, count: nat)
    requires q.buffer == [] && |q.store| <= count
    ensures NextKeys(q, count) == SortedKeys(q.store.Keys)
  {
    assert Above(q) == q.store.Keys;
    assert |q.store.Keys| == |q.store|;
  }
}
