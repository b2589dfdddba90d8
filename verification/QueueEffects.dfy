/** What the looping critical sections do to the parts of a queue the store invariant does not mention. */
module QueueEffects {
  import opened Messages
  import opened DeliveryPass
  import opened QueueState

  function Positions(from: nat, count: nat): seq<nat> {
    seq(count, i => from + i)
  }

  lemma PositionsStep(from: nat, count: nat)
    requires count > 0
    ensures Positions(from, count) == [from] + Positions(from + 1, count - 1)
  {
  }

  /** Hydration appends message objects and touches no counter. */
  lemma {:induction false} HydrationShape(q: Queue, ks: seq<nat>, newIds: nat -> Guid)
    requires forall i :: 0 <= i < |ks| ==> ks[i] in q.store
    ensures var q1 := HydrateKeys(q, ks, newIds);
      && q1 == q.(objects := q1.objects, buffer := q1.buffer, store := q1.store)
      && q.objects <= q1.objects && |q1.objects| == |q.objects| + |ks|
      && q1.buffer == q.buffer + Positions(|q.objects|, |ks|)
      && q1.store.Keys == q.store.Keys
    decreases |ks|
  {
    if ks != [] {
      var q0 := HydrateOne(q, ks[0], newIds);
      HydrationShape(q0, ks[1..], newIds);
      PositionsStep(|q.objects|, |ks|);
    }
  }

  /** The appended objects are fresh, Ready loads of the records read, in key order, and exactly those records
      are (re)written, with a message id if they had none. */
  lemma {:induction false} HydrationLoads(q: Queue, ks: seq<nat>, newIds: nat -> Guid)
    requires Ascending(ks) && forall i :: 0 <= i < |ks| ==> ks[i] in q.store
    ensures var q1 := HydrateKeys(q, ks, newIds);
      && |q1.objects| == |q.objects| + |ks|
      && (forall i :: 0 <= i < |ks| ==> q1.objects[|q.objects| + i] == Fresh(Adopted(q.store[ks[i]], newIds)))
    ensures var q1 := HydrateKeys(q, ks, newIds);
      && q1.store.Keys == q.store.Keys
      && forall k :: k in q.store ==> q1.store[k] == if k in ks then Adopted(q.store[k], newIds) else q.store[k]
    decreases |ks|
  {
    if ks != [] {
      var q0, rest := HydrateOne(q, ks[0], newIds), ks[1..];
      var q1 := HydrateKeys(q, ks, newIds);
      assert ks == [ks[0]] + rest && ks[0] !in rest;
      HydrationLoads(q0, rest, newIds);
      HydrationShape(q0, rest, newIds);
      forall i | 0 <= i < |ks| ensures q1.objects[|q.objects| + i] == Fresh(Adopted(q.store[ks[i]], newIds)) {
        if i > 0 {
          assert q1.objects[|q0.objects| + (i - 1)] == Fresh(Adopted(q0.store[rest[i - 1]], newIds));
          assert q0.store[rest[i - 1]] == q.store[rest[i - 1]];
        } else {
          assert q0.objects[|q.objects|] == q1.objects[|q.objects|];
        }
      }
    }
  }

  /** Every message in memory has an id: the stored one, or a new one, which is stored with it, if that has none. */
  lemma HydratedHaveIds(q: Queue, ks: seq<nat>, newIds: nat -> Guid, i: nat)
    requires Ascending(ks) && (forall j :: 0 <= j < |ks| ==> ks[j] in q.store) && i < |ks|
    requires forall k :: newIds(k) != EMPTY_GUID
    ensures var q1, stored := HydrateKeys(q, ks, newIds), q.store[ks[i]];
      && |q1.objects| == |q.objects| + |ks| && ks[i] in q1.store
      && var rec := q1.objects[|q.objects| + i].rec;
      && q1.store[ks[i]] == rec && rec.messageId != EMPTY_GUID
      && rec == stored.(messageId := rec.messageId)
      && (stored.messageId != EMPTY_GUID ==> rec.messageId == stored.messageId)
  {
    HydrationLoads(q, ks, newIds);
  }

  lemma HydrationIsFresh(q: Queue, ks: seq<nat>, newIds: nat -> Guid)
    requires Ascending(ks) && forall i :: 0 <= i < |ks| ==> ks[i] in q.store
    ensures var q1 := HydrateKeys(q, ks, newIds);
      forall r :: |q.objects| <= r < |q1.objects| ==> q1.objects[r] == Fresh(q1.objects[r].rec)
  {
    HydrationLoads(q, ks, newIds);
    var q1 := HydrateKeys(q, ks, newIds);
    forall r | |q.objects| <= r < |q1.objects| ensures q1.objects[r] == Fresh(q1.objects[r].rec) {
      var i := r - |q.objects|;
      assert q1.objects[|q.objects| + i] == Fresh(Adopted(q.store[ks[i]], newIds));
    }
  }

  /** Each listed Ready message that is too old is flagged; nothing else changes. */
  lemma {:induction false} ExpiryEffect(q: Queue, rs: seq<nat>, now: Time)
    requires InTable(q, rs) && Distinct(rs)
    ensures var q1 := ExpireAll(q, rs, now);
      && q1 == q.(objects := q1.objects, stats := q1.stats)
      && |q1.objects| == |q.objects|
      && (forall r :: 0 <= r < |q.objects| ==>
            q1.objects[r] == if r in rs && Expired(q.cfg, q.objects[r], now)
                             then q.objects[r].(state := ExpiryState(q.cfg, q.objects[r], now)) else q.objects[r])
    decreases |rs|
  {
    if rs != [] {
      var q0, rest := ExpireOne(q, rs[0], now), rs[1..];
      assert rs == [rs[0]] + rest && rs[0] !in rest;
      ExpiryEffect(q0, rest, now);
    }
  }

  /** Expiry by the configured ages: a Ready message older than the maximum age is dead-lettered if there is a
      dead-letter queue that takes messages of that age, and dropped otherwise; every other state stays. */
  lemma ExpiryByAge(q: Queue, rs: seq<nat>, now: Time, r: nat)
    requires InTable(q, rs) && Distinct(rs) && r in rs && r < |q.objects|
    ensures var m, dlq := q.objects[r], q.cfg.dlq;
      var age := now - m.rec.timestamp;
      ExpireAll(q, rs, now).objects[r].state ==
        if m.state != Ready || q.cfg.maxAge.None? || age <= q.cfg.maxAge.value then m.state
        else if dlq.Some? && (dlq.value.maxAge.None? || age <= dlq.value.maxAge.value) then DeadLetter
        else Drop
  {
    ExpiryEffect(q, rs, now);
  }

  /** Every flagged message is counted once. */
  lemma {:induction false} ExpiryCount(q: Queue, rs: seq<nat>, now: Time)
    requires InTable(q, rs) && Distinct(rs)
    ensures ExpireAll(q, rs, now).stats == q.stats.(expired := q.stats.expired + |Stale(q, rs, now)|)
    decreases |rs|
  {
    if rs != [] {
      var q0, rest := ExpireOne(q, rs[0], now), rs[1..];
      ExpiryCount(q0, rest, now);
      StaleOneMore(q, rs, now);
    } else {
      assert Stale(q, rs, now) == {};
    }
  }

  lemma StaleOneMore(q: Queue, rs: seq<nat>, now: Time)
    requires InTable(q, rs) && Distinct(rs) && rs != []
    ensures Stale(q, rs, now) == Stale(ExpireOne(q, rs[0], now), rs[1..], now)
                               + if Expired(q.cfg, q.objects[rs[0]], now) then {rs[0]} else {}
    ensures rs[0] !in Stale(ExpireOne(q, rs[0], now), rs[1..], now)
  {
    var q0, rest := ExpireOne(q, rs[0], now), rs[1..];
    assert rs == [rs[0]] + rest && rs[0] !in rest;
    assert forall r :: r in rest && r < |q.objects| ==> q0.objects[r] == q.objects[r];
  }

  // ---------- picking ----------

  /** Ready, not too old, and the time it was deferred to, if any, has come. */
  predicate Deliverable(cfg: Config, m: Message, now: Time) {
    && m.state == Ready
    && (cfg.maxAge.Some? ==> now - m.rec.timestamp <= cfg.maxAge.value)
    && (m.rec.deferredUntil.Some? ==> m.rec.deferredUntil.value <= now)
  }

  predicate SomeDeliverable(q: Queue, now: Time)
    requires InTable(q, q.buffer)
  {
    exists i :: 0 <= i < |q.buffer| && Deliverable(q.cfg, q.objects[q.buffer[i]], now)
  }

  predicate PicksFirst(q: Queue, now: Time, r: nat)
    requires InTable(q, q.buffer)
  {
    exists i :: 0 <= i < |q.buffer| && q.buffer[i] == r && Deliverable(q.cfg, q.objects[r], now)
                && forall j :: 0 <= j < i ==> !Deliverable(q.cfg, q.objects[q.buffer[j]], now)
  }

  /** A message is picked exactly if the bound on outstanding deliveries leaves room, somebody is subscribed and some
      buffered message is deliverable; it is the first such. Hydration is asked for exactly if, with room and a
      subscriber, the depth exceeds the buffer and that is short or has nothing to deliver. */
  lemma PickExact(q: Queue, now: Time)
    requires InTable(q, q.buffer) && Distinct(q.buffer)
    ensures var p := ExpireAndPick(q, now);
      && (p.top.Some? <==> q.outstanding < q.cfg.maxOutstanding && q.subscribers != {} && SomeDeliverable(q, now))
      && (p.top.Some? ==> PicksFirst(q, now, p.top.value))
      && (p.rehydrate <==> q.outstanding < q.cfg.maxOutstanding && q.subscribers != {} && q.cfg.persistence == Persistent
                           && q.depth > |q.buffer| && (|q.buffer| < 1000 || !SomeDeliverable(q, now)))
  {
    var q1 := ExpireAll(q, q.buffer, now);
    ExpiryEffect(q, q.buffer, now);
    forall i | 0 <= i < |q.buffer|
      ensures Eligible(q1.objects[q.buffer[i]], now) <==> Deliverable(q.cfg, q.objects[q.buffer[i]], now)
    {
      assert q.buffer[i] in q.buffer;
      ExpiredIsNotReady(q.cfg, q.objects[q.buffer[i]], now);
    }
  }

  lemma ExpiredIsNotReady(cfg: Config, m: Message, now: Time)
    ensures Deliverable(cfg, m, now) <==>
              Eligible(if Expired(cfg, m, now) then m.(state := ExpiryState(cfg, m, now)) else m, now)
  {
  }

  /** A sweep takes messages out of the buffer; what it takes was listed and in a terminal state. */
  lemma {:induction false} SweepEffect(q: Queue, list: seq<nat>)
    requires InTable(q, list)
    ensures var q1 := SweepAll(q, list);
      && q1 == q.(store := q1.store, buffer := q1.buffer, depth := q1.depth)
      && |q1.buffer| <= |q.buffer|
      && q1.depth == q.depth - (|q.buffer| - |q1.buffer|)
      && (forall r :: r in q1.buffer ==> r in q.buffer)
      && q1.store.Keys <= q.store.Keys && (forall k :: k in q1.store ==> q1.store[k] == q.store[k])
      && (forall k :: k in q.store && k !in q1.store ==>
            exists i :: 0 <= i < |list| && Serial(q, list[i]) == k && Terminal(q.objects[list[i]].state))
    decreases |list|
  {
    if list != [] {
      var q0 := SweepOne(q, list[0]);
      WithoutShrinks(q.buffer, list[0]);
      SweepEffect(q0, list[1..]);
      var q1 := SweepAll(q, list);
      forall k | k in q.store && k !in q1.store
        ensures exists i :: 0 <= i < |list| && Serial(q, list[i]) == k && Terminal(q.objects[list[i]].state)
      {
        if k in q0.store {
          var i :| 0 <= i < |list[1..]| && Serial(q0, list[1..][i]) == k && Terminal(q0.objects[list[1..][i]].state);
          assert list[i + 1] == list[1..][i];
          assert Serial(q, list[i + 1]) == k && Terminal(q.objects[list[i + 1]].state);
        } else {
          assert Serial(q, list[0]) == k;
        }
      }
    }
  }

  lemma {:induction false} WithoutShrinks(xs: seq<nat>, x: nat)
    ensures |Without(xs, x)| == if x in xs then |xs| - 1 else |xs|
    ensures forall y :: y in Without(xs, x) ==> y in xs
    ensures forall y :: y in xs && y != x ==> y in Without(xs, x)
  {
    if xs != [] && xs[0] != x {
      WithoutShrinks(xs[1..], x);
      assert xs == [xs[0]] + xs[1..];
    } else if xs != [] {
      assert xs == [xs[0]] + xs[1..];
    }
  }

  /** Nothing terminal stays behind in the part of the buffer that was listed. */
  lemma {:induction false} SweepRemovesListed(q: Queue, list: seq<nat>)
    requires InTable(q, list) && Distinct(q.buffer)
    ensures forall r :: r in list && r in q.buffer && r < |q.objects| && Terminal(q.objects[r].state) ==>
      r !in SweepAll(q, list).buffer
    ensures forall r :: r in q.buffer && r !in list ==> r in SweepAll(q, list).buffer
    decreases |list|
  {
    if list != [] {
      var q0 := SweepOne(q, list[0]);
      WithoutDistinct(q.buffer, list[0]);
      SweepRemovesListed(q0, list[1..]);
      SweepEffect(q0, list[1..]);
      WithoutShrinks(q.buffer, list[0]);
      assert list == [list[0]] + list[1..];
    }
  }

  lemma {:induction false} WithoutDistinct(xs: seq<nat>, x: nat)
    requires Distinct(xs)
    ensures Distinct(Without(xs, x)) && x !in Without(xs, x)
  {
    if xs != [] {
      assert xs == [xs[0]] + xs[1..];
      if xs[0] != x {
        var rest := Without(xs[1..], x);
        WithoutDistinct(xs[1..], x);
        WithoutShrinks(xs[1..], x);
        assert xs[0] !in rest;
        assert forall j :: 0 <= j < |rest| ==> rest[j] in rest;
      }
    }
  }
}
