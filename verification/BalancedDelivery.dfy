/** The order in which a pass asks its remaining subscribers, and what balanced ordering guarantees. */
module BalancedDelivery {
  import opened Messages
  import opened DeliveryPass

  // ---------- ordering ----------

  /** Stable: an element goes before the first one whose key is not smaller. */
  function InsertBy(x: Guid, xs: seq<Guid>, key: Guid -> nat): seq<Guid> {
    if xs == [] || key(x) <= key(xs[0]) then [x] + xs else [xs[0]] + InsertBy(x, xs[1..], key)
  }

  function OrderBy(xs: seq<Guid>, key: Guid -> nat): seq<Guid> {
    if xs == [] then [] else InsertBy(xs[0], OrderBy(xs[1..], key), key)
  }

  ghost predicate SortedBy(xs: seq<Guid>, key: Guid -> nat) {
    forall i, j :: 0 <= i < j < |xs| ==> key(xs[i]) <= key(xs[j])
  }

  lemma {:induction false} InsertAdds(x: Guid, xs: seq<Guid>, key: Guid -> nat)
    ensures multiset(InsertBy(x, xs, key)) == multiset(xs) + multiset{x}
  {
    if xs != [] && key(x) > key(xs[0]) {
      InsertAdds(x, xs[1..], key);
      assert xs == [xs[0]] + xs[1..];
    }
  }

  lemma {:induction false} InsertSorts(x: Guid, xs: seq<Guid>, key: Guid -> nat)
    requires SortedBy(xs, key)
    ensures SortedBy(InsertBy(x, xs, key), key)
  {
    if xs != [] && key(x) > key(xs[0]) {
      InsertSorts(x, xs[1..], key);
      InsertAdds(x, xs[1..], key);
      SortedWithFirst(x, xs, InsertBy(x, xs[1..], key), key);
    }
  }

  lemma SortedWithFirst(x: Guid, xs: seq<Guid>, rest: seq<Guid>, key: Guid -> nat)
    requires xs != [] && SortedBy(xs, key) && SortedBy(rest, key) && key(x) > key(xs[0])
    requires multiset(rest) == multiset(xs[1..]) + multiset{x}
    ensures SortedBy([xs[0]] + rest, key)
  {
    forall j | 0 <= j < |rest| ensures key(xs[0]) <= key(rest[j]) {
      assert rest[j] in multiset(rest);
      if rest[j] != x {
        assert rest[j] in multiset(xs[1..]);
        assert rest[j] in xs[1..];
      }
    }
  }

  lemma {:induction false} OrderBySorts(xs: seq<Guid>, key: Guid -> nat)
    ensures SortedBy(OrderBy(xs, key), key) && multiset(OrderBy(xs, key)) == multiset(xs)
  {
    if xs != [] {
      OrderBySorts(xs[1..], key);
      InsertSorts(xs[0], OrderBy(xs[1..], key), key);
      InsertAdds(xs[0], OrderBy(xs[1..], key), key);
      assert xs == [xs[0]] + xs[1..];
    }
  }

  lemma SameMultisetLists(xs: seq<Guid>, ys: seq<Guid>)
    requires multiset(xs) == multiset(ys) && Distinct(xs)
    ensures Distinct(ys) && SetOf(ys) == SetOf(xs)
  {
    forall x ensures x in SetOf(xs) <==> x in SetOf(ys) {
      assert x in xs <==> x in multiset(xs);
      assert x in ys <==> x in multiset(ys);
    }
    DistinctOnce(xs);
    forall i, j | 0 <= i < j < |ys| ensures ys[i] != ys[j] {
      TwiceCounts(ys, i, j);
    }
  }

  lemma {:induction false} DistinctOnce(xs: seq<Guid>)
    requires Distinct(xs)
    ensures forall x :: multiset(xs)[x] <= 1
  {
    if xs != [] {
      DistinctOnce(xs[1..]);
      assert xs == [xs[0]] + xs[1..];
      assert xs[0] !in xs[1..];
    }
  }

  lemma TwiceCounts(ys: seq<Guid>, i: nat, j: nat)
    requires i < j < |ys|
    ensures ys[i] == ys[j] ==> multiset(ys)[ys[i]] >= 2
  {
    assert ys == ys[..i] + [ys[i]] + ys[i + 1..j] + [ys[j]] + ys[j + 1..];
  }

  /** The opening snapshot of a pass: the subscribers not yet complete, in random order (`draw` gives each a
      fresh random key) or by how often each was attempted. */
  function Dispositions(cfg: Config, m: Message, subscribers: seq<Guid>, attempted: Guid -> nat, draw: Guid -> nat)
    : seq<Guid>
  {
    var remaining := Incomplete(subscribers, Complete(m));
    match cfg.delivery
    case Random => OrderBy(remaining, draw)
    case Balanced => OrderBy(remaining, attempted)
  }

  function Incomplete(xs: seq<Guid>, complete: set<Guid>): seq<Guid> {
    if xs == [] then []
    else if xs[0] in complete then Incomplete(xs[1..], complete)
    else [xs[0]] + Incomplete(xs[1..], complete)
  }

  lemma {:induction false} IncompleteLists(xs: seq<Guid>, complete: set<Guid>)
    requires Distinct(xs)
    ensures Lists(Incomplete(xs, complete), SetOf(xs) - complete)
  {
    if xs != [] {
      FirstAndRest(xs);
      IncompleteLists(xs[1..], complete);
      var rest := Incomplete(xs[1..], complete);
      assert SetOf([xs[0]] + rest) == SetOf(rest) + {xs[0]};
      assert forall j :: 0 <= j < |rest| ==> rest[j] in SetOf(rest);
    }
  }

  /** Whatever the delivery scheme, the snapshot lists each subscriber that is not complete exactly once; the
      balanced one by ascending attempts. */
  lemma DispositionsList(cfg: Config, m: Message, subscribers: seq<Guid>, attempted: Guid -> nat, draw: Guid -> nat)
    requires Distinct(subscribers)
    ensures Lists(Dispositions(cfg, m, subscribers, attempted, draw), Remaining(m, SetOf(subscribers)))
    ensures cfg.delivery == Balanced ==> SortedBy(Dispositions(cfg, m, subscribers, attempted, draw), attempted)
  {
    var remaining := Incomplete(subscribers, Complete(m));
    IncompleteLists(subscribers, Complete(m));
    OrderBySorts(remaining, draw);
    OrderBySorts(remaining, attempted);
    SameMultisetLists(remaining, OrderBy(remaining, draw));
    SameMultisetLists(remaining, OrderBy(remaining, attempted));
  }

  // ---------- fairness ----------

  /** A pass that stops after `asked` subscribers attempted exactly those. */
  function AfterPass(attempted: map<Guid, nat>, order: seq<Guid>, asked: nat): map<Guid, nat>
    requires asked <= |order|
  {
    map s | s in attempted :: attempted[s] + (if s in order[..asked] then 1 else 0)
  }

  /** No two subscribers differ by more than one attempt. */
  ghost predicate Level(attempted: map<Guid, nat>) {
    forall s, t :: s in attempted && t in attempted ==> attempted[s] <= attempted[t] + 1
  }

  ghost predicate BalancedOrder(attempted: map<Guid, nat>, order: seq<Guid>) {
    && Lists(order, attempted.Keys)
    && forall i, j :: 0 <= i < j < |order| && order[i] in attempted && order[j] in attempted ==>
         attempted[order[i]] <= attempted[order[j]]
  }

  /** Wherever a balanced pass over all subscribers stops, the attempts stay level. */
  lemma PassKeepsLevel(attempted: map<Guid, nat>, order: seq<Guid>, asked: nat)
    requires Level(attempted) && BalancedOrder(attempted, order) && asked <= |order|
    ensures Level(AfterPass(attempted, order, asked))
  {
    var after := AfterPass(attempted, order, asked);
    forall s, t | s in attempted && t in attempted ensures after[s] <= after[t] + 1 {
      if s in order[..asked] && t !in order[..asked] {
        assert t in SetOf(order);
        var i :| 0 <= i < asked && order[i] == s;
        var j :| 0 <= j < |order| && order[j] == t;
        assert j >= asked by {
          assert forall x :: 0 <= x < asked ==> order[x] in order[..asked];
        }
      }
    }
  }

  datatype Served = Served(order: seq<Guid>, asked: nat)

  /** One pass after the other, each in balanced order over all subscribers. */
  ghost predicate BalancedRun(attempted: map<Guid, nat>, passes: seq<Served>)
    decreases |passes|
  {
    passes == [] || (BalancedOrder(attempted, passes[0].order) && passes[0].asked <= |passes[0].order|
                     && BalancedRun(AfterPass(attempted, passes[0].order, passes[0].asked), passes[1..]))
  }

  ghost function AfterRun(attempted: map<Guid, nat>, passes: seq<Served>): map<Guid, nat>
    requires BalancedRun(attempted, passes)
    decreases |passes|
  {
    if passes == [] then attempted
    else AfterRun(AfterPass(attempted, passes[0].order, passes[0].asked), passes[1..])
  }

  function TotalAsked(passes: seq<Served>): nat {
    if passes == [] then 0 else passes[0].asked + TotalAsked(passes[1..])
  }

  function Sum(attempted: map<Guid, nat>, ids: set<Guid>): nat
    requires ids <= attempted.Keys
  {
    if ids == {} then 0 else var s := Least(ids); attempted[s] + Sum(attempted, ids - {s})
  }

  lemma {:induction false} SumGrows(attempted: map<Guid, nat>, order: seq<Guid>, asked: nat, ids: set<Guid>)
    requires Distinct(order) && asked <= |order| && ids <= attempted.Keys
    ensures ids <= AfterPass(attempted, order, asked).Keys
    ensures Sum(AfterPass(attempted, order, asked), ids) == Sum(attempted, ids) + |ids * SetOf(order[..asked])|
  {
    if ids != {} {
      var s := Least(ids);
      SumGrows(attempted, order, asked, ids - {s});
      var hit := SetOf(order[..asked]);
      if s in hit {
        assert ids * hit == (ids - {s}) * hit + {s};
      } else {
        assert ids * hit == (ids - {s}) * hit;
      }
    }
  }

  lemma {:induction false} DistinctSize(xs: seq<Guid>)
    requires Distinct(xs)
    ensures |SetOf(xs)| == |xs|
  {
    if xs != [] {
      FirstAndRest(xs);
      DistinctSize(xs[1..]);
    }
  }

  lemma {:induction false} RunTotals(attempted: map<Guid, nat>, passes: seq<Served>)
    requires Level(attempted) && BalancedRun(attempted, passes)
    ensures var after := AfterRun(attempted, passes);
      && after.Keys == attempted.Keys && Level(after)
      && Sum(after, after.Keys) == Sum(attempted, attempted.Keys) + TotalAsked(passes)
    decreases |passes|
  {
    if passes != [] {
      var p := passes[0];
      PassKeepsLevel(attempted, p.order, p.asked);
      PassTotal(attempted, p.order, p.asked);
      RunTotals(AfterPass(attempted, p.order, p.asked), passes[1..]);
    }
  }

  lemma PassTotal(attempted: map<Guid, nat>, order: seq<Guid>, asked: nat)
    requires Lists(order, attempted.Keys) && asked <= |order|
    ensures var after := AfterPass(attempted, order, asked);
      after.Keys == attempted.Keys && Sum(after, after.Keys) == Sum(attempted, attempted.Keys) + asked
  {
    SumGrows(attempted, order, asked, attempted.Keys);
    var hit := SetOf(order[..asked]);
    DistinctSize(order[..asked]);
    assert hit <= SetOf(order);
    assert attempted.Keys * hit == hit;
    assert AfterPass(attempted, order, asked).Keys == attempted.Keys;
  }

  lemma {:induction false} SumBounds(attempted: map<Guid, nat>, ids: set<Guid>, low: nat, high: nat)
    requires ids <= attempted.Keys && forall s :: s in ids ==> low <= attempted[s] <= high
    ensures low * |ids| <= Sum(attempted, ids) <= high * |ids|
  {
    if ids != {} {
      var s := Least(ids);
      SumBounds(attempted, ids - {s}, low, high);
      OneMoreTimes(low, |ids - {s}|);
      OneMoreTimes(high, |ids - {s}|);
    }
  }

  lemma OneMoreTimes(x: nat, n: nat)
    ensures x * (n + 1) == x * n + x
  {
  }

  lemma {:induction false} SumWithout(attempted: map<Guid, nat>, ids: set<Guid>, s: Guid)
    requires s in ids && ids <= attempted.Keys
    ensures Sum(attempted, ids) == attempted[s] + Sum(attempted, ids - {s})
  {
    var l := Least(ids);
    if l != s {
      SumWithout(attempted, ids - {l}, s);
      assert Least(ids - {s}) == l by {
        assert l in ids - {s} && Least(ids - {s}) in ids;
      }
      assert ids - {l} - {s} == ids - {s} - {l};
    }
  }

  /** `c` is the floor or the ceiling of `n` over `s`. */
  predicate EvenShare(n: nat, s: nat, c: nat) {
    s > 0 && n / s <= c <= (n + s - 1) / s
  }

  /** Level attempts that sum to `n` over `s` subscribers are all the floor or the ceiling of n / s. */
  lemma LevelShares(attempted: map<Guid, nat>, id: Guid)
    requires Level(attempted) && id in attempted
    ensures EvenShare(Sum(attempted, attempted.Keys), |attempted.Keys|, attempted[id])
  {
    var ids, c := attempted.Keys, attempted[id];
    var n, s, others := Sum(attempted, ids), |ids|, ids - {id};
    assert |others| == s - 1;
    SumWithout(attempted, ids, id);
    SumBounds(attempted, others, if c == 0 then 0 else c - 1, c + 1);
    SharesArithmetic(n, s, c);
  }

  lemma SharesArithmetic(n: nat, s: nat, c: nat)
    requires s > 0
    requires c + (if c == 0 then 0 else c - 1) * (s - 1) <= n <= c + (c + 1) * (s - 1)
    ensures EvenShare(n, s, c)
  {
    assert n < (c + 1) * s by {
      assert c + (c + 1) * (s - 1) == (c + 1) * s - 1;
    }
    DivideBelow(n, s, c + 1);
    if c > 0 {
      assert c + (c - 1) * (s - 1) == c * s - (s - 1);
      assert c * s <= n + s - 1;
      DivideAbove(n + s - 1, s, c);
    }
  }

  lemma DivideBelow(n: nat, s: nat, c: nat)
    requires s > 0 && n < c * s
    ensures n / s < c
  {
    Division(n, s);
    if n / s >= c {
      TimesGrows(s, c, n / s);
      assert false;
    }
  }

  lemma DivideAbove(n: nat, s: nat, c: nat)
    requires s > 0 && c * s <= n
    ensures c <= n / s
  {
    Division(n, s);
    if n / s + 1 <= c {
      TimesGrows(s, n / s + 1, c);
      assert false;
    }
  }

  lemma Division(n: nat, s: nat)
    requires s > 0
    ensures (n / s) * s <= n < (n / s + 1) * s
  {
    assert n == s * (n / s) + n % s;
  }

  lemma TimesGrows(s: nat, a: nat, b: nat)
    requires a <= b
    ensures a * s <= b * s
  {
  }

  function Unattempted(ids: set<Guid>): (attempted: map<Guid, nat>)
    ensures attempted.Keys == ids
  {
    map s | s in ids :: 0
  }

  ghost predicate OneEachAsked(passes: seq<Served>) {
    forall i :: 0 <= i < |passes| ==> passes[i].asked == 1
  }

  lemma EvenTotals(ids: set<Guid>, passes: seq<Served>)
    requires BalancedRun(Unattempted(ids), passes) && OneEachAsked(passes)
    ensures var after := AfterRun(Unattempted(ids), passes);
      after.Keys == ids && Level(after) && Sum(after, ids) == |passes|
  {
    RunTotals(Unattempted(ids), passes);
    NothingYet(ids, Unattempted(ids));
    OneEach(passes);
  }

  lemma EvenShares(ids: set<Guid>, passes: seq<Served>, id: Guid)
    requires BalancedRun(Unattempted(ids), passes) && id in ids && OneEachAsked(passes)
    ensures var after := AfterRun(Unattempted(ids), passes);
      id in after && EvenShare(|passes|, |ids|, after[id])
  {
    EvenTotals(ids, passes);
    LevelShares(AfterRun(Unattempted(ids), passes), id);
  }

  lemma {:induction false} NothingYet(ids: set<Guid>, attempted: map<Guid, nat>)
    requires ids <= attempted.Keys && forall s :: s in ids ==> attempted[s] == 0
    ensures Sum(attempted, ids) == 0
  {
    if ids != {} {
      NothingYet(ids - {Least(ids)}, attempted);
    }
  }

  lemma {:induction false} OneEach(passes: seq<Served>)
    requires OneEachAsked(passes)
    ensures TotalAsked(passes) == |passes|
  {
    if passes != [] {
      OneEach(passes[1..]);
    }
  }

  // ---------- fairness of the delivery loop itself ----------

  /** How many subscribers a pass attempts before it ends. */
  function AskedBy(cfg: Config, m: Message, todo: seq<Guid>, turns: seq<Turn>): (n: nat)
    requires |turns| == |todo|
    ensures n <= |todo|
    decreases |todo|
  {
    if todo == [] || !turns[0].running then 0
    else
      var t := Take(cfg, Send(m, todo[0]), todo[0], turns[0].reply, turns[0].now);
      if t.outcome.Return? then 1 else 1 + AskedBy(cfg, t.message, todo[1..], turns[1..])
  }

  /** The loop attempts the first `AskedBy` listed subscribers once each and nobody else. */
  lemma {:induction false} LoopAttempts(
    cfg: Config, m: Message, todo: seq<Guid>, turns: seq<Turn>, failures: set<Guid>, s: Guid)
    requires |turns| == |todo| && Distinct(todo)
    ensures Attempts(OfferAll(cfg, m, todo, turns, failures).message, s)
         == Attempts(m, s) + if s in todo[..AskedBy(cfg, m, todo, turns)] then 1 else 0
    decreases |todo|
  {
    if todo != [] && turns[0].running {
      FirstAndRest(todo);
      var t := Take(cfg, Send(m, todo[0]), todo[0], turns[0].reply, turns[0].now);
      assert Attempts(t.message, s) == Attempts(m, s) + if s == todo[0] then 1 else 0;
      var n := AskedBy(cfg, m, todo, turns);
      assert todo[..n] == [todo[0]] + todo[1..][..n - 1];
      if t.outcome.Continue? {
        var f1 := if t.outcome.failed then failures + {todo[0]} else failures;
        LoopAttempts(cfg, t.message, todo[1..], turns[1..], f1, s);
        if s in todo[1..] {
          assert s in SetOf(todo[1..]);
        }
      } else {
        assert todo[1..][..0] == [];
      }
    }
  }

  /** One delivered message: the pass it gets and how its subscribers answer. */
  datatype Handled = Handled(message: Message, order: seq<Guid>, turns: seq<Turn>)

  function CountOf(attempted: map<Guid, nat>): Guid -> nat {
    s => if s in attempted then attempted[s] else 0
  }

  function Serving(cfg: Config, d: Handled): Served
    requires |d.turns| == |d.order|
  {
    Served(d.order, AskedBy(cfg, d.message, d.order, d.turns))
  }

  /** Passes one after the other over the same subscribers, each open to all of them and in the order the
      balanced snapshot gives; the subscribers' attempt counters follow the loop. */
  ghost predicate BalancedDeliveries(cfg: Config, subscribers: seq<Guid>, attempted: map<Guid, nat>, ds: seq<Handled>)
    decreases |ds|
  {
    ds == [] || (
      && SetOf(subscribers) !! Complete(ds[0].message)
      && ds[0].order == Dispositions(cfg, ds[0].message, subscribers, CountOf(attempted), _ => 0)
      && |ds[0].turns| == |ds[0].order|
      && BalancedDeliveries(cfg, subscribers, AfterPass(attempted, ds[0].order, Serving(cfg, ds[0]).asked), ds[1..]))
  }

  function Servings(cfg: Config, ds: seq<Handled>): (passes: seq<Served>)
    ensures |passes| == |ds|
  {
    if ds == [] then []
    else [if |ds[0].turns| == |ds[0].order| then Serving(cfg, ds[0]) else Served([], 0)] + Servings(cfg, ds[1..])
  }

  lemma {:induction false} DeliveriesAreBalanced(
    cfg: Config, subscribers: seq<Guid>, attempted: map<Guid, nat>, ds: seq<Handled>)
    requires cfg.delivery == Balanced && Distinct(subscribers) && SetOf(subscribers) == attempted.Keys
    requires BalancedDeliveries(cfg, subscribers, attempted, ds)
    ensures BalancedRun(attempted, Servings(cfg, ds))
    decreases |ds|
  {
    if ds != [] {
      var d := ds[0];
      DispositionsList(cfg, d.message, subscribers, CountOf(attempted), _ => 0);
      SnapshotIsBalanced(attempted, d.order);
      var after := AfterPass(attempted, d.order, Serving(cfg, d).asked);
      assert after.Keys == attempted.Keys;
      DeliveriesAreBalanced(cfg, subscribers, after, ds[1..]);
      assert Servings(cfg, ds)[1..] == Servings(cfg, ds[1..]);
    }
  }

  lemma SnapshotIsBalanced(attempted: map<Guid, nat>, order: seq<Guid>)
    requires Lists(order, attempted.Keys) && SortedBy(order, CountOf(attempted))
    ensures BalancedOrder(attempted, order)
  {
    forall i, j | 0 <= i < j < |order| && order[i] in attempted && order[j] in attempted
      ensures attempted[order[i]] <= attempted[order[j]]
    {
      assert CountOf(attempted)(order[i]) <= CountOf(attempted)(order[j]);
    }
  }

  /** The first subscriber asked takes the message. */
  predicate TakenAtOnce(d: Handled) {
    d.turns != [] && d.turns[0].running && d.turns[0].reply == Consumed
  }

  predicate AllTakenAtOnce(ds: seq<Handled>) {
    forall i :: 0 <= i < |ds| ==> TakenAtOnce(ds[i])
  }

  lemma {:induction false} TakenOnceEach(cfg: Config, subscribers: seq<Guid>, attempted: map<Guid, nat>, ds: seq<Handled>)
    requires cfg.consumption == FirstConsumedSubscriber && AllTakenAtOnce(ds)
    requires BalancedDeliveries(cfg, subscribers, attempted, ds)
    ensures OneEachAsked(Servings(cfg, ds))
    decreases |ds|
  {
    if ds != [] {
      assert TakenAtOnce(ds[0]);
      TakenOnceEach(cfg, subscribers, AfterPass(attempted, ds[0].order, Serving(cfg, ds[0]).asked), ds[1..]);
      OneEachMore(Serving(cfg, ds[0]), Servings(cfg, ds[1..]));
    }
  }

  lemma OneEachMore(first: Served, rest: seq<Served>)
    requires first.asked == 1 && OneEachAsked(rest)
    ensures OneEachAsked([first] + rest)
  {
  }

  /** Balanced delivery is fair: from a level start any two subscribers' attempts differ by at most one wherever
      the passes stop. */
  lemma BalancedDeliveryIsFair(cfg: Config, subscribers: seq<Guid>, ds: seq<Handled>)
    requires cfg.delivery == Balanced && Distinct(subscribers)
    requires BalancedDeliveries(cfg, subscribers, Unattempted(SetOf(subscribers)), ds)
    ensures BalancedRun(Unattempted(SetOf(subscribers)), Servings(cfg, ds))
    ensures var after := AfterRun(Unattempted(SetOf(subscribers)), Servings(cfg, ds));
      after.Keys == SetOf(subscribers) && Level(after)
  {
    DeliveriesAreBalanced(cfg, subscribers, Unattempted(SetOf(subscribers)), ds);
    RunTotals(Unattempted(SetOf(subscribers)), Servings(cfg, ds));
  }

  /** ... and n messages, each taken by the first subscriber asked, are shared out as floor or ceiling of n / s. */
  lemma BalancedSharesAreEven(cfg: Config, subscribers: seq<Guid>, ds: seq<Handled>, id: Guid)
    requires cfg.delivery == Balanced && Distinct(subscribers) && id in SetOf(subscribers)
    requires BalancedDeliveries(cfg, subscribers, Unattempted(SetOf(subscribers)), ds)
    requires cfg.consumption == FirstConsumedSubscriber && AllTakenAtOnce(ds)
    ensures BalancedRun(Unattempted(SetOf(subscribers)), Servings(cfg, ds))
    ensures var after := AfterRun(Unattempted(SetOf(subscribers)), Servings(cfg, ds));
      id in after && EvenShare(|ds|, |SetOf(subscribers)|, after[id])
  {
    DeliveriesAreBalanced(cfg, subscribers, Unattempted(SetOf(subscribers)), ds);
    TakenOnceEach(cfg, subscribers, Unattempted(SetOf(subscribers)), ds);
    EvenShares(SetOf(subscribers), Servings(cfg, ds), id);
  }
}
