/** The swap engine shared by `generateRecommendations` (live drivers) and the
    two mock generators (drivers and constructors): keep the analyses that have
    both a lap time and a price, pair every one with every other in both
    directions, keep a pair when the incoming entry is strictly faster and its
    extra cost fits the budget, and rank the kept pairs with the source's
    comparator (time gain first, value gain within 0.01 s). */
module Swaps {
  import opened Prelude
  import opened Types

  /** How the engine tells two entries apart: drivers by number, constructors by name. */
  datatype Identity = Number(n: int) | Name(s: string)

  /** The part of an analysis that the engine reads. */
  datatype Candidate = Candidate(
    id: Identity,
    lapTime: Option<Duration>,
    price: Option<real>,
    valueScore: Option<real>)

  function DriverView(d: DriverAnalysis): Candidate {
    Candidate(Number(d.driverNumber), d.bestLapTime, d.price, d.valueScore)
  }

  function ConstructorView(c: ConstructorAnalysis): Candidate {
    Candidate(Name(c.name), c.bestLapTime, c.price, c.valueScore)
  }

  /** Both a lap time and a price are known. */
  predicate HasData(c: Candidate) {
    c.lapTime.Some? && c.price.Some?
  }

  /** The eligible set: the entries with both a lap time and a price, in input order. */
  function Eligible<E>(items: seq<E>, view: E -> Candidate): seq<E> {
    Filter(items, HasDataOf(view))
  }

  /** `HasData` seen through `view`, as a predicate value. */
  function HasDataOf<E>(view: E -> Candidate): E -> bool {
    (e: E) => HasData(view(e))
  }

  /** The three explanation tiers, chosen by the extra cost of the swap. */
  function PriceTier(priceDelta: real): (t: Tier)
    ensures t == Cheaper <==> priceDelta <= 0.0
    ensures t == SimilarPrice <==> 0.0 < priceDelta <= 0.5
    ensures t == CostsMore <==> priceDelta > 0.5
  {
    if priceDelta <= 0.0 then Cheaper
    else if priceDelta <= 0.5 then SimilarPrice
    else CostsMore
  }

  /** The filter of the nested loops: different entries, the incoming one
      strictly faster, and its extra cost within the budget. */
  predicate Qualifies(out: Candidate, into: Candidate, budget: real) {
    && HasData(out) && HasData(into)
    && out.id != into.id
    && into.lapTime.value < out.lapTime.value
    && into.price.value - out.price.value <= budget
  }

  /** The record pushed for an accepted pair; an absent value score reads as 0. */
  function MakeSwap<E>(out: E, into: E, view: E -> Candidate): Swap<E>
    requires HasData(view(out)) && HasData(view(into))
  {
    var o, n := view(out), view(into);
    var priceDelta := n.price.value - o.price.value;
    Swap(out, into,
         o.lapTime.value - n.lapTime.value,
         priceDelta,
         n.valueScore.GetOr(0.0) - o.valueScore.GetOr(0.0),
         PriceTier(priceDelta))
  }

  /** What one iteration of the outer loop appends: `out` against every entry of `ins`. */
  function Row<E>(out: E, ins: seq<E>, view: E -> Candidate, budget: real): seq<Swap<E>> {
    if ins == [] then []
    else
      var into := ins[|ins| - 1];
      Row(out, ins[..|ins| - 1], view, budget)
        + (if Qualifies(view(out), view(into), budget) then [MakeSwap(out, into, view)] else [])
  }

  /** Everything the nested loops push, in push order. */
  function Accepted<E>(outs: seq<E>, ins: seq<E>, view: E -> Candidate, budget: real): seq<Swap<E>> {
    if outs == [] then []
    else Accepted(outs[..|outs| - 1], ins, view, budget) + Row(outs[|outs| - 1], ins, view, budget)
  }

  function Abs(x: real): real {
    if x < 0.0 then -x else x
  }

  /** The sort comparator: negative when `a` goes first. Time gains more than
      0.01 s apart decide; otherwise the larger value gain goes first. */
  function Compare<E>(a: Swap<E>, b: Swap<E>): real {
    if Abs(a.timeDelta - b.timeDelta) > 0.01 then b.timeDelta - a.timeDelta
    else b.valueScoreDelta - a.valueScoreDelta
  }

  /** One step of a stable insertion sort driven by `Compare`. */
  function Insert<E>(x: Swap<E>, s: seq<Swap<E>>): seq<Swap<E>> {
    if s == [] then [x]
    else if Compare(x, s[0]) < 0.0 then [x] + s
    else [s[0]] + Insert(x, s[1..])
  }

  /** `recommendations.sort(comparator)`, as a stable insertion sort. */
  function Rank<E>(s: seq<Swap<E>>): seq<Swap<E>> {
    if s == [] then [] else Insert(s[|s| - 1], Rank(s[..|s| - 1]))
  }

  /** The whole pipeline as a function of its inputs. */
  function Recommend<E>(items: seq<E>, view: E -> Candidate, budget: real): seq<Swap<E>> {
    var pool := Eligible(items, view);
    Rank(Accepted(pool, pool, view, budget))
  }

  /** The time gains of the list are pairwise more than 0.01 s apart. */
  ghost predicate WellSeparated<E>(s: seq<Swap<E>>) {
    forall i, j | 0 <= i < |s| && 0 <= j < |s| && i != j :: Abs(s[i].timeDelta - s[j].timeDelta) > 0.01
  }

  ghost predicate StrictlyDescending<E>(s: seq<Swap<E>>) {
    forall i, j | 0 <= i < j < |s| :: s[i].timeDelta > s[j].timeDelta
  }

  /** No two entries share an identity. */
  ghost predicate DistinctIds<E>(items: seq<E>, view: E -> Candidate) {
    forall i, j | 0 <= i < j < |items| :: view(items[i]).id != view(items[j]).id
  }

  /** The generator: filter, nested loops, sort. */
  method GenerateSwaps<E(==)>(items: seq<E>, view: E -> Candidate, budget: real) returns (recs: seq<Swap<E>>)
    ensures recs == Recommend(items, view, budget)
  {
    var pool := Eligible(items, view);
    EligibleHasData(items, view);
    var found: seq<Swap<E>> := [];
    for i := 0 to |pool|
      invariant found == Accepted(pool[..i], pool, view, budget)
    {
      var out := pool[i];
      found := PushRow(found, out, pool, view, budget);
      AcceptedSnoc(pool[..i], out, pool, view, budget);
      assert pool[..i + 1] == pool[..i] + [out];
    }
    assert pool[..|pool|] == pool;
    recs := Rank(found);
  }

  /** The inner loop of the generator: `out` against every entry of the pool,
      pushing a swap for every entry that qualifies. */
  method PushRow<E(==)>(found: seq<Swap<E>>, out: E, pool: seq<E>, view: E -> Candidate, budget: real)
    returns (pushed: seq<Swap<E>>)
    requires HasData(view(out)) && forall x | x in pool :: HasData(view(x))
    ensures pushed == found + Row(out, pool, view, budget)
  {
    pushed := found;
    for j := 0 to |pool|
      invariant pushed == found + Row(out, pool[..j], view, budget)
    {
      var into := pool[j];
      assert into in pool;
      RowSnoc(out, pool[..j], into, view, budget);
      assert pool[..j + 1] == pool[..j] + [into];
      if view(out).id == view(into).id {
        continue;
      }
      var priceDelta := view(into).price.value - view(out).price.value;
      if view(into).lapTime.value >= view(out).lapTime.value {
        continue;
      }
      if priceDelta > budget {
        continue;
      }
      var timeDelta := view(out).lapTime.value - view(into).lapTime.value;
      var valueScoreDelta := view(into).valueScore.GetOr(0.0) - view(out).valueScore.GetOr(0.0);
      var reason: Tier;
      if priceDelta <= 0.0 {
        reason := Cheaper;
      } else if priceDelta <= 0.5 {
        reason := SimilarPrice;
      } else {
        reason := CostsMore;
      }
      var swap := Swap(out, into, timeDelta, priceDelta, valueScoreDelta, reason);
      assert swap == MakeSwap(out, into, view);
      pushed := pushed + [swap];
    }
    assert pool[..|pool|] == pool;
  }

  // ---------------------------------------------------------------------------
  // What the nested loops accept

  /** One more inner iteration appends the swap for `into` when it qualifies. */
  lemma RowSnoc<E>(out: E, ins: seq<E>, into: E, view: E -> Candidate, budget: real)
    ensures Row(out, ins + [into], view, budget) == Row(out, ins, view, budget)
      + (if Qualifies(view(out), view(into), budget) then [MakeSwap(out, into, view)] else [])
  {
    assert (ins + [into])[..|ins|] == ins;
  }

  /** One more outer iteration appends the row of `out`. */
  lemma AcceptedSnoc<E>(outs: seq<E>, out: E, ins: seq<E>, view: E -> Candidate, budget: real)
    ensures Accepted(outs + [out], ins, view, budget) == Accepted(outs, ins, view, budget) + Row(out, ins, view, budget)
  {
    assert (outs + [out])[..|outs|] == outs;
  }

  lemma {:induction false} RowSound<E>(out: E, ins: seq<E>, view: E -> Candidate, budget: real)
    ensures forall s | s in Row(out, ins, view, budget) ::
      && s.out == out && s.into in ins
      && Qualifies(view(s.out), view(s.into), budget)
      && s == MakeSwap(s.out, s.into, view)
  {
    if ins != [] {
      RowSound(out, ins[..|ins| - 1], view, budget);
    }
  }

  /** Soundness: every pushed swap pairs an `out` entry with an `in` entry that
      pass the filter, and carries the deltas computed from them. */
  lemma {:induction false} AcceptedSound<E>(outs: seq<E>, ins: seq<E>, view: E -> Candidate, budget: real)
    ensures forall s | s in Accepted(outs, ins, view, budget) ::
      && s.out in outs && s.into in ins
      && Qualifies(view(s.out), view(s.into), budget)
      && s == MakeSwap(s.out, s.into, view)
  {
    if outs != [] {
      AcceptedSound(outs[..|outs| - 1], ins, view, budget);
      RowSound(outs[|outs| - 1], ins, view, budget);
    }
  }

  lemma {:induction false} RowCount<E>(out: E, ins: seq<E>, view: E -> Candidate, budget: real, a: E, b: E)
    requires Qualifies(view(a), view(b), budget)
    ensures multiset(Row(out, ins, view, budget))[MakeSwap(a, b, view)]
      == if out == a then multiset(ins)[b] else 0
  {
    if ins != [] {
      var pre, into := ins[..|ins| - 1], ins[|ins| - 1];
      assert ins == pre + [into];
      RowCount(out, pre, view, budget, a, b);
      if Qualifies(view(out), view(into), budget) {
        assert MakeSwap(out, into, view) == MakeSwap(a, b, view) <==> out == a && into == b;
      }
    }
  }

  /** Multiplicity: a qualifying pair is pushed once for every occurrence of
      its `out` entry times every occurrence of its `in` entry. */
  lemma {:induction false} AcceptedCount<E>(outs: seq<E>, ins: seq<E>, view: E -> Candidate, budget: real, a: E, b: E)
    requires Qualifies(view(a), view(b), budget)
    ensures multiset(Accepted(outs, ins, view, budget))[MakeSwap(a, b, view)]
      == multiset(outs)[a] * multiset(ins)[b]
  {
    if outs != [] {
      var pre, out := outs[..|outs| - 1], outs[|outs| - 1];
      assert outs == pre + [out];
      var t := MakeSwap(a, b, view);
      AcceptedCount(pre, ins, view, budget, a, b);
      RowCount(out, ins, view, budget, a, b);
      var m, n := multiset(pre)[a], multiset(ins)[b];
      assert multiset(Accepted(outs, ins, view, budget))[t]
        == multiset(Accepted(pre, ins, view, budget))[t] + multiset(Row(out, ins, view, budget))[t];
      assert multiset(outs) == multiset(pre) + multiset{out};
      CountStep(multiset(Accepted(pre, ins, view, budget))[t], multiset(Row(out, ins, view, budget))[t],
                m, n, multiset(outs)[a], out == a);
    }
  }

  lemma CountStep(before: nat, row: nat, m: nat, n: nat, total: nat, hit: bool)
    requires before == m * n
    requires row == if hit then n else 0
    requires total == if hit then m + 1 else m
    ensures before + row == total * n
  {
  }

  /** Completeness: every qualifying pair drawn from the two lists is pushed. */
  lemma AcceptedComplete<E>(outs: seq<E>, ins: seq<E>, view: E -> Candidate, budget: real, a: E, b: E)
    requires a in outs && b in ins && Qualifies(view(a), view(b), budget)
    ensures MakeSwap(a, b, view) in Accepted(outs, ins, view, budget)
  {
    AcceptedCount(outs, ins, view, budget, a, b);
    var m, n := multiset(outs)[a], multiset(ins)[b];
    assert m >= 1 && n >= 1;
    assert m * n >= 1;
  }

  // ---------------------------------------------------------------------------
  // The ranking

  lemma {:induction false} InsertPermutation<E>(x: Swap<E>, s: seq<Swap<E>>)
    ensures multiset(Insert(x, s)) == multiset(s) + multiset{x}
  {
    if s != [] && Compare(x, s[0]) >= 0.0 {
      InsertPermutation(x, s[1..]);
      assert s == [s[0]] + s[1..];
    }
  }

  /** The sort only reorders: the result is a permutation of what was pushed. */
  lemma {:induction false} RankPermutation<E>(s: seq<Swap<E>>)
    ensures multiset(Rank(s)) == multiset(s)
  {
    if s != [] {
      RankPermutation(s[..|s| - 1]);
      InsertPermutation(s[|s| - 1], Rank(s[..|s| - 1]));
      assert s == s[..|s| - 1] + [s[|s| - 1]];
    }
  }

  /** Every time gain in `s` is below `v`. */
  ghost predicate Below<E>(v: real, s: seq<Swap<E>>) {
    forall y | y in s :: y.timeDelta < v
  }

  lemma ConsDescending<E>(h: Swap<E>, t: seq<Swap<E>>)
    requires StrictlyDescending(t) && Below(h.timeDelta, t)
    ensures StrictlyDescending([h] + t)
  {
    var r := [h] + t;
    forall i, j | 0 <= i < j < |r| ensures r[i].timeDelta > r[j].timeDelta {
      assert r[j] == t[j - 1];
      if i > 0 { assert r[i] == t[i - 1]; } else { assert t[j - 1] in t; }
    }
  }

  lemma UnconsDescending<E>(s: seq<Swap<E>>)
    requires s != [] && StrictlyDescending(s)
    ensures StrictlyDescending(s[1..]) && Below(s[0].timeDelta, s[1..])
  {
    var t := s[1..];
    forall y | y in t ensures y.timeDelta < s[0].timeDelta {
      var k :| 0 <= k < |t| && t[k] == y;
      assert s[k + 1] == y;
    }
  }

  lemma InsertMembers<E>(x: Swap<E>, t: seq<Swap<E>>)
    ensures forall y | y in Insert(x, t) :: y == x || y in t
  {
    InsertPermutation(x, t);
    forall y | y in Insert(x, t) ensures y == x || y in t {
      assert y in multiset(Insert(x, t));
    }
  }

  lemma {:induction false} InsertDescending<E>(x: Swap<E>, s: seq<Swap<E>>)
    requires StrictlyDescending(s)
    requires forall y | y in s :: Abs(x.timeDelta - y.timeDelta) > 0.01
    ensures StrictlyDescending(Insert(x, s))
  {
    if s == [] {
    } else {
      assert s[0] in s;
      UnconsDescending(s);
      var t := s[1..];
      if Compare(x, s[0]) < 0.0 {
        assert x.timeDelta > s[0].timeDelta;
        ConsDescending(x, s);
      } else {
        assert x.timeDelta < s[0].timeDelta;
        forall y | y in t ensures Abs(x.timeDelta - y.timeDelta) > 0.01 {
          assert y in s;
        }
        InsertDescending(x, t);
        InsertMembers(x, t);
        ConsDescending(s[0], Insert(x, t));
      }
    }
  }

  /** When every two time gains are more than 0.01 s apart, the comparator is a
      strict order on them and the ranking is strictly descending by time gain. */
  lemma {:induction false} RankDescending<E>(s: seq<Swap<E>>)
    requires WellSeparated(s)
    ensures StrictlyDescending(Rank(s))
  {
    if s != [] {
      var pre, x := s[..|s| - 1], s[|s| - 1];
      assert WellSeparated(pre) by {
        forall i, j | 0 <= i < |pre| && 0 <= j < |pre| && i != j
          ensures Abs(pre[i].timeDelta - pre[j].timeDelta) > 0.01
        {
          assert pre[i] == s[i] && pre[j] == s[j];
        }
      }
      RankDescending(pre);
      RankPermutation(pre);
      forall y | y in Rank(pre) ensures Abs(x.timeDelta - y.timeDelta) > 0.01 {
        assert y in multiset(Rank(pre));
        assert y in pre;
        var k :| 0 <= k < |pre| && pre[k] == y;
        assert s[k] == y && k != |s| - 1;
      }
      InsertDescending(x, Rank(pre));
    }
  }

  // ---------------------------------------------------------------------------
  // Properties of the generator's output

  /** Every eligible entry has a lap time and a price. */
  lemma EligibleHasData<E>(items: seq<E>, view: E -> Candidate)
    ensures forall x | x in Eligible(items, view) :: HasData(view(x))
  {
    forall x | x in Eligible(items, view) ensures HasData(view(x)) {
      assert HasDataOf(view)(x);
    }
  }

  lemma EligibleMembership<E>(items: seq<E>, view: E -> Candidate, a: E)
    ensures a in Eligible(items, view) <==> a in items && HasData(view(a))
  {
  }

  lemma RecommendedWasAccepted<E>(items: seq<E>, view: E -> Candidate, budget: real, s: Swap<E>)
    requires s in Recommend(items, view, budget)
    ensures s.out in items && s.into in items
    ensures Qualifies(view(s.out), view(s.into), budget) && s == MakeSwap(s.out, s.into, view)
  {
    var pool := Eligible(items, view);
    var acc := Accepted(pool, pool, view, budget);
    RankPermutation(acc);
    assert s in multiset(Rank(acc));
    assert s in acc;
    AcceptedSound(pool, pool, view, budget);
  }

  /** Every recommendation is a qualifying pair of input entries with the
      source's deltas: a strictly positive time gain, an extra cost within the
      budget, absent value scores read as 0, and the tier of its extra cost. */
  lemma RecommendSound<E>(items: seq<E>, view: E -> Candidate, budget: real, s: Swap<E>)
    requires s in Recommend(items, view, budget)
    ensures s.out in items && s.into in items
    ensures HasData(view(s.out)) && HasData(view(s.into))
    ensures view(s.out).id != view(s.into).id
    ensures view(s.into).lapTime.value < view(s.out).lapTime.value
    ensures s.timeDelta == view(s.out).lapTime.value - view(s.into).lapTime.value > 0.0
    ensures s.priceDelta == view(s.into).price.value - view(s.out).price.value <= budget
    ensures s.valueScoreDelta == view(s.into).valueScore.GetOr(0.0) - view(s.out).valueScore.GetOr(0.0)
    ensures s.reason == PriceTier(s.priceDelta)
  {
    RecommendedWasAccepted(items, view, budget, s);
  }

  /** Every qualifying ordered pair of input entries is recommended. */
  lemma RecommendComplete<E>(items: seq<E>, view: E -> Candidate, budget: real, a: E, b: E)
    requires a in items && b in items && Qualifies(view(a), view(b), budget)
    ensures MakeSwap(a, b, view) in Recommend(items, view, budget)
  {
    var pool := Eligible(items, view);
    AcceptedComplete(pool, pool, view, budget, a, b);
    RankPermutation(Accepted(pool, pool, view, budget));
    assert MakeSwap(a, b, view) in multiset(Rank(Accepted(pool, pool, view, budget)));
  }

  lemma {:induction false} DistinctOccursOnce<E>(items: seq<E>, view: E -> Candidate, a: E)
    requires DistinctIds(items, view) && a in items
    ensures multiset(items)[a] == 1
  {
    var pre, x := items[..|items| - 1], items[|items| - 1];
    assert items == pre + [x];
    if x == a {
      forall k | 0 <= k < |pre| ensures pre[k] != a {
        assert items[k] == pre[k];
      }
    } else {
      assert a in pre;
      assert DistinctIds(pre, view) by {
        forall i, j | 0 <= i < j < |pre| ensures view(pre[i]).id != view(pre[j]).id {
          assert pre[i] == items[i] && pre[j] == items[j];
        }
      }
      DistinctOccursOnce(pre, view, a);
    }
  }

  /** With distinct identities, every qualifying ordered pair is recommended
      exactly once. */
  lemma RecommendedExactlyOnce<E>(items: seq<E>, view: E -> Candidate, budget: real, a: E, b: E)
    requires DistinctIds(items, view)
    requires a in items && b in items && Qualifies(view(a), view(b), budget)
    ensures multiset(Recommend(items, view, budget))[MakeSwap(a, b, view)] == 1
  {
    var pool := Eligible(items, view);
    var acc := Accepted(pool, pool, view, budget);
    assert multiset(pool)[a] == 1 by {
      FilterCount(items, HasDataOf(view), a);
      DistinctOccursOnce(items, view, a);
      assert HasDataOf(view)(a);
    }
    assert multiset(pool)[b] == 1 by {
      FilterCount(items, HasDataOf(view), b);
      DistinctOccursOnce(items, view, b);
      assert HasDataOf(view)(b);
    }
    assert multiset(acc)[MakeSwap(a, b, view)] == 1 by {
      AcceptedCount(pool, pool, view, budget, a, b);
    }
    RankPermutation(acc);
  }

  /** Of the two directions of a pair, at most one is recommended. */
  lemma NeverBothDirections<E>(items: seq<E>, view: E -> Candidate, budget: real, s: Swap<E>, t: Swap<E>)
    requires s in Recommend(items, view, budget) && t in Recommend(items, view, budget)
    ensures !(t.out == s.into && t.into == s.out)
  {
    RecommendSound(items, view, budget, s);
    RecommendSound(items, view, budget, t);
  }

  /** Raising the budget never removes a recommendation. */
  lemma BudgetMonotone<E>(items: seq<E>, view: E -> Candidate, low: real, high: real, s: Swap<E>)
    requires low <= high
    requires s in Recommend(items, view, low)
    ensures s in Recommend(items, view, high)
  {
    RecommendedWasAccepted(items, view, low, s);
    RecommendComplete(items, view, high, s.out, s.into);
  }

  /** The ranking is a permutation of the accepted pairs; when their time gains
      are pairwise more than 0.01 s apart it is strictly descending by time gain. */
  lemma RecommendOrder<E>(items: seq<E>, view: E -> Candidate, budget: real)
    ensures var pool := Eligible(items, view);
      multiset(Recommend(items, view, budget)) == multiset(Accepted(pool, pool, view, budget))
    ensures var pool := Eligible(items, view);
      WellSeparated(Accepted(pool, pool, view, budget)) ==> StrictlyDescending(Recommend(items, view, budget))
  {
    var pool := Eligible(items, view);
    RankPermutation(Accepted(pool, pool, view, budget));
    if WellSeparated(Accepted(pool, pool, view, budget)) {
      RankDescending(Accepted(pool, pool, view, budget));
    }
  }
}
