/** The analysis layer: merge each driver's session performance with the
    driver's fantasy price, score value for money, order the drivers by lap
    time, and recommend transfers within a budget. */
module Analyzer {
  import opened Prelude
  import opened Types
  import opened IndexMaps
  import opened Swaps
  import opened Fantasy
  import OpenF1

  // ---------------------------------------------------------------------------
  // Matching a driver to the price list

  /** The first entry, in the map's iteration order, whose upper-cased last
      name is `target`. */
  function ScanByLastName(keys: seq<string>, entries: map<string, FantasyDriver>, target: string): Option<FantasyDriver>
    requires forall k | k in keys :: k in entries
  {
    if keys == [] then None
    else if Upper(entries[keys[0]].lastName) == target then Some(entries[keys[0]])
    else ScanByLastName(keys[1..], entries, target)
  }

  /** The price entry of a driver: the entry filed under the driver's
      upper-cased last name, else the first entry whose upper-cased last name
      equals it, else none. */
  function MatchedDriver(p: DriverPerformance, priceMap: IndexMap<FantasyDriver>): Option<FantasyDriver>
    requires priceMap.Valid()
  {
    var target := Upper(p.driver.lastName);
    if target in priceMap.entries then Some(priceMap.entries[target])
    else ScanByLastName(priceMap.keys, priceMap.entries, target)
  }

  /** The lookup and the fallback loop over the map. */
  method MatchFantasyDriver(p: DriverPerformance, priceMap: IndexMap<FantasyDriver>) returns (r: Option<FantasyDriver>)
    requires priceMap.Valid()
    ensures r == MatchedDriver(p, priceMap)
  {
    var target := Upper(p.driver.lastName);
    if target in priceMap.entries {
      return Some(priceMap.entries[target]);
    }
    var i := 0;
    while i < |priceMap.keys|
      invariant 0 <= i <= |priceMap.keys|
      invariant ScanByLastName(priceMap.keys[i..], priceMap.entries, target)
             == ScanByLastName(priceMap.keys, priceMap.entries, target)
    {
      var fd := priceMap.entries[priceMap.keys[i]];
      if Upper(fd.lastName) == target {
        return Some(fd);
      }
      assert priceMap.keys[i..][1..] == priceMap.keys[i + 1..];
      i := i + 1;
    }
    return None;
  }

  /** Key `keys[i]` is the first key, in iteration order, whose entry has the
      upper-cased last name `target`. */
  ghost predicate FirstWithName(keys: seq<string>, entries: map<string, FantasyDriver>, target: string, i: int)
    requires forall k | k in keys :: k in entries
  {
    && 0 <= i < |keys|
    && Upper(entries[keys[i]].lastName) == target
    && forall j | 0 <= j < i :: Upper(entries[keys[j]].lastName) != target
  }

  /** The scan returns the entry of the first key whose entry carries the
      name, and returns nothing exactly when no key's entry carries it. */
  lemma {:induction false} ScanFinds(keys: seq<string>, entries: map<string, FantasyDriver>, target: string)
    requires forall k | k in keys :: k in entries
    ensures ScanByLastName(keys, entries, target).Some? ==>
      var fd := ScanByLastName(keys, entries, target).value;
      && fd in entries.Values && Upper(fd.lastName) == target
      && exists i :: FirstWithName(keys, entries, target, i) && fd == entries[keys[i]]
    ensures ScanByLastName(keys, entries, target).None? <==>
      forall k | k in keys :: Upper(entries[k].lastName) != target
  {
    if keys != [] {
      assert keys[0] in keys;
      ScanFinds(keys[1..], entries, target);
      assert forall k | k in keys[1..] :: k in keys;
      assert forall k | k in keys && k != keys[0] :: k in keys[1..];
      if Upper(entries[keys[0]].lastName) == target {
        assert FirstWithName(keys, entries, target, 0);
      } else if ScanByLastName(keys[1..], entries, target).Some? {
        var i :| FirstWithName(keys[1..], entries, target, i)
              && ScanByLastName(keys[1..], entries, target).value == entries[keys[1..][i]];
        assert FirstWithName(keys, entries, target, i + 1);
      }
    }
  }

  /** What the match returns: the entry filed under the name when there is
      one; otherwise the first entry, in insertion order, with that upper-cased
      last name; and nothing only when no entry has it. */
  lemma MatchedDriverSpec(p: DriverPerformance, priceMap: IndexMap<FantasyDriver>)
    requires priceMap.Valid()
    ensures var target := Upper(p.driver.lastName);
      && (target in priceMap.entries ==> MatchedDriver(p, priceMap) == Some(priceMap.entries[target]))
      && (MatchedDriver(p, priceMap).Some? ==>
            MatchedDriver(p, priceMap).value in priceMap.entries.Values)
      && (MatchedDriver(p, priceMap).Some? && target !in priceMap.entries ==>
            && Upper(MatchedDriver(p, priceMap).value.lastName) == target
            && exists i :: FirstWithName(priceMap.keys, priceMap.entries, target, i)
                        && MatchedDriver(p, priceMap).value == priceMap.entries[priceMap.keys[i]])
      && (MatchedDriver(p, priceMap).None? <==>
            forall k | k in priceMap.entries :: k != target && Upper(priceMap.entries[k].lastName) != target)
  {
    ScanFinds(priceMap.keys, priceMap.entries, Upper(p.driver.lastName));
  }

  /** On a map built from the price list, the fallback never finds anything
      the direct lookup missed: every entry is filed under its own upper-cased
      last name. */
  lemma FallbackFindsNothingNew(p: DriverPerformance, data: FantasyData)
    ensures IndexOf(data.drivers, DriverKey).Valid()
    ensures MatchedDriver(p, IndexOf(data.drivers, DriverKey))
         == IndexOf(data.drivers, DriverKey).Get(Upper(p.driver.lastName))
  {
    var m := IndexOf(data.drivers, DriverKey);
    IndexSize(data.drivers, DriverKey);
    IndexSelfKeyed(data.drivers, DriverKey);
    MatchedDriverSpec(p, m);
  }

  // ---------------------------------------------------------------------------
  // Value for money

  /** Speed per unit of price: none without a lap time, without a price, or
      with a zero price; otherwise 1000 / (lap time × price). */
  function CalculateValueScore(lapTime: Option<Duration>, price: Option<real>): (r: Option<real>)
    ensures r.None? <==> lapTime.None? || price.None? || price.value == 0.0
    ensures r.Some? ==> r.value * lapTime.value * price.value == 1000.0
  {
    if lapTime.None? || price.None? || price.value == 0.0 then None
    else Some((1.0 / lapTime.value) * 1000.0 / price.value)
  }

  /** At equal price, the faster lap scores higher. */
  lemma FasterScoresHigher(fast: Duration, slow: Duration, price: real)
    requires fast < slow && price > 0.0
    ensures CalculateValueScore(Some(fast), Some(price)).value
          > CalculateValueScore(Some(slow), Some(price)).value
  {
    var a := CalculateValueScore(Some(fast), Some(price)).value;
    var b := CalculateValueScore(Some(slow), Some(price)).value;
    assert a * (fast * price) == b * (slow * price) == 1000.0;
    assert fast * price < slow * price;
  }

  /** At equal lap time, the cheaper driver scores higher. */
  lemma CheaperScoresHigher(lapTime: Duration, cheap: real, dear: real)
    requires 0.0 < cheap < dear
    ensures CalculateValueScore(Some(lapTime), Some(cheap)).value
          > CalculateValueScore(Some(lapTime), Some(dear)).value
  {
    var a := CalculateValueScore(Some(lapTime), Some(cheap)).value;
    var b := CalculateValueScore(Some(lapTime), Some(dear)).value;
    assert a * (lapTime * cheap) == b * (lapTime * dear) == 1000.0;
    assert lapTime * cheap < lapTime * dear;
  }

  // ---------------------------------------------------------------------------
  // One row of the analysis

  /** The value score of a row agrees with its own lap time and price. */
  ghost predicate ScoreConsistent(a: DriverAnalysis) {
    && (a.valueScore.None? <==> a.bestLapTime.None? || a.price.None? || a.price.value == 0.0)
    && (a.valueScore.Some? ==> a.valueScore.value * a.bestLapTime.value * a.price.value == 1000.0)
  }

  /** A performance merged with its price entry, if any. */
  function BuildDriverAnalysis(p: DriverPerformance, fantasy: Option<FantasyDriver>): (a: DriverAnalysis)
    ensures a.driverNumber == p.driver.driverNumber && a.firstName == p.driver.firstName
    ensures a.lastName == p.driver.lastName && a.nameAcronym == p.driver.nameAcronym
    ensures a.teamName == p.driver.teamName && a.teamColour == p.driver.teamColour
    ensures a.headshotUrl == p.driver.headshotUrl
    ensures a.bestSectors == p.bestSectors && a.topSpeed == p.topSpeed
    ensures a.lapCount == p.lapCount && a.sessionName == p.sessionName
    ensures a.bestLapTime.Some? <==> p.bestLap.Some? && p.bestLap.value.lapDuration.Some?
    ensures a.bestLapTime.Some? ==> a.bestLapTime == p.bestLap.value.lapDuration
    ensures a.price.Some? <==> fantasy.Some?
    ensures fantasy.Some? ==>
      && a.price == Some(fantasy.value.price)
      && a.priceChange == Some(fantasy.value.priceChange)
      && a.selectedPercentage == Some(fantasy.value.selectedPercentage)
      && a.overallPoints == Some(fantasy.value.overallPoints)
    ensures fantasy.None? ==> a.priceChange.None? && a.selectedPercentage.None? && a.overallPoints.None?
    ensures ScoreConsistent(a)
  {
    var bestLapTime := if p.bestLap.Some? then p.bestLap.value.lapDuration else None;
    var price := if fantasy.Some? then Some(fantasy.value.price) else None;
    DriverAnalysis(
      p.driver.driverNumber, p.driver.firstName, p.driver.lastName, p.driver.nameAcronym,
      p.driver.teamName, p.driver.teamColour, p.driver.headshotUrl,
      bestLapTime, p.bestSectors, p.topSpeed, p.lapCount,
      price,
      if fantasy.Some? then Some(fantasy.value.priceChange) else None,
      if fantasy.Some? then Some(fantasy.value.selectedPercentage) else None,
      if fantasy.Some? then Some(fantasy.value.overallPoints) else None,
      CalculateValueScore(bestLapTime, price),
      p.sessionName)
  }

  // ---------------------------------------------------------------------------
  // Ordering by lap time

  /** The comparator: rows without a lap time go last, the rest ascending. */
  function LapCompare(a: DriverAnalysis, b: DriverAnalysis): real {
    if a.bestLapTime.None? then 1.0
    else if b.bestLapTime.None? then -1.0
    else a.bestLapTime.value - b.bestLapTime.value
  }

  function InsertByLap(x: DriverAnalysis, s: seq<DriverAnalysis>): seq<DriverAnalysis> {
    if s == [] then [x]
    else if LapCompare(x, s[0]) < 0.0 then [x] + s
    else [s[0]] + InsertByLap(x, s[1..])
  }

  /** `analyses.sort(comparator)`, as a stable insertion sort. */
  function SortByLapTime(s: seq<DriverAnalysis>): seq<DriverAnalysis> {
    if s == [] then [] else InsertByLap(s[|s| - 1], SortByLapTime(s[..|s| - 1]))
  }

  /** `a` may precede `b`: if `b` has a lap time, so does `a`, and it is no slower. */
  ghost predicate NoSlower(a: DriverAnalysis, b: DriverAnalysis) {
    b.bestLapTime.Some? ==> a.bestLapTime.Some? && a.bestLapTime.value <= b.bestLapTime.value
  }

  /** Timed rows ascending by lap time, untimed rows after all of them. */
  ghost predicate LapOrdered(s: seq<DriverAnalysis>) {
    forall i, j | 0 <= i < j < |s| :: NoSlower(s[i], s[j])
  }

  lemma {:induction false} InsertByLapPermutation(x: DriverAnalysis, s: seq<DriverAnalysis>)
    ensures multiset(InsertByLap(x, s)) == multiset(s) + multiset{x}
  {
    if s != [] && LapCompare(x, s[0]) >= 0.0 {
      InsertByLapPermutation(x, s[1..]);
      assert s == [s[0]] + s[1..];
    }
  }

  /** The sort only reorders. */
  lemma {:induction false} SortByLapTimePermutation(s: seq<DriverAnalysis>)
    ensures multiset(SortByLapTime(s)) == multiset(s)
  {
    if s != [] {
      var pre, last := s[..|s| - 1], s[|s| - 1];
      assert s == pre + [last];
      SortByLapTimePermutation(pre);
      InsertByLapPermutation(last, SortByLapTime(pre));
      assert SortByLapTime(s) == InsertByLap(last, SortByLapTime(pre));
      assert multiset(s) == multiset(pre) + multiset{last};
    }
  }

  lemma ConsLapOrdered(h: DriverAnalysis, t: seq<DriverAnalysis>)
    requires LapOrdered(t) && forall y | y in t :: NoSlower(h, y)
    ensures LapOrdered([h] + t)
  {
    var r := [h] + t;
    forall i, j | 0 <= i < j < |r| ensures NoSlower(r[i], r[j]) {
      assert r[j] == t[j - 1];
      if i > 0 { assert r[i] == t[i - 1]; } else { assert t[j - 1] in t; }
    }
  }

  lemma {:induction false} InsertByLapOrdered(x: DriverAnalysis, s: seq<DriverAnalysis>)
    requires LapOrdered(s)
    ensures LapOrdered(InsertByLap(x, s))
  {
    if s != [] {
      var t := s[1..];
      assert LapOrdered(t) by {
        forall i, j | 0 <= i < j < |t| ensures NoSlower(t[i], t[j]) {
          assert t[i] == s[i + 1] && t[j] == s[j + 1];
        }
      }
      assert forall y | y in t :: NoSlower(s[0], y) by {
        forall y | y in t ensures NoSlower(s[0], y) {
          var k :| 0 <= k < |t| && t[k] == y;
          assert s[k + 1] == y;
        }
      }
      if LapCompare(x, s[0]) < 0.0 {
        forall y | y in s ensures NoSlower(x, y) {
          var k :| 0 <= k < |s| && s[k] == y;
          if k > 0 { assert NoSlower(s[0], s[k]); }
        }
        ConsLapOrdered(x, s);
      } else {
        InsertByLapOrdered(x, t);
        InsertByLapPermutation(x, t);
        forall y | y in InsertByLap(x, t) ensures NoSlower(s[0], y) {
          assert y in multiset(InsertByLap(x, t));
        }
        ConsLapOrdered(s[0], InsertByLap(x, t));
      }
    }
  }

  /** The sorted rows are ascending by lap time with untimed rows last. */
  lemma {:induction false} SortByLapTimeOrdered(s: seq<DriverAnalysis>)
    ensures LapOrdered(SortByLapTime(s))
  {
    if s != [] {
      SortByLapTimeOrdered(s[..|s| - 1]);
      InsertByLapOrdered(s[|s| - 1], SortByLapTime(s[..|s| - 1]));
    }
  }

  // ---------------------------------------------------------------------------
  // The analysis of one session

  /** The session to analyse: the one asked for, unless its key is absent or
      zero; then the last practice session of the latest meeting, if any. */
  function ResolveSessionKey(sessionKey: Option<int>, meeting: Option<Meeting>, practiceSessions: seq<Session>): (r: Option<int>)
    ensures sessionKey.Some? && sessionKey.value != 0 ==> r == sessionKey
    ensures (sessionKey.None? || sessionKey.value == 0) ==>
      && (r.Some? <==> meeting.Some? && practiceSessions != [])
      && (r.Some? ==> r.value == practiceSessions[|practiceSessions| - 1].sessionKey)
  {
    if sessionKey.Some? && sessionKey.value != 0 then sessionKey
    else if meeting.None? then None
    else if practiceSessions == [] then None
    else Some(practiceSessions[|practiceSessions| - 1].sessionKey)
  }

  /** Without a usable key, the session analysed is the last practice session
      in the meeting's list of sessions. */
  lemma ResolveUsesLastPractice(sessionKey: Option<int>, meeting: Option<Meeting>, sessions: seq<Session>) returns (k: nat)
    requires sessionKey.None? || sessionKey.value == 0
    requires meeting.Some? && OpenF1.PracticeSessions(sessions) != []
    ensures k < |sessions| && OpenF1.IsPractice(sessions[k])
    ensures ResolveSessionKey(sessionKey, meeting, OpenF1.PracticeSessions(sessions)) == Some(sessions[k].sessionKey)
    ensures forall j | k < j < |sessions| :: !OpenF1.IsPractice(sessions[j])
  {
    k := OpenF1.LastPracticeSession(sessions);
  }

  /** Every performance merged with its matched price entry. */
  function BuildAll(performances: seq<DriverPerformance>, priceMap: IndexMap<FantasyDriver>): (r: seq<DriverAnalysis>)
    requires priceMap.Valid()
    ensures |r| == |performances|
    ensures forall i | 0 <= i < |r| :: r[i] == BuildDriverAnalysis(performances[i], MatchedDriver(performances[i], priceMap))
  {
    seq(|performances|, i requires 0 <= i < |performances| =>
      BuildDriverAnalysis(performances[i], MatchedDriver(performances[i], priceMap)))
  }

  /** The analysis: nothing when no session could be chosen, otherwise every
      performance of that session merged with its price and sorted by lap time.
      `performances` are those of the chosen session. */
  function AnalyzeDrivers(target: Option<int>, performances: seq<DriverPerformance>, priceMap: IndexMap<FantasyDriver>): seq<DriverAnalysis>
    requires priceMap.Valid()
  {
    if target.None? then [] else SortByLapTime(BuildAll(performances, priceMap))
  }

  /** The analysis holds one row per performance, ordered by lap time with
      untimed drivers last, and every row's score agrees with its time and price. */
  lemma AnalyzeDriversSpec(target: Option<int>, performances: seq<DriverPerformance>, priceMap: IndexMap<FantasyDriver>)
    requires priceMap.Valid()
    ensures target.None? ==> AnalyzeDrivers(target, performances, priceMap) == []
    ensures target.Some? ==>
      var r := AnalyzeDrivers(target, performances, priceMap);
      && multiset(r) == multiset(BuildAll(performances, priceMap))
      && |r| == |performances|
      && LapOrdered(r)
      && forall a | a in r :: ScoreConsistent(a)
  {
    if target.Some? {
      var built := BuildAll(performances, priceMap);
      SortByLapTimePermutation(built);
      SortByLapTimeOrdered(built);
      var r := SortByLapTime(built);
      assert |r| == |multiset(r)| == |multiset(built)| == |built|;
      forall a | a in r ensures ScoreConsistent(a) {
        assert a in multiset(built);
      }
    }
  }

  // ---------------------------------------------------------------------------
  // Transfer recommendations

  /** All swaps of a slower driver for a faster one within the budget, most
      time gained first. */
  method GenerateRecommendations(drivers: seq<DriverAnalysis>, budget: real) returns (recs: seq<SwapRecommendation>)
    ensures recs == Recommend(drivers, DriverView, budget)
    ensures forall s | s in recs ::
      && s.out in drivers && s.into in drivers
      && s.out.bestLapTime.Some? && s.out.price.Some?
      && s.into.bestLapTime.Some? && s.into.price.Some?
      && s.out.driverNumber != s.into.driverNumber
      && s.timeDelta == s.out.bestLapTime.value - s.into.bestLapTime.value > 0.0
      && s.priceDelta == s.into.price.value - s.out.price.value <= budget
      && s.valueScoreDelta == s.into.valueScore.GetOr(0.0) - s.out.valueScore.GetOr(0.0)
      && s.reason == PriceTier(s.priceDelta)
    ensures forall a, b | a in drivers && b in drivers && Qualifies(DriverView(a), DriverView(b), budget) ::
      MakeSwap(a, b, DriverView) in recs
  {
    recs := GenerateSwaps(drivers, DriverView, budget);
    forall s | s in recs {
      RecommendedWasAccepted(drivers, DriverView, budget, s);
    }
    forall a, b | a in drivers && b in drivers && Qualifies(DriverView(a), DriverView(b), budget) {
      RecommendComplete(drivers, DriverView, budget, a, b);
    }
  }
}
