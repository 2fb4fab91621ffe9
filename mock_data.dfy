/** The built-in demonstration data: twenty analysed drivers and ten analysed
    constructors of one practice session, the price list derived from them, and
    the recommendations computed on them. */
module MockData {
  import opened Prelude
  import opened Types
  import opened Swaps
  import opened Analyzer

  const SessionName: string := "Practice 2"

  /** One fixture driver: every fixture driver has a lap time, sector times,
      a top speed, a price and a value score, and no headshot. */
  datatype MockDriver = MockDriver(
    number: int, first: string, last: string, acronym: string, team: string, colour: string,
    lap: Duration, s1: real, s2: real, s3: real, topSpeed: real, lapCount: nat,
    price: real, priceChange: real, selected: real, points: real, value: real)
  {
    function Analysis(): (a: DriverAnalysis)
      ensures a.bestLapTime.Some? && a.price.Some? && a.priceChange.Some?
      ensures a.selectedPercentage.Some? && a.overallPoints.Some? && a.valueScore.Some?
    {
      DriverAnalysis(number, first, last, acronym, team, colour, None, Some(lap),
                     Sectors(Some(s1), Some(s2), Some(s3)), Some(topSpeed), lapCount,
                     Some(price), Some(priceChange), Some(selected), Some(points), Some(value), SessionName)
    }
  }

  /** One fixture constructor with its two drivers' acronyms. */
  datatype MockConstructor = MockConstructor(
    name: string, colour: string, best: Duration, avg: real, drivers: seq<string>,
    price: real, priceChange: real, selected: real, points: real, value: real)
  {
    function Analysis(): (a: ConstructorAnalysis)
      ensures a.bestLapTime.Some? && a.avgLapTime.Some? && a.price.Some? && a.priceChange.Some?
      ensures a.selectedPercentage.Some? && a.overallPoints.Some? && a.valueScore.Some?
    {
      ConstructorAnalysis(name, colour, Some(best), Some(avg), drivers,
                          Some(price), Some(priceChange), Some(selected), Some(points), Some(value))
    }
  }

  const MockDriverRows: seq<MockDriver> := [
    MockDriver(1, "Max", "Verstappen", "VER", "Red Bull Racing", "3671C6",
               90.456, 28.812, 33.201, 28.443, 328.0, 24, 30.5, 0.3, 62.1, 187.0, 0.362),
    MockDriver(4, "Lando", "Norris", "NOR", "McLaren", "FF8000",
               90.612, 28.901, 33.198, 28.513, 331.0, 27, 26.0, 0.5, 48.3, 156.0, 0.424),
    MockDriver(16, "Charles", "Leclerc", "LEC", "Ferrari", "E8002D",
               90.789, 28.956, 33.312, 28.521, 330.0, 22, 25.0, -0.2, 41.7, 143.0, 0.441),
    MockDriver(44, "Lewis", "Hamilton", "HAM", "Ferrari", "E8002D",
               90.923, 29.012, 33.389, 28.522, 329.0, 25, 27.0, -0.5, 38.9, 134.0, 0.408),
    MockDriver(63, "George", "Russell", "RUS", "Mercedes", "27F4D2",
               91.034, 29.102, 33.456, 28.476, 327.0, 26, 22.5, 0.0, 35.2, 128.0, 0.488),
    MockDriver(81, "Oscar", "Piastri", "PIA", "McLaren", "FF8000",
               91.201, 29.189, 33.498, 28.514, 330.0, 23, 21.0, 0.8, 33.1, 119.0, 0.523),
    MockDriver(14, "Fernando", "Alonso", "ALO", "Aston Martin", "229971",
               91.345, 29.234, 33.567, 28.544, 325.0, 28, 18.5, -0.3, 22.4, 98.0, 0.592),
    MockDriver(30, "Liam", "Lawson", "LAW", "Red Bull Racing", "3671C6",
               91.567, 29.345, 33.612, 28.610, 326.0, 21, 14.0, 0.2, 18.6, 72.0, 0.782),
    MockDriver(10, "Pierre", "Gasly", "GAS", "Alpine", "FF87BC",
               91.678, 29.401, 33.689, 28.588, 324.0, 25, 13.5, 0.0, 15.3, 64.0, 0.808),
    MockDriver(18, "Lance", "Stroll", "STR", "Aston Martin", "229971",
               91.890, 29.501, 33.745, 28.644, 323.0, 22, 11.0, -0.2, 10.5, 45.0, 0.989),
    MockDriver(12, "Andrea Kimi", "Antonelli", "ANT", "Mercedes", "27F4D2",
               91.456, 29.278, 33.601, 28.577, 326.0, 20, 15.0, 0.4, 19.8, 76.0, 0.729),
    MockDriver(22, "Yuki", "Tsunoda", "TSU", "RB", "6692FF",
               91.712, 29.423, 33.701, 28.588, 325.0, 26, 12.0, 0.1, 14.2, 58.0, 0.908),
    MockDriver(20, "Isack", "Hadjar", "HAD", "RB", "6692FF",
               92.134, 29.567, 33.823, 28.744, 323.0, 19, 8.5, 0.0, 8.7, 32.0, 1.278),
    MockDriver(55, "Carlos", "Sainz", "SAI", "Williams", "64C4FF",
               91.956, 29.512, 33.789, 28.655, 322.0, 24, 16.5, -0.4, 21.0, 87.0, 0.660),
    MockDriver(2, "Logan", "Sargeant", "SAR", "Williams", "64C4FF",
               92.456, 29.678, 33.912, 28.866, 321.0, 21, 7.0, -0.1, 5.3, 18.0, 1.546),
    MockDriver(31, "Esteban", "Ocon", "OCO", "Haas", "B6BABD",
               92.012, 29.534, 33.801, 28.677, 324.0, 23, 10.5, 0.0, 9.8, 41.0, 1.035),
    MockDriver(87, "Oliver", "Bearman", "BEA", "Haas", "B6BABD",
               92.289, 29.612, 33.878, 28.799, 322.0, 20, 8.0, 0.2, 7.1, 27.0, 1.354),
    MockDriver(7, "Jack", "Doohan", "DOO", "Alpine", "FF87BC",
               92.345, 29.634, 33.889, 28.822, 323.0, 18, 7.5, 0.0, 6.2, 22.0, 1.443),
    MockDriver(27, "Nico", "Huelkenberg", "HUL", "Kick Sauber", "52E252",
               92.123, 29.556, 33.834, 28.733, 321.0, 24, 9.0, -0.3, 8.4, 35.0, 1.207),
    MockDriver(5, "Gabriel", "Bortoleto", "BOR", "Kick Sauber", "52E252",
               92.567, 29.712, 33.945, 28.910, 320.0, 17, 6.5, 0.0, 4.8, 15.0, 1.662)
  ]

  const MockConstructorRows: seq<MockConstructor> := [
    MockConstructor("Red Bull Racing", "3671C6", 90.456, 91.012, ["VER", "LAW"], 32.0, 0.5, 55.2, 245.0, 0.346),
    MockConstructor("McLaren", "FF8000", 90.612, 90.907, ["NOR", "PIA"], 28.5, 0.8, 47.8, 218.0, 0.388),
    MockConstructor("Ferrari", "E8002D", 90.789, 90.856, ["LEC", "HAM"], 30.0, -0.3, 43.1, 201.0, 0.367),
    MockConstructor("Mercedes", "27F4D2", 91.034, 91.245, ["RUS", "ANT"], 24.0, 0.2, 36.4, 172.0, 0.458),
    MockConstructor("Aston Martin", "229971", 91.345, 91.618, ["ALO", "STR"], 18.0, -0.2, 19.5, 112.0, 0.609),
    MockConstructor("Alpine", "FF87BC", 91.678, 92.012, ["GAS", "DOO"], 12.5, 0.0, 11.3, 65.0, 0.873),
    MockConstructor("RB", "6692FF", 91.712, 91.923, ["TSU", "HAD"], 11.0, 0.1, 10.1, 58.0, 0.990),
    MockConstructor("Williams", "64C4FF", 91.956, 92.206, ["SAI", "SAR"], 14.0, -0.3, 13.7, 78.0, 0.778),
    MockConstructor("Haas", "B6BABD", 92.012, 92.151, ["OCO", "BEA"], 9.5, 0.1, 7.9, 42.0, 1.144),
    MockConstructor("Kick Sauber", "52E252", 92.123, 92.345, ["HUL", "BOR"], 8.0, -0.1, 5.6, 31.0, 1.358)
  ]

  function DriverAnalyses(rows: seq<MockDriver>): (r: seq<DriverAnalysis>)
    ensures |r| == |rows| && forall i | 0 <= i < |rows| :: r[i] == rows[i].Analysis()
  {
    seq(|rows|, i requires 0 <= i < |rows| => rows[i].Analysis())
  }

  function ConstructorAnalyses(rows: seq<MockConstructor>): (r: seq<ConstructorAnalysis>)
    ensures |r| == |rows| && forall i | 0 <= i < |rows| :: r[i] == rows[i].Analysis()
  {
    seq(|rows|, i requires 0 <= i < |rows| => rows[i].Analysis())
  }

  /** `MOCK_DRIVERS`. */
  const MockDrivers: seq<DriverAnalysis> := DriverAnalyses(MockDriverRows)

  /** `MOCK_CONSTRUCTORS`. */
  const MockConstructors: seq<ConstructorAnalysis> := ConstructorAnalyses(MockConstructorRows)

  // ---------------------------------------------------------------------------
  // Generators

  /** All swaps of a slower constructor for a faster one within the budget,
      constructors told apart by name, most time gained first. */
  method GenerateConstructorSwaps(constructors: seq<ConstructorAnalysis>, budget: real)
    returns (recs: seq<ConstructorSwapRecommendation>)
    ensures recs == Recommend(constructors, ConstructorView, budget)
    ensures forall s | s in recs ::
      && s.out in constructors && s.into in constructors
      && s.out.bestLapTime.Some? && s.out.price.Some?
      && s.into.bestLapTime.Some? && s.into.price.Some?
      && s.out.name != s.into.name
      && s.timeDelta == s.out.bestLapTime.value - s.into.bestLapTime.value > 0.0
      && s.priceDelta == s.into.price.value - s.out.price.value <= budget
      && s.valueScoreDelta == s.into.valueScore.GetOr(0.0) - s.out.valueScore.GetOr(0.0)
      && s.reason == PriceTier(s.priceDelta)
    ensures forall a, b | a in constructors && b in constructors && Qualifies(ConstructorView(a), ConstructorView(b), budget) ::
      MakeSwap(a, b, ConstructorView) in recs
  {
    recs := GenerateSwaps(constructors, ConstructorView, budget);
    forall s | s in recs {
      RecommendedWasAccepted(constructors, ConstructorView, budget, s);
    }
    forall a, b | a in constructors && b in constructors && Qualifies(ConstructorView(a), ConstructorView(b), budget) {
      RecommendComplete(constructors, ConstructorView, budget, a, b);
    }
  }

  /** The payload of the demonstration endpoint. */
  datatype MockRecommendations = MockRecommendations(
    budget: real,
    recommendations: seq<SwapRecommendation>,
    constructorRecommendations: seq<ConstructorSwapRecommendation>)

  /** The budget echoed back with both generators' output on the fixtures. */
  method GetMockRecommendations(budget: real) returns (r: MockRecommendations)
    ensures r.budget == budget
    ensures r.recommendations == Recommend(MockDrivers, DriverView, budget)
    ensures r.constructorRecommendations == Recommend(MockConstructors, ConstructorView, budget)
  {
    var drivers := GenerateRecommendations(MockDrivers, budget);
    var constructors := GenerateConstructorSwaps(MockConstructors, budget);
    r := MockRecommendations(budget, drivers, constructors);
  }

  // ---------------------------------------------------------------------------
  // The derived price list

  /** Driver `i` of a list as a price entry with id `i + 1`. */
  function DriverPriceEntries(ds: seq<DriverAnalysis>): (r: seq<FantasyDriver>)
    requires forall d | d in ds ::
      d.price.Some? && d.selectedPercentage.Some? && d.overallPoints.Some? && d.priceChange.Some?
    ensures |r| == |ds|
    ensures forall i | 0 <= i < |ds| ::
      && r[i].id == i + 1 && r[i].firstName == ds[i].firstName && r[i].lastName == ds[i].lastName
      && r[i].teamName == ds[i].teamName
      && Some(r[i].price) == ds[i].price && Some(r[i].priceChange) == ds[i].priceChange
      && Some(r[i].selectedPercentage) == ds[i].selectedPercentage
      && Some(r[i].overallPoints) == ds[i].overallPoints
      && r[i].gamedayPoints == 0.0
  {
    seq(|ds|, i requires 0 <= i < |ds| =>
      var d := ds[i];
      assert d in ds;
      FantasyDriver(i + 1, d.firstName, d.lastName, d.teamName, d.price.value,
                    d.selectedPercentage.value, d.overallPoints.value, 0.0, d.priceChange.value))
  }

  /** Constructor `i` of a list as a price entry with id `100 + i`. */
  function ConstructorPriceEntries(cs: seq<ConstructorAnalysis>): (r: seq<FantasyConstructor>)
    requires forall c | c in cs ::
      c.price.Some? && c.selectedPercentage.Some? && c.overallPoints.Some? && c.priceChange.Some?
    ensures |r| == |cs|
    ensures forall i | 0 <= i < |cs| ::
      && r[i].id == 100 + i && r[i].name == cs[i].name
      && Some(r[i].price) == cs[i].price && Some(r[i].priceChange) == cs[i].priceChange
      && Some(r[i].selectedPercentage) == cs[i].selectedPercentage
      && Some(r[i].overallPoints) == cs[i].overallPoints
      && r[i].gamedayPoints == 0.0
  {
    seq(|cs|, i requires 0 <= i < |cs| =>
      var c := cs[i];
      assert c in cs;
      FantasyConstructor(100 + i, c.name, c.price.value, c.selectedPercentage.value,
                         c.overallPoints.value, 0.0, c.priceChange.value))
  }

  /** The price list of round 1 derived from the fixtures. */
  function MockPrices(): (r: FantasyData)
    ensures r.round == 1
    ensures |r.drivers| == |MockDrivers|
    ensures forall i | 0 <= i < |MockDrivers| ::
      r.drivers[i].id == i + 1 && r.drivers[i].lastName == MockDrivers[i].lastName
      && Some(r.drivers[i].price) == MockDrivers[i].price
    ensures |r.constructors| == |MockConstructors|
    ensures forall i | 0 <= i < |MockConstructors| ::
      r.constructors[i].id == 100 + i && r.constructors[i].name == MockConstructors[i].name
      && Some(r.constructors[i].price) == MockConstructors[i].price
  {
    assert forall d | d in MockDrivers :: d.price.Some? && d.selectedPercentage.Some? && d.overallPoints.Some? && d.priceChange.Some?;
    assert forall c | c in MockConstructors :: c.price.Some? && c.selectedPercentage.Some? && c.overallPoints.Some? && c.priceChange.Some?;
    FantasyData(DriverPriceEntries(MockDrivers), ConstructorPriceEntries(MockConstructors), 1)
  }

  // ---------------------------------------------------------------------------
  // Facts about the fixtures

  /** Every fixture driver has a lap time and a price, so the eligible set is
      the whole list. */
  lemma DriverFixturesEligible(rows: seq<MockDriver>)
    ensures Eligible(DriverAnalyses(rows), DriverView) == DriverAnalyses(rows)
  {
    var ds := DriverAnalyses(rows);
    forall d | d in ds ensures HasDataOf(DriverView)(d) {
      var i :| 0 <= i < |ds| && ds[i] == d;
      assert d == rows[i].Analysis();
      assert HasData(DriverView(d));
    }
    FilterAll(ds, HasDataOf(DriverView));
  }

  /** Every fixture constructor has a lap time and a price, so the eligible
      set is the whole list. */
  lemma ConstructorFixturesEligible(rows: seq<MockConstructor>)
    ensures Eligible(ConstructorAnalyses(rows), ConstructorView) == ConstructorAnalyses(rows)
  {
    var cs := ConstructorAnalyses(rows);
    forall c | c in cs ensures HasDataOf(ConstructorView)(c) {
      var i :| 0 <= i < |cs| && cs[i] == c;
      assert c == rows[i].Analysis();
      assert HasData(ConstructorView(c));
    }
    FilterAll(cs, HasDataOf(ConstructorView));
  }

  /** No two rows share a car number. */
  ghost predicate DistinctNumbers(rows: seq<MockDriver>) {
    forall i, j | 0 <= i < j < |rows| :: rows[i].number != rows[j].number
  }

  /** No two rows share a name. */
  ghost predicate DistinctNames(rows: seq<MockConstructor>) {
    forall i, j | 0 <= i < j < |rows| :: rows[i].name != rows[j].name
  }

  /** Rows with distinct car numbers give analyses with distinct identities. */
  lemma DriverAnalysesDistinct(rows: seq<MockDriver>)
    requires DistinctNumbers(rows)
    ensures DistinctIds(DriverAnalyses(rows), DriverView)
  {
  }

  /** Rows with distinct names give analyses with distinct identities. */
  lemma ConstructorAnalysesDistinct(rows: seq<MockConstructor>)
    requires DistinctNames(rows)
    ensures DistinctIds(ConstructorAnalyses(rows), ConstructorView)
  {
  }

  /** The car numbers of the fixture drivers, in order. */
  const CarNumbers: seq<int> := [1, 4, 16, 44, 63, 81, 14, 30, 10, 18, 12, 22, 20, 55, 2, 31, 87, 7, 27, 5]

  lemma CarNumbersListed()
    ensures |CarNumbers| == |MockDriverRows|
    ensures forall i | 0 <= i < |CarNumbers| :: MockDriverRows[i].number == CarNumbers[i]
  {
  }

  lemma CarNumbersDistinct()
    ensures forall i, j | 0 <= i < j < |CarNumbers| :: CarNumbers[i] != CarNumbers[j]
  {
  }

  /** No two fixture drivers share a car number. */
  lemma DriverFixturesDistinct()
    ensures DistinctNumbers(MockDriverRows)
  {
    CarNumbersListed();
    CarNumbersDistinct();
  }

  /** No two fixture constructors share a name. */
  lemma ConstructorFixturesDistinct()
    ensures DistinctNames(MockConstructorRows)
  {
  }

  /** The positions of each team's two drivers in the driver fixtures, in the
      order of the constructor fixtures. */
  const TeamPairs: seq<(nat, nat)> :=
    [(0, 7), (1, 5), (2, 3), (4, 10), (6, 9), (8, 17), (11, 12), (13, 14), (15, 16), (18, 19)]

  /** Constructor `c` lists drivers `a` and `b`, is named after their team,
      has the faster of their lap times as its best lap, and has their mean
      lap time, rounded to the millisecond, as its average. */
  ghost predicate TeamOf(c: MockConstructor, a: MockDriver, b: MockDriver) {
    && c.drivers == [a.acronym, b.acronym]
    && c.name == a.team == b.team
    && c.best == (if a.lap <= b.lap then a.lap else b.lap)
    && Abs(c.avg - (a.lap + b.lap) / 2.0) <= 0.0005
  }

  /** Constructor fixture `k` agrees with the driver fixtures `TeamPairs[k]`. */
  ghost predicate TeamAgrees(k: nat)
    requires k < |TeamPairs| && k < |MockConstructorRows|
  {
    var (i, j) := TeamPairs[k];
    i < |MockDriverRows| && j < |MockDriverRows| &&
    TeamOf(MockConstructorRows[k], MockDriverRows[i], MockDriverRows[j])
  }

  /** The first five constructor fixtures, one team at a time. */
  lemma TeamsAgreeFirstFive()
    ensures TeamAgrees(0) && TeamAgrees(1) && TeamAgrees(2) && TeamAgrees(3) && TeamAgrees(4)
  {
  }

  /** The last five constructor fixtures, one team at a time. */
  lemma TeamsAgreeLastFive()
    ensures TeamAgrees(5) && TeamAgrees(6) && TeamAgrees(7) && TeamAgrees(8) && TeamAgrees(9)
  {
  }

  /** Every constructor fixture agrees with its two driver fixtures. */
  lemma ConstructorsAgreeWithDrivers()
    ensures |TeamPairs| == |MockConstructorRows|
    ensures forall k | 0 <= k < |MockConstructorRows| :: TeamAgrees(k)
  {
    TeamsAgreeFirstFive();
    TeamsAgreeLastFive();
  }

  // ---------------------------------------------------------------------------
  // Recommendations on the fixtures

  /** With no money to spare, Hamilton (slower, 27.0) is still swapped for the
      faster and cheaper Norris (26.0), exactly once, as a cheaper swap. */
  lemma HamiltonToNorrisAtNoExtraCost()
    ensures var ham, nor := MockDrivers[3], MockDrivers[1];
      && ham.lastName == "Hamilton" && nor.lastName == "Norris"
      && var s := MakeSwap(ham, nor, DriverView);
      && multiset(Recommend(MockDrivers, DriverView, 0.0))[s] == 1
      && s.priceDelta == -1.0 && s.reason == Cheaper
  {
    var ham, nor := MockDrivers[3], MockDrivers[1];
    HamiltonAndNorris();
    DriverFixturesDistinct();
    DriverAnalysesDistinct(MockDriverRows);
    RecommendedExactlyOnce(MockDrivers, DriverView, 0.0, ham, nor);
  }

  /** The fixture rows of Hamilton and Norris, seen by the generator. */
  lemma HamiltonAndNorris()
    ensures var ham, nor := MockDrivers[3], MockDrivers[1];
      && ham.lastName == "Hamilton" && nor.lastName == "Norris"
      && Qualifies(DriverView(ham), DriverView(nor), 0.0)
      && MakeSwap(ham, nor, DriverView).priceDelta == -1.0
  {
    assert MockDrivers[3] == MockDriverRows[3].Analysis() && MockDrivers[1] == MockDriverRows[1].Analysis();
  }

  /** Gasly (13.5) to the faster Lawson (14.0) costs exactly 0.5: it is
      offered as a swap at a similar price with a budget of 0.5 and is not
      offered with a budget of 0.4. */
  lemma GaslyToLawsonAtTheBudgetEdge()
    ensures var gas, law := MockDrivers[8], MockDrivers[7];
      && gas.lastName == "Gasly" && law.lastName == "Lawson"
      && var s := MakeSwap(gas, law, DriverView);
      && s in Recommend(MockDrivers, DriverView, 0.5)
      && s.priceDelta == 0.5 && s.reason == SimilarPrice
      && forall t | t in Recommend(MockDrivers, DriverView, 0.4) :: !(t.out == gas && t.into == law)
  {
    var gas, law := MockDrivers[8], MockDrivers[7];
    GaslyAndLawson();
    RecommendComplete(MockDrivers, DriverView, 0.5, gas, law);
    forall t | t in Recommend(MockDrivers, DriverView, 0.4) ensures !(t.out == gas && t.into == law) {
      RecommendedWasAccepted(MockDrivers, DriverView, 0.4, t);
    }
  }

  /** The fixture rows of Gasly and Lawson, seen by the generator. */
  lemma GaslyAndLawson()
    ensures var gas, law := MockDrivers[8], MockDrivers[7];
      && gas.lastName == "Gasly" && law.lastName == "Lawson"
      && Qualifies(DriverView(gas), DriverView(law), 0.5)
      && MakeSwap(gas, law, DriverView).priceDelta == 0.5
  {
    assert MockDrivers[8] == MockDriverRows[8].Analysis() && MockDrivers[7] == MockDriverRows[7].Analysis();
  }
}
