/** The fantasy-game feed: the current round from the race calendar, the
    priced drivers and constructors of that round, and the two price maps keyed
    by upper-cased name. The HTTP responses are parameters: `None` stands for a
    response whose status is not ok. */
module Fantasy {
  import opened Prelude
  import opened Types
  import opened IndexMaps

  /** One entry of the feed. Numeric text fields are taken as already parsed. */
  datatype RawPlayer = RawPlayer(
    playerId: int,
    skill: int,
    positionName: string,
    value: real,
    teamId: string,
    fullName: string,
    displayName: string,
    teamName: string,
    isActive: string,
    driverTla: string,
    overallPoints: real,
    gamedayPoints: real,
    selectedPercentage: real,
    oldPlayerValue: real,
    firstName: string,
    lastName: string)

  /** One race of the calendar; `date` is an abstract instant. */
  datatype Race = Race(round: int, date: int)

  /** Race `k` is the first race of the calendar that is not in the past. */
  ghost predicate FirstUpcoming(races: seq<Race>, now: int, k: int) {
    && 0 <= k < |races|
    && races[k].date >= now
    && forall j | 0 <= j < k :: races[j].date < now
  }

  /** The round the game is in: round 1 when the calendar cannot be fetched,
      otherwise the first race still to come, otherwise the last race of the
      season, otherwise (an empty calendar) round 1. */
  method GetCurrentRound(calendar: Option<seq<Race>>, now: int) returns (round: int)
    ensures calendar.None? ==> round == 1
    ensures calendar.Some? ==>
      var races := calendar.value;
      || (exists k :: FirstUpcoming(races, now, k) && round == races[k].round)
      || (&& (forall k | 0 <= k < |races| :: races[k].date < now)
          && round == if races == [] then 1 else races[|races| - 1].round)
  {
    if calendar.None? {
      return 1;
    }
    var races := calendar.value;
    for i := 0 to |races|
      invariant forall j | 0 <= j < i :: races[j].date < now
    {
      if races[i].date >= now {
        assert FirstUpcoming(races, now, i);
        return races[i].round;
      }
    }
    round := if races == [] then 1 else races[|races| - 1].round;
  }

  /** A feed entry read as a driver; the price change is measured from the
      previous price. */
  function ParseDriver(raw: RawPlayer): (d: FantasyDriver)
    ensures d.id == raw.playerId && d.firstName == raw.firstName && d.lastName == raw.lastName
    ensures d.teamName == raw.teamName && d.selectedPercentage == raw.selectedPercentage
    ensures d.overallPoints == raw.overallPoints && d.gamedayPoints == raw.gamedayPoints
    ensures d.price == raw.value && d.price - d.priceChange == raw.oldPlayerValue
  {
    FantasyDriver(raw.playerId, raw.firstName, raw.lastName, raw.teamName, raw.value,
                  raw.selectedPercentage, raw.overallPoints, raw.gamedayPoints,
                  raw.value - raw.oldPlayerValue)
  }

  /** A feed entry read as a constructor, named by its full name. */
  function ParseConstructor(raw: RawPlayer): (c: FantasyConstructor)
    ensures c.id == raw.playerId && c.name == raw.fullName && c.selectedPercentage == raw.selectedPercentage
    ensures c.overallPoints == raw.overallPoints && c.gamedayPoints == raw.gamedayPoints
    ensures c.price == raw.value && c.price - c.priceChange == raw.oldPlayerValue
  {
    FantasyConstructor(raw.playerId, raw.fullName, raw.value, raw.selectedPercentage,
                       raw.overallPoints, raw.gamedayPoints, raw.value - raw.oldPlayerValue)
  }

  predicate IsActivePlayer(p: RawPlayer) {
    p.isActive == "1"
  }

  predicate IsDriverEntry(p: RawPlayer) {
    p.skill == 1
  }

  predicate IsConstructorEntry(p: RawPlayer) {
    p.skill == 2
  }

  function ParseDrivers(ps: seq<RawPlayer>): (r: seq<FantasyDriver>)
    ensures |r| == |ps| && forall i | 0 <= i < |ps| :: r[i] == ParseDriver(ps[i])
  {
    seq(|ps|, i requires 0 <= i < |ps| => ParseDriver(ps[i]))
  }

  function ParseConstructors(ps: seq<RawPlayer>): (r: seq<FantasyConstructor>)
    ensures |r| == |ps| && forall i | 0 <= i < |ps| :: r[i] == ParseConstructor(ps[i])
  {
    seq(|ps|, i requires 0 <= i < |ps| => ParseConstructor(ps[i]))
  }

  /** The feed of one round: fails when the response is not ok; otherwise the
      active entries, split by skill into drivers (1) and constructors (2). */
  function FantasyFeed(response: Option<seq<RawPlayer>>, round: int): (r: Result<FantasyData>)
    ensures r.Failed? <==> response.None?
    ensures r.Ok? ==> r.value.round == round
  {
    match response
    case None => Failed("Fantasy API error")
    case Some(players) =>
      Ok(FantasyData(FeedDriverList(players), FeedConstructorList(players), round))
  }

  /** `players.filter(active).filter(skill 1).map(parseDriver)`. */
  function FeedDriverList(players: seq<RawPlayer>): seq<FantasyDriver> {
    ParseDrivers(Filter(Filter(players, IsActivePlayer), IsDriverEntry))
  }

  /** `players.filter(active).filter(skill 2).map(parseConstructor)`. */
  function FeedConstructorList(players: seq<RawPlayer>): seq<FantasyConstructor> {
    ParseConstructors(Filter(Filter(players, IsActivePlayer), IsConstructorEntry))
  }

  /** An entry survives both filters of the drivers' list exactly when it is an
      active skill-1 entry. */
  lemma KeptDriverEntry(players: seq<RawPlayer>, p: RawPlayer)
    ensures p in Filter(Filter(players, IsActivePlayer), IsDriverEntry)
      <==> p in players && IsActivePlayer(p) && p.skill == 1
  {
    if p in players && IsActivePlayer(p) {
      assert p in Filter(players, IsActivePlayer);
    }
  }

  lemma KeptConstructorEntry(players: seq<RawPlayer>, p: RawPlayer)
    ensures p in Filter(Filter(players, IsActivePlayer), IsConstructorEntry)
      <==> p in players && IsActivePlayer(p) && p.skill == 2
  {
    if p in players && IsActivePlayer(p) {
      assert p in Filter(players, IsActivePlayer);
    }
  }

  /** Every listed driver is the parse of an active skill-1 entry. */
  lemma FeedDriverSource(players: seq<RawPlayer>, d: FantasyDriver) returns (p: RawPlayer)
    requires d in FeedDriverList(players)
    ensures p in players && IsActivePlayer(p) && p.skill == 1 && ParseDriver(p) == d
  {
    var kept := Filter(Filter(players, IsActivePlayer), IsDriverEntry);
    var drivers := ParseDrivers(kept);
    var i :| 0 <= i < |drivers| && drivers[i] == d;
    p := kept[i];
    assert p in kept;
    KeptDriverEntry(players, p);
  }

  /** Every active skill-1 entry is parsed into the list. */
  lemma FeedDriverKept(players: seq<RawPlayer>, p: RawPlayer)
    requires p in players && IsActivePlayer(p) && p.skill == 1
    ensures ParseDriver(p) in FeedDriverList(players)
  {
    var kept := Filter(Filter(players, IsActivePlayer), IsDriverEntry);
    KeptDriverEntry(players, p);
    var i :| 0 <= i < |kept| && kept[i] == p;
    assert ParseDrivers(kept)[i] == ParseDriver(p);
  }

  /** The drivers of the feed are exactly the active skill-1 entries. */
  lemma FeedDrivers(players: seq<RawPlayer>, round: int, d: FantasyDriver)
    ensures d in FantasyFeed(Some(players), round).value.drivers
      <==> exists p :: p in players && IsActivePlayer(p) && p.skill == 1 && ParseDriver(p) == d
  {
    assert FantasyFeed(Some(players), round).value.drivers == FeedDriverList(players);
    if d in FeedDriverList(players) {
      var p := FeedDriverSource(players, d);
    }
    if exists p :: p in players && IsActivePlayer(p) && p.skill == 1 && ParseDriver(p) == d {
      var p :| p in players && IsActivePlayer(p) && p.skill == 1 && ParseDriver(p) == d;
      FeedDriverKept(players, p);
    }
  }

  /** Every listed constructor is the parse of an active skill-2 entry. */
  lemma FeedConstructorSource(players: seq<RawPlayer>, c: FantasyConstructor) returns (p: RawPlayer)
    requires c in FeedConstructorList(players)
    ensures p in players && IsActivePlayer(p) && p.skill == 2 && ParseConstructor(p) == c
  {
    var kept := Filter(Filter(players, IsActivePlayer), IsConstructorEntry);
    var constructors := ParseConstructors(kept);
    var i :| 0 <= i < |constructors| && constructors[i] == c;
    p := kept[i];
    assert p in kept;
    KeptConstructorEntry(players, p);
  }

  /** Every active skill-2 entry is parsed into the list. */
  lemma FeedConstructorKept(players: seq<RawPlayer>, p: RawPlayer)
    requires p in players && IsActivePlayer(p) && p.skill == 2
    ensures ParseConstructor(p) in FeedConstructorList(players)
  {
    var kept := Filter(Filter(players, IsActivePlayer), IsConstructorEntry);
    KeptConstructorEntry(players, p);
    var i :| 0 <= i < |kept| && kept[i] == p;
    assert ParseConstructors(kept)[i] == ParseConstructor(p);
  }

  /** The constructors of the feed are exactly the active skill-2 entries. */
  lemma FeedConstructors(players: seq<RawPlayer>, round: int, c: FantasyConstructor)
    ensures c in FantasyFeed(Some(players), round).value.constructors
      <==> exists p :: p in players && IsActivePlayer(p) && p.skill == 2 && ParseConstructor(p) == c
  {
    assert FantasyFeed(Some(players), round).value.constructors == FeedConstructorList(players);
    if c in FeedConstructorList(players) {
      var p := FeedConstructorSource(players, c);
    }
    if exists p :: p in players && IsActivePlayer(p) && p.skill == 2 && ParseConstructor(p) == c {
      var p :| p in players && IsActivePlayer(p) && p.skill == 2 && ParseConstructor(p) == c;
      FeedConstructorKept(players, p);
    }
  }

  lemma ParseDriversAppend(a: seq<RawPlayer>, b: seq<RawPlayer>)
    ensures ParseDrivers(a + b) == ParseDrivers(a) + ParseDrivers(b)
  {
  }

  lemma ParseConstructorsAppend(a: seq<RawPlayer>, b: seq<RawPlayer>)
    ensures ParseConstructors(a + b) == ParseConstructors(a) + ParseConstructors(b)
  {
  }

  /** Keeping the entries of one skill splits over a concatenation. */
  lemma KeptAppend(a: seq<RawPlayer>, b: seq<RawPlayer>, skill: RawPlayer -> bool)
    ensures Filter(Filter(a + b, IsActivePlayer), skill)
         == Filter(Filter(a, IsActivePlayer), skill) + Filter(Filter(b, IsActivePlayer), skill)
  {
    FilterAppend(a, b, IsActivePlayer);
    FilterAppend(Filter(a, IsActivePlayer), Filter(b, IsActivePlayer), skill);
  }

  /** One entry is kept exactly when it is active and of the skill. */
  lemma KeptSingle(p: RawPlayer, skill: RawPlayer -> bool)
    ensures Filter(Filter([p], IsActivePlayer), skill) == if IsActivePlayer(p) && skill(p) then [p] else []
  {
    FilterSnoc([], p, IsActivePlayer);
    assert [] + [p] == [p];
    if IsActivePlayer(p) {
      FilterSnoc([], p, skill);
    }
  }

  lemma FeedDriverListAppend(a: seq<RawPlayer>, b: seq<RawPlayer>)
    ensures FeedDriverList(a + b) == FeedDriverList(a) + FeedDriverList(b)
  {
    KeptAppend(a, b, IsDriverEntry);
    ParseDriversAppend(Filter(Filter(a, IsActivePlayer), IsDriverEntry), Filter(Filter(b, IsActivePlayer), IsDriverEntry));
  }

  lemma FeedDriverListSingle(p: RawPlayer)
    ensures FeedDriverList([p]) == if IsActivePlayer(p) && p.skill == 1 then [ParseDriver(p)] else []
  {
    KeptSingle(p, IsDriverEntry);
  }

  /** The drivers keep the order of the feed: on a response split around one
      entry, that entry's driver comes after the drivers of the entries before
      it and before those of the entries after it, and only when the entry is
      an active skill-1 entry. */
  lemma FeedDriversInOrder(before: seq<RawPlayer>, p: RawPlayer, after: seq<RawPlayer>)
    ensures FeedDriverList(before + [p] + after)
         == FeedDriverList(before)
          + (if IsActivePlayer(p) && p.skill == 1 then [ParseDriver(p)] else [])
          + FeedDriverList(after)
  {
    FeedDriverListAppend(before + [p], after);
    FeedDriverListAppend(before, [p]);
    FeedDriverListSingle(p);
  }


  lemma FeedConstructorListAppend(a: seq<RawPlayer>, b: seq<RawPlayer>)
    ensures FeedConstructorList(a + b) == FeedConstructorList(a) + FeedConstructorList(b)
  {
    KeptAppend(a, b, IsConstructorEntry);
    ParseConstructorsAppend(Filter(Filter(a, IsActivePlayer), IsConstructorEntry), Filter(Filter(b, IsActivePlayer), IsConstructorEntry));
  }

  lemma FeedConstructorListSingle(p: RawPlayer)
    ensures FeedConstructorList([p]) == if IsActivePlayer(p) && p.skill == 2 then [ParseConstructor(p)] else []
  {
    KeptSingle(p, IsConstructorEntry);
  }

  /** The constructors keep the order of the feed, as the drivers do. */
  lemma FeedConstructorsInOrder(before: seq<RawPlayer>, p: RawPlayer, after: seq<RawPlayer>)
    ensures FeedConstructorList(before + [p] + after)
         == FeedConstructorList(before)
          + (if IsActivePlayer(p) && p.skill == 2 then [ParseConstructor(p)] else [])
          + FeedConstructorList(after)
  {
    FeedConstructorListAppend(before + [p], after);
    FeedConstructorListAppend(before, [p]);
    FeedConstructorListSingle(p);
  }


  /** The key a driver is filed under: the upper-cased last name. */
  function DriverKey(d: FantasyDriver): string {
    Upper(d.lastName)
  }

  /** The key a constructor is filed under: the upper-cased name. */
  function ConstructorKey(c: FantasyConstructor): string {
    Upper(c.name)
  }

  /** The driver price map: every driver of the feed under its upper-cased last
      name, the last one listed winning when two share a name. */
  method GetDriverPrices(data: FantasyData) returns (priceMap: IndexMap<FantasyDriver>)
    ensures priceMap == IndexOf(data.drivers, DriverKey)
    ensures priceMap.Valid()
    ensures priceMap.entries.Keys == set d | d in data.drivers :: Upper(d.lastName)
    ensures forall k | k in priceMap.entries :: Upper(priceMap.entries[k].lastName) == k
  {
    priceMap := BuildIndex(data.drivers, DriverKey);
    IndexKeys(data.drivers, DriverKey);
    IndexSelfKeyed(data.drivers, DriverKey);
  }

  /** The feed around the driver of one active skill-1 entry. */
  lemma FeedDriversAround(players: seq<RawPlayer>, i: nat)
    requires i < |players| && IsActivePlayer(players[i]) && players[i].skill == 1
    ensures FeedDriverList(players)
         == FeedDriverList(players[..i]) + [ParseDriver(players[i])] + FeedDriverList(players[i + 1..])
  {
    SplitAt(players, i);
    FeedDriversInOrder(players[..i], players[i], players[i + 1..]);
  }

  /** No driver of the feed is filed under `key` when no active skill-1 entry
      has that upper-cased last name. */
  lemma FeedDriverKeysAvoid(players: seq<RawPlayer>, key: string)
    requires forall q | q in players && IsActivePlayer(q) && q.skill == 1 :: Upper(q.lastName) != key
    ensures forall d | d in FeedDriverList(players) :: DriverKey(d) != key
  {
    forall d | d in FeedDriverList(players) ensures DriverKey(d) != key {
      var q := FeedDriverSource(players, d);
    }
  }

  /** Of the active skill-1 entries sharing an upper-cased last name, the
      price map keeps the driver of the last one in the feed. */
  lemma DriverPriceFromLastEntry(players: seq<RawPlayer>, i: nat)
    requires i < |players| && IsActivePlayer(players[i]) && players[i].skill == 1
    requires forall j | i < j < |players| && IsActivePlayer(players[j]) && players[j].skill == 1 ::
      Upper(players[j].lastName) != Upper(players[i].lastName)
    ensures IndexOf(FeedDriverList(players), DriverKey).Get(Upper(players[i].lastName))
         == Some(ParseDriver(players[i]))
  {
    var after := players[i + 1..];
    var key := Upper(players[i].lastName);
    forall q | q in after && IsActivePlayer(q) && q.skill == 1 ensures Upper(q.lastName) != key {
      var k :| 0 <= k < |after| && after[k] == q;
      assert players[i + 1 + k] == q;
    }
    FeedDriverKeysAvoid(after, key);
    FeedDriversAround(players, i);
    LastWriteWinsSplit(FeedDriverList(players[..i]), ParseDriver(players[i]), FeedDriverList(after), DriverKey);
  }

  /** The constructor price map: every constructor of the feed under its
      upper-cased name, the last one listed winning when two share a name. */
  method GetConstructorPrices(data: FantasyData) returns (priceMap: IndexMap<FantasyConstructor>)
    ensures priceMap == IndexOf(data.constructors, ConstructorKey)
    ensures priceMap.Valid()
    ensures priceMap.entries.Keys == set c | c in data.constructors :: Upper(c.name)
    ensures forall k | k in priceMap.entries :: Upper(priceMap.entries[k].name) == k
  {
    priceMap := BuildIndex(data.constructors, ConstructorKey);
    IndexKeys(data.constructors, ConstructorKey);
    IndexSelfKeyed(data.constructors, ConstructorKey);
  }
}
