/** The records exchanged between the telemetry feed, the fantasy feed and the
    recommendation engine. Every nullable field is an `Option`; timestamps are
    abstract integers; numbers are reals. */
module Types {
  import opened Prelude

  /** A lap or sector duration in seconds: always positive. */
  type Duration = r: real | r > 0.0 witness 1.0

  /** An official practice session of one race weekend. */
  datatype Session = Session(
    sessionKey: int,
    sessionName: string,
    sessionType: string,
    dateStart: string,
    dateEnd: string,
    meetingKey: int,
    year: int,
    countryName: string,
    circuitShortName: string)

  /** One lap of one driver as the telemetry feed reports it. */
  datatype Lap = Lap(
    sessionKey: int,
    driverNumber: int,
    lapNumber: int,
    lapDuration: Option<Duration>,
    durationSector1: Option<real>,
    durationSector2: Option<real>,
    durationSector3: Option<real>,
    i1Speed: Option<real>,
    i2Speed: Option<real>,
    stSpeed: Option<real>,
    isPitOutLap: bool,
    dateStart: string)

  /** A driver entered in a session. */
  datatype Driver = Driver(
    driverNumber: int,
    firstName: string,
    lastName: string,
    fullName: string,
    nameAcronym: string,
    teamName: string,
    teamColour: string,
    countryCode: string,
    headshotUrl: Option<string>,
    sessionKey: int)

  /** The best time of each of the three sectors. */
  datatype Sectors = Sectors(sector1: Option<real>, sector2: Option<real>, sector3: Option<real>)

  /** What one driver did in one session. */
  datatype DriverPerformance = DriverPerformance(
    driver: Driver,
    bestLap: Option<Lap>,
    bestSectors: Sectors,
    topSpeed: Option<real>,
    lapCount: nat,
    sessionName: string)

  /** A race weekend; `dateStart` is an abstract instant. */
  datatype Meeting = Meeting(
    meetingKey: int,
    meetingName: string,
    meetingOfficialName: string,
    dateStart: int,
    year: int,
    countryName: string,
    circuitShortName: string)

  /** A priced driver of the fantasy game. */
  datatype FantasyDriver = FantasyDriver(
    id: int,
    firstName: string,
    lastName: string,
    teamName: string,
    price: real,
    selectedPercentage: real,
    overallPoints: real,
    gamedayPoints: real,
    priceChange: real)

  /** A priced constructor (team) of the fantasy game. */
  datatype FantasyConstructor = FantasyConstructor(
    id: int,
    name: string,
    price: real,
    selectedPercentage: real,
    overallPoints: real,
    gamedayPoints: real,
    priceChange: real)

  /** The fantasy feed for one round, split into drivers and constructors. */
  datatype FantasyData = FantasyData(
    drivers: seq<FantasyDriver>,
    constructors: seq<FantasyConstructor>,
    round: int)

  /** A driver's session performance merged with the driver's price. */
  datatype DriverAnalysis = DriverAnalysis(
    driverNumber: int,
    firstName: string,
    lastName: string,
    nameAcronym: string,
    teamName: string,
    teamColour: string,
    headshotUrl: Option<string>,
    bestLapTime: Option<Duration>,
    bestSectors: Sectors,
    topSpeed: Option<real>,
    lapCount: nat,
    price: Option<real>,
    priceChange: Option<real>,
    selectedPercentage: Option<real>,
    overallPoints: Option<real>,
    valueScore: Option<real>,
    sessionName: string)

  /** A team's performance merged with the constructor's price. */
  datatype ConstructorAnalysis = ConstructorAnalysis(
    name: string,
    teamColour: string,
    bestLapTime: Option<Duration>,
    avgLapTime: Option<real>,
    drivers: seq<string>,
    price: Option<real>,
    priceChange: Option<real>,
    selectedPercentage: Option<real>,
    overallPoints: Option<real>,
    valueScore: Option<real>)

  /** Which of the three explanations a recommendation carries:
      "… cheaper", "… at similar price (+…)", "… for +…". */
  datatype Tier = Cheaper | SimilarPrice | CostsMore

  /** A recommendation to replace `out` by `into`; `E` is a driver or a
      constructor analysis. */
  datatype Swap<E> = Swap(
    out: E,
    into: E,
    timeDelta: real,
    priceDelta: real,
    valueScoreDelta: real,
    reason: Tier)

  type SwapRecommendation = Swap<DriverAnalysis>
  type ConstructorSwapRecommendation = Swap<ConstructorAnalysis>
}
