/** The telemetry feed: choosing the latest meeting and its practice sessions,
    and reducing a session's laps to one performance per driver (best lap,
    best sectors, top speed, lap count). The fetched lists are parameters. */
module OpenF1 {
  import opened Prelude
  import opened Types

  // ---------------------------------------------------------------------------
  // Meetings and sessions

  /** The meetings that have started by `now`, as a predicate value. */
  function StartedBy(now: int): Meeting -> bool {
    (m: Meeting) => m.dateStart <= now
  }

  /** The latest meeting: none for an empty season; otherwise the last listed
      meeting that has started, or the first listed meeting when none has. */
  function LatestMeeting(meetings: seq<Meeting>, now: int): (r: Option<Meeting>)
    ensures r.None? <==> meetings == []
    ensures r.Some? ==> r.value in meetings
  {
    if |meetings| == 0 then None
    else
      var pastOrCurrent := Filter(meetings, StartedBy(now));
      if |pastOrCurrent| > 0 then Some(pastOrCurrent[|pastOrCurrent| - 1]) else Some(meetings[0])
  }

  /** When meeting `m` has started, the chosen meeting is the last started one. */
  lemma LatestStarted(meetings: seq<Meeting>, now: int, m: Meeting) returns (k: nat)
    requires m in meetings && m.dateStart <= now
    ensures k < |meetings| && meetings[k] == LatestMeeting(meetings, now).value
    ensures meetings[k].dateStart <= now
    ensures forall j | k < j < |meetings| :: meetings[j].dateStart > now
  {
    var pastOrCurrent := Filter(meetings, StartedBy(now));
    assert StartedBy(now)(m);
    assert m in pastOrCurrent;
    k := FilterLast(meetings, StartedBy(now));
    assert LatestMeeting(meetings, now).value == pastOrCurrent[|pastOrCurrent| - 1];
    assert StartedBy(now)(meetings[k]);
    forall j | k < j < |meetings| ensures meetings[j].dateStart > now {
      assert !StartedBy(now)(meetings[j]);
    }
  }

  /** Which meeting is chosen: the last started one in list order, and the
      first of the season only when none has started yet. */
  lemma LatestMeetingSpec(meetings: seq<Meeting>, now: int)
    requires meetings != []
    ensures (exists m | m in meetings :: m.dateStart <= now) ==>
      exists k | 0 <= k < |meetings| ::
        && meetings[k] == LatestMeeting(meetings, now).value
        && meetings[k].dateStart <= now
        && forall j | k < j < |meetings| :: meetings[j].dateStart > now
    ensures (forall m | m in meetings :: m.dateStart > now) ==>
      LatestMeeting(meetings, now) == Some(meetings[0])
  {
    if exists m | m in meetings :: m.dateStart <= now {
      var m :| m in meetings && m.dateStart <= now;
      var k := LatestStarted(meetings, now, m);
    } else {
      FilterNone(meetings, StartedBy(now));
    }
  }

  /** The three free-practice session names. */
  predicate IsPractice(s: Session) {
    s.sessionName in ["Practice 1", "Practice 2", "Practice 3"]
  }

  /** The sessions of a meeting that are free practice, in their order. */
  function PracticeSessions(sessions: seq<Session>): (r: seq<Session>)
    ensures forall s | s in r :: s in sessions
    ensures forall s | s in sessions :: s in r <==>
      s.sessionName == "Practice 1" || s.sessionName == "Practice 2" || s.sessionName == "Practice 3"
  {
    Filter(sessions, IsPractice)
  }

  /** The filter keeps the practice sessions in their order: on a list split
      around one session, it keeps that session exactly when it is a practice
      session, between the practice sessions before it and those after it. */
  lemma PracticeSessionsInOrder(before: seq<Session>, s: Session, after: seq<Session>)
    ensures PracticeSessions(before + [s] + after)
         == PracticeSessions(before) + (if IsPractice(s) then [s] else []) + PracticeSessions(after)
  {
    FilterAppend(before + [s], after, IsPractice);
    FilterSnoc(before, s, IsPractice);
  }

  /** The last kept session is the last practice session of the list. */
  lemma LastPracticeSession(sessions: seq<Session>) returns (k: nat)
    requires PracticeSessions(sessions) != []
    ensures k < |sessions| && IsPractice(sessions[k])
    ensures sessions[k] == PracticeSessions(sessions)[|PracticeSessions(sessions)| - 1]
    ensures forall j | k < j < |sessions| :: !IsPractice(sessions[j])
  {
    k := FilterLast(sessions, IsPractice);
  }

  // ---------------------------------------------------------------------------
  // Best lap

  /** A lap that counts for the best lap: timed, and not an out-lap from the pits. */
  predicate IsTimedLap(l: Lap) {
    l.lapDuration.Some? && !l.isPitOutLap
  }

  /** `reduce((best, lap) => lap < best ? lap : best)`: the first lap of the
      fastest time. */
  function Fastest(s: seq<Lap>): (r: Lap)
    requires s != [] && forall l | l in s :: l.lapDuration.Some?
    ensures r in s
  {
    if |s| == 1 then s[0]
    else
      assert forall l | l in s[..|s| - 1] :: l in s;
      var best := Fastest(s[..|s| - 1]);
      var lap := s[|s| - 1];
      if lap.lapDuration.value < best.lapDuration.value then lap else best
  }

  function FindBestLap(laps: seq<Lap>): Option<Lap> {
    var validLaps := Filter(laps, IsTimedLap);
    if validLaps == [] then None else Some(Fastest(validLaps))
  }

  /** Lap `k` is timed, no slower than any timed lap, and strictly faster than
      every timed lap before it. */
  ghost predicate EarliestFastest(laps: seq<Lap>, k: int) {
    && 0 <= k < |laps|
    && IsTimedLap(laps[k])
    && (forall j | 0 <= j < |laps| && IsTimedLap(laps[j]) ::
          laps[k].lapDuration.value <= laps[j].lapDuration.value)
    && (forall j | 0 <= j < k && IsTimedLap(laps[j]) ::
          laps[k].lapDuration.value < laps[j].lapDuration.value)
  }

  /** Adding one lap at the end changes the best lap only when it is timed and
      strictly faster (or the first timed lap). */
  lemma BestLapStep(s: seq<Lap>, l: Lap)
    ensures FindBestLap(s + [l]) ==
      if !IsTimedLap(l) then FindBestLap(s)
      else if FindBestLap(s).None? then Some(l)
      else if l.lapDuration.value < FindBestLap(s).value.lapDuration.value then Some(l)
      else FindBestLap(s)
  {
    FilterSnoc(s, l, IsTimedLap);
    var v := Filter(s, IsTimedLap);
    if !IsTimedLap(l) {
      assert Filter(s + [l], IsTimedLap) == v;
    } else if v == [] {
      assert Filter(s + [l], IsTimedLap) == [l];
    } else {
      var w := v + [l];
      assert Filter(s + [l], IsTimedLap) == w;
      assert w[..|w| - 1] == v;
      assert w[|w| - 1] == l;
      assert FindBestLap(s).value == Fastest(v);
      assert Fastest(w) ==
        if l.lapDuration.value < Fastest(v).lapDuration.value then l else Fastest(v);
    }
  }

  lemma NewFastest(s: seq<Lap>, l: Lap, k: int)
    requires EarliestFastest(s, k) && IsTimedLap(l)
    requires l.lapDuration.value < s[k].lapDuration.value
    ensures EarliestFastest(s + [l], |s|)
  {
    var laps := s + [l];
    forall j | 0 <= j < |laps| && IsTimedLap(laps[j])
      ensures l.lapDuration.value <= laps[j].lapDuration.value
    {
      if j < |s| { assert laps[j] == s[j]; }
    }
    forall j | 0 <= j < |s| && IsTimedLap(laps[j])
      ensures l.lapDuration.value < laps[j].lapDuration.value
    {
      assert laps[j] == s[j];
    }
  }

  lemma KeepFastest(s: seq<Lap>, l: Lap, k: int)
    requires EarliestFastest(s, k)
    requires IsTimedLap(l) ==> s[k].lapDuration.value <= l.lapDuration.value
    ensures EarliestFastest(s + [l], k) && (s + [l])[k] == s[k]
  {
    var laps := s + [l];
    forall j | 0 <= j < |laps| && IsTimedLap(laps[j])
      ensures laps[k].lapDuration.value <= laps[j].lapDuration.value
    {
      if j < |s| { assert laps[j] == s[j]; }
    }
    forall j | 0 <= j < k && IsTimedLap(laps[j])
      ensures laps[k].lapDuration.value < laps[j].lapDuration.value
    {
      assert laps[j] == s[j];
    }
  }

  lemma FirstTimed(s: seq<Lap>, l: Lap)
    requires forall x | x in s :: !IsTimedLap(x)
    requires IsTimedLap(l)
    ensures EarliestFastest(s + [l], |s|)
  {
    var laps := s + [l];
    forall j | 0 <= j < |s| ensures !IsTimedLap(laps[j]) {
      assert laps[j] == s[j] && s[j] in s;
    }
  }

  /** The best lap is absent exactly when no lap is timed; otherwise it is the
      first timed lap of the fastest time. */
  lemma {:induction false} FindBestLapSpec(laps: seq<Lap>)
    ensures FindBestLap(laps).None? <==> forall l | l in laps :: !IsTimedLap(l)
    ensures FindBestLap(laps).Some? ==>
      exists k :: EarliestFastest(laps, k) && laps[k] == FindBestLap(laps).value
  {
    if laps == [] {
      return;
    }
    var s, l := laps[..|laps| - 1], laps[|laps| - 1];
    assert laps == s + [l];
    FindBestLapSpec(s);
    BestLapStep(s, l);
    var prev := FindBestLap(s);
    if prev.Some? {
      var k :| EarliestFastest(s, k) && s[k] == prev.value;
      if IsTimedLap(l) && l.lapDuration.value < prev.value.lapDuration.value {
        NewFastest(s, l, k);
      } else {
        KeepFastest(s, l, k);
      }
    } else if IsTimedLap(l) {
      FirstTimed(s, l);
    }
  }

  // ---------------------------------------------------------------------------
  // Best sectors and top speed

  datatype SectorIx = S1 | S2 | S3

  function SectorOf(l: Lap, n: SectorIx): Option<real> {
    match n
    case S1 => l.durationSector1
    case S2 => l.durationSector2
    case S3 => l.durationSector3
  }

  predicate NotPitOut(l: Lap) {
    !l.isPitOutLap
  }

  /** `laps.map(l => l.duration_sector_n)`. */
  function SectorColumn(laps: seq<Lap>, n: SectorIx): (r: seq<Option<real>>)
    ensures |r| == |laps| && forall i | 0 <= i < |laps| :: r[i] == SectorOf(laps[i], n)
  {
    seq(|laps|, i requires 0 <= i < |laps| => SectorOf(laps[i], n))
  }

  /** The best time of one sector over the laps that are not pit out-laps. */
  function BestSector(laps: seq<Lap>, n: SectorIx): Option<real> {
    MinOf(NonNull(SectorColumn(Filter(laps, NotPitOut), n)))
  }

  function FindBestSectors(laps: seq<Lap>): Sectors {
    Sectors(BestSector(laps, S1), BestSector(laps, S2), BestSector(laps, S3))
  }

  /** A sector's best time is the smallest recorded time of that sector on a
      lap that is not a pit out-lap, and is absent only when there is none. */
  lemma BestSectorSpec(laps: seq<Lap>, n: SectorIx)
    ensures BestSector(laps, n).None? <==>
      forall l | l in laps && NotPitOut(l) :: SectorOf(l, n).None?
    ensures BestSector(laps, n).Some? ==>
      && (exists l | l in laps && NotPitOut(l) :: SectorOf(l, n) == BestSector(laps, n))
      && forall l | l in laps && NotPitOut(l) && SectorOf(l, n).Some? ::
           BestSector(laps, n).value <= SectorOf(l, n).value
  {
    var valid := Filter(laps, NotPitOut);
    var column := SectorColumn(valid, n);
    var times := NonNull(column);
    forall l | l in laps && NotPitOut(l) && SectorOf(l, n).Some?
      ensures SectorOf(l, n).value in times
    {
      var i :| 0 <= i < |valid| && valid[i] == l;
      assert column[i] == SectorOf(l, n);
    }
    if BestSector(laps, n).Some? {
      var v := BestSector(laps, n).value;
      assert Some(v) in column;
      var i :| 0 <= i < |column| && column[i] == Some(v);
      assert valid[i] in valid;
    }
  }

  /** The three speed-trap readings of a lap include `v`. */
  predicate HasSpeed(l: Lap, v: real) {
    l.i1Speed == Some(v) || l.i2Speed == Some(v) || l.stSpeed == Some(v)
  }

  /** `laps.flatMap(l => [l.i1_speed, l.i2_speed, l.st_speed])`. */
  function SpeedColumn(laps: seq<Lap>): seq<Option<real>> {
    if laps == [] then []
    else
      var l := laps[|laps| - 1];
      SpeedColumn(laps[..|laps| - 1]) + [l.i1Speed, l.i2Speed, l.stSpeed]
  }

  /** The highest speed-trap reading over all laps, pit out-laps included. */
  function FindTopSpeed(laps: seq<Lap>): Option<real> {
    MaxOf(NonNull(SpeedColumn(laps)))
  }

  lemma {:induction false} SpeedColumnMembers(laps: seq<Lap>, v: real)
    ensures Some(v) in SpeedColumn(laps) <==> exists l | l in laps :: HasSpeed(l, v)
  {
    if laps != [] {
      var pre, l := laps[..|laps| - 1], laps[|laps| - 1];
      assert laps == pre + [l];
      SpeedColumnMembers(pre, v);
      assert SpeedColumn(laps) == SpeedColumn(pre) + [l.i1Speed, l.i2Speed, l.stSpeed];
      if exists m | m in laps :: HasSpeed(m, v) {
        var m :| m in laps && HasSpeed(m, v);
        if m != l {
          assert m in pre;
        }
      }
      if Some(v) in SpeedColumn(pre) {
        var m :| m in pre && HasSpeed(m, v);
        assert m in laps;
      }
      if Some(v) in [l.i1Speed, l.i2Speed, l.stSpeed] {
        assert HasSpeed(l, v) && l in laps;
      }
    }
  }

  /** The top speed is the largest speed-trap reading of any lap, and is
      absent only when no lap has one. */
  lemma TopSpeedSpec(laps: seq<Lap>)
    ensures FindTopSpeed(laps).None? <==> forall l, w | l in laps :: !HasSpeed(l, w)
    ensures FindTopSpeed(laps).Some? ==>
      && (exists l | l in laps :: HasSpeed(l, FindTopSpeed(laps).value))
      && forall l, w | l in laps && HasSpeed(l, w) :: w <= FindTopSpeed(laps).value
  {
    var column := SpeedColumn(laps);
    forall l, w | l in laps && HasSpeed(l, w) ensures w in NonNull(column) {
      SpeedColumnMembers(laps, w);
    }
    if FindTopSpeed(laps).Some? {
      SpeedColumnMembers(laps, FindTopSpeed(laps).value);
    }
  }

  // ---------------------------------------------------------------------------
  // One performance per driver

  /** The laps of one driver, as a predicate value. */
  function OfDriver(n: int): Lap -> bool {
    (l: Lap) => l.driverNumber == n
  }

  /** The laps of driver `n`, in feed order. */
  function LapsOf(laps: seq<Lap>, n: int): seq<Lap> {
    Filter(laps, OfDriver(n))
  }

  /** `lapsByDriver.get(n) ?? []`. */
  function LapsIn(byDriver: map<int, seq<Lap>>, n: int): seq<Lap> {
    if n in byDriver then byDriver[n] else []
  }

  /** The loop that groups the laps by driver number. */
  method GroupLapsByDriver(laps: seq<Lap>) returns (byDriver: map<int, seq<Lap>>)
    ensures byDriver.Keys == set l | l in laps :: l.driverNumber
    ensures forall n :: LapsIn(byDriver, n) == LapsOf(laps, n)
  {
    byDriver := map[];
    for i := 0 to |laps|
      invariant byDriver.Keys == set l | l in laps[..i] :: l.driverNumber
      invariant forall n :: LapsIn(byDriver, n) == LapsOf(laps[..i], n)
    {
      var lap := laps[i];
      assert laps[..i + 1] == laps[..i] + [lap];
      var next := byDriver[lap.driverNumber := LapsIn(byDriver, lap.driverNumber) + [lap]];
      GroupKeysStep(laps[..i], lap, byDriver.Keys);
      forall n ensures LapsIn(next, n) == LapsOf(laps[..i] + [lap], n) {
        GroupEntriesStep(laps[..i], lap, byDriver, n);
      }
      byDriver := next;
    }
    assert laps[..|laps|] == laps;
  }

  /** One iteration of the grouping loop keeps the map's keys equal to the
      driver numbers seen so far. */
  lemma GroupKeysStep(prefix: seq<Lap>, lap: Lap, keys: set<int>)
    requires keys == set l | l in prefix :: l.driverNumber
    ensures keys + {lap.driverNumber} == set l | l in prefix + [lap] :: l.driverNumber
  {
    var after := set l | l in prefix + [lap] :: l.driverNumber;
    forall n | n in after ensures n in keys + {lap.driverNumber} {
      var l :| l in prefix + [lap] && l.driverNumber == n;
      if l != lap { assert l in prefix; }
    }
    forall n | n in keys ensures n in after {
      var l :| l in prefix && l.driverNumber == n;
      assert l in prefix + [lap];
    }
  }

  /** One iteration of the grouping loop keeps every entry equal to the laps
      of its driver seen so far. */
  lemma GroupEntriesStep(prefix: seq<Lap>, lap: Lap, byDriver: map<int, seq<Lap>>, n: int)
    requires LapsIn(byDriver, n) == LapsOf(prefix, n)
    ensures LapsIn(byDriver[lap.driverNumber := LapsIn(byDriver, lap.driverNumber) + [lap]], n)
         == LapsOf(prefix + [lap], n)
  {
    FilterSnoc(prefix, lap, OfDriver(n));
    assert OfDriver(n)(lap) <==> lap.driverNumber == n;
  }

  /** `session[0]?.session_name ?? "Unknown"`. */
  function SessionNameOf(sessionInfo: seq<Session>): (name: string)
    ensures sessionInfo == [] ==> name == "Unknown"
    ensures sessionInfo != [] ==> name == sessionInfo[0].sessionName
  {
    if sessionInfo == [] then "Unknown" else sessionInfo[0].sessionName
  }

  /** What one driver did with their laps of the session. */
  function PerformanceOf(driver: Driver, driverLaps: seq<Lap>, sessionName: string): DriverPerformance {
    DriverPerformance(
      driver,
      FindBestLap(driverLaps),
      FindBestSectors(driverLaps),
      FindTopSpeed(driverLaps),
      |Filter(driverLaps, NotPitOut)|,
      sessionName)
  }

  /** One performance per entered driver, in the order of the driver list,
      each computed from that driver's laps. */
  method GetDriverPerformances(laps: seq<Lap>, drivers: seq<Driver>, sessionInfo: seq<Session>)
    returns (performances: seq<DriverPerformance>)
    ensures |performances| == |drivers|
    ensures forall i | 0 <= i < |drivers| ::
      performances[i] == PerformanceOf(drivers[i], LapsOf(laps, drivers[i].driverNumber), SessionNameOf(sessionInfo))
  {
    var sessionName := SessionNameOf(sessionInfo);
    var byDriver := GroupLapsByDriver(laps);
    performances := [];
    for i := 0 to |drivers|
      invariant |performances| == i
      invariant forall j | 0 <= j < i ::
        performances[j] == PerformanceOf(drivers[j], LapsOf(laps, drivers[j].driverNumber), sessionName)
    {
      var driver := drivers[i];
      var driverLaps := LapsIn(byDriver, driver.driverNumber);
      assert driverLaps == LapsOf(laps, driver.driverNumber);
      var performance := PerformanceOf(driver, driverLaps, sessionName);
      ghost var before := performances;
      performances := performances + [performance];
      assert forall j | 0 <= j < i :: performances[j] == before[j];
    }
  }

  /** A driver's best lap is one of that driver's own laps of the session;
      the lap count never exceeds the number of those laps, and equals it when
      none of them is a pit-out lap, untimed laps included. */
  lemma PerformanceOwnLaps(laps: seq<Lap>, driver: Driver, sessionName: string)
    ensures var p := PerformanceOf(driver, LapsOf(laps, driver.driverNumber), sessionName);
      && (p.bestLap.Some? ==> p.bestLap.value in laps && p.bestLap.value.driverNumber == driver.driverNumber)
      && p.lapCount <= |LapsOf(laps, driver.driverNumber)|
      && ((forall l | l in LapsOf(laps, driver.driverNumber) :: NotPitOut(l))
          ==> p.lapCount == |LapsOf(laps, driver.driverNumber)|)
  {
    var own := LapsOf(laps, driver.driverNumber);
    if forall l | l in own :: NotPitOut(l) {
      FilterAll(own, NotPitOut);
    }
    FindBestLapSpec(own);
    if FindBestLap(own).Some? {
      var k :| EarliestFastest(own, k) && own[k] == FindBestLap(own).value;
      assert own[k] in own;
      assert OfDriver(driver.driverNumber)(own[k]);
    }
  }

  /** A driver with no laps gets no best lap, no sector times, no top speed
      and a lap count of zero. */
  lemma NoLapsNoPerformance(laps: seq<Lap>, driver: Driver, sessionName: string)
    requires forall l | l in laps :: l.driverNumber != driver.driverNumber
    ensures var p := PerformanceOf(driver, LapsOf(laps, driver.driverNumber), sessionName);
      && p.bestLap.None? && p.topSpeed.None? && p.lapCount == 0
      && p.bestSectors == Sectors(None, None, None)
  {
    FilterNone(laps, OfDriver(driver.driverNumber));
  }
}
