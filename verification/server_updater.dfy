/** The offline server updater (scripts/update-servers.js): a total player
    count from Steam or an estimate, split over the regions by UTC hour,
    measured or estimated pings, a stats record and a 24-hour history. The
    Steam answer, ping outcomes, random draws and clock are inputs. */
module ServerUpdater {
  import opened Wrappers
  import opened History
  import Servers

  type Region = Servers.Region
  type PerRegion<T> = Servers.PerRegion<T>

  /** The updater's own `getTimeBasedDistribution`, in whole percentages. */
  function Distribution(hour: int): (d: PerRegion<int>)
    ensures d.asia + d.europe + d.america == 100
  {
    if hour >= 0 && hour < 8 then Servers.PerRegion(50, 25, 25)
    else if hour >= 8 && hour < 16 then Servers.PerRegion(25, 50, 25)
    else Servers.PerRegion(25, 25, 50)
  }

  /** The updater and the browser use the same three bands and shares. */
  lemma SameBandsAsBrowser(hour: int)
    ensures Distribution(hour) == Servers.Distribution(hour)
  {
  }

  /** Floor split of `total` by the hour's shares: the regions never add up
      to more than the total and lose at most two players to rounding. */
  function Split(total: int, hour: int): (regions: PerRegion<int>)
    ensures regions.asia + regions.europe + regions.america <= total <= regions.asia + regions.europe + regions.america + 2
    ensures forall r: Region :: regions.Get(r) * 100 <= total * Distribution(hour).Get(r) < regions.Get(r) * 100 + 100
  {
    var d := Distribution(hour);
    Servers.PerRegion(Servers.Portion(total, d.asia), Servers.Portion(total, d.europe), Servers.Portion(total, d.america))
  }

  /** The contents of `data/servers.json`. */
  datatype ServerData = ServerData(
    timestamp: int,
    totalPlayers: int,
    regions: PerRegion<int>,
    status: PerRegion<string>,
    ping: PerRegion<int>,
    source: Option<string>)

  const AllOnline: PerRegion<string> := Servers.PerRegion("online", "online", "online")

  /** The data a new updater starts from, stamped `created`. */
  function Initial(created: int): ServerData {
    ServerData(created, 0, Servers.PerRegion(0, 0, 0), AllOnline, Servers.PerRegion(25, 45, 35), None)
  }

  /** `data` with a new total and its regional split. */
  function WithTotal(data: ServerData, total: int, hour: int): (r: ServerData)
    ensures r.totalPlayers == total && r.regions == Split(total, hour)
    ensures r.timestamp == data.timestamp && r.status == data.status && r.ping == data.ping && r.source == data.source
  {
    data.(totalPlayers := total, regions := Split(total, hour))
  }

  /** A key counts when it is a non-empty string. */
  predicate HasKey(key: Option<string>) {
    key.Some? && |key.value| > 0
  }

  /** `fetchSteamData`: succeeds only with a key and a non-zero player
      count; `answer == None` is a failed request. On failure the data is
      untouched. */
  function FetchSteamData(data: ServerData, key: Option<string>, answer: Option<int>, hour: int): (r: (bool, ServerData))
    ensures r.0 <==> HasKey(key) && answer.Some? && answer.value != 0
    ensures !r.0 ==> r.1 == data
    ensures r.0 ==> r.1 == WithTotal(data, answer.value, hour)
  {
    if !HasKey(key) then (false, data)
    else if answer.Some? && answer.value != 0 then (true, WithTotal(data, answer.value, hour))
    else (false, data)
  }

  /** `generateEstimatedData`; `total` is the floored sine-and-noise estimate.
      Only the total and the regional counts change. */
  function GenerateEstimatedData(data: ServerData, total: int, hour: int): (r: ServerData)
    ensures r.totalPlayers == total
    ensures forall reg: Region :: r.regions.Get(reg) * 100 <= total * Distribution(hour).Get(reg) < r.regions.Get(reg) * 100 + 100
    ensures r.timestamp == data.timestamp && r.status == data.status && r.ping == data.ping && r.source == data.source
  {
    WithTotal(data, total, hour)
  }

  /** How one region's ping request ended: the elapsed milliseconds, or a
      failure with the floored draw `floor(random * 20)`. */
  datatype PingOutcome = Measured(elapsed: int) | Failed(draw: int)

  predicate ValidOutcome(o: PingOutcome) {
    o.Failed? ==> 0 <= o.draw < 20
  }

  /** The ping stored for a region. */
  function RegionPing(r: Region, o: PingOutcome): (p: int)
    requires ValidOutcome(o)
    ensures o.Measured? ==> p <= 200 && p <= o.elapsed && (p == o.elapsed || p == 200)
    ensures o.Failed? ==> Servers.BasePing(r) <= p < Servers.BasePing(r) + 20
  {
    match o
    case Measured(elapsed) => if elapsed < 200 then elapsed else 200
    case Failed(draw) => Servers.BasePing(r) + draw
  }

  /** `measureRegionPings`: replaces the three pings and nothing else. */
  function MeasureRegionPings(data: ServerData, outcomes: PerRegion<PingOutcome>): (r: ServerData)
    requires ValidOutcome(outcomes.asia) && ValidOutcome(outcomes.europe) && ValidOutcome(outcomes.america)
    ensures r.ping.asia == RegionPing(Servers.Asia, outcomes.asia)
    ensures r.ping.europe == RegionPing(Servers.Europe, outcomes.europe)
    ensures r.ping.america == RegionPing(Servers.America, outcomes.america)
    ensures r == data.(ping := r.ping)
  {
    data.(ping := Servers.PerRegion(RegionPing(Servers.Asia, outcomes.asia),
                                    RegionPing(Servers.Europe, outcomes.europe),
                                    RegionPing(Servers.America, outcomes.america)))
  }

  /** A failed measurement lands in the region's estimate window: asia in
      [25, 45), europe in [45, 65), america in [35, 55). */
  lemma FailedPingWindows(d1: int, d2: int, d3: int)
    requires 0 <= d1 < 20 && 0 <= d2 < 20 && 0 <= d3 < 20
    ensures 25 <= RegionPing(Servers.Asia, Failed(d1)) < 45
    ensures 45 <= RegionPing(Servers.Europe, Failed(d2)) < 65
    ensures 35 <= RegionPing(Servers.America, Failed(d3)) < 55
  {
  }

  /** `generateFallbackData`: a fresh record stamped `now`, split by the
      hour, all online, pings drawn `floor(random * 15)` above the base. */
  function GenerateFallbackData(now: int, total: int, hour: int, draws: PerRegion<int>): (r: ServerData)
    requires forall reg: Region :: 0 <= draws.Get(reg) < 15
    ensures r.timestamp == now && r.totalPlayers == total && r.regions == Split(total, hour)
    ensures r.status == AllOnline && r.source == Some("fallback")
    ensures forall reg: Region :: Servers.BasePing(reg) <= r.ping.Get(reg) < Servers.BasePing(reg) + 15
  {
    assert 0 <= draws.Get(Servers.Asia) < 15 && 0 <= draws.Get(Servers.Europe) < 15 && 0 <= draws.Get(Servers.America) < 15;
    ServerData(now, total, Split(total, hour), AllOnline,
               Servers.PerRegion(25 + draws.asia, 45 + draws.europe, 35 + draws.america), Some("fallback"))
  }

  /** `Math.round(s / 3)`: the nearest integer to a third of `s` (a third
      of an integer is never exactly halfway between two integers). */
  function RoundThird(s: int): (r: int)
    ensures -1 <= 3 * r - s <= 1
  {
    (2 * s + 3) / 6
  }

  /** Only one integer is within a third of `s / 3`. */
  lemma RoundThirdUnique(s: int, r: int)
    requires -1 <= 3 * r - s <= 1
    ensures r == RoundThird(s)
  {
  }

  /** The rounded mean of the three region pings. */
  function AvgPing(data: ServerData): (a: int)
    ensures -1 <= 3 * a - (data.ping.asia + data.ping.europe + data.ping.america) <= 1
  {
    RoundThird(data.ping.asia + data.ping.europe + data.ping.america)
  }

  /** The `data/server-stats.json` record. */
  datatype Stats = Stats(lastUpdated: int, totalPlayers: int, onlineServers: int, avgPing: int, dataSource: string)

  /** The stats written beside the data: three servers always online and the
      data's source, or "steam" when it has none. */
  function ServerStats(data: ServerData): (s: Stats)
    ensures s.onlineServers == 3
    ensures s.lastUpdated == data.timestamp && s.totalPlayers == data.totalPlayers
    ensures s.avgPing == AvgPing(data)
    ensures data.source.None? ==> s.dataSource == "steam"
    ensures data.source.Some? ==> s.dataSource == data.source.value
  {
    Stats(data.timestamp, data.totalPlayers, 3, AvgPing(data), data.source.GetOr("steam"))
  }

  /** One point of `data/server-history.json`. */
  datatype HistoryPoint = HistoryPoint(timestamp: int, totalPlayers: int, regions: PerRegion<int>, avgPing: int)

  function PointTime(p: HistoryPoint): int {
    p.timestamp
  }

  /** `saveHistoryData`: appends the current point, then keeps the points of
      the last 24 hours before `now`; an unreadable file counts as empty. */
  function SaveHistoryData(history: Option<seq<HistoryPoint>>, data: ServerData, now: int): (r: seq<HistoryPoint>)
    ensures forall i :: 0 <= i < |r| ==> r[i].timestamp > now - DayMs
    ensures var point := HistoryPoint(data.timestamp, data.totalPlayers, data.regions, AvgPing(data));
            r == KeepAfter(history.GetOr([]), PointTime, now - DayMs) + (if data.timestamp > now - DayMs then [point] else [])
  {
    var point := HistoryPoint(data.timestamp, data.totalPlayers, data.regions, AvgPing(data));
    var earlier := history.GetOr([]);
    KeepAfterAppendOne(earlier, point, PointTime, now - DayMs);
    KeepAfter(earlier + [point], PointTime, now - DayMs)
  }

  /** Everything one run needs from the outside world. */
  datatype RunInputs = RunInputs(
    created: int,
    key: Option<string>,
    steamAnswer: Option<int>,
    estimateTotal: int,
    pings: PerRegion<PingOutcome>,
    failed: bool,
    fallbackTime: int,
    fallbackTotal: int,
    fallbackDraws: PerRegion<int>,
    hour: int)

  predicate ValidInputs(i: RunInputs) {
    ValidOutcome(i.pings.asia) && ValidOutcome(i.pings.europe) && ValidOutcome(i.pings.america) &&
    forall reg: Region :: 0 <= i.fallbackDraws.Get(reg) < 15
  }

  /** `updateServerData`: Steam, else the estimate, then the pings; the
      fallback when an exception escaped (`failed`). */
  function UpdateServerData(i: RunInputs): (r: ServerData)
    requires ValidInputs(i)
    ensures i.failed ==> r == GenerateFallbackData(i.fallbackTime, i.fallbackTotal, i.hour, i.fallbackDraws)
    ensures !i.failed ==> r.source.None? && r.timestamp == i.created
    ensures !i.failed && !(HasKey(i.key) && i.steamAnswer.Some? && i.steamAnswer.value != 0) ==>
      r.totalPlayers == i.estimateTotal && r.regions == Split(i.estimateTotal, i.hour)
    ensures !i.failed && HasKey(i.key) && i.steamAnswer.Some? && i.steamAnswer.value != 0 ==>
      r.totalPlayers == i.steamAnswer.value && r.regions == Split(i.steamAnswer.value, i.hour)
    ensures !i.failed ==> r.ping == Servers.PerRegion(RegionPing(Servers.Asia, i.pings.asia),
                                                      RegionPing(Servers.Europe, i.pings.europe),
                                                      RegionPing(Servers.America, i.pings.america))
    ensures !i.failed ==> r.status == AllOnline
  {
    if i.failed then GenerateFallbackData(i.fallbackTime, i.fallbackTotal, i.hour, i.fallbackDraws)
    else
      var (ok, data) := FetchSteamData(Initial(i.created), i.key, i.steamAnswer, i.hour);
      var counted := if ok then data else GenerateEstimatedData(data, i.estimateTotal, i.hour);
      MeasureRegionPings(counted, i.pings)
  }

  /** The stats claim Steam as the source on every run that did not fall
      back, including runs whose counts were estimated. */
  lemma StatsReportSteamUnlessFallback(i: RunInputs)
    requires ValidInputs(i)
    ensures ServerStats(UpdateServerData(i)).dataSource == "steam" <==> !i.failed
  {
    if i.failed {
      assert "fallback" != "steam";
    }
  }

  /** Every run's regional counts stay within its total. */
  lemma RegionsWithinTotal(i: RunInputs)
    requires ValidInputs(i)
    ensures var r := UpdateServerData(i);
            r.regions.asia + r.regions.europe + r.regions.america <= r.totalPlayers
  {
    if !i.failed {
      var (ok, data) := FetchSteamData(Initial(i.created), i.key, i.steamAnswer, i.hour);
      if ok {
        assert UpdateServerData(i).regions == Split(i.steamAnswer.value, i.hour);
      }
    }
  }
}
