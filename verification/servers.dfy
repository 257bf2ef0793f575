/** The browser's server monitor (js/servers.js): per-region player counts,
    pings and statuses from a chain of providers, with time-of-day regional
    shares, fixed defaults, aggregate statistics and a 24-hour history.
    Provider answers, the UTC hour, random draws and the clock are inputs. */
module Servers {
  import opened Wrappers
  import opened Dedup
  import opened History
  import opened Chains
  import ApiConfig

  datatype Region = Asia | Europe | America

  /** The three regions in the order the monitor lists them. */
  const Regions: seq<Region> := [Asia, Europe, America]

  /** The key of a region in the monitor's tables. */
  function Key(r: Region): string {
    match r
    case Asia => "asia"
    case Europe => "europe"
    case America => "america"
  }

  predicate IsRegionKey(key: string) {
    key == "asia" || key == "europe" || key == "america"
  }

  /** One value per region. */
  datatype PerRegion<T> = PerRegion(asia: T, europe: T, america: T) {
    function Get(r: Region): T {
      match r
      case Asia => asia
      case Europe => europe
      case America => america
    }
  }

  // ---------------------------------------------------------------------
  // Time-of-day shares and statuses

  /** `getTimeBasedDistribution` as whole percentages (0.50 and 0.25 are
      exact binary fractions). */
  function Distribution(hour: int): (d: PerRegion<int>)
    ensures d.asia + d.europe + d.america == 100
    ensures d.asia == 50 <==> 0 <= hour < 8
    ensures d.europe == 50 <==> 8 <= hour < 16
    ensures d.america == 50 <==> !(0 <= hour < 16)
    ensures forall r :: d.Get(r) == 25 || d.Get(r) == 50
  {
    if hour >= 0 && hour < 8 then PerRegion(50, 25, 25)
    else if hour >= 8 && hour < 16 then PerRegion(25, 50, 25)
    else PerRegion(25, 25, 50)
  }

  /** `Math.floor(total * share)` for a share of `pct` percent. */
  function Portion(total: int, pct: int): (p: int)
    requires pct > 0
    ensures p * 100 <= total * pct < p * 100 + 100
  {
    total * pct / 100
  }

  /** The status an API-derived record gets from its player count. */
  function StatusFor(players: int): (s: string)
    ensures s == "online" <==> players > 100
    ensures s == "online" || s == "maintenance"
  {
    if players > 100 then "online" else "maintenance"
  }

  // ---------------------------------------------------------------------
  // Records and generators

  /** What a provider yields for a region; the fixed defaults carry no
      `source`. */
  datatype ServerRecord = ServerRecord(players: int, ping: int, status: string, source: Option<string>)

  /** The random draws one refresh of a region consumes, already floored:
      `floor(random * 20)`, `floor(random * 12)` and `floor(random * 15)`,
      and the player counts of the floating-point estimators. */
  datatype Draws = Draws(ping20: int, ping12: int, ping15: int,
                         smartPlayers: int, apiPlayers: int, simulationPlayers: int)

  predicate ValidDraws(d: Draws) {
    0 <= d.ping20 < 20 && 0 <= d.ping12 < 12 && 0 <= d.ping15 < 15
  }

  /** Base pings of `estimatePing` and the smart estimate. */
  function BasePing(r: Region): int {
    match r
    case Asia => 25
    case Europe => 45
    case America => 35
  }

  /** Base pings of the API-type estimate and the simulation. */
  function ApiBasePing(r: Region): int {
    match r
    case Asia => 28
    case Europe => 42
    case America => 35
  }

  /** `estimatePing`: the base ping moved by -10..+9, never below 10. */
  function EstimatePing(r: Region, draw: int): (p: int)
    requires 0 <= draw < 20
    ensures 10 <= p <= BasePing(r) + 9
    ensures p > 10 ==> p - BasePing(r) == draw - 10
  {
    var ping := BasePing(r) + draw - 10;
    if ping > 10 then ping else 10
  }

  /** `generateSmartEstimate`. */
  function GenerateSmartEstimate(r: Region, d: Draws): (rec: ServerRecord)
    requires ValidDraws(d)
    ensures rec.ping >= 10 && rec.status == "online"
    ensures rec.source == Some("smart-estimate")
  {
    ServerRecord(d.smartPlayers, EstimatePing(r, d.ping20), "online", Some("smart-estimate"))
  }

  /** `generateEstimatedData`: a base ping moved by -6..+5, never below 18. */
  function GenerateEstimatedData(r: Region, apiType: string, d: Draws): (rec: ServerRecord)
    requires ValidDraws(d)
    ensures 18 <= rec.ping <= ApiBasePing(r) + 5
    ensures rec.status == "online" && rec.source == Some(apiType)
  {
    var ping := ApiBasePing(r) + d.ping12 - 6;
    ServerRecord(d.apiPlayers, if ping > 18 then ping else 18, "online", Some(apiType))
  }

  /** `fetchRealisticSimulatedData`: a base ping moved by -7..+7, never below 15. */
  function FetchRealisticSimulatedData(r: Region, d: Draws): (rec: ServerRecord)
    requires ValidDraws(d)
    ensures 15 <= rec.ping <= ApiBasePing(r) + 7
    ensures rec.status == "online" && rec.source == Some("realistic-simulation")
  {
    var ping := ApiBasePing(r) + d.ping15 - 7;
    ServerRecord(d.simulationPlayers, if ping > 15 then ping else 15, "online", Some("realistic-simulation"))
  }

  /** A record computed from a total player count: the region's share of
      it, an estimated ping and the status threshold. */
  function ApiRecord(r: Region, total: int, hour: int, d: Draws, source: string): (rec: ServerRecord)
    requires ValidDraws(d)
    ensures rec.players * 100 <= total * Distribution(hour).Get(r) < rec.players * 100 + 100
    ensures rec.status == "online" <==> rec.players > 100
    ensures rec.ping >= 10 && rec.source == Some(source)
  {
    var players := Portion(total, Distribution(hour).Get(r));
    ServerRecord(players, EstimatePing(r, d.ping20), StatusFor(players), Some(source))
  }

  // ---------------------------------------------------------------------
  // Provider chains

  /** An owner count and the online estimate derived from it. */
  datatype Owners = Owners(owners: int, online: int)

  /** The answers of the remote providers for one refresh. `None` stands
      for a failed request or a missing/falsy field. */
  datatype Answers = Answers(
    steamSpy: Option<Owners>,
    steamCharts: Option<int>,
    gameStatsReachable: bool,
    playerCounter: Option<int>,
    github: Option<Owners>,
    steamApi: Option<int>)

  /** `fetchSteamChartsData`: SteamSpy when it reports owners, else the
      Steam Charts backup. */
  function FetchSteamChartsData(r: Region, hour: int, a: Answers, d: Draws): (rec: Option<ServerRecord>)
    requires ValidDraws(d)
    ensures rec.None? <==> (a.steamSpy.None? || a.steamSpy.value.owners == 0) && a.steamCharts.None?
    ensures a.steamSpy.Some? && a.steamSpy.value.owners != 0 ==>
      rec == Some(ApiRecord(r, a.steamSpy.value.online, hour, d, "steamspy-api"))
    ensures (a.steamSpy.None? || a.steamSpy.value.owners == 0) && a.steamCharts.Some? ==>
      rec == Some(ApiRecord(r, a.steamCharts.value, hour, d, "steam-charts-backup"))
  {
    var spy := if a.steamSpy.Some? && a.steamSpy.value.owners != 0
               then Some(ApiRecord(r, a.steamSpy.value.online, hour, d, "steamspy-api")) else None;
    var backup := if a.steamCharts.Some? then Some(ApiRecord(r, a.steamCharts.value, hour, d, "steam-charts-backup")) else None;
    spy.OrElse(backup)
  }

  /** The three free sources `fetchSteamDBData` tries, in order. */
  function SteamDBSources(r: Region, hour: int, a: Answers, d: Draws): seq<Option<ServerRecord>>
    requires ValidDraws(d)
  {
    [if a.gameStatsReachable then Some(GenerateEstimatedData(r, "gamestats-api", d)) else None,
     if a.playerCounter.Some? then Some(ApiRecord(r, a.playerCounter.value, hour, d, "playercounter-api")) else None,
     if a.github.Some? && a.github.value.owners != 0 then Some(ApiRecord(r, a.github.value.online, hour, d, "github-data")) else None]
  }

  /** `fetchSteamDBData`: GameStats, then PlayerCounter, then GitHub; the
      first that answers wins. */
  function FetchSteamDBData(r: Region, hour: int, a: Answers, d: Draws): (rec: Option<ServerRecord>)
    requires ValidDraws(d)
    ensures rec.None? <==> !a.gameStatsReachable && a.playerCounter.None? && (a.github.None? || a.github.value.owners == 0)
    ensures a.gameStatsReachable ==> rec == Some(GenerateEstimatedData(r, "gamestats-api", d))
    ensures !a.gameStatsReachable && a.playerCounter.Some? ==>
      rec == Some(ApiRecord(r, a.playerCounter.value, hour, d, "playercounter-api"))
    ensures !a.gameStatsReachable && a.playerCounter.None? && a.github.Some? && a.github.value.owners != 0 ==>
      rec == Some(ApiRecord(r, a.github.value.online, hour, d, "github-data"))
  {
    var sources := SteamDBSources(r, hour, a, d);
    assert |sources| == 3;
    assert NoneBefore(sources, 3) ==> sources[0].None? && sources[1].None? && sources[2].None?;
    assert !a.gameStatsReachable ==> NoneBefore(sources, 1);
    assert !a.gameStatsReachable && a.playerCounter.None? ==> NoneBefore(sources, 2);
    assert !a.gameStatsReachable && a.playerCounter.None? && (a.github.None? || a.github.value.owners == 0) ==>
      NoneBefore(sources, 3);
    FirstSome(sources)
  }

  /** The placeholder the Steam-key guard compares against. */
  const GuardedPlaceholder: string := "YOUR_REAL_STEAM_API_KEY"

  /** The Steam-key guard as written: a key is used unless it is missing,
      empty or equal to a placeholder that the configuration never holds. */
  function SteamKeyUsableAsWritten(key: Option<string>): (b: bool)
    ensures key.None? || key == Some("") || key == Some("YOUR_REAL_STEAM_API_KEY") ==> !b
    ensures key.Some? && key.value != "" && key.value != "YOUR_REAL_STEAM_API_KEY" ==> b
  {
    key.Some? && |key.value| > 0 && key.value != GuardedPlaceholder
  }

  /** The default configuration's placeholder key passes the guard as
      written, so the keyed request is sent with it. */
  lemma PlaceholderKeyPassesGuard()
    ensures SteamKeyUsableAsWritten(Some(ApiConfig.SteamPlaceholderKey))
  {
    assert |ApiConfig.SteamPlaceholderKey| != |GuardedPlaceholder|;
  }

  /** The guard as intended: the configuration's placeholder is skipped too. */
  predicate SteamKeyUsable(key: Option<string>) {
    SteamKeyUsableAsWritten(key) && key.value != ApiConfig.SteamPlaceholderKey
  }

  /** The corrected guard skips the default key and agrees with the written
      guard on every other key. */
  lemma CorrectedGuardSkipsPlaceholder(key: Option<string>)
    ensures !SteamKeyUsable(Some(ApiConfig.SteamPlaceholderKey))
    ensures key != Some(ApiConfig.SteamPlaceholderKey) ==> (SteamKeyUsable(key) <==> SteamKeyUsableAsWritten(key))
  {
  }

  /** `window.API_CONFIG?.get('steam')?.apiKey` when it is a string. */
  function SteamKey(c: ApiConfig.Config): (k: Option<string>)
    ensures k.Some? <==> "steam" in c && c["steam"].Obj? && "apiKey" in c["steam"].fields
                         && c["steam"].fields["apiKey"].Str?
    ensures k.Some? ==> c["steam"].fields["apiKey"] == ApiConfig.Str(k.value)
  {
    match ApiConfig.Field(ApiConfig.Get(c, "steam"), "apiKey")
    case Some(Str(s)) => Some(s)
    case _ => None
  }

  /** `fetchOriginalSteamAPI` as written: a record from Steam's player count
      whenever the key passes the written guard. */
  function FetchOriginalSteamAPI(r: Region, hour: int, key: Option<string>, a: Answers, d: Draws): (rec: Option<ServerRecord>)
    requires ValidDraws(d)
    ensures rec.Some? <==> SteamKeyUsableAsWritten(key) && a.steamApi.Some? && a.steamApi.value != 0
    ensures rec.Some? ==> rec == Some(ApiRecord(r, a.steamApi.value, hour, d, "steam-api"))
  {
    if SteamKeyUsableAsWritten(key) && a.steamApi.Some? && a.steamApi.value != 0
    then Some(ApiRecord(r, a.steamApi.value, hour, d, "steam-api"))
    else None
  }

  /** `fetchOriginalSteamAPI` with the intended guard: the configuration's
      placeholder key is never sent. */
  function FetchOriginalSteamAPICorrected(r: Region, hour: int, key: Option<string>, a: Answers, d: Draws): (rec: Option<ServerRecord>)
    requires ValidDraws(d)
    ensures rec.Some? <==> SteamKeyUsable(key) && a.steamApi.Some? && a.steamApi.value != 0
    ensures key == Some(ApiConfig.SteamPlaceholderKey) ==> rec.None?
    ensures key != Some(ApiConfig.SteamPlaceholderKey) ==> rec == FetchOriginalSteamAPI(r, hour, key, a, d)
  {
    if SteamKeyUsable(key) && a.steamApi.Some? && a.steamApi.value != 0
    then Some(ApiRecord(r, a.steamApi.value, hour, d, "steam-api"))
    else None
  }

  /** With the default configuration, whenever Steam answers, the request
      made with the placeholder key yields a "steam-api" record as written,
      and nothing once corrected. */
  lemma DefaultKeyReachesSteam(r: Region, hour: int, a: Answers, d: Draws)
    requires ValidDraws(d)
    requires a.steamApi.Some? && a.steamApi.value != 0
    ensures SteamKey(ApiConfig.Default()) == Some(ApiConfig.SteamPlaceholderKey)
    ensures FetchOriginalSteamAPI(r, hour, SteamKey(ApiConfig.Default()), a, d).Some?
    ensures FetchOriginalSteamAPICorrected(r, hour, SteamKey(ApiConfig.Default()), a, d).None?
  {
    PlaceholderKeyPassesGuard();
  }

  /** The sources whose records get their status from the player threshold. */
  const ThresholdSources: set<string> :=
    {"steamspy-api", "steam-charts-backup", "playercounter-api", "github-data", "steam-api"}

  /** The three provider chains `fetchSteamAPIData` tries, in order. */
  function SteamSources(r: Region, hour: int, key: Option<string>, a: Answers, d: Draws): seq<Option<ServerRecord>>
    requires ValidDraws(d)
  {
    [FetchSteamChartsData(r, hour, a, d), FetchSteamDBData(r, hour, a, d), FetchOriginalSteamAPI(r, hour, key, a, d)]
  }

  /** `fetchSteamAPIData`: the three chains in order, then the simulation.
      The last step always answers, so the chain never comes back empty. */
  function FetchSteamAPIData(r: Region, hour: int, key: Option<string>, a: Answers, d: Draws): (rec: Option<ServerRecord>)
    requires ValidDraws(d)
    ensures rec.Some?
    ensures FetchSteamChartsData(r, hour, a, d).Some? ==> rec == FetchSteamChartsData(r, hour, a, d)
    ensures FetchSteamChartsData(r, hour, a, d).None? && FetchSteamDBData(r, hour, a, d).Some? ==>
      rec == FetchSteamDBData(r, hour, a, d)
    ensures (FetchSteamChartsData(r, hour, a, d).None? && FetchSteamDBData(r, hour, a, d).None? &&
             FetchOriginalSteamAPI(r, hour, key, a, d).Some?) ==> rec == FetchOriginalSteamAPI(r, hour, key, a, d)
    ensures (FetchSteamChartsData(r, hour, a, d).None? && FetchSteamDBData(r, hour, a, d).None? &&
             FetchOriginalSteamAPI(r, hour, key, a, d).None?) ==> rec == Some(FetchRealisticSimulatedData(r, d))
    ensures rec.value.source == Some("realistic-simulation") <==>
      FetchSteamChartsData(r, hour, a, d).None? && FetchSteamDBData(r, hour, a, d).None? &&
      FetchOriginalSteamAPI(r, hour, key, a, d).None?
    ensures rec.value.source.Some? && rec.value.source.value != "smart-estimate"
    ensures rec.value.ping >= 10
    ensures rec.value.source.value in ThresholdSources ==> (rec.value.status == "online" <==> rec.value.players > 100)
    ensures rec.value.source.value !in ThresholdSources ==> rec.value.status == "online"
  {
    var sources := SteamSources(r, hour, key, a, d);
    assert sources[0].None? ==> NoneBefore(sources, 1);
    assert sources[0].None? && sources[1].None? ==> NoneBefore(sources, 2);
    assert sources[0].None? && sources[1].None? && sources[2].None? ==> NoneBefore(sources, 3);
    Some(FirstSomeOr(sources, FetchRealisticSimulatedData(r, d)))
  }

  /** The `data/servers.json` file the updater writes; absent parts are `None`. */
  datatype ServersFile = ServersFile(
    regions: Option<PerRegion<int>>,
    ping: Option<PerRegion<int>>,
    status: Option<PerRegion<string>>)

  /** `loadRealServerData`: a record from the file when it has a non-zero
      player count for the region (zero is falsy); `file == None` when the
      file could not be fetched or parsed. */
  function LoadRealServerData(r: Region, file: Option<ServersFile>, d: Draws): (rec: Option<ServerRecord>)
    requires ValidDraws(d)
    ensures rec.Some? <==> file.Some? && file.value.regions.Some? && file.value.regions.value.Get(r) != 0
    ensures rec.Some? ==> rec.value.players == file.value.regions.value.Get(r) && rec.value.source == Some("real-data")
    ensures rec.Some? && file.value.ping.Some? ==> rec.value.ping == file.value.ping.value.Get(r)
    ensures rec.Some? && file.value.status.None? ==> rec.value.status == "online"
    ensures rec.Some? && file.value.status.Some? ==> rec.value.status == file.value.status.value.Get(r)
    ensures rec.Some? && file.value.ping.None? ==> rec.value.ping == EstimatePing(r, d.ping20)
  {
    if file.Some? && file.value.regions.Some? && file.value.regions.value.Get(r) != 0 then
      var f := file.value;
      Some(ServerRecord(
        f.regions.value.Get(r),
        if f.ping.Some? then f.ping.value.Get(r) else EstimatePing(r, d.ping20),
        if f.status.Some? then f.status.value.Get(r) else "online",
        Some("real-data")))
    else None
  }

  /** `getDefaultServerData`: fixed records for the three regions, an
      offline record for any other key. */
  function GetDefaultServerData(key: string): (rec: ServerRecord)
    ensures rec.status == "offline" <==> !IsRegionKey(key)
    ensures rec.players > 0 <==> IsRegionKey(key)
    ensures key == "asia" ==> rec == ServerRecord(15000, 25, "online", None)
    ensures key == "europe" ==> rec == ServerRecord(12000, 45, "online", None)
    ensures key == "america" ==> rec == ServerRecord(18000, 35, "online", None)
    ensures !IsRegionKey(key) ==> rec == ServerRecord(0, 0, "offline", None)
  {
    if key == "asia" then ServerRecord(15000, 25, "online", None)
    else if key == "europe" then ServerRecord(12000, 45, "online", None)
    else if key == "america" then ServerRecord(18000, 35, "online", None)
    else ServerRecord(0, 0, "offline", None)
  }

  /** `fetchServerData`: the file, else the Steam chain, else the smart
      estimate; the defaults when an exception escapes (`threw`). */
  function FetchServerData(r: Region, hour: int, file: Option<ServersFile>, key: Option<string>,
                           a: Answers, d: Draws, threw: bool): (rec: ServerRecord)
    requires ValidDraws(d)
    ensures threw ==> rec == GetDefaultServerData(Key(r))
    ensures !threw && LoadRealServerData(r, file, d).Some? ==> rec == LoadRealServerData(r, file, d).value
    ensures !threw && LoadRealServerData(r, file, d).None? ==> rec == FetchSteamAPIData(r, hour, key, a, d).value
  {
    if threw then GetDefaultServerData(Key(r))
    else
      var local := LoadRealServerData(r, file, d);
      local.OrElse(FetchSteamAPIData(r, hour, key, a, d)).GetOr(GenerateSmartEstimate(r, d))
  }

  /** Because the Steam chain always answers, the smart estimate is never
      what `fetchServerData` returns. */
  lemma SmartEstimateUnreachable(r: Region, hour: int, file: Option<ServersFile>, key: Option<string>,
                                 a: Answers, d: Draws, threw: bool)
    requires ValidDraws(d)
    ensures FetchServerData(r, hour, file, key, a, d, threw).source != Some("smart-estimate")
  {
  }

  /** A file with a non-zero count for the region decides the record: the key
      and every remote provider's answer are ignored, and the shown count is
      the file's. */
  lemma FileWinsOverRemote(r: Region, hour: int, file: Option<ServersFile>, k1: Option<string>, k2: Option<string>,
                           a1: Answers, a2: Answers, d: Draws)
    requires ValidDraws(d)
    requires file.Some? && file.value.regions.Some? && file.value.regions.value.Get(r) != 0
    ensures FetchServerData(r, hour, file, k1, a1, d, false) == FetchServerData(r, hour, file, k2, a2, d, false)
    ensures FetchServerData(r, hour, file, k1, a1, d, false).players == file.value.regions.value.Get(r)
    ensures FetchServerData(r, hour, file, k1, a1, d, false).source == Some("real-data")
  {
  }

  /** Without a usable file, the answer is the first remote provider's. */
  lemma SteamSpyWinsWithoutFile(r: Region, hour: int, key: Option<string>, a: Answers, d: Draws)
    requires ValidDraws(d)
    requires a.steamSpy.Some? && a.steamSpy.value.owners != 0
    ensures FetchServerData(r, hour, None, key, a, d, false) == ApiRecord(r, a.steamSpy.value.online, hour, d, "steamspy-api")
  {
  }

  // ---------------------------------------------------------------------
  // Statistics and history

  /** The aggregate the overview shows. */
  datatype ServerStats = ServerStats(totalPlayers: int, onlineServers: nat, totalServers: nat, avgPing: int)

  /** The records in `Object.values` order. */
  function Values(servers: PerRegion<ServerRecord>): (vs: seq<ServerRecord>)
    ensures |vs| == 3 && forall i :: 0 <= i < 3 ==> vs[i] == servers.Get(Regions[i])
  {
    [servers.asia, servers.europe, servers.america]
  }

  function SumPlayers(vs: seq<ServerRecord>): int {
    if |vs| == 0 then 0 else vs[0].players + SumPlayers(vs[1..])
  }

  function SumPing(vs: seq<ServerRecord>): int {
    if |vs| == 0 then 0 else vs[0].ping + SumPing(vs[1..])
  }

  /** How many records report "online". */
  function CountOnline(vs: seq<ServerRecord>): (n: nat)
    ensures n <= |vs|
    ensures |vs| == 1 ==> n == (if vs[0].status == "online" then 1 else 0)
    ensures n == |vs| <==> forall i :: 0 <= i < |vs| ==> vs[i].status == "online"
    ensures n == 0 <==> forall i :: 0 <= i < |vs| ==> vs[i].status != "online"
  {
    if |vs| == 0 then 0
    else
      var rest := CountOnline(vs[1..]);
      assert forall i :: 1 <= i < |vs| ==> vs[i] == vs[1..][i - 1];
      (if vs[0].status == "online" then 1 else 0) + rest
  }

  /** Counting distributes over concatenation, so together with the count of
      a single record it fixes the count of every list. */
  lemma {:induction false} CountOnlineAppend(a: seq<ServerRecord>, b: seq<ServerRecord>)
    ensures CountOnline(a + b) == CountOnline(a) + CountOnline(b)
  {
    if |a| > 0 {
      assert (a + b)[1..] == a[1..] + b;
      CountOnlineAppend(a[1..], b);
    } else {
      assert a + b == b;
    }
  }

  lemma SumsOfThree(vs: seq<ServerRecord>)
    requires |vs| == 3
    ensures SumPlayers(vs) == vs[0].players + vs[1].players + vs[2].players
    ensures SumPing(vs) == vs[0].ping + vs[1].ping + vs[2].ping
  {
    var t1 := vs[1..];
    var t2 := t1[1..];
    assert t2[1..] == [];
    assert SumPlayers(t2) == vs[2].players && SumPing(t2) == vs[2].ping;
    assert SumPlayers(t1) == vs[1].players + SumPlayers(t2);
    assert SumPing(t1) == vs[1].ping + SumPing(t2);
  }

  /** `getServerStats`. */
  function GetServerStats(servers: PerRegion<ServerRecord>): (s: ServerStats)
    ensures s.totalServers == 3
    ensures s.totalPlayers == servers.asia.players + servers.europe.players + servers.america.players
    ensures s.onlineServers == (if servers.asia.status == "online" then 1 else 0)
                               + (if servers.europe.status == "online" then 1 else 0)
                               + (if servers.america.status == "online" then 1 else 0)
    ensures 3 * s.avgPing <= servers.asia.ping + servers.europe.ping + servers.america.ping < 3 * s.avgPing + 3
  {
    var vs := Values(servers);
    SumsOfThree(vs);
    CountOnlineAppend([vs[0]], [vs[1], vs[2]]);
    CountOnlineAppend([vs[1]], [vs[2]]);
    assert vs == [vs[0]] + ([vs[1]] + [vs[2]]);
    ServerStats(SumPlayers(vs), CountOnline(vs), |vs|, SumPing(vs) / |vs|)
  }

  /** One saved history point. */
  datatype HistoryEntry = HistoryEntry(timestamp: int, stats: ServerStats)

  function EntryTime(e: HistoryEntry): int {
    e.timestamp
  }

  /** `logServerStatus`: appends the current stats stamped `now`, then keeps
      the entries of the last 24 hours. */
  function LogServerStatus(history: seq<HistoryEntry>, servers: PerRegion<ServerRecord>, now: int): (r: seq<HistoryEntry>)
    ensures |r| > 0 && r[|r| - 1] == HistoryEntry(now, GetServerStats(servers))
    ensures r[..|r| - 1] == KeepAfter(history, EntryTime, now - DayMs)
    ensures forall i :: 0 <= i < |r| ==> r[i].timestamp > now - DayMs
  {
    var entry := HistoryEntry(now, GetServerStats(servers));
    NewestEntryKept(history, entry, EntryTime, now - DayMs);
    KeepAfter(history + [entry], EntryTime, now - DayMs)
  }

  /** `getServerIndex`: the 1-based card position, 1 for an unknown key. */
  function GetServerIndex(key: string): (i: int)
    ensures 1 <= i <= 3
    ensures !IsRegionKey(key) ==> i == 1
  {
    if key == "asia" then 1 else if key == "europe" then 2 else if key == "america" then 3 else 1
  }

  /** The card positions follow the region order. */
  lemma ServerIndexMatchesOrder(r: Region)
    ensures Regions[GetServerIndex(Key(r)) - 1] == r
  {
  }
}
