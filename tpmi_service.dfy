/**
 * The third-party mod identification service: a catalog, per game, of
 * DLC folder names that identify known third-party mods. The catalog is
 * refreshed from the network with a fallback to a cached copy and then to
 * a blank catalog, and is queried by folder name, by module number and by
 * mount priority.
 */
module Tpmi {
  import opened Wrappers
  import opened DotNetText
  import opened HostEnvironment

  const ServiceUrl: string :=
    "https://me3tweaks.com/modmanager/services/thirdpartyidentificationservice?highprioritysupport=true&allgames=true"

  /** The games known to the tool set. */
  datatype Game = Unknown | ME1 | ME2 | ME3 | UDK | LE1 | LE2 | LE3 | LELauncher

  /** The key a game is filed under in the database: its enum name. */
  function GameKey(g: Game): string
  {
    match g
    case Unknown => "Unknown"
    case ME1 => "ME1"
    case ME2 => "ME2"
    case ME3 => "ME3"
    case UDK => "UDK"
    case LE1 => "LE1"
    case LE2 => "LE2"
    case LE3 => "LE3"
    case LELauncher => "LELauncher"
  }

  /** What the service knows about one third-party DLC mod; only the fields the queries use. */
  datatype ModInfo = ModInfo(modname: string, modulenumber: Option<string>, mountPriority: int)

  /** One key/value pair of a game's case-insensitive dictionary; the key keeps its casing. */
  datatype Entry = Entry(key: string, info: ModInfo)

  predicate KeyMatches(e: Entry, name: string)
  {
    SameIgnoringCase(e.key, name)
  }

  predicate DistinctKeys(entries: seq<Entry>)
  {
    forall i, j :: 0 <= i < j < |entries| ==> !SameIgnoringCase(entries[i].key, entries[j].key)
  }

  /** A case-insensitive dictionary from DLC folder name to mod info, in enumeration order. */
  type Catalog = c: seq<Entry> | DistinctKeys(c) witness []

  /** Game key to that game's catalog. */
  type Dataset = map<string, Catalog>

  // ---------------------------------------------------------------------
  // Reads over one catalog
  // ---------------------------------------------------------------------

  /** TryGetValue on a catalog: the entry whose key equals `name` ignoring case. */
  function Lookup(cat: Catalog, name: string): (r: Option<ModInfo>)
    ensures r.None? <==> forall i :: 0 <= i < |cat| ==> !KeyMatches(cat[i], name)
    ensures forall i :: 0 <= i < |cat| && KeyMatches(cat[i], name) ==> r == Some(cat[i].info)
  {
    if |cat| == 0 then None
    else if KeyMatches(cat[0], name) then Some(cat[0].info)
    else Lookup(cat[1..], name)
  }

  /** Where(keep).Select(value).ToList(): the infos `keep` accepts, in enumeration order. */
  function Select(entries: seq<Entry>, keep: ModInfo -> bool): (r: seq<ModInfo>)
    ensures |r| <= |entries|
    ensures forall k :: 0 <= k < |r| ==> keep(r[k])
    ensures forall k :: 0 <= k < |r| ==> exists i :: 0 <= i < |entries| && entries[i].info == r[k]
    ensures forall i :: 0 <= i < |entries| && keep(entries[i].info) ==> entries[i].info in r
  {
    if |entries| == 0 then []
    else if keep(entries[0].info) then [entries[0].info] + Select(entries[1..], keep)
    else Select(entries[1..], keep)
  }

  /** Selection keeps the order of the catalog: it distributes over concatenation. */
  lemma {:induction false} SelectAppend(a: seq<Entry>, b: seq<Entry>, keep: ModInfo -> bool)
    ensures Select(a + b, keep) == Select(a, keep) + Select(b, keep)
  {
    if |a| == 0 {
      assert a + b == b;
    } else {
      assert (a + b)[1..] == a[1..] + b;
      SelectAppend(a[1..], b, keep);
    }
  }

  /**
   * A one-entry catalog yields its info exactly when it is accepted.
   * With SelectAppend this fixes Select completely: every accepted entry
   * contributes its info once, at its place in the catalog.
   */
  lemma SelectSingleton(e: Entry, keep: ModInfo -> bool)
    ensures Select([e], keep) == if keep(e.info) then [e.info] else []
  {
    assert [e][1..] == [];
  }

  predicate HasModuleNumber(info: ModInfo, number: int)
  {
    info.modulenumber == Some(DecimalString(number))
  }

  /** An info is selected by at most one module number: the one its string renders. */
  lemma ModuleNumberIsExact(info: ModInfo, a: int, b: int)
    requires HasModuleNumber(info, a)
    ensures HasModuleNumber(info, b) <==> a == b
  {
    DecimalStringInjective(a, b);
  }

  // ---------------------------------------------------------------------
  // The blank default
  // ---------------------------------------------------------------------

  /** The dataset used when neither the network nor the cache yields one. */
  function BlankTpis(): (r: Dataset)
    ensures r.Keys == {"ME1", "ME2", "ME3", "LE1", "LE2", "LE3"}
    ensures forall k :: k in r ==> r[k] == []
  {
    map["ME1" := [], "ME2" := [], "ME3" := [], "LE1" := [], "LE2" := [], "LE3" := []]
  }

  /** The blank dataset holds exactly the six games of the trilogy and its Legendary Edition. */
  lemma BlankTpisGames(g: Game)
    ensures GameKey(g) in BlankTpis() <==> g in {ME1, ME2, ME3, LE1, LE2, LE3}
  {
  }

  // ---------------------------------------------------------------------
  // The service
  // ---------------------------------------------------------------------

  class TpmiService {
    /** Set once a dataset has been installed. */
    var ServiceLoaded: bool
    /** Game key to catalog; the installed dataset. */
    var Database: Dataset

    constructor ()
      ensures !ServiceLoaded && Database == map[]
    {
      ServiceLoaded := false;
      Database := map[];
    }

    /**
     * Refreshes the dataset: reads the cache file, then, when the file is
     * missing, the throttle is overridden or the throttle allows it,
     * downloads, writes the cache and parses the download; if any of those
     * three steps fails it falls back to parsing the cached text, and
     * failing that to the blank dataset. It never fails.
     */
    static method FetchThirdPartyIdentificationManifest(host: Host, overrideThrottling: bool,
                                                        parse: string -> Option<Dataset>)
      returns (r: Dataset)
      modifies host`cacheFile, host`requests
      // The network is tried exactly when the gate opens.
      ensures old(!host.FileExists() || overrideThrottling || host.throttleOpen) ==>
                host.requests == old(host.requests) + [ServiceUrl]
      ensures old(host.FileExists() && !overrideThrottling && !host.throttleOpen) ==>
                host.requests == old(host.requests) && host.cacheFile == old(host.cacheFile)
      // A successful download is written to the cache verbatim, even if it then fails to parse.
      ensures old(!host.FileExists() || overrideThrottling || host.throttleOpen) ==>
                host.cacheFile == if host.remote.Some? && host.cacheWritable then host.remote
                                  else old(host.cacheFile)
      // Network tier: download, write and parse all succeed.
      ensures old(!host.FileExists() || overrideThrottling || host.throttleOpen) &&
              host.remote.Some? && host.cacheWritable && parse(host.remote.value).Some? ==>
                r == parse(host.remote.value).value
      // Cache tier: otherwise, the cached text if it was read and parses.
      ensures !(old(!host.FileExists() || overrideThrottling || host.throttleOpen) &&
                host.remote.Some? && host.cacheWritable && parse(host.remote.value).Some?) &&
              old(host.ReadableText()).Some? && parse(old(host.ReadableText()).value).Some? ==>
                r == parse(old(host.ReadableText()).value).value
      // Blank tier: otherwise.
      ensures !(old(!host.FileExists() || overrideThrottling || host.throttleOpen) &&
                host.remote.Some? && host.cacheWritable && parse(host.remote.value).Some?) &&
              !(old(host.ReadableText()).Some? && parse(old(host.ReadableText()).value).Some?) ==>
                r == BlankTpis()
    {
      var cached: Option<string> := None;
      if host.FileExists() {
        cached := host.ReadAllText();
      }

      if !host.FileExists() || overrideThrottling || host.throttleOpen {
        // Download, write the cache, parse: a failure at any step ends the attempt.
        var json := host.DownloadString(ServiceUrl);
        if json.Some? {
          var written := host.WriteAllText(json.value);
          if written {
            var downloaded := parse(json.value);
            if downloaded.Some? {
              return downloaded.value;
            }
          }
        }
        if cached.None? {
          return BlankTpis();
        }
      }

      // Parsing an unset text fails like parsing a malformed one.
      var stale := if cached.Some? then parse(cached.value) else None;
      if stale.Some? {
        return stale.value;
      }
      return BlankTpis();
    }

    /** The info stored under `dlcName` (ignoring case) for `game`; None when not loaded or absent. */
    function GetThirdPartyModInfo(dlcName: string, game: Game): (r: Option<ModInfo>)
      reads this
      ensures !ServiceLoaded || GameKey(game) !in Database ==> r == None
      ensures ServiceLoaded && GameKey(game) in Database ==>
                (r.None? <==> forall i :: 0 <= i < |Database[GameKey(game)]| ==>
                                !KeyMatches(Database[GameKey(game)][i], dlcName))
      ensures ServiceLoaded && GameKey(game) in Database ==>
                forall i :: 0 <= i < |Database[GameKey(game)]| &&
                            KeyMatches(Database[GameKey(game)][i], dlcName) ==>
                  r == Some(Database[GameKey(game)][i].info)
    {
      if !ServiceLoaded then None
      else if GameKey(game) in Database then Lookup(Database[GameKey(game)], dlcName)
      else None
    }

    /** The infos of `game` whose module number string is the decimal rendering of `number`. */
    function GetThirdPartyModInfosByModuleNumber(number: int, game: Game): (r: seq<ModInfo>)
      reads this
      ensures !ServiceLoaded || GameKey(game) !in Database ==> r == []
      ensures ServiceLoaded && GameKey(game) in Database ==>
                r == Select(Database[GameKey(game)], (info: ModInfo) => HasModuleNumber(info, number))
      ensures forall k :: 0 <= k < |r| ==> HasModuleNumber(r[k], number)
      ensures ServiceLoaded && GameKey(game) in Database ==>
                forall i :: 0 <= i < |Database[GameKey(game)]| &&
                            HasModuleNumber(Database[GameKey(game)][i].info, number) ==>
                  Database[GameKey(game)][i].info in r
      ensures ServiceLoaded && GameKey(game) in Database ==>
                forall k :: 0 <= k < |r| ==> exists i :: 0 <= i < |Database[GameKey(game)]| &&
                                                         Database[GameKey(game)][i].info == r[k]
    {
      if ServiceLoaded && GameKey(game) in Database then
        Select(Database[GameKey(game)], (info: ModInfo) => HasModuleNumber(info, number))
      else []
    }

    /** The infos of `game` whose mount priority equals `priority`. */
    function GetThirdPartyModInfosByMountPriority(game: Game, priority: int): (r: seq<ModInfo>)
      reads this
      ensures !ServiceLoaded || GameKey(game) !in Database ==> r == []
      ensures ServiceLoaded && GameKey(game) in Database ==>
                r == Select(Database[GameKey(game)], (info: ModInfo) => info.mountPriority == priority)
      ensures forall k :: 0 <= k < |r| ==> r[k].mountPriority == priority
      ensures ServiceLoaded && GameKey(game) in Database ==>
                forall i :: 0 <= i < |Database[GameKey(game)]| &&
                            Database[GameKey(game)][i].info.mountPriority == priority ==>
                  Database[GameKey(game)][i].info in r
      ensures ServiceLoaded && GameKey(game) in Database ==>
                forall k :: 0 <= k < |r| ==> exists i :: 0 <= i < |Database[GameKey(game)]| &&
                                                         Database[GameKey(game)][i].info == r[k]
    {
      if ServiceLoaded && GameKey(game) in Database then
        Select(Database[GameKey(game)], (info: ModInfo) => info.mountPriority == priority)
      else []
    }

    /** Reports whether a lookup found an info, and hands it out. */
    method TryGetModInfo(game: Game, dlcFolderName: string) returns (found: bool, tpmi: Option<ModInfo>)
      ensures tpmi == GetThirdPartyModInfo(dlcFolderName, game)
      ensures found <==> tpmi.Some?
    {
      tpmi := GetThirdPartyModInfo(dlcFolderName, game);
      found := tpmi.Some?;
    }
  }

  // ---------------------------------------------------------------------
  // Properties of the queries
  // ---------------------------------------------------------------------

  /** A lookup does not depend on the casing of the folder name asked for. */
  lemma LookupIgnoresCase(s: TpmiService, game: Game, a: string, b: string)
    requires SameIgnoringCase(a, b)
    ensures s.GetThirdPartyModInfo(a, game) == s.GetThirdPartyModInfo(b, game)
  {
  }

  /** Over the blank dataset every query comes back empty. */
  lemma BlankAnswersNothing(s: TpmiService, game: Game, name: string, number: int, priority: int)
    requires s.Database == BlankTpis()
    ensures s.GetThirdPartyModInfo(name, game) == None
    ensures s.GetThirdPartyModInfosByModuleNumber(number, game) == []
    ensures s.GetThirdPartyModInfosByMountPriority(game, priority) == []
  {
  }

  /** A catalog holding one mod: found under any casing, and by its own module number only. */
  lemma SingleModScenario(s: TpmiService, info: ModInfo)
    requires s.ServiceLoaded
    requires info == ModInfo("Foo", Some("7"), 100)
    requires s.Database == map["LE1" := [Entry("DLC_Foo", info)]]
    ensures s.GetThirdPartyModInfo("dlc_foo", LE1) == Some(info)
    ensures s.GetThirdPartyModInfosByModuleNumber(7, LE1) == [info]
    ensures s.GetThirdPartyModInfosByModuleNumber(8, LE1) == []
    ensures s.GetThirdPartyModInfosByMountPriority(LE1, 100) == [info]
    ensures s.GetThirdPartyModInfo("DLC_Foo", LE2) == None
  {
    assert SameIgnoringCase("DLC_Foo", "dlc_foo") by {
      SameIgnoringCaseExactly("DLC_Foo", "dlc_foo");
    }
    assert DecimalString(7) == "7";
    assert DecimalString(8) == "8";
  }

  /**
   * Two folder names carrying the same info: the filter lists the info once
   * per entry, in catalog order (the service filters return this Select).
   */
  lemma SharedInfoScenario(info: ModInfo)
    requires info.mountPriority == 5
    ensures Select([Entry("A", info), Entry("B", info)], (x: ModInfo) => x.mountPriority == 5) == [info, info]
    ensures Select([Entry("A", info), Entry("B", info)], (x: ModInfo) => x.mountPriority == 6) == []
  {
    var cat := [Entry("A", info), Entry("B", info)];
    assert cat[1..] == [Entry("B", info)];
    assert cat[1..][1..] == [];
  }
}
