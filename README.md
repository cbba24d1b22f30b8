# Third-party mod identification service — Dafny model

ME3TweaksCore keeps a catalog, per game, of the DLC folder names that
identify known third-party mods (`TPMIService`). This project models how
that catalog is refreshed and how it is queried:

- `FetchThirdPartyIdentificationManifest` reads the cache file, decides
  whether to go to the network (the file is missing, throttling is
  overridden, or the throttle check allows it), downloads the catalog,
  writes it to the cache file and parses it. If any of those three steps
  fails it parses the cached text instead, and if that is unset or does not
  parse it returns the blank catalog. It always returns a dataset.
- The blank catalog has the keys ME1, ME2, ME3, LE1, LE2 and LE3, each with
  an empty catalog.
- The queries read the installed `Database` and are gated by
  `ServiceLoaded`. They are: lookup of a DLC folder name (ignoring case), the
  entries whose module-number string is the decimal rendering of a number,
  the entries with a given mount priority, and `TryGetModInfo`.

Files:

- `wrappers.dfy`: `Option`, which stands for the source's null results and
  caught exceptions.
- `dotnet_text.dfy`: the ignore-case key comparison of the case-insensitive
  dictionary, and `int.ToString()` with a parser that proves it is one-to-one.
- `host.dfy`: class `Host`. It holds the cache file slot, whether the file
  can be read, whether it can be written, the throttle's answer, the web
  endpoint's answer, and a log of the URLs requested.
- `tpmi_service.dfy`: the data model (`Game`, `ModInfo`, `Entry`, `Catalog`,
  `Dataset`), the catalog reads `Lookup` and `Select`, the blank dataset, and
  class `TpmiService` with the `ServiceLoaded` and `Database` state.

The JSON parser is a parameter `parse: string -> Option<Dataset>`. It is
total and deterministic, and `None` stands for a thrown exception.

The model follows the code in two details a reader might not expect:

- The network gate tests whether the cache file exists, not whether it was
  read. If the file exists but cannot be read and the throttle is closed,
  the network is skipped. The unset text then fails to parse, and the result
  is the blank catalog. With the throttle open, the same unreadable file
  still leads to a download.
- A failed cache write after a successful download is not best-effort. It
  ends the network attempt, so the download is discarded in favour of the
  cached text or the blank catalog.

## Model

| member | source | states |
|---|---|---|
| `Tpmi.TpmiService.FetchThirdPartyIdentificationManifest` | ME3TweaksCore/Services/ThirdPartyModIdentification/TPMIService.cs:31-89 | Exactly one URL (the service URL) is requested iff the file is missing, throttling is overridden or the throttle allows; otherwise nothing is downloaded and the cache file is untouched. A successful download is written to the cache file verbatim when the write succeeds, even if it then fails to parse. The result comes from one of three tiers: the parsed download if download, write and parse all succeed; otherwise the parsed cached text if it was read and parses; otherwise the blank dataset |
| `Tpmi.BlankTpis` | ME3TweaksCore/Services/ThirdPartyModIdentification/TPMIService.cs:91-102 | The blank dataset's keys are exactly ME1, ME2, ME3, LE1, LE2, LE3, and every catalog in it is empty |
| `Tpmi.BlankTpisGames` | ME3TweaksCore/Services/ThirdPartyModIdentification/TPMIService.cs:91-102 | A game's key is in the blank dataset iff the game is one of the six trilogy or Legendary Edition games |
| `Tpmi.Lookup` | ME3TweaksCore/Services/ThirdPartyModIdentification/TPMIService.cs:117-120 | The dictionary lookup finds nothing iff no key equals the name ignoring case, and otherwise yields the info stored under the matching key |
| `Tpmi.Select` | ME3TweaksCore/Services/ThirdPartyModIdentification/TPMIService.cs:131 | The Where/Select filter returns only accepted infos, each taken from the catalog, includes every accepted info of the catalog, and is no longer than the catalog |
| `Tpmi.SelectAppend` | ME3TweaksCore/Services/ThirdPartyModIdentification/TPMIService.cs:142 | The filter keeps catalog order: filtering a concatenation is the concatenation of the filtered parts |
| `Tpmi.SelectSingleton` | ME3TweaksCore/Services/ThirdPartyModIdentification/TPMIService.cs:131 | A one-entry catalog yields exactly its info when it is accepted and nothing otherwise. Together with the concatenation property this fixes the result completely: each accepted entry is listed once, in catalog order |
| `Tpmi.ModuleNumberIsExact` | ME3TweaksCore/Services/ThirdPartyModIdentification/TPMIService.cs:131 | A module-number string matches the rendering of at most one number |
| `Tpmi.TpmiService.constructor` | ME3TweaksCore/Services/ThirdPartyModIdentification/TPMIService.cs:20-28 | A new service is not loaded and holds no games |
| `Tpmi.TpmiService.GetThirdPartyModInfo` | ME3TweaksCore/Services/ThirdPartyModIdentification/TPMIService.cs:112-124 | The lookup returns None when the service is not loaded or the game key is absent. Otherwise it returns None iff no key of that game's catalog equals the DLC name ignoring case, and else the info stored under the matching key |
| `Tpmi.TpmiService.GetThirdPartyModInfosByModuleNumber` | ME3TweaksCore/Services/ThirdPartyModIdentification/TPMIService.cs:126-135 | The list is empty when the service is not loaded or the game key is absent. Otherwise it is the catalog filtered by a module-number string equal to the decimal rendering of the number, so each matching entry appears once, in catalog order. Every info it holds matches and comes from that game's catalog, and every matching info of the catalog is in it |
| `Tpmi.TpmiService.GetThirdPartyModInfosByMountPriority` | ME3TweaksCore/Services/ThirdPartyModIdentification/TPMIService.cs:137-146 | The list is empty when the service is not loaded or the game key is absent. Otherwise it is the catalog filtered by mount priority, so each matching entry appears once, in catalog order. Every info it holds has the priority and comes from that game's catalog, and every such info of the catalog is in it |
| `Tpmi.TpmiService.TryGetModInfo` | ME3TweaksCore/Services/ThirdPartyModIdentification/TPMIService.cs:148-152 | The out value is the lookup's result, and the method returns true iff that result is present |
| `Tpmi.LookupIgnoresCase` | ME3TweaksCore/Services/ThirdPartyModIdentification/TPMIService.cs:115-117 | Two names equal ignoring case give the same lookup result |
| `Tpmi.BlankAnswersNothing` | ME3TweaksCore/Services/ThirdPartyModIdentification/TPMIService.cs:91-146 | Over the blank dataset every lookup is None and both filters are empty, loaded or not |
| `Tpmi.SharedInfoScenario` | ME3TweaksCore/Services/ThirdPartyModIdentification/TPMIService.cs:142 | Filtering a catalog whose two folder names carry the same info with priority 5 lists that info twice for priority 5 and nothing for priority 6; the mount-priority query returns exactly this filter |
| `Tpmi.SingleModScenario` | ME3TweaksCore/Services/ThirdPartyModIdentification/TPMIService.cs:112-146 | With one LE1 mod "DLC_Foo" with module number "7" and priority 100, the mod is found as "dlc_foo", by module number 7 and by priority 100. It is not found by module number 8, and not under LE2 |
| `DotNetText.SameIgnoringCaseExactly` | ME3TweaksCore/Services/ThirdPartyModIdentification/TPMIService.cs:28 | Two keys are equal in the case-insensitive dictionary iff they have the same length and, at each position, the same character or the upper- and lower-case forms of one ASCII letter |
| `DotNetText.DecimalString` | ME3TweaksCore/Services/ThirdPartyModIdentification/TPMIService.cs:131 | The rendering of an int is non-empty and starts with '-' iff the number is negative. Every other character is a digit. It has no leading zero: a non-negative number renders as "0" or starts with a non-zero digit, and a negative one has a non-zero digit after the '-' |
| `DotNetText.DecimalRoundTrip` | ME3TweaksCore/Services/ThirdPartyModIdentification/TPMIService.cs:131 | Parsing the rendering of a number gives the number back |
| `DotNetText.DecimalStringInjective` | ME3TweaksCore/Services/ThirdPartyModIdentification/TPMIService.cs:131 | Two numbers have the same rendering iff they are equal |
| `HostEnvironment.Host.ReadAllText` | ME3TweaksCore/Services/ThirdPartyModIdentification/TPMIService.cs:34-50 | Reading the cache file yields text iff the file exists and is readable, and that text is the file's content. A failure leaves the text unset |
| `HostEnvironment.Host.DownloadString` | ME3TweaksCore/Services/ThirdPartyModIdentification/TPMIService.cs:57-59 | One download records exactly one request for the URL and yields the endpoint's body or a failure |
| `HostEnvironment.Host.WriteAllText` | ME3TweaksCore/Services/ThirdPartyModIdentification/TPMIService.cs:60 | Writing the cache succeeds iff the file is writable. On success the file holds the text verbatim, and on failure it keeps its old content |

## Left out

- HTTP transport (`ShortTimeoutWebClient`, its timeout and encoding detection): reduced to the endpoint's answer, text or failure, held in `Host.remote`.
- File I/O: reduced to one cache slot with a readable flag and a writable flag. A failed write is taken to leave the file unchanged, so a partly written file is not modelled.
- JSON deserialization (Newtonsoft): an abstract, deterministic `parse` parameter. The JSON literal `null`, which the real parser turns into a null dataset without throwing, is not modelled, and neither is a null catalog inside the dataset.
- Null entries inside a catalog (`{"LE1":{"DLC_X":null}}`) are not modelled, because `ModInfo` cannot be null. In the source, `GetThirdPartyModInfo` then returns null although the key is present, `TryGetModInfo` returns false, and both filters throw a `NullReferenceException`.
- A null `dlcName` is not modelled, because strings cannot be null here. In the source the dictionary lookup throws an `ArgumentNullException`.
- `MOnlineContent.CanFetchContentThrottleCheck` is not part of this model. Its answer is the boolean `Host.throttleOpen`. The timestamp of the last fetch and the minimum interval are not modelled.
- `MCoreFilesystem.GetThirdPartyIdentificationCachedFile` is not part of this model. The cache file path is implicit in the single slot.
- `CaseInsensitiveDictionary` is not part of this model. Its key comparison is modelled as ASCII letter folding, so non-ASCII case pairs are not covered.
- `ThirdPartyModInfo` is not part of this model. Only the name, the `modulenumber` string (None for null, which never equals a rendering) and `MountPriorityInt`, an int, are kept. How `MountPriorityInt` is derived from the JSON is not modelled.
- `MEGame` is not part of this model. Its members are taken as Unknown, ME1, ME2, ME3, UDK, LE1, LE2, LE3 and LELauncher, and `ToString()` as the member's name.
- `Database` starts out null in the source and as the empty map here. The source throws if a query runs while `ServiceLoaded` is true and `Database` is null; the model does not capture that.
- The code that installs a fetched dataset into `Database` and sets `ServiceLoaded` lies outside this file. The model leaves both fields assignable from outside the class. In the source, `ServiceLoaded` has a public setter and `Database` is an internal static field.
- `DotNetText.DecimalString`: the number is an unbounded int, not a 32-bit one. The rendering is the same for every 32-bit value. A culture whose negative sign is not '-' is not modelled.
- Telemetry upload and Serilog logging: no effect on control flow.
- Change notification (`AddINotifyPropertyChangedInterface`), concurrency and static-state sharing.
