# Threat-actor navigator, modelled in Dafny

`threat_actor_navigator.py` is a small command-line tool built on MITRE ATT&CK
data. It takes a threat-actor name and finds that group's ATT&CK id in the
enterprise STIX bundle. It prints a link into the ATT&CK Navigator for the
group, fetches the group's published Navigator layer, and lists the layer's
techniques bucketed by tactic, with an optional case-insensitive tactic filter.

This project models the data handling of that tool and proves properties of it:

- `technique_index.dfy` models `build_technique_tactic_map`. It is an imperative
  method with nested loops, proved equal to the reference function
  `IndexOf`. Lemmas say which keys the index holds and whose entry each key
  keeps.
- `group_resolver.dfy` models `get_group_id` as a pure search. Lemmas cover
  first-match selection and case-insensitivity.
- `layer_urls.dfy` models `LAYER_TEMPLATE`, `NAVIGATOR_TEMPLATE` and
  `str.format` over them.
- `tactic_report.dfy` models `print_techniques_by_tactic` minus the printing:
  - the bucketing loop is a method proved equal to the reference grouping
    `Group(Placements(...))`;
  - the output step is a `Report` value: "no match", or the layer name and
    the buckets in sorted tactic order;
  - lemmas relate the report to the layer entries.
- `navigator.dfy` models `main` as one method, `Run`. It returns what the run
  ends with: group not found, layer not found, or a report.
- `strings.dfy` holds ASCII models of the string operations used:
  `lower`, `title`, `strip`, and the code-point ordering that `sorted` uses.
  It also defines ASCII upper-casing, which the source never calls; it only
  serves to state that the group lookup ignores letter case.
- `attack_data.dfy` holds the records read from the bundle and from the layer.
- `examples.dfy` has worked examples:
  - "fin10" resolves to G0051;
  - a two-entry layer gives three rows without a filter;
  - the same layer gives two rows with the filter "execution".

Two behaviours of the code are easy to misread. The model follows the code in
both:

- A layer entry whose technique id is not in the index is bucketed under
  "Unknown" before the filter is consulted (lines 59-61). So it is listed even
  when a filter such as "execution" is active. `UnknownEntryListed` proves
  this.
- Two different reference scans are involved:
  - `get_group_id` returns the FIRST qualifying "G" reference of the first
    intrusion set that has a matching alias and such a reference (lines 39-41
    return from inside the loop). A matching set without one does not stop
    the search;
  - `build_technique_tactic_map` keeps the LAST qualifying "T" reference,
    because line 22 overwrites `tech_id`.

  `FirstAttackId` and `LastAttackId` model the two scans.

## Model

| member | source | states |
|---|---|---|
| AttackData.IsAttackId | threat_actor_navigator.py:21 | a reference is an ATT&CK id with a prefix when its source is "mitre-attack" and its id starts with the prefix (the same test at line 40 with "G"); a predicate without ensures, see `LastAttackId` and `FirstAttackId` |
| TechniqueIndex.BuildTechniqueTacticMap | threat_actor_navigator.py:14-32 | the nested loops build exactly the reference index `IndexOf(objects)`, whose properties are the lemmas below |
| TechniqueIndex.IndexOf | threat_actor_navigator.py:14-32 | the reference index: objects folded in bundle order, each yielding object overwriting its key; carries no ensures itself, its meaning is `IndexKeys`, `IndexLastWins` and `IndexWellFormed` |
| TechniqueIndex.LastAttackId | threat_actor_navigator.py:19-22 | no id exactly when no reference has source "mitre-attack" and an id starting with "T"; otherwise the id of a qualifying reference after which none qualifies (the last one) |
| TechniqueIndex.InfoOf | threat_actor_navigator.py:26-31 | the `{"name", "tactics"}` value stored for a technique: the object's name and `TacticsOf` its phases; carries no ensures itself, see `IndexLastWins` and `IndexWellFormed` |
| TechniqueIndex.TechniqueIdOf | threat_actor_navigator.py:18-24 | only an attack-pattern object yields an index key, and that key starts with "T" |
| TechniqueIndex.MitreTactics | threat_actor_navigator.py:27 | the list comprehension over kill-chain phases; carries no ensures itself, its meaning is `MitreTacticsMembers` and `MitreTacticsConcat` |
| TechniqueIndex.MitreTacticsMembers | threat_actor_navigator.py:27 | a tactic is derived exactly when some phase of the "mitre-attack" kill chain title-cases to it |
| TechniqueIndex.MitreTacticsConcat | threat_actor_navigator.py:27 | tactics come out in phase order: the derivation distributes over concatenation of the phase list |
| TechniqueIndex.TacticsOf | threat_actor_navigator.py:27-30 | the tactic list is never empty and every tactic is title-cased; when no ATT&CK phase exists it is ["Unknown"], otherwise the derived list (which is also ["Unknown"] for a single phase named "unknown") |
| TechniqueIndex.IndexWellFormed | threat_actor_navigator.py:18-31 | every index key starts with "T", and every entry has at least one tactic, each title-cased |
| TechniqueIndex.IndexKeys | threat_actor_navigator.py:17-28 | an id is a key of the index exactly when some object of the bundle yields it |
| TechniqueIndex.IndexLastWins | threat_actor_navigator.py:28-31 | each key holds the name and tactics of the last object yielding that id, since later objects overwrite earlier ones |
| GroupResolver.FirstAttackId | threat_actor_navigator.py:39-41 | no id exactly when no reference has source "mitre-attack" and an id starting with "G"; otherwise the id of a qualifying reference before which none qualifies (the first one) |
| GroupResolver.HasAlias | threat_actor_navigator.py:38 | the `any(...)` test: some alias, lowered, equals the lowered name; a predicate without ensures, see `GroupIdFirstWins` and `GroupIdCaseInsensitive` |
| GroupResolver.GroupRefOf | threat_actor_navigator.py:37-41 | the id one object yields: none unless it is an intrusion set with an alias equal to the lowered name, and then its first qualifying "G" reference; carries no ensures itself, see `FirstAttackId` and `FindGroupFirstWins` |
| GroupResolver.FindGroup | threat_actor_navigator.py:36-42 | a resolved group id always starts with "G" |
| GroupResolver.FindGroupFirstWins | threat_actor_navigator.py:36-42 | the search finds nothing exactly when no object yields an id for the name; otherwise it returns the id of the first object that does |
| GroupResolver.GetGroupId | threat_actor_navigator.py:34-42 | get_group_id: lower the name once, then search the bundle; carries no ensures itself, its meaning is `GroupIdFirstWins`, `GroupIdCaseInsensitive` and `GroupIdIgnoresCase` |
| GroupResolver.GroupIdFirstWins | threat_actor_navigator.py:34-42 | get_group_id answers None exactly when no intrusion set with a matching alias has a "G" reference; otherwise the id of the first such object in bundle order |
| GroupResolver.GroupIdCaseInsensitive | threat_actor_navigator.py:35-38 | names that agree after lower-casing resolve to the same group |
| GroupResolver.GroupIdIgnoresCase | threat_actor_navigator.py:35-38 | lower-casing or upper-casing the name does not change the resolved group |
| LayerUrls.Format | threat_actor_navigator.py:45 | str.format with the one keyword `group_id`, replacing every field by the id (also used at line 95); carries no ensures itself, see `FormatConcat`, `LayerUrl` and `LayerUrlInjective` |
| LayerUrls.FormatConcat | threat_actor_navigator.py:7 | formatting a template built by concatenation formats each part with the same group id |
| LayerUrls.LayerUrl | threat_actor_navigator.py:6 | `LayerTemplate` (the constant `LAYER_TEMPLATE`) formatted with a group id is "https://attack.mitre.org/groups/", the id, "/", the id again and "-enterprise-layer.json" |
| LayerUrls.NavigatorLink | threat_actor_navigator.py:95 | `NavigatorTemplate` (the constant `NAVIGATOR_TEMPLATE` of line 7) formatted with a group id is the fixed Navigator prefix followed by the layer URL of the same group |
| LayerUrls.LayerUrlInjective | threat_actor_navigator.py:45 | different group ids give different layer URLs |
| TacticReport.PassesFilter | threat_actor_navigator.py:65 | an empty filter passes every tactic, otherwise the tactic must agree with the filter after lower-casing; a predicate without ensures, see `TacticPlacementsMembers` and `FilterIgnoresCase` |
| TacticReport.TacticPlacements | threat_actor_navigator.py:64-67 | the appends of the inner loop over one technique's tactics, in tactic order; carries no ensures itself, see `TacticPlacementsMembers` |
| TacticReport.EntryPlacements | threat_actor_navigator.py:55-67 | the appends for one layer entry, with the unknown-id branch taken before the filter; carries no ensures itself, see `EntryPlacementsMembers` and `UnknownEntryListed` |
| TacticReport.Placements | threat_actor_navigator.py:54-67 | the appends of the whole loop, entry by entry; carries no ensures itself, see `PlacementsMembers`, `PlacementsConcat` and `PlacementsCount` |
| TacticReport.TacticPlacementsMembers | threat_actor_navigator.py:64-67 | a known technique's row is appended under a tactic exactly when the tactic is one of its tactics and passes the filter |
| TacticReport.EntryPlacementsMembers | threat_actor_navigator.py:55-67 | one entry's appends are exactly its contributions: an unknown id goes to "Unknown" with name "Unknown", a known one to each passing tactic |
| TacticReport.PlacementsMembers | threat_actor_navigator.py:54-67 | the appends of the whole loop are exactly the contributions of the layer's entries |
| TacticReport.PlacementsConcat | threat_actor_navigator.py:54 | entries are processed in layer order: the appends for a concatenated layer are those of each part in turn |
| TacticReport.PlacementsCount | threat_actor_navigator.py:54-67 | the loop appends one row per unknown entry and one per surviving tactic of each known entry |
| TacticReport.Append | threat_actor_navigator.py:60-67 | one `defaultdict(list)` append: a new tactic gets a fresh one-row bucket at the end of the creation order, an existing one has the row added at its end; carries no ensures itself, see `GroupMeaning` |
| TacticReport.Group | threat_actor_navigator.py:52-67 | the buckets after all appends, starting from the empty `defaultdict`; carries no ensures itself, see `GroupMeaning`, `RowsForMembers`, `BucketOrder` and `GroupEmpty` |
| TacticReport.GroupMeaning | threat_actor_navigator.py:52-67 | a bucket exists exactly for the tactics that received a row, holds exactly those rows in append order, and the creation order names each bucket once |
| TacticReport.RowsForMembers | threat_actor_navigator.py:60-67 | a row is in a tactic's bucket exactly when it was appended under that tactic |
| TacticReport.BucketOrder | threat_actor_navigator.py:54-67 | within a bucket, rows from earlier entries come before rows from later entries |
| TacticReport.BucketTechniques | threat_actor_navigator.py:51-67 | the imperative bucketing loop, including its `continue` paths, yields exactly the reference grouping of the appends |
| TacticReport.Show | threat_actor_navigator.py:77-80 | a row is shown with its id and name, plus a note exactly when its comment is non-empty |
| TacticReport.ShowAll | threat_actor_navigator.py:77-80 | the row loop of one section, showing each row in bucket order; carries no ensures itself, see `ShowAllMembers` and `Show` |
| TacticReport.SectionsOf | threat_actor_navigator.py:75-81 | the section loop over the tactics in the given order; carries no ensures itself, its meaning is `SectionsMeaning` and `MakeReport` |
| TacticReport.SectionsMeaning | threat_actor_navigator.py:75-81 | over strictly sorted tactics that are exactly the bucket keys, the sections come in strictly increasing tactic order, name every bucket, and each holds its bucket's rows |
| TacticReport.ShowAllMembers | threat_actor_navigator.py:77-80 | a row is displayed exactly when it is in the bucket |
| TacticReport.MakeReport | threat_actor_navigator.py:69-81 | "no match" exactly when no bucket exists; otherwise the layer name and one section per bucket, in strictly increasing tactic order, each with that bucket's rows |
| TacticReport.SortedOrderReport | threat_actor_navigator.py:75-77 | buckets created in sorted order are reported in that order |
| TacticReport.ReportOf | threat_actor_navigator.py:51-81 | the reference report: group the layer's appends, then report them; carries no ensures itself, its meaning is `NoMatchExactly`, `ReportRows`, `UnknownEntryListed`, `FilterIgnoresCase` and `ReportRowTotal` |
| TacticReport.TechniquesByTactic | threat_actor_navigator.py:51-81 | the procedure produces the reference report for the layer, index and filter |
| TacticReport.GroupEmpty | threat_actor_navigator.py:69 | no bucket exists exactly when nothing was appended |
| TacticReport.NoMatchExactly | threat_actor_navigator.py:58-71 | the report is "no match" exactly when every entry's technique is known and none of its tactics passes the filter |
| TacticReport.EmptyLayerNoMatch | threat_actor_navigator.py:69-71 | a layer without techniques gives "no match" under any filter |
| TacticReport.ReportRows | threat_actor_navigator.py:54-80 | a row is shown under a tactic exactly when some layer entry contributes it to that tactic |
| TacticReport.UnknownEntryListed | threat_actor_navigator.py:58-61 | an entry whose technique is not in the index is always shown in the Unknown section, under any filter |
| TacticReport.FilterIgnoresCase | threat_actor_navigator.py:65 | filters that agree after lower-casing produce the same report |
| TacticReport.ReportRowTotal | threat_actor_navigator.py:54-80 | the sections hold one row per unknown entry plus one per surviving tactic of each known entry, so no row is lost or duplicated by the grouping |
| Navigator.Run | threat_actor_navigator.py:83-103 | the run ends "group not found" exactly when the stripped name resolves to nothing. Otherwise the group id starts with "G" and its link is shown. The run ends "layer not found" exactly when the layer fetch answers nothing. If it reports, the report is the reference report under the stripped filter |
| Strings.Lower | threat_actor_navigator.py:35-38 | str.lower on ASCII (also at line 65), character by character; carries no ensures itself, see `LowerForgetsCase` |
| Strings.LowerForgetsCase | threat_actor_navigator.py:35 | lower-casing is idempotent and erases any earlier upper-casing |
| Strings.Title | threat_actor_navigator.py:27 | str.title on ASCII; carries no ensures itself, its meaning is `TitleAt`, `TitleIdempotent` and `LowerOfTitle` |
| Strings.TitleAt | threat_actor_navigator.py:27 | title-casing raises a character that starts a word and lowers every other one |
| Strings.TitleIdempotent | threat_actor_navigator.py:27 | title-casing an already title-cased phase name changes nothing |
| Strings.LowerOfTitle | threat_actor_navigator.py:27 | title-casing only changes letter case, so the filter comparison of line 65 sees the phase name's letters |
| Strings.Strip | threat_actor_navigator.py:56 | str.strip on ASCII whitespace (also at lines 84 and 102); carries no ensures itself, its meaning is `StripMeaning` |
| Strings.StripMeaning | threat_actor_navigator.py:56 | strip returns the infix left after dropping only whitespace on both sides, and that infix neither starts nor ends with whitespace |
| Strings.Less | threat_actor_navigator.py:75 | the code-point lexicographic order `sorted` applies to the bucket keys; a predicate without ensures, its meaning is `LessIrreflexive`, `LessTransitive` and `LessTotal` |
| Strings.LessIrreflexive | threat_actor_navigator.py:75 | no tactic name sorts before itself |
| Strings.LessTransitive | threat_actor_navigator.py:75 | the string ordering is transitive |
| Strings.LessTotal | threat_actor_navigator.py:75 | any two different tactic names are ordered one way or the other |
| Strings.Insert | threat_actor_navigator.py:75 | inserting a new name into a strictly sorted list keeps it strictly sorted and adds exactly that name |
| Strings.Sort | threat_actor_navigator.py:75 | sorting distinct names yields a strictly sorted permutation of them |
| Strings.SortKeepsElements | threat_actor_navigator.py:75 | sorting neither adds nor drops a tactic |
| Strings.SortedUnique | threat_actor_navigator.py:75 | two strictly sorted lists with the same elements are equal, so any correct sort gives the order Python's sorted gives |
| Examples.Fin10Resolves | threat_actor_navigator.py:34-42 | "fin10" and "FIN10" both resolve to G0051 in a bundle whose intrusion set has alias "FIN10" |
| Examples.SampleReport | threat_actor_navigator.py:51-81 | a layer with one known technique (tactics Execution, Persistence) and one unknown id reports three sections of one row each |
| Examples.SampleFilteredReport | threat_actor_navigator.py:59-67 | the same layer with filter "execution" reports Execution and Unknown but not Persistence |

## Left out

- Fetching the ATT&CK bundle (`get_mitre_dataset`, lines 9-12, and `MITRE_JSON_URL`) is network I/O. The parsed list of objects is an input of `Run` instead. A failed download, which `raise_for_status` turns into an exception, is not modelled.
- `fetch_layer` (lines 44-49) is network I/O. Only its URL is modelled (`LayerUrl`). The request becomes the `fetchLayer` parameter of `Run`. That parameter answers nothing both for a non-200 reply and for an empty JSON object, which the `not layer_json` test of line 98 also rejects. An exception raised inside `fetch_layer` cannot be expressed by that `Option`-valued parameter, so neither a connection error from `requests.get` (line 46) nor a JSON decode error from `r.json()` on a 200 reply (line 49) is modelled; in the source both end the program.
- The two `input` prompts (lines 84 and 102) are console I/O. Their raw answers are parameters of `Run`, and both are stripped as in the source.
- The printing is not modelled: the messages, emoji, header line, blank lines and indentation of lines 70-81 and 90-99. It is replaced by the `Report` and `Outcome` values that determine what is printed.
- JSON decoding is not modelled. Fields read with `dict.get` defaults become empty strings or empty sequences. Fields read by subscript are always present in the records here. The `KeyError` the source raises when one is missing is not modelled. Non-string JSON values are not modelled either.
- Passing `None` rather than `""` as the filter (line 103) is not a separate case: both mean "no filter", and the model uses the empty string.
- `lower`, `title` and `strip` (and the helper upper-casing) are modelled on ASCII only: ASCII letters, and ASCII whitespace as Python's `isspace` defines it. Python's Unicode case mappings and Unicode whitespace are out of scope.
