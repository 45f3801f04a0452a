# Benchmark job-matrix generator, modelled in Dafny

This project models `scripts/src/generateMatrix.ts` from the typescript-benchmarking
repository. That script turns a named *preset* into the job matrix of a benchmark
pipeline. A preset lists, for some of the job kinds `tsc`, `tsserver` and `startup`,
the hosts to run on, the iteration count and the scenarios.

The script expands every (kind, host, scenario) combination into one job. Each job is
named `sanitize(kind + "_" + host + "_" + scenario)`. The job goes into the bucket of
the agent that will run it:

- when baselining, the scenario's fixed machine (`ts-perf1` to `ts-perf3`);
- otherwise the synthetic `any` agent.

`ts-perf4` is reserved and never gets any job. The script then publishes:

- one `MATRIX_<agent>` variable per bucket (dashes become underscores);
- a space-separated, sorted list of the job kinds that produced work;
- a comma-separated, sorted list of the scenario locations that produced work.

An unknown preset name is an error, except that, as written, the twelve property
names every JavaScript object inherits (`toString`, `__proto__`, ...) pass the lookup
(see "## Findings").

Modules, one per file:

| module | file | what it holds |
|---|---|---|
| `Wrappers` | wrappers.dfy | `Option` and `Result` |
| `Seqs` | seqs.dfy | `NoDup`, for sequences used as insertion-ordered sets |
| `Agents` | agents.dfy | the five agents, the reserved one, the baseline-agent subset type |
| `JobNames` | jobnames.dfy | `Sanitize`, the job-name sanitizer |
| `Catalog` | catalog.dfy | job kinds, locations, hosts, scenario lists, the five presets, preset lookup |
| `Expansion` | expansion.dfy | jobs, buckets, the matrix, the expansion as a fold and as three nested loops |
| `MatrixFacts` | matrixfacts.dfy | where each job lands, what it holds, which kinds and locations are reported, job counts |
| `Collisions` | collisions.dfy | names are not injective in general, but they are for the shipped catalog |
| `Strings` | strings.dfy | lexicographic order, sorting, join and split |
| `Output` | output.dfy | the baselining switch, variable names, summaries, the whole run |

The expansion appears twice:

- `Expansion.BuildMatrix` is a fold over the list of requested combinations (`Expansion.Triples`).
- `Expansion.ExpandPreset` is the script's three nested loops.

The method is proved to compute the fold. Every other property is stated about the fold.

## Model

| member | source | states |
|---|---|---|
| Agents.AllAgentsComplete | scripts/src/generateMatrix.ts:4-8 | every agent is one of the five listed, each listed once |
| JobNames.Sanitize | scripts/src/generateMatrix.ts:160-162 | same length as the input; every output character is a letter, digit or `_`; those characters are kept, every other one becomes `_` |
| JobNames.SanitizeFixedPoint | scripts/src/generateMatrix.ts:160-162 | a name is left unchanged exactly when it already uses only letters, digits and `_` |
| JobNames.SanitizeIdempotent | scripts/src/generateMatrix.ts:160-162 | sanitizing twice is the same as sanitizing once |
| JobNames.SanitizeAppend | scripts/src/generateMatrix.ts:160-162 | sanitizing works character by character, so it distributes over concatenation |
| JobNames.SanitizeCollides | scripts/src/generateMatrix.ts:160-162 | different raw names can share a job name ("material-ui" and "material.ui") |
| JobNames.SanitizeDiffersAt | scripts/src/generateMatrix.ts:160-162 | names that differ at a position holding a letter, digit or `_` on both sides still differ after sanitizing |
| Catalog.WithoutScenario | scripts/src/generateMatrix.ts:122 | the filter keeps exactly the scenarios with another name, and never lengthens the list |
| Catalog.WithoutScenarioAppend | scripts/src/generateMatrix.ts:122 | the filter works element by element: filtering a concatenation is concatenating the filtered parts, so order and repeats are kept |
| Catalog.WithoutScenarioSingle | scripts/src/generateMatrix.ts:122 | a single scenario is dropped exactly when its name is the one filtered out, and kept otherwise |
| Catalog.PresetNamed | scripts/src/generateMatrix.ts:71-142 | the registry of the five presets, read by exact name at line 151; Catalog.ResolvePreset, Collisions.CatalogRequestedJobs and Catalog.BunPresetDeltas state what it holds |
| Catalog.ResolvePreset | scripts/src/generateMatrix.ts:151-156 | fails exactly for names other than the five presets, with the unknown-preset error carrying that name; every preset has a tsc entry |
| Catalog.StartupWithoutTsServer | scripts/src/generateMatrix.ts:47-52 | removing "tsserver-startup" from the startup list leaves the other three in their original order |
| Catalog.BunPresetDeltas | scripts/src/generateMatrix.ts:113-124 | the bun preset: tsc runs 2 × 6 = 12 iterations; there is no tsserver entry; startup is the startup list minus "tsserver-startup", order kept |
| Catalog.CatalogNeverPinsReserved | scripts/src/generateMatrix.ts:26-53 | every scenario of every preset is pinned to ts-perf1, ts-perf2 or ts-perf3, never to the reserved ts-perf4 |
| Catalog.ResolvePresetAsWritten | scripts/src/generateMatrix.ts:151-152 | the lookup on the registry object: agrees with ResolvePreset on preset names; also accepts the twelve inherited object property names, as an empty preset; every other name fails with the unknown-preset error carrying that name (lines 152-155) |
| Catalog.InheritedKeysAreNotPresets | scripts/src/generateMatrix.ts:71-142 | none of the twelve inherited object property names is one of the five preset names |
| Expansion.NameOf | scripts/src/generateMatrix.ts:204 | the job name of a combination; Collisions.NameParts and MatrixFacts.StoredJobFields state its shape |
| Expansion.JobOf | scripts/src/generateMatrix.ts:205-212 | the job record of a combination; MatrixFacts.StoredJobFields states its fields |
| Expansion.Target | scripts/src/generateMatrix.ts:203 | the agent a combination is stored under; MatrixFacts.NonBaselineUsesAnyOnly and MatrixFacts.BaselinePinsScenarioAgent state the choice |
| Expansion.Insert | scripts/src/generateMatrix.ts:205 | storing a job in a bucket under its name; Expansion.InsertSpec and Expansion.InsertAt state its effect |
| Expansion.InsertSpec | scripts/src/generateMatrix.ts:205 | storing a job adds its name to its agent's bucket and maps it to the job; every other entry and every other bucket is unchanged |
| Expansion.InsertAt | scripts/src/generateMatrix.ts:205 | after a store, looking up the stored name in the stored bucket gives the new job; any other (bucket, name) lookup is unchanged |
| Expansion.JobCountChange | scripts/src/generateMatrix.ts:184-190 | when only one bucket changes, the total job count changes by that bucket's change in size |
| Expansion.AddToSet | scripts/src/generateMatrix.ts:213-214 | `Set.add` on an insertion-ordered set; Expansion.AddToSetSpec states its effect |
| Expansion.Step | scripts/src/generateMatrix.ts:203-214 | one pass of the innermost loop body; Expansion.ExpandScenarios (through its loop) and Expansion.RunLookup state what repeated steps compute |
| Expansion.AddToSetSpec | scripts/src/generateMatrix.ts:213-214 | adding to an insertion-ordered set: the element is now in it, nothing else is added, existing elements keep their places, no element repeats |
| Expansion.ExpandPreset | scripts/src/generateMatrix.ts:195-217 | the three nested loops compute exactly the fold over the preset's combinations, in kind, host, scenario order; absent kinds are skipped |
| Expansion.ExpandHosts | scripts/src/generateMatrix.ts:201-216 | the host loop folds over every scenario of every host, in order |
| Expansion.ExpandScenarios | scripts/src/generateMatrix.ts:202-215 | the scenario loop folds over the scenarios of one host, in order |
| Expansion.RunAppend | scripts/src/generateMatrix.ts:195-217 | folding over two lists in a row is the same as folding over their concatenation |
| Expansion.LastHit | scripts/src/generateMatrix.ts:205 | the index of the last combination that writes a given bucket and name, or -1 if none does |
| Expansion.RunLookup | scripts/src/generateMatrix.ts:205 | last write wins: a bucket holds, under a name, the job of the last combination that wrote there; if none did, the entry is as before |
| Expansion.RunMembership | scripts/src/generateMatrix.ts:203-205 | a name is in a bucket afterwards exactly when it was there before or some combination wrote it there |
| Expansion.RunKindsCollects | scripts/src/generateMatrix.ts:213 | the kinds collected are those present before plus those of the combinations visited; no kind repeats |
| Expansion.RunLocationsCollects | scripts/src/generateMatrix.ts:214 | the locations collected are those present before plus those of the scenarios visited; no location repeats |
| Expansion.RunUntargeted | scripts/src/generateMatrix.ts:203-205 | a bucket that no combination targets keeps its contents |
| Expansion.RunKeepsBuckets | scripts/src/generateMatrix.ts:184-190 | the expansion never removes a bucket |
| Expansion.RunCountsEveryJob | scripts/src/generateMatrix.ts:205 | with no repeated (bucket, name) pair and no name already present, each combination adds exactly one job |
| Expansion.RunCountBound | scripts/src/generateMatrix.ts:205 | whatever collisions occur, the job count grows by at most the number of combinations |
| Expansion.InsertFreshCount | scripts/src/generateMatrix.ts:205 | storing under a new name adds one job to the total |
| Expansion.InsertCountBound | scripts/src/generateMatrix.ts:205 | storing a job adds at most one job to the total |
| Expansion.BuildMatrix | scripts/src/generateMatrix.ts:184-217 | the expansion as a fold over the requested combinations from five empty buckets and two empty sets; its meaning is given by Expansion.ExpandPreset (the loops compute it), MatrixFacts.BuildMatrixLookup and MatrixFacts.ProcessedKindsExact |
| MatrixFacts.TriplesMembers | scripts/src/generateMatrix.ts:195-202 | a combination is requested exactly when its kind has an entry, its host and scenario are in that entry, and its iteration count is the entry's |
| MatrixFacts.TriplesLength | scripts/src/generateMatrix.ts:195-202 | a preset requests, for each kind present, hosts × scenarios combinations |
| MatrixFacts.AllBucketsPresent | scripts/src/generateMatrix.ts:184-190 | all five buckets exist after the expansion, empty or not |
| MatrixFacts.BuildMatrixLookup | scripts/src/generateMatrix.ts:203-212 | a name is in a bucket exactly when some requested combination targets that bucket with that name; it holds the job of the last such combination |
| MatrixFacts.NonBaselineUsesAnyOnly | scripts/src/generateMatrix.ts:203 | without baselining, every bucket other than `any` stays empty and every requested job is in `any` |
| MatrixFacts.BaselinePinsScenarioAgent | scripts/src/generateMatrix.ts:203 | with baselining, each job lands in its scenario's agent bucket, and each stored job comes from a scenario pinned to that bucket's agent |
| MatrixFacts.ReservedAgentIdle | scripts/src/generateMatrix.ts:4-7 | the reserved agent's bucket stays empty in both modes (source line 203) |
| MatrixFacts.StoredJobFields | scripts/src/generateMatrix.ts:204-212 | a stored job sits under its own name, which is the sanitized kind_host_scenario; its kind, host and scenario are requested by the preset; its iterations are the entry's; its location is the scenario's |
| MatrixFacts.ProcessedKindsExact | scripts/src/generateMatrix.ts:195-199 | a kind is reported exactly when the preset has it with at least one host and one scenario; no kind is reported twice (source line 213) |
| MatrixFacts.ProcessedLocationsExact | scripts/src/generateMatrix.ts:201-214 | a location is reported exactly when some expanded scenario has it; none is reported twice |
| MatrixFacts.JobCountAtMostRequested | scripts/src/generateMatrix.ts:195-217 | the matrix never holds more jobs than the preset requests |
| MatrixFacts.JobCountWhenNoCollisions | scripts/src/generateMatrix.ts:195-217 | when no two requested combinations share a job name, the matrix holds exactly the requested number of jobs |
| Collisions.NameParts | scripts/src/generateMatrix.ts:204 | a job name splits into the sanitized kind prefix, the sanitized host, `_` and the sanitized scenario name |
| Collisions.KindPrefixesDiffer | scripts/src/generateMatrix.ts:33-58 | the sanitized prefixes of two different kinds differ at a position both have |
| Collisions.KindTriplesNoDup | scripts/src/generateMatrix.ts:195-202 | a preset whose entries list no host or scenario twice requests no combination twice |
| Collisions.NamesDetermineCombination | scripts/src/generateMatrix.ts:204 | in a well-separated preset, equal job names imply equal combinations |
| Collisions.SeparatedMeansDistinct | scripts/src/generateMatrix.ts:204-205 | a well-separated preset requests no two combinations with the same job name |
| Collisions.WithoutScenarioNoDup | scripts/src/generateMatrix.ts:122 | filtering a scenario list keeps it free of duplicates |
| Collisions.CatalogWellSeparated | scripts/src/generateMatrix.ts:71-142 | every shipped preset lists each host and scenario once, with names that stay apart after sanitizing |
| Collisions.CatalogJobCount | scripts/src/generateMatrix.ts:71-217 | for every shipped preset, in either mode, no job overwrites another; the matrix holds exactly the requested number of jobs |
| Collisions.CatalogRequestedJobs | scripts/src/generateMatrix.ts:71-142 | full requests 25 jobs, regular 13, tsc-only 6, bun 9 and vscode 13 |
| Strings.LexLeTotal | scripts/src/generateMatrix.ts:227-228 | the default sort's string order compares any two strings |
| Strings.LexLeAntisymmetric | scripts/src/generateMatrix.ts:227-228 | two strings that sort no later than each other are equal |
| Strings.LexLeTransitive | scripts/src/generateMatrix.ts:227-228 | the sort order is transitive |
| Strings.Sort | scripts/src/generateMatrix.ts:227-228 | the sorted list is ordered and is a permutation of the input |
| Strings.SortDistinct | scripts/src/generateMatrix.ts:227-228 | sorting a duplicate-free list gives a strictly increasing list with the same elements |
| Strings.StrictlySortedUnique | scripts/src/generateMatrix.ts:227-228 | two strictly increasing lists with the same elements are equal |
| Strings.SortIgnoresOrder | scripts/src/generateMatrix.ts:227-228 | the sorted form of a duplicate-free list does not depend on the order of its elements |
| Strings.Join | scripts/src/generateMatrix.ts:227-228 | no parts give the empty string, one part gives itself; Strings.SplitJoin and Strings.JoinSplit show splitting at the separator undoes it |
| Strings.Split | scripts/src/generateMatrix.ts:224-228 | splitting gives at least one piece, and no piece holds the separator |
| Strings.SplitJoin | scripts/src/generateMatrix.ts:224-228 | splitting a join at the separator gives back the parts, when no part contains the separator |
| Strings.JoinSplit | scripts/src/generateMatrix.ts:227-228 | joining the pieces of a split gives back the original string |
| Output.UpperCase | scripts/src/generateMatrix.ts:149 | same length; each character is upper-cased on its own (ASCII letters a to z become A to Z, everything else is kept) |
| Output.BaseliningFromEnv | scripts/src/generateMatrix.ts:149 | baselining is on exactly when the variable is set to a four-letter spelling of "true" in any mix of cases; unset and empty count as "FALSE" |
| Output.ReplaceDashes | scripts/src/generateMatrix.ts:220 | same length; every dash becomes `_`; every other character is kept |
| Output.VariableName | scripts/src/generateMatrix.ts:220 | `MATRIX_` plus the agent name with dashes replaced; Output.VariableNameValues and Output.VariableNames state the five names |
| Output.SummaryVariablesApart | scripts/src/generateMatrix.ts:219-228 | the summaries are published as TSPERF_PROCESS_KINDS and TSPERF_PROCESS_LOCATIONS; these two names differ from each other and from every MATRIX_ variable |
| Output.VariableNameValues | scripts/src/generateMatrix.ts:219-220 | the five variable names are MATRIX_any, MATRIX_ts_perf1, MATRIX_ts_perf2, MATRIX_ts_perf3 and MATRIX_ts_perf4 |
| Output.VariableNames | scripts/src/generateMatrix.ts:219-220 | variable names hold no dash, and distinct agents publish under distinct names |
| Output.MatrixVariables | scripts/src/generateMatrix.ts:219-222 | one variable per agent in the matrix's key order, empty buckets included, each carrying that agent's bucket |
| Output.EveryBucketPublished | scripts/src/generateMatrix.ts:219-222 | each agent's bucket is published under that agent's variable; the variable of that name carries nothing else; no variable repeats |
| Output.KindsSummary | scripts/src/generateMatrix.ts:227 | the kind names sorted and joined with a space; Output.KindsSummaryReadsBack and Output.KindsSummaryIgnoresOrder state what it holds |
| Output.LocationsSummary | scripts/src/generateMatrix.ts:228 | the location names sorted and joined with a comma; Output.LocationsSummaryReadsBack and Output.LocationsSummaryIgnoresOrder state what it holds |
| Output.KindsSummaryReadsBack | scripts/src/generateMatrix.ts:224-227 | no processed kind gives the empty summary; otherwise splitting the kinds summary at spaces gives each processed kind's name once, in increasing order, and nothing else |
| Output.LocationsSummaryReadsBack | scripts/src/generateMatrix.ts:228 | no processed location gives the empty summary; otherwise splitting the locations summary at commas gives each processed location's name once, in increasing order, and nothing else |
| Output.KindsSummaryIgnoresOrder | scripts/src/generateMatrix.ts:227 | the kinds summary depends only on which kinds were processed, not on the order they were met |
| Output.LocationsSummaryIgnoresOrder | scripts/src/generateMatrix.ts:228 | the locations summary depends only on which locations were processed |
| Output.Emit | scripts/src/generateMatrix.ts:219-228 | what a finished expansion publishes: the five variables and the two summaries; Output.GeneratePublishesEveryJob, Output.GenerateJobTotal and Output.GenerateSummaries state what they hold |
| Output.Generate | scripts/src/generateMatrix.ts:151-156 | the run fails exactly on an unknown preset name, with that name in the error; otherwise it publishes five variables |
| Output.GeneratePublishesEveryJob | scripts/src/generateMatrix.ts:203-220 | every requested combination is published under the variable of the agent it targets |
| Output.GenerateJobTotal | scripts/src/generateMatrix.ts:195-220 | for a shipped preset, the five variables together hold exactly the requested number of jobs, and the reserved machine's variable is empty |
| Output.GenerateSummaries | scripts/src/generateMatrix.ts:195-228 | for a shipped preset, read back in increasing order, the summaries name exactly the kinds and the locations that produced jobs |
| Output.CatalogSummaries | scripts/src/generateMatrix.ts:71-228 | the summaries of the shipped presets: "startup tsc tsserver" for full, regular and vscode, "startup tsc" for bun, "tsc" for tsc-only; locations "internal" for all |
| Output.GenerateAsWritten | scripts/src/generateMatrix.ts:151-156 | the run with the lookup as written: it matches the corrected run on every preset name, fails with the unknown-preset error carrying the name exactly on names that are neither presets nor inherited property names, and succeeds on the inherited ones |
| Output.InheritedKeysGenerateNothing | scripts/src/generateMatrix.ts:151-156 | for each of the twelve inherited property names the as-written run succeeds with five variables that all carry empty buckets and with empty summaries; the corrected run reports the unknown preset |

## Left out

- Reading the command line and the environment. The preset name and the value of
  `USE_BASELINE_MACHINE` are parameters: a `string`, and an `Option<string>` where
  `None` means unset.
- Console output, the pipeline's `##vso[task.setvariable ...]` line format, the
  pretty-printed copy of each bucket, and `process.exit`. A run is a `Result`:
  either the published values or the unknown-preset error.
- The bytes of `JSON.stringify`. A variable carries the bucket itself, a map from
  job name to job record.
- Output.UpperCase: maps only the ASCII letters a to z; JavaScript's `toUpperCase`
  applies the full Unicode case mapping. The result of Output.BaseliningFromEnv is
  unaffected: no other character upper-cases to a string that could make up "TRUE",
  so the source also accepts exactly the sixteen ASCII spellings of "true".
- JobNames.Sanitize: works on Unicode code points. The source's regular expression
  replaces UTF-16 code units, so a character outside the Basic Multilingual Plane
  becomes two `_` in the source and one here. Every name in the catalog is ASCII.
- Strings.LexLe: compares code points where JavaScript's default sort compares UTF-16
  code units. The two orders agree on the ASCII names sorted here. The model's sort
  is an insertion sort; only its result (ordered, a permutation) is claimed, not the
  engine's algorithm.
- The argument parser: when `--preset` is absent, the source looks up an undefined
  key. The model takes a string. The empty string and every other name that is not a
  preset give the unknown-preset error, except, as written, the twelve inherited
  object property names (see "## Findings").
- The directory `cases/solutions/`: type-checker fixtures, not part of the generator.
- Integer widths: iteration counts are small constants, so no overflow is modelled.

A kind is reported only once one of its scenarios is expanded (line 213 of
`scripts/src/generateMatrix.ts`). A kind listed with no hosts or no scenarios would
therefore be missing from the kinds summary (`MatrixFacts.ProcessedKindsExact`). In
the shipped catalog every listed kind produces jobs.

## Findings

| source | as written | input that shows it | evidently intended | confidence | as-written member | corrected member |
|---|---|---|---|---|---|---|
| scripts/src/generateMatrix.ts:151-152 | the preset registry is a plain object literal, so `presets[name]` also finds properties every object inherits; `if (!preset)` lets them through | `--preset toString` (also `constructor`, `valueOf`, `__proto__`, ...): no error; the function is used as a preset with no kinds, so five empty matrix variables and empty summaries are published | any name that is not one of the five presets is reported as unknown | not executed | Catalog.ResolvePresetAsWritten, Output.GenerateAsWritten, Output.InheritedKeysGenerateNothing | Catalog.ResolvePreset, Output.Generate |
