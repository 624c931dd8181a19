# Phase buckets, report sections and the HAR replay table

This project models, in Dafny, two small pieces of a browser-benchmarking tool
and proves properties of them.

**Report data** (`packages/cli/src/helpers/create-consumable-html.ts`). The
benchmark produces many *samples*. Each sample is one measured page load: its
whole-run `duration` plus a list of `(phase, start, duration)` triples.

- `bucketPhaseValues` groups the values into one list per phase name. The
  whole-run durations go under `duration`, and each triple contributes
  `valueGen(triple)` under its own name. It then sorts every list with
  JavaScript's default `Array.prototype.sort()`.
- The code around it:
  - resolves the report titles;
  - decides per phase whether the difference is significant, from a
    confidence interval;
  - emits one report section per control phase;
  - selects the phases of the cumulative chart;
  - provides the `toCamel`, `isFaster` and `abs` template helpers.

**Replay table** (`packages/har-remix/src/archive-server.ts`). `ArchiveServer`
turns the entries of an HTTP archive into canned responses. It stores them
under a key chosen by a delegate and answers lookups by key. Building a
response means:

- decoding the archived text;
- compressing the body when the archive says it was compressed;
- deriving the `Content-Length`, `Content-Type` and `Content-Encoding` headers.

Files, one module each:

| file | module | contents |
|---|---|---|
| `options.dfy` | `Options` | `Option` and `Result` |
| `decimal.dfy` | `Decimal` | the decimal numeral of a natural (`'' + n`, `String(n)`) and its parser |
| `ordering.dfy` | `Ordering` | a character order on strings (JavaScript's order on the digit strings it is applied to); a generic comparison sort; the default comparator of `Array.prototype.sort()` on naturals |
| `js_object.dfy` | `JsObject` | property names every `{}` inherits; the order in which `Object.keys` lists own properties; the `TypeError`s the code can raise |
| `phase_buckets.dfy` | `PhaseBuckets` | `bucketPhaseValues` |
| `consumable_html.dfy` | `ConsumableHtml` | titles, significance, sections, chart data, template helpers, the report as a whole |
| `archive_server.dfy` | `HarRemix` | class `ArchiveServer` and its specification functions |

JavaScript behaviour the model makes explicit:

- **`sort()` without a comparator compares decimal strings.** Observations and
  derived values are naturals, and `sort()` compares their decimal strings
  character by character. So `[3, 20, 100]` sorts to `[100, 20, 3]`, which is
  not numerically sorted (`PhaseBuckets.BucketedLexicalNotNumeric`).
  - The engine's own sorting algorithm is not modelled. An insertion sort
    stands in for it.
  - `Ordering.DefaultSortCharacterised` shows that every sorted permutation
    equals the insertion sort's result, so any correct sorting algorithm gives
    the same lists.
- **`buckets` is a plain `{}`.** A phase named after an inherited property
  (`constructor`, `toString`, `__proto__`, …) makes `buckets[name] || []`
  return a non-array, and the `push` that follows throws a `TypeError`. The
  model returns `Err(PushOnNonArray)` in that case.
- **`Object.keys` order.** It lists array-index names (`"0"`, `"1"`, …) first,
  in ascending numeric order, and the other names in creation order. Sections
  and chart categories follow that order.
- **A control phase the experiment lacks.** `experimentValues` is then
  `undefined`, and `experimentValues.map` throws. The model returns
  `Err(MapOnUndefined)`. The chart data does not throw: `JSON.stringify` writes
  the missing list as `null`, and the model records it as `None`.
- **The replay table has no prototype.** It is created with
  `Object.create(null)`, so every key is an ordinary map key.

Two behaviours of the code are worth knowing:

- **Sample lists are not in numeric order.** The `sort()` at
  create-consumable-html.ts:84 orders the decimal strings of the values, so
  multi-digit values come out of numeric order. This is likely a latent
  defect; `PhaseBuckets.BucketedLexicalNotNumeric` exhibits it, and the model
  keeps the code's behaviour.
- **Inverted intervals.** Besides an interval that straddles zero or is
  exactly `[0, 0]`, the significance test at create-consumable-html.ts:159
  also treats an inverted interval with `min > 0 > max` as not significant.

## Model

| member | source | states |
|---|---|---|
| `Decimal.DecimalString` | packages/har-remix/src/archive-server.ts:108 | the numeral of `n` is non-empty and made of digits; it starts with `0` exactly when `n` is 0, and is then `"0"` |
| `Decimal.ParseDecimalString` | packages/har-remix/src/archive-server.ts:108 | reading the numeral of `n` back gives `n` |
| `Decimal.DecimalStringInjective` | packages/cli/src/helpers/create-consumable-html.ts:84 | distinct naturals have distinct numerals |
| `Ordering.LexLeTotal` | packages/cli/src/helpers/create-consumable-html.ts:84 | the character string order relates every pair of strings |
| `Ordering.LexLeAntisymmetric` | packages/cli/src/helpers/create-consumable-html.ts:84 | two strings each ordered before the other are equal |
| `Ordering.LexLeTransitive` | packages/cli/src/helpers/create-consumable-html.ts:84 | the character string order is transitive |
| `Ordering.Insert` | packages/cli/src/helpers/create-consumable-html.ts:84 | inserting adds exactly the one element to the multiset |
| `Ordering.SortBy` | packages/cli/src/helpers/create-consumable-html.ts:84 | sorting keeps the multiset of elements |
| `Ordering.InsertSorted` | packages/cli/src/helpers/create-consumable-html.ts:84 | for a total, transitive order, inserting into a sorted list keeps it sorted |
| `Ordering.SortBySorted` | packages/cli/src/helpers/create-consumable-html.ts:84 | for a total, transitive order, the result is sorted |
| `Ordering.SortedPermutationUnique` | packages/cli/src/helpers/create-consumable-html.ts:84 | for a total, antisymmetric order, two sorted lists with the same multiset are equal |
| `Ordering.DefaultLeTotal` | packages/cli/src/helpers/create-consumable-html.ts:84 | the default comparator on naturals is total |
| `Ordering.DefaultLeTransitive` | packages/cli/src/helpers/create-consumable-html.ts:84 | the default comparator is transitive |
| `Ordering.DefaultLeAntisymmetric` | packages/cli/src/helpers/create-consumable-html.ts:84 | the default comparator only ties equal numbers |
| `Ordering.DefaultSort` | packages/cli/src/helpers/create-consumable-html.ts:84 | `sort()` on a list of naturals keeps its multiset |
| `Ordering.DefaultSortSorted` | packages/cli/src/helpers/create-consumable-html.ts:84 | `sort()` leaves the list ordered by the decimal strings of its elements |
| `Ordering.DefaultSortCharacterised` | packages/cli/src/helpers/create-consumable-html.ts:84 | any permutation ordered that way is the result of `sort()`, whatever the algorithm |
| `Ordering.DefaultSortIdempotent` | packages/cli/src/helpers/create-consumable-html.ts:84 | sorting a sorted list changes nothing |
| `Ordering.DefaultLeExamples` | packages/cli/src/helpers/create-consumable-html.ts:84 | `100` is ordered before `20` and `3`, and `20` before `3` |
| `Ordering.DefaultSortedExample` | packages/cli/src/helpers/create-consumable-html.ts:84 | `[100, 20, 3]` is sorted under the default comparator |
| `Ordering.DefaultSortIsNotNumeric` | packages/cli/src/helpers/create-consumable-html.ts:84 | `[3, 20, 100].sort()` is `[100, 20, 3]`, which is not numerically ascending |
| `JsObject.Filter` | packages/cli/src/helpers/create-consumable-html.ts:129 | `filter` keeps exactly the elements that pass, and only those |
| `JsObject.FilterPartition` | packages/cli/src/helpers/create-consumable-html.ts:83 | index names and other names together make up all the names |
| `JsObject.FilterAppend` | packages/cli/src/helpers/create-consumable-html.ts:129 | filtering distributes over concatenation |
| `JsObject.FilterAll` | packages/cli/src/helpers/create-consumable-html.ts:129 | a list whose elements all pass is unchanged |
| `JsObject.FilterNone` | packages/cli/src/helpers/create-consumable-html.ts:129 | a list none of whose elements pass filters to the empty list |
| `JsObject.IndexLeTotalOrder` | packages/cli/src/helpers/create-consumable-html.ts:83 | the numeric order on index names is total and transitive |
| `JsObject.ObjectKeys` | packages/cli/src/helpers/create-consumable-html.ts:145 | `Object.keys` lists every own property once: same names, same count |
| `JsObject.ObjectKeysOrder` | packages/cli/src/helpers/create-consumable-html.ts:145 | the listing is the index names in ascending order, then the other names in creation order |
| `JsObject.ObjectKeysOfNamedKeys` | packages/cli/src/helpers/create-consumable-html.ts:145 | without index names, the listing is the creation order |
| `PhaseBuckets.BucketPhaseValues` | packages/cli/src/helpers/create-consumable-html.ts:71-88 | the nested loops and the per-bucket sort give exactly `Bucketed(samples, valueGen)`, including its failure |
| `PhaseBuckets.PushPhases` | packages/cli/src/helpers/create-consumable-html.ts:76-80 | one sample's pushes succeed exactly when no phase name is inherited, and then equal the reference pushes; no existing bucket is lost |
| `PhaseBuckets.SortEachBucket` | packages/cli/src/helpers/create-consumable-html.ts:83-85 | sorting every listed bucket in place replaces each list with its default sort |
| `PhaseBuckets.SortInOrder` | packages/cli/src/helpers/create-consumable-html.ts:83-85 | after the loop, exactly the visited names have sorted lists |
| `PhaseBuckets.PartlySortedStep` | packages/cli/src/helpers/create-consumable-html.ts:84 | sorting one more bucket, even one already sorted, extends the set of sorted names by that name |
| `PhaseBuckets.DedupMembership` | packages/cli/src/helpers/create-consumable-html.ts:77-79 | first occurrences keep exactly the names that occur |
| `PhaseBuckets.PushKeys` | packages/cli/src/helpers/create-consumable-html.ts:77-79 | a push keeps the names distinct and creates a name only on its first push |
| `PhaseBuckets.PushGet` | packages/cli/src/helpers/create-consumable-html.ts:77-79 | a push appends to its own bucket and leaves the others alone |
| `PhaseBuckets.AddPhasesKeys` | packages/cli/src/helpers/create-consumable-html.ts:76-80 | one sample's pushes add its new names in first-seen order |
| `PhaseBuckets.AddPhasesGet` | packages/cli/src/helpers/create-consumable-html.ts:76-80 | one sample's pushes append to each bucket exactly the values of the triples with that name |
| `PhaseBuckets.CollectKeys` | packages/cli/src/helpers/create-consumable-html.ts:72-81 | the unsorted buckets are named `duration`, then each phase name in first-seen order, each once |
| `PhaseBuckets.CollectGet` | packages/cli/src/helpers/create-consumable-html.ts:72-81 | each unsorted bucket holds exactly the values written under its name, in order |
| `PhaseBuckets.SortAllGet` | packages/cli/src/helpers/create-consumable-html.ts:83-85 | sorting keeps the names and sorts each list |
| `PhaseBuckets.NamesOfPhaseNames` | packages/cli/src/helpers/create-consumable-html.ts:74-76 | a name is visited exactly when some triple of some sample carries it |
| `PhaseBuckets.PhaseNameListed` | packages/cli/src/helpers/create-consumable-html.ts:74-76 | every triple's name is among the visited names |
| `PhaseBuckets.PhaseValuesCount` | packages/cli/src/helpers/create-consumable-html.ts:76-80 | a sample writes one value per triple with a given name |
| `PhaseBuckets.ValuesForCount` | packages/cli/src/helpers/create-consumable-html.ts:74-80 | the values under a name number its triples, plus one per sample for `duration` |
| `PhaseBuckets.ValuesForDuration` | packages/cli/src/helpers/create-consumable-html.ts:72-75 | without a phase named `duration`, its values are the samples' durations in order |
| `PhaseBuckets.BucketedFailsOnInheritedName` | packages/cli/src/helpers/create-consumable-html.ts:77-78 | the function throws exactly when some phase is named after an inherited property |
| `PhaseBuckets.BucketedKeys` | packages/cli/src/helpers/create-consumable-html.ts:72-80 | the result's first key is `duration`; the keys are distinct and are exactly `duration` and the phase names that occur |
| `PhaseBuckets.BucketedHas` | packages/cli/src/helpers/create-consumable-html.ts:72-80 | per name: a bucket exists exactly for `duration` and for the phase names that occur, and is listed |
| `PhaseBuckets.DedupStartsWith` | packages/cli/src/helpers/create-consumable-html.ts:72 | the first name seen stays first |
| `PhaseBuckets.BucketedContents` | packages/cli/src/helpers/create-consumable-html.ts:78-85 | each bucket is a permutation of the values written into it, ordered by their decimal strings |
| `PhaseBuckets.BucketedCounts` | packages/cli/src/helpers/create-consumable-html.ts:76-80 | a bucket has one entry per triple of its name, plus one per sample for `duration`; no phase bucket is empty |
| `PhaseBuckets.BucketedDurations` | packages/cli/src/helpers/create-consumable-html.ts:72-75 | without a phase named `duration`, its bucket has one entry per sample and is a permutation of their durations |
| `PhaseBuckets.NoPhaseNames` | packages/cli/src/helpers/create-consumable-html.ts:76 | samples without triples visit no names |
| `PhaseBuckets.DurationsOfThree` | packages/cli/src/helpers/create-consumable-html.ts:75 | three samples contribute their three durations in order |
| `PhaseBuckets.BucketedLexicalNotNumeric` | packages/cli/src/helpers/create-consumable-html.ts:84 | durations 3, 20 and 100 give the bucket `[100, 20, 3]`, which is not numerically sorted |
| `ConsumableHtml.ResolveTitles` | packages/cli/src/helpers/create-consumable-html.ts:95-117 | without `servers`, the names `Control` and `Experiment`; otherwise as many servers, index 0 prefixed `Control: ` and the rest `Experiment: `; the plot title overridden only by a non-empty one |
| `ConsumableHtml.TitlesResolvedUnique` | packages/cli/src/helpers/create-consumable-html.ts:95-117 | the configuration determines the titles |
| `ConsumableHtml.ResolvedNamesKeepConfiguredNames` | packages/cli/src/helpers/create-consumable-html.ts:103-109 | stripping the role prefix gives back the configured name |
| `ConsumableHtml.ResolvedServerCount` | packages/cli/src/helpers/create-consumable-html.ts:96-114 | an empty list stays empty; no list gives the two defaults; an empty plot title keeps the default |
| `ConsumableHtml.NotSignificantIff` | packages/cli/src/helpers/create-consumable-html.ts:157-160 | not significant exactly when the bounds have strictly opposite signs or are both 0; significant exactly when they are on one side or only one is 0 |
| `ConsumableHtml.SignificanceSymmetric` | packages/cli/src/helpers/create-consumable-html.ts:157-160 | the verdict on `[min, max]` equals the verdict on `[-max, -min]` |
| `ConsumableHtml.SignificanceExamples` | packages/cli/src/helpers/create-consumable-html.ts:157-165 | one-sided intervals, `[0, 5]` and `[-5, 0]` are significant; `[-1, 1]` and `[0, 0]` are not |
| `ConsumableHtml.ToMilliseconds` | packages/cli/src/helpers/create-consumable-html.ts:167-168 | the conversion maps each sample, keeping the count and the order |
| `ConsumableHtml.AssembleSections` | packages/cli/src/helpers/create-consumable-html.ts:145-175 | fails (a `.map` of `undefined`) exactly when some control key is missing from the experiment; otherwise one section per `Object.keys` entry, in order, keyed and hashed by the phase, with the statistics, the significance verdict, the converted samples, and a page break only for `duration` |
| `ConsumableHtml.SectionsFor` | packages/cli/src/helpers/create-consumable-html.ts:149-175 | the loop pushes the section of each listed phase in order, or stops at the first phase the experiment lacks |
| `ConsumableHtml.ChartDataShape` | packages/cli/src/helpers/create-consumable-html.ts:125-135 | the chart fails exactly when bucketing does; its categories are the control's phase names other than `duration`; each series is that phase's bucket, and an experiment series is absent exactly when the experiment lacks the phase |
| `ConsumableHtml.ChartCategoriesInOrder` | packages/cli/src/helpers/create-consumable-html.ts:129 | without index-like phase names, the categories are the control's bucket names after `duration`, in first-seen order |
| `ConsumableHtml.FilterDropsLeadingDuration` | packages/cli/src/helpers/create-consumable-html.ts:129 | removing `duration` from distinct names headed by it drops exactly the head |
| `ConsumableHtml.CreateConsumableHtml` | packages/cli/src/helpers/create-consumable-html.ts:138-202 | succeeds exactly when no phase name is inherited and every control phase other than `duration` occurs in the experiment, with the matching error otherwise; then resolved titles, the cumulative chart, and one section per control key in `Object.keys` order |
| `ConsumableHtml.SectionsFailOnMissingPhase` | packages/cli/src/helpers/create-consumable-html.ts:150-168 | every control bucket has an experiment bucket exactly when every control phase other than `duration` occurs in the experiment |
| `ConsumableHtml.Upper` | packages/cli/src/helpers/create-consumable-html.ts:178 | `toUpperCase` maps `a`–`z` to `A`–`Z` |
| `ConsumableHtml.ToCamel` | packages/cli/src/helpers/create-consumable-html.ts:177-179 | the rewrite never lengthens the string |
| `ConsumableHtml.ToCamelHead` | packages/cli/src/helpers/create-consumable-html.ts:178 | the first output character is lower-case only if it is the input's first character |
| `ConsumableHtml.ToCamelNoDashLower` | packages/cli/src/helpers/create-consumable-html.ts:178 | no `-` followed by a lower-case letter survives the global replace |
| `ConsumableHtml.ToCamelFixpoint` | packages/cli/src/helpers/create-consumable-html.ts:178 | a string without such a pair is left unchanged |
| `ConsumableHtml.ToCamelIdempotent` | packages/cli/src/helpers/create-consumable-html.ts:177-179 | applying the helper twice equals applying it once |
| `ConsumableHtml.ToCamelAppend` | packages/cli/src/helpers/create-consumable-html.ts:178 | the replace is local: a prefix not ending in `-` is rewritten independently of what follows |
| `ConsumableHtml.ToCamelReplacesDashLower` | packages/cli/src/helpers/create-consumable-html.ts:178 | `foo-bar` becomes `fooBar` |
| `ConsumableHtml.ToCamelKeepsDashUpper` | packages/cli/src/helpers/create-consumable-html.ts:178 | `foo-Bar` is unchanged |
| `ConsumableHtml.ToCamelResumesAfterDash` | packages/cli/src/helpers/create-consumable-html.ts:178 | `a--b` becomes `a-B` |
| `ConsumableHtml.Abs` | packages/cli/src/helpers/create-consumable-html.ts:191-193 | the result is non-negative and is the number or its negation |
| `ConsumableHtml.FasterAndAbs` | packages/cli/src/helpers/create-consumable-html.ts:181-193 | a faster section's estimator is its own absolute value; a negative one is not faster and is shown negated; `abs` ignores the sign |
| `HarRemix.HeadersFor` | packages/har-remix/src/archive-server.ts:102-115 | exactly `Content-Length`, `Content-Type` and, when compressed, `Content-Encoding: gzip`; the length is the canonical decimal numeral of the body's byte count (no leading zeros), reading back as that count, `"0"` without a body; the type is the mime type |
| `HarRemix.ContentLengthInjective` | packages/har-remix/src/archive-server.ts:108 | bodies with the same `Content-Length` have the same byte count |
| `HarRemix.BuiltResponse` | packages/har-remix/src/archive-server.ts:84-100 | the status passes through; the body is gzipped exactly when present and `compress` holds; the headers describe the body sent; `Content-Encoding` exactly when gzipped |
| `HarRemix.ReplayableResponse` | packages/har-remix/src/archive-server.ts:47-78 | an entry with content and a 2xx status always yields a response; without `finalizeResponse` it keeps status and mime type, is gzip-encoded exactly when compressed and with text, and has length `"0"` without text |
| `HarRemix.FallbackResponse` | packages/har-remix/src/archive-server.ts:48-81 | any other entry yields the delegate's `responseFor`, or nothing without that hook |
| `HarRemix.AfterEntryLookup` | packages/har-remix/src/archive-server.ts:29-41 | one entry changes at most the slot of its own truthy key, and only when a response is built |
| `HarRemix.AfterEntriesLastWins` | packages/har-remix/src/archive-server.ts:23-40 | under every key, the table holds the response of the last entry storing one there, or the old slot |
| `HarRemix.LastContributionAt` | packages/har-remix/src/archive-server.ts:23-27 | the winning entry is the latest storing one under the key |
| `HarRemix.LastContributionNone` | packages/har-remix/src/archive-server.ts:23-27 | a key no entry stores under keeps its old slot |
| `HarRemix.LastContributionSome` | packages/har-remix/src/archive-server.ts:23-27 | a slot is filled exactly when it was before or some entry stores under it |
| `HarRemix.AfterEntriesKeys` | packages/har-remix/src/archive-server.ts:23-40 | the keys afterwards are the old keys plus those some entry stores a response under |
| `HarRemix.ArchiveServer.constructor` | packages/har-remix/src/archive-server.ts:11-13 | a new server has an empty table and the given delegate |
| `HarRemix.ArchiveServer.AddArchive` | packages/har-remix/src/archive-server.ts:19-21 | adds the archive's entries in order |
| `HarRemix.ArchiveServer.AddArchiveEntries` | packages/har-remix/src/archive-server.ts:23-27 | the table becomes the old table with every entry applied in sequence order |
| `HarRemix.ArchiveServer.AddArchiveEntry` | packages/har-remix/src/archive-server.ts:29-41 | the table is unchanged for a falsy key or when no response is built; otherwise the response is stored under the key |
| `HarRemix.ArchiveServer.BuildResponseForArchiveEntry` | packages/har-remix/src/archive-server.ts:43-82 | the step-by-step construction returns the specified response of the entry |
| `HarRemix.ArchiveServer.BuildResponse` | packages/har-remix/src/archive-server.ts:84-100 | returns the specified response |
| `HarRemix.ArchiveServer.BuildHeaders` | packages/har-remix/src/archive-server.ts:102-115 | returns the specified headers |
| `HarRemix.ArchiveServer.AddResponse` | packages/har-remix/src/archive-server.ts:117-121 | afterwards the key answers the response and every other key answers what it did before |
| `HarRemix.ArchiveServer.SetResponse` | packages/har-remix/src/archive-server.ts:123-127 | the same update as `addResponse` |
| `HarRemix.ArchiveServer.ResponseFor` | packages/har-remix/src/archive-server.ts:129-131 | the stored response, or `undefined` exactly when the key is unknown |

## Left out

- The module-level template work (create-consumable-html.ts:46-62): reading the CSS, script and template files and splicing them in. This is file I/O.
- `Handlebars.registerHelper`, `Handlebars.compile` and rendering the template (create-consumable-html.ts:177-202). This is a third-party engine with process-wide registration. Only the helper bodies are modelled.
- `JSON.stringify` of the chart and section data. Sections and chart data keep the lists themselves, and a missing experiment series is `None`.
- `convertMicrosecondsToMS` is a parameter `toMs: nat -> nat`. Its source is not part of this model, and fractional milliseconds are not represented.
- `ConsumableHtml.AssembleSections` (and `SectionsFor`, `CreateConsumableHtml`) assumes `new Stats(...)` neither reorders nor changes the `controlValues` and `experimentValues` arrays it receives (create-consumable-html.ts:152-156). The same arrays are mapped afterwards (lines 167-168), and the model passes them to a pure `stats`. An in-place update inside `Stats`, whose source is not part of this model, would change the samples a section shows, and the model does not capture it.
- `ConsumableHtml.CreateConsumableHtml` treats `Stats` as a parameter returning the interval and the estimator. Errors `Stats` itself may raise are not modelled: too few samples, or an `undefined` experiment list passed to it before `.map` throws.
- Numbers are naturals for observations and reals for interval bounds and estimators. Negative, fractional, NaN and infinite values are not modelled. `valueGen` returns a natural; a JavaScript `valueGen` may return anything.
- The default sort is modelled for decimal strings of naturals only. That matches `String(n)` for integers below 10^21; exponent notation is not modelled.
- The engine's sorting algorithm is replaced by an insertion sort. The uniqueness lemma shows the result does not depend on the algorithm.
- Sample fields `js`, `gc`, `blinkGC` and `runtimeCallStats`, and a trace result's `meta` and `set`, are carried or dropped unread. The modelled code never reads them.
- `ConsumableHtml.ResolveTitles` keeps only each server's `name`. A server without a name (which prints as `undefined`) is not modelled. `defaultFlagArgs.plotTitle` is a parameter because its source is not part of this model.
- `loadArchive` (a file read and a JSON parse), `handle` and `createServer` (asynchronous HTTP I/O) and the delegate hooks they alone use (`keyForServerRequest`, `missingResponse`).
- All `console.log` and `console.error` calls.
- `gzipSync`, `new Buffer(text, encoding)`, `buffer.toString()`, `new Buffer(text)` and `charset(mimeType)` are uninterpreted function parameters.
- Delegate hooks are modelled as pure functions. Hooks returning promises, throwing, or depending on hidden state are not modelled.
- `HarRemix.ArchiveServer.BuildResponseForArchiveEntry` assumes that `finalizeResponse` always returns a response object. A falsy return would make `addArchiveEntry` log instead of storing, and that case is not modelled.
- The order of header properties is not modelled. Headers are a map.
- HAR statuses are integers; `compression` is an optional integer.
- `packages/parse-profile/src/cli/cli.ts` entirely. It is filesystem checks, trace loading and wiring to aggregation modules that are not part of this model.
