# postal-code-id-ingester: a verified model of the resolution pipeline

The ingester finds the postal code of every Indonesian village in an identity table. For
each village it builds an ordered list of search keywords. It queries the Pos Indonesia
lookup page keyword by keyword, and scores every result row against the village with a
weighted fuzzy similarity. The first accepted row wins. When nothing is accepted and
overrides are enabled, a hand-written alias rule for the village, or else for its district,
gets one more query. Accepted matches are appended to a JSON-lines output file. A later run
reads that file back and skips every village it already holds.

This project models that logic in Dafny and proves what it promises:

| module | models |
|---|---|
| `Keywords` | the single-word fallback keyword |
| `KeywordPlan` | the keyword list and its normalise-and-dedup loop |
| `RegionMatcher` | the two scoring modes and their thresholds |
| `RetryPolicy` | the retry decision and the exponential backoff |
| `PosIndonesia` | result-table cells to candidates |
| `RegionIdLoader` | the identity-table filter |
| `OverrideLoader` | the alias-rule table |
| `Resume` | the codes already in the output |
| `Search` | `process_village` |
| `Ingestion` | `run_ingestion` |

`Wrappers`, `Seqs`, `Text` and `Model` are shared helpers:

- `Wrappers` holds `Option` and `Result`.
- `Seqs` holds the filter-map shape of every row loop, and the lemma that its output is an
  order-preserving subsequence of its input.
- `Text` holds Python's `strip`, `lower` and `split`.
- `Model` holds the village and record types.

`cli.py` is split across three modules:

- `KeywordPlan` models lines 41-76.
- `Search` models lines 81-173.
- `Ingestion` models lines 176-239.

Each loop of the source is a method with a `while`/`for` loop. The loop is proved equal to
a specification function, and the properties are proved as lemmas about that function.
The specification functions of the loops recurse on the last element, so that a loop over a
prefix unfolds them one step. The remaining recursive functions recurse on the first
element, among them `Search.FirstMatch` and `Search.FirstHit`.

Collaborators outside the model are parameters, bundled in `Search.Env`:

- the fetch, with HTML parsing up to the cell texts, which returns `None` when the request
  raises;
- the similarity function;
- `extract_prefix_keywords`;
- `normalize_city_name`;
- `match_postal_candidate_override`;
- the clock reading `now_iso`, as a function of the village whose record is being built.

In the same way, the JSON decoder is a parameter of `Resume`, and `json.dumps` is a
parameter of `Ingestion.RunIngestion`. CSV rows are maps from column name to text.

What the code does (some of it is easy to misread):

- Each keyword is fetched as a single page (`start=0`, `length=25`); there is no pagination
  loop.
- Override records carry the source "pos-indonesia-override".
- The district-level override is tried whenever the village-level one is absent, because
  every village has a `district_code` attribute (`hasattr` always holds).
- A row of the override table that lacks a column aborts the run. It is not skipped.

## Model

| member | source | states |
|---|---|---|
| Keywords.Clean | src/postal_code_id_ingester/query/keywords.py:22 | every character that is not an ASCII letter or whitespace becomes a space, and every other character is kept |
| Keywords.DropStopwordsKeepsOrder | src/postal_code_id_ingester/query/keywords.py:23 | the kept tokens are exactly the non-stop-word tokens, in their original order and with their multiplicity |
| Keywords.DropStopwordsMembers | src/postal_code_id_ingester/query/keywords.py:23 | a word is kept exactly when it is a token and not a stop word |
| Keywords.LongestIndex | src/postal_code_id_ingester/query/keywords.py:29 | the index `max(key=len)` picks: no token is longer, and every earlier token is strictly shorter |
| Keywords.LowerCleanedWords | src/postal_code_id_ingester/query/keywords.py:22-23 | every token is a non-empty run of lower-case ASCII letters |
| Keywords.ExtractSingleWord | src/postal_code_id_ingester/query/keywords.py:13-29 | "" for an empty name; never a stop word; "" exactly when no token remains; otherwise a lower-case token, at least as long as every token, and the earliest of that length |
| KeywordPlan.RawKeywords | src/postal_code_id_ingester/cli.py:41-58 | the raw keywords in their fixed order: village, district, the village prefixes, the district prefixes, the single word, and the city keyword last when it is non-empty |
| KeywordPlan.DedupBy | src/postal_code_id_ingester/cli.py:61-76 | the dedup loop for any filter and normal form; never longer than the raw list |
| KeywordPlan.NormalizeKeywords | src/postal_code_id_ingester/cli.py:60-76 | the loop with its `seen` set computes exactly the deduplicated list |
| KeywordPlan.NoDuplicateForms | src/postal_code_id_ingester/cli.py:71-76 | no two entries share a comparison form |
| KeywordPlan.DedupStep | src/postal_code_id_ingester/cli.py:63-76 | one raw keyword only adds forms, and a kept keyword's form is present afterwards |
| KeywordPlan.KeptIsCovered | src/postal_code_id_ingester/cli.py:63-76 | every raw keyword that passes the filter has an entry of its form |
| KeywordPlan.DedupKeepsFirstOccurrence | src/postal_code_id_ingester/cli.py:63-76 | the list is an order-preserving subsequence of the raw list, and each entry comes from the first kept raw position of its form |
| KeywordPlan.KeywordsTrimmed | src/postal_code_id_ingester/cli.py:64-69 | every keyword is trimmed and at least 3 characters long |
| KeywordPlan.NoCaseDuplicates | src/postal_code_id_ingester/cli.py:71-76 | no two keywords are equal ignoring case |
| KeywordPlan.KeywordsAreFirstOccurrences | src/postal_code_id_ingester/cli.py:41-76 | the keywords are the stripped first occurrences, ignoring case, of the raw keywords that are non-empty and at least 3 characters long once stripped, in raw order; every such raw keyword is represented |
| RegionMatcher.MatchPostalCandidate | src/postal_code_id_ingester/matchers/region_matcher.py:7-68 | city mode accepts iff 0.6·district+0.4·city ≥ 0.6; any other mode accepts iff 0.5·village+0.3·district+0.2·province ≥ threshold; an accepted result is the score rounded to 3 places, is ≥ 0.6 in city mode and ≥ the threshold when the threshold is on the 0.001 grid |
| RegionMatcher.Round3 | src/postal_code_id_ingester/matchers/region_matcher.py:66 | `round(x, 3)`: a multiple of 0.001 within 0.0005 of `x`, and the even multiple when `x` lies exactly halfway |
| RegionMatcher.CityScore | src/postal_code_id_ingester/matchers/region_matcher.py:34-37 | the city-mode weights: similarities in [0, 1] give a score in [0, 1], and two perfect similarities give 1 |
| RegionMatcher.VillageScore | src/postal_code_id_ingester/matchers/region_matcher.py:59-63 | the village-mode weights: similarities in [0, 1] give a score in [0, 1], and three perfect similarities give 1 |
| RegionMatcher.Score | src/postal_code_id_ingester/matchers/region_matcher.py:23-63 | with a similarity in [0, 1], the unrounded score of either mode lies in [0, 1] |
| RegionMatcher.Round3KeepsGridThreshold | src/postal_code_id_ingester/matchers/region_matcher.py:39-66 | a score at or above a threshold on the 0.001 grid stays there after `round(score, 3)` |
| RegionMatcher.Round3Monotone | src/postal_code_id_ingester/matchers/region_matcher.py:65-66 | rounding preserves order |
| RegionMatcher.Round3Unit | src/postal_code_id_ingester/matchers/region_matcher.py:65-66 | rounding keeps [0, 1] |
| RegionMatcher.CityModeIgnoresThreshold | src/postal_code_id_ingester/matchers/region_matcher.py:23-41 | in city mode the threshold argument has no effect |
| RegionMatcher.ScoreInUnitRange | src/postal_code_id_ingester/matchers/region_matcher.py:34-66 | with similarities in [0, 1], both the score and an accepted confidence lie in [0, 1] |
| RegionMatcher.MatchMonotone | src/postal_code_id_ingester/matchers/region_matcher.py:34-66 | raising similarity terms never turns an accept into a reject and never lowers the confidence |
| RegionMatcher.MissingFieldReadsEmpty | src/postal_code_id_ingester/matchers/region_matcher.py:24-57 | a missing candidate field scores exactly like an empty one |
| RegionMatcher.CityBoundaryAccepted | src/postal_code_id_ingester/matchers/region_matcher.py:34-40 | district 1.0 and city 0 give 0.6, accepted |
| RegionMatcher.CityBelowBoundaryRejected | src/postal_code_id_ingester/matchers/region_matcher.py:34-41 | district 0.9 and city 0 give 0.54, rejected |
| RegionMatcher.ExactStubAllEqual | src/postal_code_id_ingester/matchers/region_matcher.py:44-66 | with the exact-equality similarity, three equal fields give 1.0, accepted |
| RegionMatcher.ExactStubProvinceMismatch | src/postal_code_id_ingester/matchers/region_matcher.py:44-66 | with the exact-equality similarity, a province-only mismatch gives 0.8, accepted |
| RegionMatcher.ExactStubTwoMismatchesRejected | src/postal_code_id_ingester/matchers/region_matcher.py:44-68 | with the exact-equality similarity, any two mismatched fields are rejected |
| RetryPolicy.SimpleRetryPolicy.ShouldRetry | src/postal_code_id_ingester/policy/retry_policy.py:25-34 | no exception means no retry; with an exception, retry iff attempt < max_attempts |
| RetryPolicy.SimpleRetryPolicy.Backoff | src/postal_code_id_ingester/policy/retry_policy.py:36-44 | no delay up to attempt 1, base_delay at attempt 2, and never negative for a non-negative base_delay |
| RetryPolicy.DefaultPolicySchedule | src/postal_code_id_ingester/policy/retry_policy.py:9-44 | with the default 3 attempts and 1 s base delay, a failure is retried after attempts 1 and 2 only, waiting 0, 1 and 2 s at attempts 1, 2 and 3 |
| RetryPolicy.BackoffFirstSteps | src/postal_code_id_ingester/policy/retry_policy.py:36-44 | delay 0 for attempt ≤ 1, base_delay at attempt 2, twice that at attempt 3 |
| RetryPolicy.BackoffDoubles | src/postal_code_id_ingester/policy/retry_policy.py:44 | from attempt 2 on, each attempt doubles the delay |
| RetryPolicy.BackoffNonNegative | src/postal_code_id_ingester/policy/retry_policy.py:41-44 | with base_delay ≥ 0 the delay is ≥ 0, and ≥ base_delay from attempt 2 |
| RetryPolicy.BackoffMonotone | src/postal_code_id_ingester/policy/retry_policy.py:41-44 | with base_delay ≥ 0, a later attempt never waits less |
| PosIndonesia.CandidateOf | src/postal_code_id_ingester/sources/pos_indonesia.py:9-20 | a row yields a candidate iff it has at least 6 cells, with exactly the five keys |
| PosIndonesia.ParsePostalResults | src/postal_code_id_ingester/sources/pos_indonesia.py:4-22 | the row loop computes exactly the candidates, each well formed |
| PosIndonesia.CandidatesFollowRows | src/postal_code_id_ingester/sources/pos_indonesia.py:8-20 | one candidate per row of at least 6 cells, in row order, read off stripped cells 1-5 of its own row |
| PosIndonesia.CandidatesWellFormed | src/postal_code_id_ingester/sources/pos_indonesia.py:14-20 | every candidate has all five fields |
| RegionIdLoader.Field | src/postal_code_id_ingester/ingest/region_id_loader.py:16-21 | a missing column reads as "", a present one as its stripped text, and every field is trimmed |
| Text.StripRemovesOnlySpace | src/postal_code_id_ingester/ingest/region_id_loader.py:16-21 | `strip()` keeps a contiguous part of the text and removes only whitespace, from either end |
| RegionIdLoader.VillageOf | src/postal_code_id_ingester/ingest/region_id_loader.py:16-38 | a kept row's village holds the trimmed column values |
| RegionIdLoader.LoadVillagesFromRegionId | src/postal_code_id_ingester/ingest/region_id_loader.py:7-41 | the row loop computes exactly the villages, each complete |
| RegionIdLoader.KeptExactly | src/postal_code_id_ingester/ingest/region_id_loader.py:16-28 | a row is kept iff its trimmed village code, village, district, regency and province are all non-empty |
| RegionIdLoader.DistrictCodeNeverDrops | src/postal_code_id_ingester/ingest/region_id_loader.py:18-28 | changing or removing the district code never changes whether a row is kept |
| RegionIdLoader.VillagesFollowRows | src/postal_code_id_ingester/ingest/region_id_loader.py:15-39 | the villages are the kept rows in input order, none is missing, and each is complete |
| OverrideLoader.RuleOf | src/postal_code_id_ingester/ingest/override_loader.py:24-30 | a row yields a rule iff it has all five columns, and the rule's fields are the row's stripped level, code, canonical_name, postal_alias and match_mode; otherwise the error names a column it lacks |
| OverrideLoader.LoadOverrideRules | src/postal_code_id_ingester/ingest/override_loader.py:15-33 | a falsy path gives the empty map; otherwise the loop computes exactly the fold of the rows |
| OverrideLoader.FailureSticks | src/postal_code_id_ingester/ingest/override_loader.py:23-29 | once a row fails, the whole load fails with that error |
| OverrideLoader.LoadSucceedsIffComplete | src/postal_code_id_ingester/ingest/override_loader.py:23-31 | loading succeeds iff every row has all five columns |
| OverrideLoader.LoadErrorNamesFirstIncompleteRow | src/postal_code_id_ingester/ingest/override_loader.py:23-29 | a failure names the first incomplete row and a column it lacks |
| OverrideLoader.Indexed | src/postal_code_id_ingester/ingest/override_loader.py:31 | every entry sits under the key built from its own level and code |
| OverrideLoader.RuleList | src/postal_code_id_ingester/ingest/override_loader.py:24-30 | one rule per row of a complete table, each that row's rule |
| OverrideLoader.CompleteLoadIsIndexed | src/postal_code_id_ingester/ingest/override_loader.py:23-31 | loading a complete table stores its rules in row order |
| OverrideLoader.RuleKeysPresent | src/postal_code_id_ingester/ingest/override_loader.py:23-31 | every rule's key is present |
| OverrideLoader.KeysComeFromRules | src/postal_code_id_ingester/ingest/override_loader.py:23-31 | every key present is some rule's key |
| OverrideLoader.NoMoreEntriesThanRules | src/postal_code_id_ingester/ingest/override_loader.py:23-31 | there are at most as many entries as rows |
| OverrideLoader.LastRuleWins | src/postal_code_id_ingester/ingest/override_loader.py:23-31 | a key maps to the last rule with that key |
| OverrideLoader.RulesWellKeyed | src/postal_code_id_ingester/ingest/override_loader.py:25-31 | every stored rule sits under its own (level, code) and has all five fields trimmed |
| Resume.CodeOfLine | src/postal_code_id_ingester/export/resume.py:14-21 | blank and malformed lines add nothing; a line adds a code only when it is an object whose own `village_code` is that non-empty code, and such a line always adds it |
| Resume.LoadSeenVillageCodes | src/postal_code_id_ingester/export/resume.py:5-26 | a missing file gives the empty set; otherwise the line loop computes exactly the codes of the lines |
| Resume.SeenCodesExactly | src/postal_code_id_ingester/export/resume.py:12-26 | a code is seen iff some line contributes it |
| Resume.SeenCodesAppend | src/postal_code_id_ingester/export/resume.py:13-21 | more lines add their codes and remove none |
| Resume.OneValidOneMalformed | src/postal_code_id_ingester/export/resume.py:12-26 | one valid line and one malformed line give a set of size 1 |
| Search.FirstMatch | src/postal_code_id_ingester/cli.py:95-101 | the first candidate with a truthy score, or none when no score is truthy |
| Search.RuleFor | src/postal_code_id_ingester/cli.py:122-129 | the village-level rule when there is one, otherwise the district-level rule, otherwise none |
| Search.FirstAccepted | src/postal_code_id_ingester/cli.py:95-101 | the candidate loop stops at exactly that candidate |
| Search.SearchKeyword | src/postal_code_id_ingester/cli.py:82-115 | one keyword: a fetch error or no accepted candidate yields nothing; otherwise the first accepted candidate's record, in city mode exactly for the city keyword |
| Search.SearchPrimary | src/postal_code_id_ingester/cli.py:81-115 | the keyword loop computes exactly the first-hit search, and its fetch log |
| Search.SearchOverride | src/postal_code_id_ingester/cli.py:138-168 | the override phase: one fetch of the alias, the first candidate the override scorer accepts |
| Search.BuildKeywords | src/postal_code_id_ingester/cli.py:41-76 | the keyword list and the city keyword of the village |
| Search.OverrideTier | src/postal_code_id_ingester/cli.py:117-168 | the override tier after the primary phase |
| Search.ProcessVillage | src/postal_code_id_ingester/cli.py:29-173 | `process_village` computes exactly the resolution of the village, and the keywords it fetches in order |
| Search.MatchTruthyIffAccepted | src/postal_code_id_ingester/cli.py:96-101 | with the default threshold, a score is truthy iff the candidate is accepted |
| Search.FirstRecordWins | src/postal_code_id_ingester/cli.py:81-115 | the first keyword that yields a record ends the search; it is the last one fetched and every earlier one yielded nothing; with no record, every keyword was fetched |
| Search.MissSkipsOnlyThatKeyword | src/postal_code_id_ingester/cli.py:84-93 | a keyword that yields nothing changes no result: the search finds what it finds without that keyword |
| Search.FetchErrorSkipsOnlyThatKeyword | src/postal_code_id_ingester/cli.py:84-89 | a fetch error skips only that keyword |
| Search.PrimaryRecord | src/postal_code_id_ingester/cli.py:82-115 | a keyword's record carries the village code, source "pos-indonesia" and the rounded score of the keyword's mode, which is ≥ 0.6, and ≥ 0.8 outside city mode |
| Search.PrimaryOutcomeRecord | src/postal_code_id_ingester/cli.py:81-115 | a primary-phase record carries the village code, the clock reading, source "pos-indonesia" and a score ≥ 0.6 |
| Search.OverrideRecord | src/postal_code_id_ingester/cli.py:147-168 | an override record carries the village code, the clock reading, source "pos-indonesia-override" and a non-zero score |
| Search.OverrideTiers | src/postal_code_id_ingester/cli.py:117-131 | the override tier runs only when enabled and the primary phase found nothing; the village rule takes precedence over the district rule; with no rule nothing changes |
| Search.OverrideFetchErrorGivesNothing | src/postal_code_id_ingester/cli.py:138-143 | an override fetch error gives no record, after one more request |
| Search.ResolvedRecord | src/postal_code_id_ingester/cli.py:81-173 | every record has the village code and a well-formed candidate; an override record exists only with overrides enabled, no primary record and a rule |
| Ingestion.SliceEnd | src/postal_code_id_ingester/cli.py:190-191 | Python's slice end for `[:limit]`, including negative limits |
| Ingestion.Limit | src/postal_code_id_ingester/cli.py:190-191 | the limited list is a prefix, of the limit's length when it fits |
| Ingestion.ScheduleVillages | src/postal_code_id_ingester/cli.py:213-218 | the scheduling loop keeps exactly the villages not yet seen |
| Ingestion.ProcessTask | src/postal_code_id_ingester/cli.py:219-228 | one task's result is its village's resolution |
| Ingestion.ProcessAll | src/postal_code_id_ingester/cli.py:213-230 | the gathered results are the tasks' resolutions, in task order |
| Ingestion.EmitRecords | src/postal_code_id_ingester/cli.py:232-236 | the emit loop computes exactly the emitted records, and `seen` ends as the seed plus their codes |
| Ingestion.RunIngestion | src/postal_code_id_ingester/cli.py:176-238 | `run_ingestion` computes exactly the run's records, or aborts on an override-table error; the output file gains exactly those records' lines |
| Ingestion.EmitFreshAndDistinct | src/postal_code_id_ingester/cli.py:232-236 | emitted codes are pairwise distinct and none was seeded |
| Ingestion.EmitStep | src/postal_code_id_ingester/cli.py:233-236 | one result only adds emitted codes, and a found record's code is seeded or emitted afterwards |
| Ingestion.EmitCoversResults | src/postal_code_id_ingester/cli.py:232-236 | every found record's code is seeded or emitted |
| Ingestion.EmitFollowsResults | src/postal_code_id_ingester/cli.py:232-236 | emitted records are found records, in the order found |
| Ingestion.EmittedFromTasks | src/postal_code_id_ingester/cli.py:230-236 | every emitted record is some task's result |
| Ingestion.EmittedFromAllTasks | src/postal_code_id_ingester/cli.py:230-236 | for any per-village resolver, every emitted record is some task's result, none was seeded, and no two share a code |
| Ingestion.EmittedRecords | src/postal_code_id_ingester/cli.py:213-236 | every emitted record is a scheduled village's resolution; codes are distinct and none was seeded |
| Ingestion.ScheduledAreUnseen | src/postal_code_id_ingester/cli.py:213-218 | the scheduled villages are exactly the unseen ones, in order |
| Ingestion.FailedModeDisablesResume | src/postal_code_id_ingester/cli.py:185-199 | with a failed_regions.csv path the seed is empty and every village is scheduled |
| Ingestion.UnseenNothing | src/postal_code_id_ingester/cli.py:213-218 | an empty seed filters nothing out |
| Ingestion.ScheduledCodesNonEmpty | src/postal_code_id_ingester/cli.py:186-218 | outside failed-only mode every scheduled village has a non-empty code |
| Ingestion.EmittedCodesNonEmpty | src/postal_code_id_ingester/cli.py:186-236 | outside failed-only mode every emitted record has a non-empty village code |
| Ingestion.EncodedCodes | src/postal_code_id_ingester/export/resume.py:12-21 | lines that encode records read back as exactly their codes |
| Ingestion.ResumeAfterRun | src/postal_code_id_ingester/cli.py:195-238 | after records are appended to the output, the next run's seed is this run's seed plus their codes |

## Left out

- HTTP transport and retries: the request built by `fetcher.py`, and the retry loop in the external HTTP client that calls `should_retry` and `backoff`. A fetch is an oracle that returns the parsed result cells or a failure.
- Concurrency: the semaphore and `asyncio.gather` are modelled as a sequential map over the scheduled villages in order. No observable result depends on completion order.
- Library parsing: CSV reading, `json.loads`, the pyquery selectors and file existence are inputs.
- A JSON line that decodes to a value other than an object makes the source raise. `Resume.LoadSeenVillageCodes` excludes it with a precondition.
- A `village_code` that is truthy but not a string is not modelled; codes are strings.
- `str.lower()` is modelled on ASCII letters only.
- Scores are reals, not IEEE doubles. `round(x, 3)` is exact round-half-even on reals.
- ingest/failed_loader.py is not part of this model. In failed-only mode the village list is a parameter of the run.
- `extract_prefix_keywords`, `normalize_city_name` and `match_postal_candidate_override` are not part of this model. They are uninterpreted parameters with no assumed contract.
- `fuzzy_core.similarity` is an uninterpreted parameter. `RegionMatcher.UnitSimilarity` states its [0, 1] range where a lemma needs it.
- `AugmentedPostalCode.now_iso` is a parameter: one clock reading per village, taken when that village's record is built.
- Verbose printing, the final summary print, and `main` with its argument parsing are not modelled.
- `write_jsonl` is modelled as appending one encoded line per record (`Seqs.MapSeq`), with `json.dumps` as a parameter.
- RetryPolicy.SimpleRetryPolicy.Backoff: the delay is a real number. Python's `OverflowError`, raised once `2 ** (attempt - 2)` exceeds the float range, is not modelled.
- Ingestion.FailedModeDisablesResume: describes the run after the failed villages are loaded. `load_failed_villages` builds `VillageInput` without `district_code` and so raises `TypeError` on any row. Failed-only mode therefore completes only with an empty failed_regions.csv.
- Ingestion.RunIngestion and Ingestion.ResumeAfterRun: the earlier output is assumed empty or newline-terminated. `write_jsonl` appends text, so a file whose last line lacks its "\n" would get the first new record glued onto that line.
- RegionMatcher.MatchPostalCandidate: the guarantee that an accepted village-mode confidence is at least `threshold` is stated only for thresholds on the 0.001 grid, such as the default 0.8. With other thresholds, rounding can bring an accepted score just below the threshold.
- Ingestion.ResumeAfterRun: assumes that `json.dumps` writes lines that `json.loads` reads back with the record's code. It also needs every code to be non-empty, which `Ingestion.EmittedCodesNonEmpty` proves for the records a run emits outside failed-only mode.
