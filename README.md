# Candidate search engine — a verified Dafny model

This project models the client-side candidate engine of a recruiting application. It has four parts.

- **The plan-application tools** (`src/lib/mcp-tools.js`):
  - `matchesFilter` tests one field value against one criterion. The operators are exact, contains, regex, boolean, gte and lte.
  - `getFieldValue` turns a field into the key a ranking compares.
  - `filterCandidates` applies a plan's include criteria and then its exclude criteria.
  - `rankCandidates` selects candidates by id and sorts them, in place and descending, by the primary field and then the tie-breakers.
  - `aggregateStats` returns the count, the average experience and the five most frequent skills.
  - The step of `getAIPlan` that cuts the JSON object out of the assistant's reply and fills in the default plans.
- **The manual search helpers** (`lib/data/searchHelpers.js`): search-term, location and experience-band filters, the three-way sort, and the sorted list of unique locations.
- **The candidate state** (`lib/context/CandidateContext.jsx`):
  - the reducer over the eleven-field state and its initial value;
  - the provider, modelled as a class that holds the state and records every dispatched action;
  - the provider's actions: loading, the filter pipeline, the setters, clearing, and the AI filter that shows a chosen list of ids.
- **The CSV row transform** (`lib/data/csvLoader.js`): `transformCandidateData`, `generateEmail` and `parseAvailability`.

## How values are modelled

- JavaScript values are a datatype: `undefined`, `null`, booleans, integer numbers, strings, and arrays of strings (`js_values.dfy`).
- Truthiness, `String(v)` and `parseFloat`/`parseInt` are written out, with `NaN` as `None`.
- The regular-expression engine and `new Date(v).getTime()` are parameters of the model (`McpMatch.Runtime`). So is `JSON.parse`, once the reply has been parsed into its plans (`McpPlan.JsonParser`).
- JavaScript's `Array.prototype.sort` is stable. It is modelled by a stable insertion sort specified in `stable_sort.dfy`.
- `rankCandidates` sorts an `array` in place with that insertion sort, and the sort is proved equal to the specification.
- The loops of `filterCandidates` and `aggregateStats` are methods proved against specification functions.

Two behaviours of the code are worth stating on their own.

- The `boolean` operator compares `Boolean(value)` with the criterion value using `===`. So a criterion value that is not a boolean (the string `"true"`, say) never matches, and a field holding the string `"false"` is truthy.
- Tied candidates keep their input order, because `Array.prototype.sort` is stable (`McpRank.RankedStable`).

## Model

| member | source | states |
|---|---|---|
| McpMatch.OperatorMeaning | src/lib/mcp-tools.js:264-284 | gte/lte hold only when both sides parse as numbers; regex matches exactly when the pattern compiles and finds a match; boolean holds exactly when the criterion value is the boolean equal to the value's truthiness; contains is a case-insensitive substring test |
| McpMatch.TypeOverridesOperator | src/lib/mcp-tools.js:266 | a truthy `type` decides the operator whatever `operator` holds |
| McpMatch.DefaultIsExact | src/lib/mcp-tools.js:266-287 | with neither `type` nor `operator` the criterion is a case-insensitive exact match on `String(...)` |
| McpMatch.UnknownOperatorIsExact | src/lib/mcp-tools.js:285-287 | any operator other than the five named ones falls to the exact match |
| McpMatch.ExactImpliesContains | src/lib/mcp-tools.js:270-271 | a value that matches exactly also matches `contains` |
| McpMatch.OpNames | src/lib/mcp-tools.js:269-286 | each operator name selects its own case of the switch |
| McpMatch.SelectsGte | src/lib/mcp-tools.js:281-282 | under gte the criterion is exactly the numeric lower bound |
| McpMatch.SelectsLte | src/lib/mcp-tools.js:283-284 | under lte the criterion is exactly the numeric upper bound |
| McpMatch.MissingFieldFailsGte | src/lib/mcp-tools.js:281-282 | a missing field (`NaN`) never satisfies a lower bound |
| McpMatch.MissingFieldFailsLte | src/lib/mcp-tools.js:283-284 | a missing field never satisfies an upper bound |
| McpMatch.GteOnNumbers | src/lib/mcp-tools.js:281-282 | on numbers gte is `n >= bound`, both directions |
| McpMatch.LteOnNumbers | src/lib/mcp-tools.js:283-284 | on numbers lte is `n <= bound`, both directions |
| McpMatch.InvalidRegexMatchesNothing | src/lib/mcp-tools.js:272-278 | a pattern the regex constructor rejects makes the criterion false instead of throwing |
| McpMatch.KeyGreaterIrreflexive | src/lib/mcp-tools.js:64-65 | no key is greater than itself |
| McpMatch.KeyGreaterAsymmetric | src/lib/mcp-tools.js:64-65 | of two keys at most one is greater than the other |
| McpMatch.KeyGreaterTransitive | src/lib/mcp-tools.js:64-65 | the key order is transitive |
| McpMatch.KeyGreaterTotal | src/lib/mcp-tools.js:64-67 | two distinct keys are always ordered, so the comparator's 0 means equal keys |
| McpMatch.RawKey | src/lib/mcp-tools.js:312 | a falsy field value ranks as `''`, which compares as 0 against numbers and `true`; `true` ranks as 1; a non-empty string ranks as itself; an array ranks as its comma-joined text, so an empty array ranks as `''`; no key is the empty string |
| McpMatch.FieldValueCases | src/lib/mcp-tools.js:291-313 | the five numeric fields give their parsed number or 0; a field whose name contains `date` gives its timestamp or 0; any other falsy field gives `''`, compared as 0 |
| McpMatch.PlainFieldKey | src/lib/mcp-tools.js:307-312 | a field that is not numeric, not `skills_count` and has no `d` in its name (so no `date`) ranks by its own value, `''` when falsy |
| McpMatch.NumericFieldOfNumber | src/lib/mcp-tools.js:294-298 | a numeric field holding a number ranks by that number |
| McpMatch.MissingNumericFieldIsZero | src/lib/mcp-tools.js:294-298 | a missing numeric field ranks as 0 |
| McpMatch.SkillsCountKey | src/lib/mcp-tools.js:300-305 | `skills_count` is the length of the skills array or the number of comma-split pieces, so an empty skills string counts 1 |
| McpFilter.FilterCandidates | src/lib/mcp-tools.js:7-37 | the include and then exclude loops return exactly the plan's survivors, which are the input candidates that pass the plan, as an order-preserving subsequence |
| McpFilter.SurvivorsMembers | src/lib/mcp-tools.js:14-34 | a candidate survives exactly when it is in the input and passes every include and no exclude criterion |
| McpFilter.SurvivorsMatch | src/lib/mcp-tools.js:17-34 | every survivor matches each include criterion and no exclude criterion |
| McpFilter.PlanWithoutCriteriaKeepsAll | src/lib/mcp-tools.js:9-12 | a plan that is not an object, or has no criteria, returns all candidates in order |
| McpFilter.SurvivorsKeepOrder | src/lib/mcp-tools.js:14-36 | the result keeps the input's relative order |
| McpFilter.IncludeExcludePartition | src/lib/mcp-tools.js:17-34 | including and excluding the same criterion split the candidates with no loss and no overlap |
| McpFilter.ExtraCriterionNarrows | src/lib/mcp-tools.js:18-23 | one more include criterion is one more filter pass over the previous result |
| McpFilter.ReactDeveloperInCyprus | src/lib/mcp-tools.js:264-271 | under `skills contains React, location contains Cyprus`, a candidate in Cyprus whose skills array starts with `React` passes, since the array reads as its comma-joined text and the test ignores case |
| McpFilter.InGermany | src/lib/mcp-tools.js:264-271 | under the same plan a candidate in Germany fails, since `germany` has no `c` |
| McpFilter.ReactInCyprusFilter | tests/ai-search.test.js:8-38 | the test's two Cyprus React developers pass in input order and the Germany candidate is dropped |
| McpRank.CompareIsLexicographic | src/lib/mcp-tools.js:60-68 | at the first field where the keys differ, the record with the greater key goes first |
| McpRank.CompareZeroIffTied | src/lib/mcp-tools.js:60-68 | the comparator returns 0 exactly for records tied on every sort field |
| McpRank.CompareAntisymmetric | src/lib/mcp-tools.js:60-68 | swapping the records flips the comparator's sign |
| McpRank.CompareTransitive | src/lib/mcp-tools.js:60-68 | the comparator's order is transitive |
| McpRank.ComparatorConsistent | src/lib/mcp-tools.js:60-68 | the comparator is a consistent total preorder, as the sort requires |
| McpRank.CompareRecords | src/lib/mcp-tools.js:61-67 | the loop over the sort fields computes the lexicographic comparison |
| McpRank.InsertAt | src/lib/mcp-tools.js:60 | one insertion pass places the next element into the sorted prefix and leaves the rest of the array alone |
| McpRank.SortByFields | src/lib/mcp-tools.js:60-68 | sorting in place leaves the array as the stable sort of its old contents |
| McpRank.RankCandidates | src/lib/mcp-tools.js:46-81 | the result is the ranking and is a permutation of the candidates whose id is listed |
| McpRank.RankedMembers | src/lib/mcp-tools.js:50-53 | the ranking holds exactly the candidates whose id is listed, each as often as in the input |
| McpRank.RankedWithoutPlan | src/lib/mcp-tools.js:48-51 | without an object plan the listed candidates keep the order of `candidates`, not of `ids` |
| McpRank.RankedDescending | src/lib/mcp-tools.js:54-68 | no candidate ranks before one placed ahead of it; primary keys do not increase along the result |
| McpRank.RankedStable | src/lib/mcp-tools.js:60-68 | candidates tied on every sort field keep their input order |
| McpRank.MoreExperienceRanksFirst | src/lib/mcp-tools.js:46-68 | ranking ids 5 and 12 by experience puts the more experienced id 12 first and drops the unlisted candidate |
| McpRank.WillingRanksBeforeUnwilling | src/lib/mcp-tools.js:60-68 | ranking by the boolean `willing_to_relocate` puts the candidate with `true` before the one with `false`, whatever the input order |
| McpRank.EmptySkillsTieWithMissing | src/lib/mcp-tools.js:60-68 | ranking by `skills`, an empty skills array ties with missing skills, since `[]` compares as `''`, so the two keep their input order |
| McpStats.RoundedTenths | src/lib/mcp-tools.js:96 | the average is 0 for no candidates; otherwise it is the number of tenths nearest to total/count, halves rounded up |
| McpStats.RoundedTenthsUnique | src/lib/mcp-tools.js:96 | only one number of tenths lies within half a tenth of the average |
| McpStats.RoundedTenthsExamples | src/lib/mcp-tools.js:96 | 10/3 gives 3.3, 5/2 gives 2.5, 7/4 gives 1.8, and -5/4 gives -1.2 |
| McpStats.TotalExperienceAppend | src/lib/mcp-tools.js:95 | the experience sum over two runs of candidates is the sum of their sums |
| McpStats.FindSkill | src/lib/mcp-tools.js:105 | finds the entry for a skill, or reports that no entry names it |
| McpStats.BumpKeys | src/lib/mcp-tools.js:105 | counting a new skill appends it; counting a known one keeps the names in place |
| McpStats.TallyKeys | src/lib/mcp-tools.js:99-111 | the table lists each non-empty skill once, in order of first occurrence |
| McpStats.TallyWellFormed | src/lib/mcp-tools.js:103-106 | no skill is listed twice; the listed skills are exactly the non-empty skills seen |
| McpStats.BumpCounts | src/lib/mcp-tools.js:105 | counting one more occurrence keeps every entry exact |
| McpStats.SkipCounts | src/lib/mcp-tools.js:104 | skipping an empty skill leaves every count exact |
| McpStats.TallyCounts | src/lib/mcp-tools.js:99-108 | each entry's count is the number of occurrences of its skill |
| McpStats.ByCountConsistent | src/lib/mcp-tools.js:112 | the count comparator is one the stable sort can rely on |
| McpStats.TopSkillsFromTable | src/lib/mcp-tools.js:111-114 | at most five entries, all taken from the table |
| McpStats.TopSkillsDescending | src/lib/mcp-tools.js:112-113 | counts never increase along the top skills |
| McpStats.TopSkillsDominate | src/lib/mcp-tools.js:112-113 | a skill left out of the top five is not more frequent than any skill kept |
| McpStats.TopSkillsTiesKeepOrder | src/lib/mcp-tools.js:111-112 | skills with equal counts keep their order of first occurrence |
| McpStats.TallySnoc | src/lib/mcp-tools.js:103-106 | counting one more skill bumps its entry, or leaves the table as it is when the skill is empty |
| McpStats.TokensSnoc | src/lib/mcp-tools.js:100-102 | the skills of one more candidate are appended to the tokens |
| McpStats.SumExperience | src/lib/mcp-tools.js:95 | the reduce computes the experience sum of the subset |
| McpStats.TallyFromAppend | src/lib/mcp-tools.js:103-107 | counting two runs of skills is counting the first, then the second |
| McpStats.TallyFromOne | src/lib/mcp-tools.js:103-107 | counting a single skill is one step of the inner loop |
| McpStats.TallyIsFold | src/lib/mcp-tools.js:100-108 | the front-to-back loop builds the same table as the specification |
| McpStats.TallyFromTally | src/lib/mcp-tools.js:100-108 | continuing to count on a table is counting the concatenation |
| McpStats.CountSkills | src/lib/mcp-tools.js:103-107 | the inner loop extends the table of the skills seen so far to the table of all of them |
| McpStats.CountAllSkills | src/lib/mcp-tools.js:99-108 | the nested loops build the table of every skill of the subset |
| McpStats.AggregateStats | src/lib/mcp-tools.js:89-117 | count, rounded average experience, and top five skills of the listed candidates |
| McpStats.EntryIsExact | src/lib/mcp-tools.js:103-114 | an entry of an exact table names a non-empty skill that was seen, with its exact count |
| McpStats.ReportedCountsAreExact | src/lib/mcp-tools.js:99-116 | every reported skill was seen and was non-empty, and its count is its number of occurrences |
| McpPlan.ExtractSucceedsIff | src/lib/mcp-tools.js:168-173 | extraction succeeds exactly when some `{` comes before some `}` |
| McpPlan.ExtractDelimited | src/lib/mcp-tools.js:168-175 | the extracted text starts with `{` and ends with `}`, and no `{` precedes it and no `}` follows it in the reply |
| McpPlan.ExtractFromSurroundingText | src/lib/mcp-tools.js:168-175 | a JSON object surrounded by prose without braces is extracted unchanged |
| McpPlan.PlansFromReplyMeaning | src/lib/mcp-tools.js:163-185 | plans come from parsing exactly the extracted text; a missing filter or rank becomes its default; the raw reply is kept; an empty reply, missing braces or a parse error fail |
| McpPlan.DefaultPlansMeaning | src/lib/mcp-tools.js:178-179 | the default filter keeps every candidate; the default rank sorts by `years_experience` alone |
| McpPlan.ReactInCyprusByExperience | tests/ai-search.test.js:45-70 | the test end to end: filtering keeps ids 5 and 12 in that order, and ranking them by experience puts id 12 before id 5 |
| SearchHelpers.SearchTermMeaning | lib/data/searchHelpers.js:11-21 | keeps exactly the candidates whose lower-cased name, title, some skill or location contains the lower-cased term, each as often as it occurs, in order; an empty term keeps all |
| SearchHelpers.LowerIdempotent | lib/data/searchHelpers.js:14 | lower-casing twice is lower-casing once |
| SearchHelpers.SearchIgnoresTermCase | lib/data/searchHelpers.js:14-20 | the search gives the same result for a term and its lower-cased form |
| SearchHelpers.LocationMeaning | lib/data/searchHelpers.js:29-34 | keeps exactly the candidates whose location contains the given one, ignoring case, each as often as it occurs, in order; an empty location keeps all |
| SearchHelpers.SameLocationIsKept | lib/data/searchHelpers.js:31-33 | a candidate at the requested location, in any case, is kept |
| SearchHelpers.ExperienceMeaning | lib/data/searchHelpers.js:42-55 | junior means at most 3 years, mid 4 to 6, senior over 6, each candidate kept as often as it occurs, in order; an empty or unknown level keeps all |
| SearchHelpers.ExperienceBandsPartition | lib/data/searchHelpers.js:46-51 | every candidate falls in exactly one of the three bands |
| SearchHelpers.LexCompareConsistent | lib/data/searchHelpers.js:68 | name comparison is a consistent order |
| SearchHelpers.SortOrdersConsistent | lib/data/searchHelpers.js:66-72 | the name, experience and salary comparators are consistent orders |
| SearchHelpers.SortByExperienceMeaning | lib/data/searchHelpers.js:63-70 | a permutation, most experienced first, with equal experience kept in input order |
| SearchHelpers.SortBySalaryMeaning | lib/data/searchHelpers.js:63-72 | a permutation with the highest salary first, with equal salaries kept in input order |
| SearchHelpers.SortByNameMeaning | lib/data/searchHelpers.js:63-68 | a permutation in alphabetical order of name, with equal names kept in input order |
| SearchHelpers.UnknownSortKeepsOrder | lib/data/searchHelpers.js:73-74 | an unknown criterion returns the candidates in their order |
| SearchHelpers.UniqueLocationsMeaning | lib/data/searchHelpers.js:83-85 | exactly the candidates' locations, each once, in strictly increasing order |
| CandidateContext.ReduceFailsOnlyForUnknown | lib/context/CandidateContext.jsx:16-103 | the reducer throws exactly for an unrecognised action type |
| CandidateContext.ReduceFrame | lib/context/CandidateContext.jsx:17-99 | every field outside an action's documented set of changes keeps its value |
| CandidateContext.LoadEffects | lib/context/CandidateContext.jsx:18-39 | LOAD_START sets loading and clears the error; LOAD_SUCCESS shows every loaded candidate; LOAD_ERROR records the message and keeps the candidates |
| CandidateContext.SearchEffects | lib/context/CandidateContext.jsx:41-52 | SEARCH_START raises the searching flag; SEARCH_COMPLETE shows the results and lowers it |
| CandidateContext.AiFilterApplyEffect | lib/context/CandidateContext.jsx:54-59 | shows the given list; a non-empty query replaces the last AI query and a missing or empty one keeps it |
| CandidateContext.ClearFiltersEffect | lib/context/CandidateContext.jsx:91-99 | resets the three filters to "" and the sort to "name", and shows every candidate; the candidates are untouched |
| CandidateContext.SetterEffects | lib/context/CandidateContext.jsx:61-89 | each SET_ action stores its payload in its own field |
| CandidateContext.InitialStateMeaning | lib/context/CandidateContext.jsx:109-121 | empty lists and filters, sorted by name, loading, not searching |
| CandidateContext.PipelineMeaning | lib/context/CandidateContext.jsx:154-160 | the pipeline shows exactly the candidates that pass the search, location and experience filters, each as often as it was loaded |
| CandidateContext.SortKeepsMembers | lib/context/CandidateContext.jsx:160 | the final sort is a permutation: it neither adds nor drops a candidate |
| CandidateContext.ClearedPipelineSortsAll | lib/context/CandidateContext.jsx:91-160 | after clearing, the pipeline shows every candidate sorted by name |
| CandidateContext.FindById | lib/context/CandidateContext.jsx:241 | a found candidate is one of the candidates and has the id; not found means no candidate has it |
| CandidateContext.FindByIdFirst | lib/context/CandidateContext.jsx:241 | the first candidate with the id is the one found |
| CandidateContext.AiSelectAppend | lib/context/CandidateContext.jsx:239-243 | the selection follows the ids' order: two runs of ids select two concatenated runs |
| CandidateContext.AiSelectMembers | lib/context/CandidateContext.jsx:239-243 | the selection holds exactly the first candidate of each id that has one, and has no more entries than ids |
| CandidateContext.AiSelectFollowsIds | lib/context/CandidateContext.jsx:239-243 | when every id has a candidate, the k-th shown candidate is the k-th id's |
| CandidateContext.CandidateProvider.constructor | lib/context/CandidateContext.jsx:173 | the provider starts from the initial state with nothing dispatched |
| CandidateContext.CandidateProvider.Dispatch | lib/context/CandidateContext.jsx:173 | the state becomes the reducer's result; the action is recorded; an action the reducer rejects leaves the state as it is |
| CandidateContext.CandidateProvider.LoadCandidates | lib/context/CandidateContext.jsx:131-148 | dispatches LOAD_START, then LOAD_SUCCESS with the transformed rows or LOAD_ERROR with the loader's message |
| CandidateContext.CandidateProvider.ApplyFilters | lib/context/CandidateContext.jsx:150-167 | dispatches SEARCH_START, then SEARCH_COMPLETE with the snapshot's pipeline result |
| CandidateContext.CandidateProvider.SetSearchTermAndFilter | lib/context/CandidateContext.jsx:180-189 | stores the term, then filters the snapshot that carries the new term |
| CandidateContext.CandidateProvider.SetLocationAndFilter | lib/context/CandidateContext.jsx:191-200 | stores the location, then filters with it |
| CandidateContext.CandidateProvider.SetExperienceAndFilter | lib/context/CandidateContext.jsx:202-212 | stores the level, then filters with it |
| CandidateContext.CandidateProvider.SetSortByAndFilter | lib/context/CandidateContext.jsx:214-220 | stores the criterion, then filters and sorts with it |
| CandidateContext.CandidateProvider.SelectCandidate | lib/context/CandidateContext.jsx:222-224 | stores the selected candidate and nothing else |
| CandidateContext.CandidateProvider.ClearAllFilters | lib/context/CandidateContext.jsx:226-228 | dispatches CLEAR_FILTERS: filters reset, every candidate shown |
| CandidateContext.CandidateProvider.ApplyAIFilters | lib/context/CandidateContext.jsx:231-252 | ids that are not an array dispatch nothing; otherwise it shows each id's first candidate in the ids' order and updates the last query |
| CandidateContext.CandidateProvider.ResetToAllCandidates | lib/context/CandidateContext.jsx:254-259 | shows every candidate again and keeps the last AI query |
| CsvLoader.IntOr | lib/data/csvLoader.js:37-46 | the parsed integer when it is non-zero; the fallback when the cell is missing, not a number or 0 |
| CsvLoader.TransformedIds | lib/data/csvLoader.js:35-37 | one record per row, in order; each id is the row's parsed id or its position counted from 1, and never 0 |
| CsvLoader.PositionalIdsAreDistinct | lib/data/csvLoader.js:37 | rows without usable ids are numbered 1, 2, 3, ... and so get distinct ids |
| CsvLoader.IntCellRoundTrip | lib/data/csvLoader.js:37-46 | a cell written from a non-zero integer reads back as that integer |
| CsvLoader.EmptyRowDefaults | lib/data/csvLoader.js:36-47 | an empty row gets every default: its position as id, empty texts, 0 years, no skills, `unknown@email.com`, phone `+1-555-0000`, salary 60000, Available |
| CsvLoader.NameFallback | lib/data/csvLoader.js:38 | the name is `full_name`, else `name`, else empty |
| CsvLoader.SkillsRoundTrip | lib/data/csvLoader.js:42 | skills joined with `;` read back as the same list when no skill holds `;` or surrounding white space |
| CsvLoader.EmailShape | lib/data/csvLoader.js:57-58 | a generated address ends in `@email.com` with no white space before it |
| CsvLoader.LowerKeepsSpaces | lib/data/csvLoader.js:58 | lower-casing keeps white space where it is |
| CsvLoader.NumericDefaults | lib/data/csvLoader.js:41-46 | experience and salary are the parsed cells; missing, unreadable or 0 gives 0 years and salary 60000 |
| CsvLoader.SkillsMeaning | lib/data/csvLoader.js:42 | no skills for an empty cell; otherwise the trimmed `;`-separated pieces |
| CsvLoader.EmailOfFirstAndLast | lib/data/csvLoader.js:57-58 | a first and last name joined by one space give `first.last@email.com`, lower-cased |
| CsvLoader.AvailabilityMeaning | lib/data/csvLoader.js:60-64 | "Available" exactly for a missing value or "0"; otherwise `<weeks> weeks notice` |
| CsvLoader.LoadedCandidateAsSeenBySearch | lib/data/csvLoader.js:36-47 | the search tools read a loaded candidate's id, experience and skills list as the loader built them |

## Left out

- Floating point. Numbers are integers, and `parseFloat`/`parseInt` read the integer part of the text: white space, a sign, then digits. So fractions, exponents, `Infinity` and the `0x` prefix of `parseInt` are not modelled.
- McpStats.AggregateStats: `avg_experience` is returned in tenths of the integer experience sum (`Math.round(total / count * 10) / 10`, halves rounded up), not as a floating-point number.
- `String(n)` is modelled for integers only; the exponent notation of very large numbers is not.
- Arrays inside records hold strings only. They are the skill lists; other element types are not modelled.
- Lower-casing, the white-space tests of `trim` and `\s`, and `localeCompare` are ASCII-only, and `localeCompare` is plain lexicographic order without locale rules. The comparator-less `.sort()` of `uniqueLocations` compares UTF-16 code units, while the model compares characters; the two orders differ only for characters outside the Basic Multilingual Plane.
- McpMatch.KeyGreater: JavaScript's `>` between a number (or `true`) and a non-empty string converts the string to a number, so `'5'` compares as 5 and `'abc'` as NaN, which is neither greater nor smaller. The model orders every number below every non-empty string instead. A non-empty array compares as its comma-joined text, so it falls under the same difference. This only matters when one rank field holds numbers or `true` in some candidates and non-empty strings or arrays in others; a falsy value or an empty array against either kind compares as JavaScript compares it.
- CandidateContext.CandidateProvider.Dispatch: the reducer throws on an unknown action type, and the error escapes `dispatch` during rendering. The model keeps the state instead. No provider operation sends an unknown type.
- The order of keys in `Object.entries`, which lists integer-like keys first, is not modelled. The skill table keeps insertion order for every name.
- Criteria and plans are modelled as records. A primitive criterion reads every property as `undefined`, which is the record of four `undefined` values. A `null` or `undefined` criterion, which throws at `filter.field` in `filterCandidates`, is not modelled. Neither is a `tie_breakers` value that is a non-array truthy value, nor an undefined `primary` (which throws in `getFieldValue` at `field.includes`): rank fields are strings.
- McpStats.Tally: names inherited from `Object.prototype` are not modelled. `skillCounts` is a plain object, so a skill named `constructor`, `toString` or `valueOf` starts from the inherited function rather than 0, and `__proto__` is never stored. The model counts every skill name alike.
- McpFilter.FieldOf: the same inherited names are not modelled for `candidate[filter.field]`, nor for `candidate[field]` in `getFieldValue`. A field missing from a record reads as `undefined`, even when its name is an inherited property.
- The regular-expression engine, `Date` parsing and `JSON.parse` are parameters of the model, not modelled.
- The network request of `getAIPlan` and all of `executeAISearch` are left out, because they are fetch orchestration.
- `loadCSVFile` is I/O (the CSV parser and fetch) and is left out. `LoadCandidates` takes its result or its error message as a parameter.
- `generateAvatarUrl` builds a display URL, so candidates carry no avatar.
- Timers (`setTimeout` in the provider and in `applyFilters`) run at once, in order, so interleavings with other dispatches are not modelled.
- The filter actions filter the state captured when the action was created. This is modelled by passing that snapshot to `ApplyFilters`.
- `applyAIFilters` receives a non-array argument as `None`.
- The `useCandidates` hook, the `getTotalCandidates`/`getFilteredCount` getters, React rendering and `console` logging are left out. They compute nothing beyond the state.
