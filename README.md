# Zomato restaurant recommendation: a verified model of the core

The system recommends restaurants from the Zomato dataset. It has four stages:

- **Loading.** The loader parses the dataset's text columns: rating, cost for two, cuisines and city.
- **Validation.** The user's city, cuisine and price are checked against the dataset's vocabularies.
- **Candidates.** The table is narrowed by city, cuisine and price, ranked deterministically, and the top rows are sent to an LLM (Groq) that picks and explains.
- **Mapping back.** The LLM's JSON answer is parsed back and mapped onto table rows. A deterministic fallback is used when the LLM fails.

This project models those four stages in Dafny and proves what each stage promises.

The modules follow the program:

| module | file | models |
|---|---|---|
| `Wrappers` | wrappers.dfy | `Option` / `Result` with early-return support |
| `Seqs` | seqs.dfy | pandas boolean masks, `head(n)` / `s[:n]`, order-preserving de-duplication, a stable sort over a strict weak order |
| `Text` | text.dfy | `strip`, `lower`, whitespace collapsing, `find`/`rfind`, `split`/`join`, the number scanners the regular expressions perform, Python string order |
| `DataLoader` | data_loader.dfy | `phase1/data_loader.py` |
| `InputValidation` | input_validation.dfy | `phase2/input_validation.py` |
| `GroqClient` | groq_client.dfy | the pure part of `phase3/groq_client.py` |
| `RecommendationEngine` | recommendation_engine.dfy | `phase4/recommendation_engine.py` |

## Modelling conventions

- **Tables.** A pandas frame is a `seq` of row records plus a flag per optional column. A missing cell (NaN/None) is `None`.
- **Comparisons against missing values.** pandas gives `False` when a missing cost is compared. It also gives `False` in every row when a cost is compared with a `None` bound. The model keeps both.
- **Numbers.** Floats are `real`. `\s`, `\d` and `lower()` are taken over ASCII.
- **Objects with state.** The loader's `raw_data` / `processed_data` are fields of a class that its methods update.
  - The engine's table and its two defaults are fixed at construction.
  - `get_recommendations`, `build_recommendation_prompt` and `parse_llm_recommendation_json` keep their `append` loops. Each is proved equal to a specification function.
  - Properties are proved about those specification functions.
- **Calls the model cannot see are parameters,** each with the contract the code relies on:
  - `difflib.get_close_matches`: at most five of the given keys.
  - `json.loads`: a partial decoder to Python values; text starting with `{` decodes to a dict.
  - `json.dumps`: any function.
  - The Groq chat call.
- **The LLM call in the engine** is a function parameter. It returns either a parsed `LLMRecommendationResponse` or a `GroqError`.
- **Errors.** Exceptions become `Err` values:
  - `ValidationError`, `GroqError` and the loader's `ValueError` carry their message text.
  - pandas `KeyError` on an absent column and `ValueError` from `reindex` on a non-unique index become `EngineError`.
- **Price windows.** The tolerance around an exact price is the larger of the absolute and the relative one. For an exact 800 with 15% / 150 it is max(150, 120) = 150, which gives [650, 950].

## Model

| member | source | states |
|---|---|---|
| InputValidation.NormalizeTokenShape | phase2/input_validation.py:23-34 | `None` normalises to ""; every result has no outer whitespace, only single spaces inside and no upper-case letter |
| InputValidation.NormalizeTokenIdempotent | phase2/input_validation.py:23-34 | normalising a normalised token changes nothing |
| InputValidation.NormalizeTextFixed | phase2/input_validation.py:23-34 | text already in normal form is a fixed point of the normaliser |
| InputValidation.BuildNormMapLookup | phase2/input_validation.py:110 | the normalisation dict maps a key to the LAST vocabulary entry with that normal form (later entries win) |
| InputValidation.BuildNormMapDistinct | phase2/input_validation.py:110 | the dict's keys are pairwise distinct |
| InputValidation.BuildNormMapValues | phase2/input_validation.py:110 | every stored value is a vocabulary entry whose normal form is its key |
| InputValidation.AssignLookup | phase2/input_validation.py:110 | a dict assignment overrides exactly the assigned key |
| InputValidation.Containing | phase2/input_validation.py:116 | the containment list holds exactly the dict items whose key contains the query |
| InputValidation.ContainingCount | phase2/input_validation.py:116-117 | the containment list has one item per distinct normalised vocabulary form containing the query |
| InputValidation.Resolve | phase2/input_validation.py:95-156 | an empty vocabulary fails with "No … available" before the query is looked at; an empty query then fails with "… is required"; a success is a vocabulary entry; a "not found" lists at most five vocabulary entries |
| InputValidation.ResolveExact | phase2/input_validation.py:112-113 | on an exact normalised match the result is the last vocabulary entry with that normal form |
| InputValidation.ResolveContainment | phase2/input_validation.py:115-125 | with no exact match, success happens exactly when one normalised form contains the query, and the result is that form's entry; otherwise "not found" |
| InputValidation.NotFoundError | phase2/input_validation.py:120-125 | a `NotFound` error for the field whose suggestions are, in order, the `norm_map` values of the close matches the matcher returns for the query among the normalised forms (so at most five vocabulary entries) |
| InputValidation.NotFoundMessage | phase2/input_validation.py:121-125 | with no suggestion the message is plain "… not found."; otherwise it lists them after "Did you mean: " |
| InputValidation.AsRange | phase2/input_validation.py:59-74 | the tolerances default to 10% and 100; range fields are returned verbatim; an exact value e gets the upper end e + tol with tol the larger of the absolute and the relative tolerance, and the lower end e - tol, or 0 exactly when e - tol is not positive; otherwise (None, None) |
| InputValidation.AsRangeExamples | phase2/input_validation.py:69-72 | with 15% / 150: 700 gives [550, 850], 800 gives [650, 950], 2000 gives [1700, 2300] |
| InputValidation.ParsePricePreference | phase2/input_validation.py:159-202 | budget_max and moderate_max default to 500 and 1000; a result uses one mode only; the only errors are "Price is required" and "Price must be a number…"; numeric results are non-negative and ranges are ordered |
| InputValidation.ParsePriceKeywords | phase2/input_validation.py:173-183 | empty text is refused; each synonym group gives its category with range (0, budget_max), (budget_max, moderate_max) or (moderate_max, None) |
| InputValidation.ParsePriceDefaults | phase2/input_validation.py:159-183 | with the default limits, budget words resolve to [0, 500], moderate words to [500, 1000] and premium words to 1000 upwards; under the default 10% / 100 tolerance 700 gives [600, 800], 2000 gives [1800, 2200] and 50 gives [0, 150] |
| InputValidation.ParsePriceNumbers | phase2/input_validation.py:185-202 | no number is an error, one number is an exact value, two or more give the first two as an ordered range |
| InputValidation.ValidateUserInput | phase2/input_validation.py:205-223 | budget_max and moderate_max default to 500 and 1000 and are passed to the price parser; the city error is reported first, then the cuisine error, then the price error; when all three succeed the result holds the resolved city, the resolved cuisine and the parsed price |
| DataLoader.ParseRate | phase1/data_loader.py:84-108 | missing text and the sentinels "NEW", "-", "", "nan" give None; otherwise the first optionally negative number clamped to [0, 5] |
| DataLoader.ParseRateExamples | phase1/data_loader.py:94-104 | "4.1/5" gives 4.1, "6/5" gives 5, "-1/5" gives 0, "NEW" gives None |
| DataLoader.ParseCost | phase1/data_loader.py:110-150 | never negative; missing, "" or "nan" give None; no digit run gives None, one run its value, two their midpoint, three or more the first |
| DataLoader.ParseCostDefined | phase1/data_loader.py:125-137 | a cost is produced exactly when the text is not a sentinel and contains a digit |
| DataLoader.ParseCostDigits | phase1/data_loader.py:134-141 | any non-empty digit text is its own cost, e.g. "500" gives 500 |
| DataLoader.ParseCostRange | phase1/data_loader.py:143-145 | "L-H" with digit texts L and H gives (L + H) / 2 |
| DataLoader.ParseCostNoDigits | phase1/data_loader.py:136-137 | "N/A" gives None |
| DataLoader.NormalizeCuisines | phase1/data_loader.py:152-170 | missing or "" gives []; no element is empty, padded or contains a comma |
| DataLoader.NormalizeCuisinesOrder | phase1/data_loader.py:166-168 | the result is a subsequence of the stripped comma-separated pieces and holds every non-empty piece as often as it occurs |
| DataLoader.NormalizeCuisinesJoin | phase1/data_loader.py:166-168 | joining clean names with "," plus whitespace and normalising gives the names back |
| DataLoader.CleanTable | phase1/data_loader.py:172-227 | one cleaned row per raw row, in order: the raw columns kept, votes coerced with 0 for a missing cell, and each derived column present in the frame holding `parse_rate`, `parse_cost`, `normalize_cuisines` or the stripped city text of its raw cell; absent columns missing in every row; ratings in [0, 5], costs non-negative, cities trimmed |
| DataLoader.UniqueCitiesIncreasing | phase1/data_loader.py:251-255 | the listed cities are strictly increasing, hence duplicate-free |
| DataLoader.UniqueCitiesMembers | phase1/data_loader.py:251-255 | a city is listed exactly when it is non-blank and some row has it |
| DataLoader.UniqueCitiesFallback | phase1/data_loader.py:257 | without the city column the list is ["Bangalore"] |
| DataLoader.CuisineUnionMembers | phase1/data_loader.py:265-266 | the union holds exactly the cuisines of some row's list |
| DataLoader.ZomatoDataLoader.constructor | phase1/data_loader.py:26-35 | the dataset name defaults to the published Zomato dataset; nothing is loaded or processed |
| DataLoader.ZomatoDataLoader.LoadDataset | phase1/data_loader.py:37-55 | the given frame becomes the raw frame; the processed frame is untouched |
| DataLoader.ZomatoDataLoader.CleanAndValidate | phase1/data_loader.py:187-227 | with no frame and nothing loaded it fails with "No data loaded" and changes nothing; otherwise the cleaned frame is returned and stored |
| DataLoader.ZomatoDataLoader.GetProcessedData | phase1/data_loader.py:229-242 | fails with "Data not processed…" until a frame is processed, then returns it |
| DataLoader.ZomatoDataLoader.GetUniqueCities | phase1/data_loader.py:244-257 | fails until processed, then returns the sorted distinct cities |
| DataLoader.ZomatoDataLoader.GetUniqueCuisines | phase1/data_loader.py:259-268 | fails until processed, or with the absent column's name without a cuisine list column; otherwise the set-building loop returns a strictly increasing list of exactly the cuisines some row lists |
| DataLoader.CollectCuisines | phase1/data_loader.py:264-266 | the loop gathers exactly the cuisines some row's list holds |
| DataLoader.SortedElements | phase1/data_loader.py:268 | `sorted(list(set))` lists every element of the set once, in strictly increasing order |
| GroqClient.Or | phase3/groq_client.py:84-89 | Python `or`: the left operand when truthy, else the right |
| GroqClient.ProjectFallbacks | phase3/groq_client.py:82-91 | name, location, cuisines, votes and rest type are copied; city falls back city_normalized → listed_in_city → city on falsy values; rating and cost fall back to the raw columns the same way |
| GroqClient.Projected | phase3/groq_client.py:79-92 | one projected record per candidate, in order |
| GroqClient.BuildRecommendationPrompt | phase3/groq_client.py:64-126 | the loop builds exactly the projected records, and the prompt is the stripped template around them |
| GroqClient.PrefaceShape | phase3/groq_client.py:103-122 | the template text before the candidates starts and ends with a non-space character |
| GroqClient.PrefaceKept | phase3/groq_client.py:103-124 | stripping leaves the whole template preface at the start of the prompt |
| GroqClient.PromptMentionsPreferences | phase3/groq_client.py:107-115 | the prompt contains "City: …", "Cuisine: …", "Price: …" and "Pick the best N restaurants" |
| GroqClient.ObjectSpan | phase3/groq_client.py:142-147 | on success the slice starts with "{" and ends with "}"; the only failure is "does not contain a JSON object" |
| GroqClient.ObjectSpanDefined | phase3/groq_client.py:142-145 | extraction succeeds exactly when some "{" comes before some "}" |
| GroqClient.ObjectSpanBounds | phase3/groq_client.py:142-147 | the slice runs from the first "{" to the last "}" inclusive |
| GroqClient.ExtractJson | phase3/groq_client.py:129-147 | a missing response fails with "Empty LLM response."; otherwise the only error is "no JSON object" and a success opens with "{" and closes with "}" |
| GroqClient.FenceInnerHasNoFence | phase3/groq_client.py:137-139 | the unwrapped fenced body contains no further fence |
| GroqClient.ExtractJsonSpan | phase3/groq_client.py:136-147 | extraction succeeds exactly when the searched text has a "{" before a "}", and yields the slice from the first "{" to the last "}" |
| GroqClient.ExtractJsonFenced | phase3/groq_client.py:137-139 | with a fenced block, only its inner text is searched |
| GroqClient.ExtractJsonUnfenced | phase3/groq_client.py:137-147 | without a fence, the whole text is searched |
| GroqClient.ParseEntry | phase3/groq_client.py:165-174 | an entry fails only as "must be an object", "invalid 'name'" or "invalid 'reason'" at its index; an accepted name is non-empty and trimmed, the reason trimmed |
| GroqClient.ParseEntryValid | phase3/groq_client.py:165-174 | an entry is accepted exactly when it is an object with a non-blank string name and a string reason (default ""); the output strips both |
| GroqClient.ParseFromOk | phase3/groq_client.py:164-176 | the parse succeeds exactly when every entry does, with one output per entry in order |
| GroqClient.ParseFromErr | phase3/groq_client.py:164-176 | a failure is the error of the first failing entry; all earlier entries pass |
| GroqClient.ParseEntries | phase3/groq_client.py:164-176 | the early-exit loop computes the all-or-nothing parse |
| GroqClient.ParseRecommendations | phase3/groq_client.py:160-176 | the loop over the decoded object computes the specified object parse |
| GroqClient.ParseLlmRecommendationJson | phase3/groq_client.py:150-176 | the function as a whole computes the specified staged parse |
| GroqClient.ParseObjectOk | phase3/groq_client.py:160-176 | on success "recommendations" is a list, every entry is valid, and the output has its length and order with stripped, non-empty names |
| GroqClient.ParseObjectAllValid | phase3/groq_client.py:160-176 | a list of valid entries always parses |
| GroqClient.ParseObjectRejects | phase3/groq_client.py:160-173 | a missing or non-list "recommendations" fails; otherwise a failure is the first invalid entry's error |
| GroqClient.ParseResponseStages | phase3/groq_client.py:150-162 | extraction errors come first, then "Invalid JSON", then the object checks |
| GroqClient.ClientRecommendations | phase3/groq_client.py:229-249 | a transport error propagates, an empty reply is "Empty LLM response.", a text reply gives exactly the strict parse of that text, and every returned name is non-empty and trimmed |
| RecommendationEngine.FilterByCity | phase4/recommendation_engine.py:68-69 | fails on an absent city column; otherwise keeps, in order, every occurrence of exactly the rows whose city equals the query |
| RecommendationEngine.FilterByCuisine | phase4/recommendation_engine.py:71-74 | fails on an absent cuisine list column; otherwise keeps exactly the rows whose list contains the cuisine, rows without a list never |
| RecommendationEngine.FilterByPrice | phase4/recommendation_engine.py:76-133 | an empty table or an absent cost column is returned unchanged; otherwise exactly the rows the price test keeps, as a subsequence |
| RecommendationEngine.ExactWindow | phase4/recommendation_engine.py:89-97 | an exact target keeps precisely the non-negative costs within max(150, 15%) of it, always itself, never a missing cost |
| RecommendationEngine.ExactSevenHundred | phase4/recommendation_engine.py:89-97 | an exact 700 keeps precisely the costs in [550, 850] |
| RecommendationEngine.RangeBounds | phase4/recommendation_engine.py:98-109 | range fields give a closed window, or a one-sided bound when only one is set; missing costs are dropped |
| RecommendationEngine.CategoryThresholds | phase4/recommendation_engine.py:110-128 | a bare category keeps ≤ 500, 501..1000 or ≥ 1001; an unknown category keeps everything |
| RecommendationEngine.ExactWithOneBound | phase4/recommendation_engine.py:89-97 | an exact value together with a single range bound compares against None and keeps nothing |
| RecommendationEngine.ParsedCategoryUsesRange | phase4/recommendation_engine.py:98-109 | a category produced by the price parser carries range fields, so it keeps [0, budget_max], [budget_max, moderate_max] or ≥ moderate_max, never the fixed thresholds |
| RecommendationEngine.RankBeforeStrictWeakOrder | phase4/recommendation_engine.py:147-150 | "higher score, then smaller name" is a strict weak order |
| RecommendationEngine.Rank | phase4/recommendation_engine.py:135-151 | fails on an absent rating or votes column; otherwise a permutation of the vote-filled rows, ordered by the ranking |
| RecommendationEngine.RankOrder | phase4/recommendation_engine.py:140-151 | scores rating(missing→0)×100 + votes(missing→0) never increase, and equal scores list names ascending |
| RecommendationEngine.RankIdempotent | phase4/recommendation_engine.py:135-151 | ranking a ranked table changes nothing |
| RecommendationEngine.FilteredSelects | phase4/recommendation_engine.py:178-189 | filtering fails exactly on an absent city or cuisine column, else selects, in order, exactly the rows passing all three tests |
| RecommendationEngine.FillVotes | phase4/recommendation_engine.py:144 | only the votes cell changes, missing becomes 0, and the score is unchanged |
| RecommendationEngine.ReasonsMapLastWins | phase4/recommendation_engine.py:223 | every picked name has a reason, that of its last pick |
| RecommendationEngine.Picked | phase4/recommendation_engine.py:226 | `isin` keeps exactly the candidates named by a pick, in candidate order and with every copy |
| RecommendationEngine.Reindex | phase4/recommendation_engine.py:226 | fails exactly when the picked labels differ from the pick list and repeat; otherwise one row per pick, in pick order, bearing the pick's name: a candidate when one has that name, a row with no data when none does |
| RecommendationEngine.SlotRecommendation | phase4/recommendation_engine.py:228-240 | a reindexed row becomes a recommendation with that row's data and the reason of its name; a row with no data gives no data |
| RecommendationEngine.Recommend | phase4/recommendation_engine.py:153-258 | a non-negative `top_n` bounds the length of the answer |
| RecommendationEngine.NoCandidatesNoCall | phase4/recommendation_engine.py:191-202 | with no filtered rows, or no candidates under the limit, the answer is empty (or the column error) and does not depend on the LLM |
| RecommendationEngine.Fallback | phase4/recommendation_engine.py:204-256 | on a `GroqError` or an empty pick list the answer is the first `top_n` ranked candidates, each with the fixed deterministic reason |
| RecommendationEngine.LlmOrder | phase4/recommendation_engine.py:220-240 | the i-th answer is the i-th pick, carrying the reason of that name's last pick and a candidate's data when one has that name, no data otherwise |
| RecommendationEngine.RecommendationEngine.constructor | phase4/recommendation_engine.py:50-61 | the engine keeps the table and the two limits, which default to 20 candidates for the LLM and 10 recommendations |
| RecommendationEngine.RecommendationEngine.GetRecommendations | phase4/recommendation_engine.py:153-258 | defaults replace absent arguments; the method, with its two append loops, computes the specified answer, at most `top_n` long |
| RecommendationEngine.CollectPicks | phase4/recommendation_engine.py:228-240 | the loop builds one recommendation per reindexed row, in order |
| RecommendationEngine.CollectFallback | phase4/recommendation_engine.py:244-256 | the loop builds one recommendation per head row with the fixed reason |
| RecommendationEngine.NewEngine | phase4/recommendation_engine.py:50-66 | the limits default to 20 and 10; the loader's raw frame is unchanged; fails with "No data loaded" and leaves the processed frame alone when nothing was loaded; otherwise the engine holds the freshly cleaned table, which the loader also stores |
| RecommendationEngine.ReindexKeepsUnknownPick | phase4/recommendation_engine.py:226 | a pick naming no candidate still yields a row, with no data |
| RecommendationEngine.ReindexPicked | phase4/recommendation_engine.py:225-226 | corrected reindex: every row is a candidate named by a pick, every picked name some candidate has appears, and the rows follow the LLM's order |

## Left out

- The HTTP client, timeouts, environment and `.env` lookup of the Groq client (`GroqClient.__init__`, `chat_completion`, `close`): network I/O. The chat call is a function parameter that returns a reply or a `GroqError`.
- `json.loads` / `json.dumps`: library calls, modelled as function parameters. The "Invalid JSON" message keeps its prefix but not the decoder's detail text.
- `difflib.get_close_matches`: its similarity ratio is floating-point heuristics. It is an uninterpreted parameter, specified to return at most five of the given keys.
- `ZomatoDataLoader.load_dataset`: a Hugging Face download. The downloaded frame is a parameter.
- `normalize_column_names` and the other column bookkeeping of `clean_and_validate`: the raw frame already carries the normalised column names and the column-presence flags.
- `get_price_ranges`: float statistics (mean, median) outside the core.
- Console and `print` output, including every debug line of the engine: presentation only.
- Floating-point behaviour: costs, ratings and scores are exact reals.
- Unicode: `\s`, `\d` and `lower()` are taken over ASCII. The whitespace is space, tab, newline, vertical tab, form feed and carriage return. It leaves out the separators 0x1C-0x1F, which `str.strip()` and `\s` also treat as whitespace.
- DataLoader.CellText: a missing cell always prints as "nan". `astype(str)` prints a float NaN as "nan" but a `None` in an object column as "None". The model has one kind of missing cell, so it does not tell the two apart.
- The price text sent to the LLM: the engine passes the `as_range()` pair itself, not its Python `str()` rendering.
- The `to_dict(orient="records")` conversion of candidate rows into dictionaries for the prompt: the engine hands rows to the LLM parameter, and `GroqClient` models the prompt over dictionaries.
- RecommendationEngine.Rank: it does not model `astype(int)`. Votes are already integers in the model.
- RecommendationEngine.Rank: the contract does not state that the sort is stable. Rows that tie on both score and name keep their input order, as pandas' `sort_values` keeps them, because `Seqs.SortBy` is an insertion sort that never moves an element past an equal one. No lemma states this.
- RecommendationEngine.NewEngine: it does not model a loader whose `clean_and_validate` is replaced by a test double.

## Findings

| source | as written | input that shows it | evidently intended | confidence | as-written member | corrected member |
|---|---|---|---|---|---|---|
| phase4/recommendation_engine.py:226 | `reindex(llm_ranked_names)` gives every LLM name a row, even a name that is not among the candidates; that row has NaN address, city, cuisines, rating, cost and url. | candidates = [restaurant "A"], LLM picks = ["Z"]: the reindexed frame is one data-less row named "Z" | "keeping only LLM picks": only candidates the LLM named, in the LLM's order | not executed | RecommendationEngine.ReindexKeepsUnknownPick | RecommendationEngine.ReindexPicked |
