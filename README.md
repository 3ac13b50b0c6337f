# AidanBench, modelled in Dafny

AidanBench measures how many distinct answers a language model can give to an open-ended
question. The model keeps answering until an answer is incoherent (a judge model scores it
too low) or repeats an earlier answer (its embedding is too close to one of them). A model's
score is the number of answers it gave before that happened. This project models the logic
around that answer loop, with every call to a language model, to an embedding service or to
the clock taken as an input. The properties it proves are about counting, ordering, control
flow and the shape of strings and result maps.

One module per source file or concern:

- `Wrappers`, `Strings`, `Dicts`, `Seqs`: the Python and JavaScript building blocks the
  scripts rely on. These are `Option`/`Result`, `str.split`/`strip`/`lower`/`replace`/`int`,
  insertion-ordered dictionaries as association lists, sums, and Python's stable `sorted`.
- `Store`: the results file, mapping model, temperature, question and the answers in
  generation order.
- `BenchmarkDriver` (main.py): the task grid of `benchmark_model`, its visiting order,
  and isolation of a failing task.
- `ChatModels` (benchmark/models.py): the request parameters and the reasoning-effort
  rewrite of `x-ai/grok-3-mini-beta:<effort>` ids.
- `TimeAwarePrompts` (time_experiment/time_aware_prompts.py): the time-budget prompt,
  extraction of the last tagged section, and the judge's integer parse.
- `Thresholds` (thresholds.py): per model, the count of answers surviving until the first
  answer below a threshold.
- `BenchmarkProgress` (benchmark/benchmark_progress.py): which runs have terminated,
  with the progress counters and bar.
- `PlotText`, `PlotMetrics`, `PlotBest`, `PlotSummary` (plot.py): `normalize_text`,
  `wrap_text`, the lab of a model id, per-model and per-cluster metrics, best models per
  question and cluster, best scores over temperatures, the effective price, the exit-reason
  tally and the record-breaking timeline filter.
- `MergeJson` (results/merge_json.py): the right-biased merge of two `models` maps.
- `CreativityGame` (creativity-game/src/components/CreativityGame.jsx): the game's state
  machine. The state is a value (`State`) with one step function per handler. The `Game`
  class holds that state and updates it in place.
- `ExperimentCommon`, `TokenUsage`, `StatisticalPilot`, `PilotThinking`,
  `RealisticTimeout`, `ProperBenchmarkTimeout`, `FocusedTimeout` (time_experiment/): the
  time-limit experiments. Each one models its condition grid, its loops, how it classifies a
  timed-out or failed run, its run summary, and the filters of its analysis.

Imperative code is modelled by methods whose loops are proved against specification
functions; properties relating several calls are proved as lemmas about those functions.
`random.shuffle` is CPython's Fisher–Yates algorithm driven by given draws, so a shuffled
list is proved to be a permutation of the original.

## Model

| member | source | states |
|---|---|---|
| Thresholds.QuestionCount | thresholds.py:33-39 | the count of a question is a prefix length of the answers sorted by `answer_num`: every answer before it passes both thresholds and the answer at it fails one |
| Thresholds.CountQuestion | thresholds.py:33-39 | the sort-then-break loop over one question's answers yields exactly `QuestionCount` |
| Thresholds.CountQuestions | thresholds.py:31-39 | the loop over one temperature group's questions adds up exactly each question's count |
| Thresholds.CountModel | thresholds.py:29-39 | the loop over a model's temperature groups yields exactly that model's count |
| Thresholds.CountAnswers | thresholds.py:15-41 | `count_answers` produces the `Counts` dictionary of the file's models; a file without `models` gives an empty dictionary |
| Thresholds.CountsKeys | thresholds.py:28-40 | the result has exactly the file's models as keys, in file order |
| Thresholds.CountsGet | thresholds.py:28-40 | each model's entry is the sum of its own per-question counts |
| Thresholds.QuestionsCountBound | thresholds.py:30-39 | per temperature group the count never exceeds the number of stored answers |
| Thresholds.ModelCountBound | thresholds.py:28-40 | a model's count never exceeds the number of answers it has stored |
| Thresholds.QuestionCountMono | thresholds.py:35-36 | raising either threshold never lets more answers of a question through |
| Thresholds.QuestionsCountMono | thresholds.py:30-39 | raising either threshold never raises a temperature group's count |
| Thresholds.ModelCountMono | thresholds.py:79-89 | raising either slider never raises any model's count |
| Thresholds.QuestionCountInOrder | thresholds.py:33 | answers already in `answer_num` order are counted in stored order, as the longest passing prefix |
| ChatModels.BuildDefaultParams | benchmark/models.py:19-38 | a call without `max_tokens` and `temperature` sends 4000 and 0, otherwise as `BuildParams` |
| ChatModels.BuildParams | benchmark/models.py:19-38 | one user message, the caller's temperature and `max_tokens`; `reasoning` is set exactly when the model id is remapped, and then `model` becomes the base id and the effort is the second `:`-part |
| ChatModels.GrokBaseIsFirstPart | benchmark/models.py:29-32 | under the prefix test the first `:`-part is exactly the base model id |
| ChatModels.RemappedExactly | benchmark/models.py:29-36 | the remapping applies to exactly three ids: the base model followed by `:low`, `:medium` or `:high` |
| MergeJson.MergeJsonFiles | results/merge_json.py:5-53 | fails exactly when either file lacks `models`; otherwise writes a document whose only key is the merged `models` |
| MergeJson.MergedModelsSpec | results/merge_json.py:28-36 | the merged keys are the union of both files' keys, first file's keys first; a shared key takes the second file's value, other keys keep their own value; no key repeats |
| BenchmarkProgress.GroupPartition | benchmark/benchmark_progress.py:31-39 | every question of a temperature group is counted as completed or listed as unfinished, never both |
| BenchmarkProgress.Bar | benchmark/benchmark_progress.py:46 | the bar has 50 cells, the first `bar_length` of them filled |
| BenchmarkProgress.Percentage | benchmark/benchmark_progress.py:44 | the completion percentage lies in 0..100, is 0 with nothing to complete and 100 when all is complete |
| BenchmarkProgress.Row | benchmark/benchmark_progress.py:27-50 | a row's total is the number of questions, completed plus unfinished equals the total, the percentage is in 0..100 and the bar length in 0..50 |
| BenchmarkProgress.ClassifyGroup | benchmark/benchmark_progress.py:31-39 | the question loop counts the completed runs and lists the unfinished triples in question order |
| BenchmarkProgress.RowsSumsAppend | benchmark/benchmark_progress.py:41-42 | the running totals over two runs of rows add up |
| BenchmarkProgress.ReportModel | benchmark/benchmark_progress.py:27-50 | one model's rows and unfinished triples, with completed plus unfinished equal to the total |
| BenchmarkProgress.VisualizeProgress | benchmark/benchmark_progress.py:11-60 | the rows, unfinished triples and overall counters of the listed models; every counted question is completed or unfinished; overall completion in 0..100 |
| BenchmarkProgress.NoResultsNoRows | benchmark/benchmark_progress.py:20-25 | a model with no stored results adds no row and no unfinished triple |
| BenchmarkDriver.QuestionsToUse | main.py:21 | `questions[:n] if n else questions`: a prefix of the questions; `None` and 0 keep all, a positive `n` keeps the first `n`, a negative `n` drops the last `-n` |
| BenchmarkDriver.Temperatures | main.py:132 | `--temp-range` gives the eleven temperatures k/10 for k in 0..10, otherwise only the given one |
| BenchmarkDriver.TasksSize | main.py:35-37 | the number of issued tasks is models × temperatures × runs × questions |
| BenchmarkDriver.ProductSize | main.py:35 | the product of models and temperatures has |models| × |temperatures| pairs |
| BenchmarkDriver.RunBlockSize | main.py:36-37 | one pair issues runs × questions tasks |
| BenchmarkDriver.TasksSizeOfPairs | main.py:35-37 | the tasks of a list of pairs number pairs × runs × questions |
| BenchmarkDriver.ProductMembers | main.py:35 | a pair is in the product exactly when its model and its temperature are given |
| BenchmarkDriver.RunBlockMembers | main.py:36-37 | one pair's block holds a task exactly when at least one run is asked and the task's question is one of the questions |
| BenchmarkDriver.TasksMembers | main.py:35-37 | a task is issued exactly when a run is asked, its question is given and its (model, temperature) pair is in the list |
| BenchmarkDriver.TaskGridMembers | main.py:26-38 | every combination of given question, model and temperature is issued, and nothing else, provided at least one run is asked |
| BenchmarkDriver.Reports | main.py:52-64 | one report per task, in order, carrying whether that call raised |
| BenchmarkDriver.ReportsAppend | main.py:50-64 | attempting two task lists in turn reports the first, then the second numbered on |
| BenchmarkDriver.AskQuestions | main.py:52-64 | the question loop reports every question of one run, a raising call included |
| BenchmarkDriver.RunPair | main.py:51-64 | the run loop reports `num_runs` blocks of questions, none when `num_runs` is not positive |
| BenchmarkDriver.RunSequential | main.py:50-64 | the sequential branch attempts every task in product, run, question order and reports each one, a raising call included |
| TimeAwarePrompts.NoCloseInside | time_experiment/time_aware_prompts.py:74-75 | the text between an opening tag and the first closing tag after it holds no closing tag (the non-greedy match) |
| TimeAwarePrompts.TagMatch | time_experiment/time_aware_prompts.py:74-75 | a match is the text between an opening tag and the first closing tag after it: free of the closing tag, and the tags around it sit in the text |
| TimeAwarePrompts.FindAllEmpty | time_experiment/time_aware_prompts.py:74-75 | `re.findall` finds nothing exactly when no opening tag is followed by a closing tag |
| TimeAwarePrompts.FindAllFirst | time_experiment/time_aware_prompts.py:74-75 | the first match starts at the leftmost opening tag and ends at the first closing tag after it; the search resumes after that closing tag, so matches do not overlap |
| TimeAwarePrompts.FindAllLast | time_experiment/time_aware_prompts.py:74-76 | the last match is a tagged section free of the closing tag with no closed section after it |
| TimeAwarePrompts.FindAllSkipClosed | time_experiment/time_aware_prompts.py:74-75 | when every opening tag before a position is closed before it, the matches from there on end the list of all matches |
| TimeAwarePrompts.SectionMatch | time_experiment/time_aware_prompts.py:74-75 | a tagged section whose content holds no `<` is the next match of a search started at it |
| TimeAwarePrompts.LastSectionFound | time_experiment/time_aware_prompts.py:74-76 | a section holding text without `<`, after only closed sections and with no closed section after it, is the last match |
| TimeAwarePrompts.ExtractXmlContent | time_experiment/time_aware_prompts.py:72-76 | with no closed tag pair the text is returned unchanged; otherwise the last match, stripped: the content of a tagged section free of the closing tag with no closed section after it |
| TimeAwarePrompts.ExtractLastSection | time_experiment/time_aware_prompts.py:72-76 | a text whose last closed section holds text without `<` yields that text stripped, whatever surrounds it |
| TimeAwarePrompts.NoCloseInSlice | time_experiment/time_aware_prompts.py:76 | stripping a match keeps it free of the closing tag |
| TimeAwarePrompts.JudgeAnswer | time_experiment/time_aware_prompts.py:53-69 | with no closed `coherence_score` section the whole reply is parsed; otherwise the stripped content of the last such section; a result that is not an integer raises |
| TimeAwarePrompts.JudgeAnswerLastScore | time_experiment/time_aware_prompts.py:64-76 | a reply whose last closed `coherence_score` section holds `str(n)` is judged `n`, whatever text surrounds it |
| TimeAwarePrompts.NoTagInNumber | time_experiment/time_aware_prompts.py:69 | the decimal form of an integer holds no `<` |
| TimeAwarePrompts.FindAllSingle | time_experiment/time_aware_prompts.py:74-75 | a text made of one tagged section whose content holds no `<` has exactly that content as its only match |
| TimeAwarePrompts.JudgeAnswerNoClamp | time_experiment/time_aware_prompts.py:64-69 | a reply holding one tagged integer is judged as that integer, with no clamping to 0..100 |
| TimeAwarePrompts.BuildPrompt | time_experiment/time_aware_prompts.py:12-34 | the prompt opens with the question part and the one-answer rule, and carries the previous-answers block exactly when there are previous answers |
| TimeAwarePrompts.PromptOpensWithQuestion | time_experiment/time_aware_prompts.py:17-19 | every sent prompt opens with the question inside `<question>` tags |
| TimeAwarePrompts.PreviousEntriesNumbered | time_experiment/time_aware_prompts.py:27-28 | on the joined text: one answer gives its entry with id 1; one more answer appends a blank line and its entry with the next id |
| TimeAwarePrompts.AnswerOfReply | time_experiment/time_aware_prompts.py:43-50 | the returned answer is the extracted `answer` content; processing time and timeout flag are passed through from the reply |
| Strings.IndexOfSpec | time_experiment/time_aware_prompts.py:74-75 | `IndexOf` finds an occurrence at or after the position with none between, or there is none from the position on |
| Strings.IndexOfFirst | time_experiment/time_aware_prompts.py:74-75 | `IndexOf` returns exactly the first occurrence |
| Strings.Includes | creativity-game/src/components/CreativityGame.jsx:229 | the computable containment test agrees with substring containment |
| Strings.Lower | plot.py:552 | `str.lower()` on ASCII: same length, each character lower-cased |
| Strings.ReplaceChar | plot.py:552 | `replace('-', ' ')`: same length, every hyphen becomes a space and nothing else changes |
| Strings.ReplaceAllKeepsOut | plot.py:552 | replacing occurrences never introduces a character absent from the text and the replacement |
| Strings.ReplaceAllKeepsNoUpper | plot.py:552 | replacing occurrences never introduces an upper-case letter |
| Strings.Strip | time_experiment/time_aware_prompts.py:76 | `strip()`: a slice of the text with only whitespace removed on either side, neither end whitespace |
| Strings.Split | plot.py:396 | `split(sep)` always yields at least one part |
| Strings.JoinSplit | plot.py:396 | joining the parts of a split with the separator gives the text back |
| Strings.SplitJoin | plot.py:396 | splitting a join of separator-free parts gives the parts back |
| Strings.SplitPartsNoSep | plot.py:396 | no part of a split holds the separator |
| Strings.SplitFirstPart | plot.py:396 | the first part is the text up to the first separator, all of it when there is none |
| Strings.SplitWords | plot.py:628 | `split()` yields non-empty words free of whitespace |
| Strings.SplitWordsAtSpace | plot.py:628 | whitespace splits the text into two halves whose words are split independently |
| Strings.SplitWordsJoin | plot.py:639 | joining words with a whitespace character and splitting again gives the words back |
| Strings.IntToString | time_experiment/time_aware_prompts.py:28 | the decimal form of an integer is non-empty |
| Strings.DigitsValueOfNat | time_experiment/time_aware_prompts.py:69 | the digits of a natural number read back as that number |
| Strings.ParseInt | time_experiment/time_aware_prompts.py:69 | `int(s)` succeeds exactly on surrounding whitespace, an optional sign and one or more decimal digits |
| Strings.ParseIntOfIntToString | time_experiment/time_aware_prompts.py:69 | `int(str(i)) == i` for every integer, with no range clamping |
| Dicts.Keys | results/merge_json.py:31 | the keys in iteration order, one per entry |
| Dicts.Get | benchmark/benchmark_progress.py:20 | `d.get(k)` finds a value exactly when `k` is a key, and the value stored with it |
| Dicts.GetAt | benchmark/benchmark_progress.py:20 | with distinct keys, the value found is the one stored at the key's position |
| Dicts.Put | results/merge_json.py:32 | `d[k] = v` keeps an existing key's position and appends a new key |
| Dicts.PutGet | results/merge_json.py:32 | after `d[k] = v`, `k` holds `v` and every other key what it held |
| Dicts.PutTwice | results/merge_json.py:36 | storing twice under one key is storing the second value once |
| Dicts.PutDistinct | results/merge_json.py:32 | `d[k] = v` keeps the keys distinct |
| Dicts.PutAllGet | results/merge_json.py:35-36 | after copying a dictionary in, its keys hold its values and other keys are untouched |
| Dicts.PutAllKeys | results/merge_json.py:35-36 | after copying, the old keys come first in their order and the key set is the union |
| Dicts.PutAllLast | results/merge_json.py:35-36 | a key copied several times holds the value of its last entry |
| Dicts.PutAllDistinct | results/merge_json.py:35-36 | copying keeps distinct keys distinct |
| Dicts.PutAllIntoEmptyKeys | results/merge_json.py:31-32 | copying a dictionary into an empty one reproduces its key order |
| Seqs.SumMono | plot.py:90-92 | a sum is monotone in its summands |
| Seqs.SumNonNeg | plot.py:90-92 | a sum of non-negative summands is non-negative |
| Seqs.LeadingRun | thresholds.py:34-39 | the iterations a `for ... break` loop completes: every element before it passes, the element at it fails |
| Seqs.LeadingRunUnique | thresholds.py:34-39 | the leading run is determined by those two facts |
| Seqs.LeadingRunMono | thresholds.py:35-36 | a weaker test never has a shorter leading run |
| Seqs.SortedByPairs | thresholds.py:33 | in a sorted sequence every earlier key is at most every later one |
| Seqs.Insert | thresholds.py:33 | inserting keeps the order sorted and the elements a permutation |
| Seqs.InsertStable | thresholds.py:33 | inserting keeps the elements of each key in arrival order, the new one after those already there |
| Seqs.SortBy | thresholds.py:33 | `sorted(s, key=...)` is sorted by the key and a permutation of `s` |
| Seqs.InsertLast | thresholds.py:33 | an element with the largest key goes to the end |
| Seqs.SortBySorted | thresholds.py:33 | stability: sorting a sequence already in key order leaves it unchanged |
| Seqs.SortByStable | thresholds.py:33 | stability: the elements of each key keep their input order |
| Seqs.CollectAppend | time_experiment/realistic_timeout_experiment.py:207-212 | running two lists in turn appends their outputs, the second numbered on |
| Seqs.CollectAtMostOne | time_experiment/realistic_timeout_experiment.py:207-212 | when each step appends at most one item, the output is no longer than the input |
| PlotText.NormalizeText | plot.py:550-552 | the normalised text has no hyphen, no upper-case letter and no whitespace at either end |
| PlotText.NormalizeSteps | plot.py:552 | the double-space replacement and the strip keep hyphens and capitals out |
| PlotText.CompanyOf | plot.py:394-396 | the company is the prefix of the model id before its first `/`, all of it when there is none |
| PlotText.LinesWords | plot.py:639-646 | well-formed lines joined by newlines split back into exactly their words |
| PlotText.LinesWidth | plot.py:634-646 | no emitted line of two words or more is longer than `width` |
| PlotText.WrapText | plot.py:626-646 | the wrapped text holds exactly the words of the input (after `" and "` becomes `"\n& "`), in order, and every line of two words or more fits `width` |
| PlotMetrics.AddBacked | plot.py:90-92 | adding an answer that meets both thresholds keeps the totals at least the thresholds times the count |
| PlotMetrics.PlusBacked | plot.py:90-92 | adding two such totals keeps that bound |
| PlotMetrics.Leading | plot.py:85-88 | the counted answers of a question are a prefix, all valid, and the next answer fails a threshold |
| PlotMetrics.AddLeading | plot.py:85-92 | the answer loop adds exactly the leading valid answers |
| PlotMetrics.GroupMetrics | plot.py:79-98 | one temperature group's totals are the leading answers of every question, summed |
| PlotMetrics.CalculateMetrics | plot.py:69-101 | `calculate_metrics` returns the table of leading totals for every model and temperature |
| PlotMetrics.AddAllCount | plot.py:90-92 | counting a list adds its length to `valid_answers` and keeps the threshold bound |
| PlotMetrics.LeadingTotalsBounds | plot.py:79-98 | `valid_answers` never exceeds the stored answers, and each counted answer contributed at least the thresholds |
| PlotMetrics.LeadingAgreesWithThresholds | plot.py:85-88 | on answers in `answer_num` order, the count equals thresholds.py's count with the dissimilarity threshold scaled by 100 |
| PlotMetrics.LeadingAgreesOne | plot.py:85-88 | for one question, the leading passing answers number exactly thresholds.py's count with the dissimilarity threshold scaled by 100 |
| PlotMetrics.ClusterQuestions | plot.py:256-258 | a question text is in the set exactly when some entry with that text lists the cluster |
| PlotMetrics.ClusterSumMissing | plot.py:277 | a text that is no question of the group adds nothing |
| PlotMetrics.ClusterSumAdd | plot.py:276-283 | one more text adds exactly that question's passing answers, so the visiting order of the set does not matter |
| PlotMetrics.ClusterSumLastIn | plot.py:276-283 | the step of the previous lemma where the last question is the added text |
| PlotMetrics.ClusterSumLastOut | plot.py:276-283 | the step of the previous lemma where the last question is another text |
| PlotMetrics.AddPassing | plot.py:278-283 | the cluster answer loop adds every answer that meets both thresholds, without stopping |
| PlotMetrics.AddQuestion | plot.py:277-283 | a visited text adds its question's passing answers when the question is present |
| PlotMetrics.ClusterGroupMetrics | plot.py:271-289 | the loop over the cluster set yields the cluster sum of the group |
| PlotMetrics.MoveOne | plot.py:276 | visiting one more element keeps visited and unvisited a partition of the set |
| PlotMetrics.ClusterSumEmpty | plot.py:271-273 | an empty cluster yields zero totals |
| PlotMetrics.CalculateClusterMetrics | plot.py:260-291 | `calculate_cluster_metrics` returns the cluster sums for every model and temperature |
| PlotMetrics.PassSumBounds | plot.py:278-283 | a question's cluster count lies between the leading run `calculate_metrics` counts and the number of answers |
| PlotMetrics.ClusterSumBounds | plot.py:276-283 | a cluster's count never exceeds the group's stored answers, and each counted answer passed |
| PlotBest.MaxScores | plot.py:449-451 | `max(current, new)` per metric: at least both arguments and equal to one of them |
| PlotBest.FirstMax | plot.py:456 | the position of the first greatest score: no entry scores more, every earlier entry scores strictly less |
| PlotBest.FirstMaxUnique | plot.py:456 | those two facts single out one position |
| PlotBest.ScanBest | plot.py:611-621 | the `score > best_score` scan finds nothing on no models and otherwise the first greatest (name, score) |
| PlotBest.Column | plot.py:454-456 | one metric's column keeps each entry's name and that metric's score |
| PlotBest.LeadersOfBest | plot.py:454-457 | each metric's winner is an entry whose score is the greatest and beaten by no earlier entry |
| PlotBest.PickLeaders | plot.py:454-457 | `max(model_scores.items(), key=...)` for the three metrics, nothing when no model is present |
| PlotBest.ElementsOccur | plot.py:410-413 | a cluster is in the set exactly when it is listed at least once |
| PlotBest.ClusterCountPositive | plot.py:408-413 | a gathered cluster has a positive question count, so its averages never divide by zero |
| PlotBest.BestOverTempsBounds | plot.py:443-451 | a model's best average is at least 0 and each group's average, and equals 0 or one of them |
| PlotBest.CountListed | plot.py:411-413 | one question's cluster loop adds its clusters to the set and each listing to the count |
| PlotBest.ModelClusterScores | plot.py:429-451 | one model's best averages over its temperature groups |
| PlotBest.BestForCluster | plot.py:419-457 | one cluster: every model's best averages, then each metric's first greatest model |
| PlotBest.GetBestModelsPerCluster | plot.py:398-459 | `get_best_models_per_cluster` holds, for every gathered cluster, each metric's leader among the models |
| PlotBest.CountClusters | plot.py:408-413 | the first loop gathers exactly the clusters some question names, and for each the number of questions naming it |
| PlotBest.QuestionEntries | plot.py:571 | the comprehension's pairs are each question's normalised text and number, in file order |
| PlotBest.QuestionColumn | plot.py:614-615 | one question's column has one score per model |
| PlotBest.ScoreQuestion | plot.py:579-606 | one question: skipped when its normalised text is unknown, otherwise its number's scores become the maximum of old and new totals |
| PlotBest.FoldGroupQuestions | plot.py:578-606 | the question loop of a group folds every question in turn |
| PlotBest.ModelScoresPerQuestion | plot.py:577-606 | one model's best per-question scores over its groups |
| PlotBest.BestForMetricLoop | plot.py:609-621 | one metric of the second phase gives the leader of every listed question number |
| PlotBest.BestForMetricOf | plot.py:609-621 | a map holding exactly the listed numbers, each with its leader, is the result of that phase |
| PlotBest.ColumnOf | plot.py:614-615 | reading the tables yields each model's score for the question, in file order |
| PlotBest.GetBestModelsPerQuestion | plot.py:554-623 | `get_best_models_per_question` returns the leader table of every metric |
| PlotBest.BestForMetricSpec | plot.py:609-621 | with a model present, every listed question number gets an entry held by the first model with the greatest score; with no model, no entry |
| PlotBest.LeaderOfColumn | plot.py:614-621 | the leader of a question's column is the entry of some model: its score is the greatest, every earlier model scores strictly less |
| PlotBest.QuestionColumnNames | plot.py:614 | a question's column lists the model names in file order |
| PlotBest.GroupTotals | plot.py:853-863 | one temperature group's totals over all answers that meet both thresholds |
| PlotBest.GetMaxScores | plot.py:834-873 | `get_max_scores` returns the seeded table raised by every model's group totals |
| PlotBest.ModelMax | plot.py:852-871 | one model's temperature loop raises its scores to each group's totals |
| PlotBest.FoldMaxBounds | plot.py:866-871 | the result is at least the start and every group's totals, and equals one of them |
| PlotBest.MaxScoresKeepSeeds | plot.py:841-850 | the three seeded models keep an entry at least as high as their seeded scores |
| PlotBest.MaxScoresCoverGroups | plot.py:848-871 | every model of the file has an entry at least the totals of each of its groups |
| PlotBest.QuestionMapHas | plot.py:571 | `question_map` holds a text exactly when some question normalises to it |
| PlotBest.QuestionMapLast | plot.py:571 | a text holds the number of the last question normalising to it |
| PlotSummary.CostKeysDistinct | plot.py:1100-1105 | the three keys the cost reads (`input_price`, `output_price`, the misspelled `reasoning_multplier`) are distinct |
| PlotSummary.CostOf | plot.py:1100-1108 | the cost exists exactly when the base cost does, and without a multiplier it is the base cost |
| PlotSummary.EffectiveCost | plot.py:1098-1108 | a cost is returned exactly when both the input and output prices are listed; otherwise the lookup raises |
| PlotSummary.MultiplierRaises | plot.py:1105-1106 | a multiplier of at least one never lowers the cost below the base; a multiplier of one leaves it there |
| PlotSummary.MultiplierMonotone | plot.py:1105 | a larger multiplier never gives a smaller cost |
| PlotSummary.Scale | plot.py:1105 | multiplying by a non-negative price keeps the order |
| PlotSummary.SetMultiplier | plot.py:1103-1105 | storing a multiplier changes only the multiplier the cost reads |
| PlotSummary.CostWithMultiplier | plot.py:1098-1108 | on a price dictionary, a multiplier of at least one keeps the cost at or above the base, and one leaves it there |
| PlotSummary.CostMonotone | plot.py:1098-1108 | on a price dictionary, a larger multiplier never gives a smaller cost |
| PlotSummary.CostIgnoresOtherKeys | plot.py:1103 | any other key, the correctly spelled `reasoning_multiplier` included, leaves the cost unchanged |
| PlotSummary.AnyBelow | plot.py:1481 | the `any(...)` scan is true exactly when some answer has a coherence below 15, and defined whenever every answer has a coherence score |
| PlotSummary.TallyOf | plot.py:1474 | a lab's counters in a balanced tally are fresh or split between the two reasons with at least one run |
| PlotSummary.PutTotal | plot.py:1480 | replacing a lab's counters changes the sum of totals by the difference |
| Dicts.PutEntries | plot.py:1480 | after storing, every entry is an old one or the new one |
| PlotSummary.CountKeeps | plot.py:1480-1485 | counting one run keeps the tally balanced and adds one to the sum of totals |
| PlotSummary.TallyQuestions | plot.py:1479-1485 | one temperature group adds one run per answer list and keeps every lab balanced |
| PlotSummary.TallyTemps | plot.py:1478-1485 | one model adds one run per stored (temperature, question) and keeps every lab balanced |
| PlotSummary.ExitTally | plot.py:1474-1485 | the tally is balanced and its totals sum to the number of stored runs |
| PlotSummary.QuestionsAbort | plot.py:1481 | once an answer list raises, the tally of the group fails |
| PlotSummary.TempsAbort | plot.py:1478-1485 | once a temperature group fails, the model's tally fails |
| PlotSummary.ModelsAbort | plot.py:1476-1485 | once a model fails, the whole tally fails |
| PlotSummary.TallyGroup | plot.py:1479-1485 | the question loop computes the group's tally |
| PlotSummary.TallyModel | plot.py:1478-1485 | the temperature loop computes the model's tally |
| PlotSummary.PlotExitReasons | plot.py:1471-1485 | the counting loops compute the tally; nothing when the file has no `models` |
| PlotSummary.ExitTallyDefined | plot.py:1481 | when every answer has a coherence score, the tally exists |
| PlotSummary.TempsDefined | plot.py:1478-1485 | a model whose answers all have coherence scores is tallied |
| PlotSummary.QuestionsDefined | plot.py:1479-1485 | a group whose answers all have coherence scores is tallied |
| PlotSummary.SharePercent | plot.py:1493-1494 | a lab's two percentages add up to 100 and lie in 0..100 |
| PlotSummary.SharesComplete | plot.py:1489-1494 | in a balanced tally every lab gets a bar whose two parts add up to 100 |
| PlotSummary.ExitShares | plot.py:1489-1494 | the loop builds exactly the bars of the labs with runs, in first-seen order |
| PlotSummary.ReleaseEntries | plot.py:1997-2000 | the comprehension's pairs are each release's model and date, in table order |
| PlotSummary.Candidates | plot.py:2005-2015 | each candidate has a release date, its company is the part before the first `/`, and `x-ai` is skipped |
| PlotSummary.KeepRecords | plot.py:2022-2027 | the running-maximum loop keeps exactly the records |
| PlotSummary.RecordsStep | plot.py:2024-2027 | one more entry is kept exactly when it beats every entry before it |
| PlotSummary.RecordsExactly | plot.py:2024-2027 | a kept entry beats every entry before it, and every such entry is kept |
| PlotSummary.RecordsIncrease | plot.py:2024-2027 | the kept answer counts strictly increase |
| PlotSummary.RecordsSorted | plot.py:2018-2027 | taken from entries sorted by date, the kept entries are sorted by date |
| PlotSummary.GatherCandidates | plot.py:2004-2015 | the gathering loop yields the candidates in `max_scores` order |
| PlotSummary.BestTimeline | plot.py:1983-2027 | the plotted models are the records of the date-sorted candidates; they are in date order and their answer counts strictly increase |
| CreativityGame.DigitRun | creativity-game/src/components/CreativityGame.jsx:116 | the greedy `\d+` run starting at a position: all digits, followed by a non-digit or the end |
| CreativityGame.MatchAt | creativity-game/src/components/CreativityGame.jsx:116 | a match at a position captures one or more digits between the two `coherence_score` tags |
| CreativityGame.FirstMatch | creativity-game/src/components/CreativityGame.jsx:116 | `match` without the global flag finds the leftmost match, or none at any position |
| CreativityGame.ParseCoherence | creativity-game/src/components/CreativityGame.jsx:115-120 | `judgeAnswer` throws exactly when the reply holds no tagged digits; a parsed score is never negative |
| CreativityGame.ParseCoherenceOfScore | creativity-game/src/components/CreativityGame.jsx:116-120 | a reply opening with a tagged number is read as that number, whatever follows |
| CreativityGame.DigitRunOf | creativity-game/src/components/CreativityGame.jsx:116 | the run length is that of any digit run ending at a non-digit or the end |
| CreativityGame.MaxOf | creativity-game/src/components/CreativityGame.jsx:138 | `Math.max(...values)` is at least every value and is one of them |
| CreativityGame.Novelty | creativity-game/src/components/CreativityGame.jsx:123-139 | 1.0 with no previous answer; otherwise 1 minus the largest similarity, so at most 1 minus each one |
| CreativityGame.NoveltyOfMore | creativity-game/src/components/CreativityGame.jsx:138 | another previous answer can only lower the novelty, to 1 minus its similarity |
| CreativityGame.JsRem | creativity-game/src/components/CreativityGame.jsx:282 | JavaScript's `%`: Dafny's remainder for a non-negative dividend, and strictly inside (-b, b) |
| CreativityGame.PadStart2 | creativity-game/src/components/CreativityGame.jsx:283 | `padStart(2, '0')` makes the text at least two characters long |
| CreativityGame.FormatTimeParts | creativity-game/src/components/CreativityGame.jsx:280-284 | for a non-negative time, `formatTime` gives minutes and two-digit seconds that read back as that time |
| CreativityGame.PaddedValue | creativity-game/src/components/CreativityGame.jsx:283 | padding with leading zeros keeps a number's value |
| CreativityGame.Evaluate | creativity-game/src/components/CreativityGame.jsx:191-204 | a score pair exists exactly when the judge's reply parses and, with previous answers, the similarities arrive; novelty is 1.0 with no previous answer |
| CreativityGame.ValidateStep | creativity-game/src/components/CreativityGame.jsx:173-184 | `validateApiKeys`: when both test calls succeed the game becomes ready with the success message; otherwise only the failure message is set |
| CreativityGame.TicksRunDown | creativity-game/src/components/CreativityGame.jsx:155-163 | while playing, the clock counts down one per second to 0 and stays there, changing nothing else |
| CreativityGame.TimeUpBlankSavesAll | creativity-game/src/components/CreativityGame.jsx:165-171 | at time-up with a blank input the game moves on at once and saves every answer given to the question |
| CreativityGame.SubmitIgnored | creativity-game/src/components/CreativityGame.jsx:187 | a blank input, or an evaluation still running, makes submitting a no-op |
| CreativityGame.SubmitFailed | creativity-game/src/components/CreativityGame.jsx:234-238 | a failed call or unreadable score records nothing and only sets the error message |
| CreativityGame.SubmitScored | creativity-game/src/components/CreativityGame.jsx:206-233 | a scored answer is appended to the question's answers and to the chart as attempt number count + 1; a move is scheduled exactly when a score reaches its threshold, otherwise the input is cleared and the clock reset |
| CreativityGame.SubmitRecords | creativity-game/src/components/CreativityGame.jsx:189-233 | with `isEvaluating` set while the calls run, a scored answer goes through the scored branch |
| CreativityGame.RecordIgnoresEvaluating | creativity-game/src/components/CreativityGame.jsx:188-239 | the scored branch ends with `isEvaluating` false whatever it was before |
| CreativityGame.MoveStaysInRange | creativity-game/src/components/CreativityGame.jsx:242-273 | moving on keeps the question index in range: it advances before the last question and ends the game, with a download, at it |
| CreativityGame.StaleMoveLosesAnswer | creativity-game/src/components/CreativityGame.jsx:229 | as written, the answer that crosses the threshold is missing from the saved results |
| CreativityGame.MoveAfterThresholdSavesAnswer | creativity-game/src/components/CreativityGame.jsx:242-248 | with the move reading the current answers, the saved question ends with the answer that crossed the threshold |
| CreativityGame.Game.Set | creativity-game/src/components/CreativityGame.jsx:141-152 | every state hook is replaced by the given state |
| CreativityGame.Game.constructor | creativity-game/src/components/CreativityGame.jsx:141-152 | the hooks start at their `useState` initial values |
| CreativityGame.Game.SetInput | creativity-game/src/components/CreativityGame.jsx:394 | the input box's `onChange` sets only the input |
| CreativityGame.Game.ValidateApiKeys | creativity-game/src/components/CreativityGame.jsx:173-184 | the hooks after `validateApiKeys` are `ValidateStep` of the old ones |
| CreativityGame.Game.Tick | creativity-game/src/components/CreativityGame.jsx:157-158 | one firing of the interval takes a second off the clock while playing with time left |
| CreativityGame.Game.TimeUp | creativity-game/src/components/CreativityGame.jsx:165-171 | the hooks after `handleTimeUp` are `TimeUpStep` of the old ones |
| CreativityGame.Game.StartGame | creativity-game/src/components/CreativityGame.jsx:275-278 | `startGame` sets the status to playing and the full answer time |
| CreativityGame.Game.Submit | creativity-game/src/components/CreativityGame.jsx:186-240 | the hooks after `handleSubmit` are `SubmitStep` of the old ones, with the `responses` seen by the scheduled move |
| CreativityGame.Game.RecordAnswer | creativity-game/src/components/CreativityGame.jsx:206-233 | the scored branch of `handleSubmit` is `RecordStep` of the old hooks |
| CreativityGame.Game.MoveToNextQuestion | creativity-game/src/components/CreativityGame.jsx:242-273 | the hooks after `moveToNextQuestion` are `MoveStep` of the old ones, with the final results downloaded at the end |
| ExperimentCommon.TimeoutLabel | time_experiment/pilot_thinking_experiment.py:80 | the label is "unlimited" exactly when the limit is `None` or 0 |
| ExperimentCommon.LabelMinutes | time_experiment/statistical_pilot_experiment.py:151 | a limited label is the whole minutes of the limit (floor division) followed by `min` |
| ExperimentCommon.PairModels | time_experiment/pilot_thinking_experiment.py:71-73 | a pair tests its first model, then its second when that one is given and non-empty |
| ExperimentCommon.AllModels | time_experiment/pilot_thinking_experiment.py:59 | the models under test number `sum(2 if pair[1] else 1 ...)` |
| ExperimentCommon.Swap | time_experiment/realistic_timeout_experiment.py:195 | a swap keeps the length and the elements |
| ExperimentCommon.ShuffleDown | time_experiment/realistic_timeout_experiment.py:195 | the swaps of `random.shuffle` down to a position keep the elements |
| ExperimentCommon.Shuffled | time_experiment/statistical_pilot_experiment.py:214 | the order `random.shuffle` leaves for given draws is a permutation |
| ExperimentCommon.Shuffle | time_experiment/statistical_pilot_experiment.py:214 | shuffling the array in place leaves exactly `Shuffled` of its old contents |
| ExperimentCommon.CountTrue | time_experiment/proper_benchmark_timeout_test.py:266 | `sum(flags)` is the number of set flags (`multiset(flags)[true]`); at most the number of runs, 0 exactly when none timed out and the full count exactly when all did |
| ExperimentCommon.TimeoutRate | time_experiment/proper_benchmark_timeout_test.py:266 | the timeout rate exists exactly when there are runs; the rate times the number of runs is 100 times the number of set flags; it lies in 0..100, and is 0 or 100 exactly when none or all timed out |
| ExperimentCommon.RatioBounds | time_experiment/realistic_timeout_experiment.py:296 | a share of a total, in percent, lies in 0..100 and hits the ends exactly at 0 and the total |
| ExperimentCommon.Summarize | time_experiment/proper_benchmark_timeout_test.py:137-147 | without answers every metric is 0; otherwise the count of answers, the last answer's coherence and dissimilarity (0 when missing) and the mean coherence |
| ExperimentCommon.CoherenceSumBounds | time_experiment/proper_benchmark_timeout_test.py:142 | a sum of scores within a range lies between count × low and count × high |
| ExperimentCommon.AverageWithin | time_experiment/proper_benchmark_timeout_test.py:142 | the mean coherence of a run lies within the range of its answers' scores |
| TokenUsage.EstimateTokens | time_experiment/analyze_token_usage.py:11-15 | the estimate times 4 is the text length, and it is 0 exactly for empty text |
| TokenUsage.FlatAnswers | time_experiment/analyze_token_usage.py:49-61 | one converted row per answer of a question, in list order |
| TokenUsage.FlatQuestions | time_experiment/analyze_token_usage.py:48-61 | a temperature group converts to one row per stored answer |
| TokenUsage.FlatTemps | time_experiment/analyze_token_usage.py:47-61 | a model converts to one row per stored answer |
| TokenUsage.FlatModels | time_experiment/analyze_token_usage.py:43-61 | the `models` layout converts to exactly one row per stored answer |
| TokenUsage.Concat | time_experiment/analyze_token_usage.py:62-67 | the fallback layout holds exactly the rows of the list-valued keys, as many as they hold together |
| TokenUsage.ConcatAppend | time_experiment/analyze_token_usage.py:62-67 | the rows come key by key in order: concatenating two key lists appends their rows |
| TokenUsage.AnswerLen | time_experiment/analyze_token_usage.py:80-90 | the measured length is that of `answer` when present, else of `response`, else `answer_length`, else 0 |
| TokenUsage.Repeat | time_experiment/analyze_token_usage.py:94 | `"x" * n` has length n, and is empty for n at most 0 |
| TokenUsage.RowTokensOfLength | time_experiment/analyze_token_usage.py:94 | a row's token estimate is its measured length over 4, and 0 when that length is not positive |
| TokenUsage.ConvertedLength | time_experiment/analyze_token_usage.py:55-57 | a converted answer is measured and estimated by its own text |
| TokenUsage.Lengths | time_experiment/analyze_token_usage.py:92-93 | `answer_lengths` keeps every positive length, as often as it occurs, in result order, and nothing else |
| TokenUsage.TokensMatchLengths | time_experiment/analyze_token_usage.py:92-94 | the two lists grow together, each estimate being its length over 4 |
| TokenUsage.GroupOf | time_experiment/analyze_token_usage.py:100-107 | a scenario's group holds exactly its own results' entries, in order; other keys have no group |
| TokenUsage.PutSizes | time_experiment/analyze_token_usage.py:102 | replacing a group changes the total size by the difference |
| TokenUsage.GroupsCoverResults | time_experiment/analyze_token_usage.py:78-107 | every result lands in exactly one group |
| TokenUsage.GroupsDistinct | time_experiment/analyze_token_usage.py:76-107 | no scenario key occurs twice |
| TokenUsage.LongScenarios | time_experiment/analyze_token_usage.py:163 | exactly the scenarios with 200 answers or more, with their counts, each once and in group order |
| TokenUsage.AnalysisOf | time_experiment/analyze_token_usage.py:17-170 | the analysis gives up exactly when there are no results or no positive length; otherwise it holds the lengths and groups of the results |
| TokenUsage.FlattenQuestions | time_experiment/analyze_token_usage.py:48-61 | the loop converting one temperature group |
| TokenUsage.FlattenModels | time_experiment/analyze_token_usage.py:43-61 | the four nested loops of the `models` conversion |
| TokenUsage.LoadRows | time_experiment/analyze_token_usage.py:38-67 | the layout dispatch: `results`, a bare list, `models`, else the list-valued keys |
| TokenUsage.AnalyzeResultsFile | time_experiment/analyze_token_usage.py:17-170 | `analyze_results_file` on a parsed file computes `AnalysisOf` |
| TokenUsage.BestStats | time_experiment/analyze_token_usage.py:229-235 | `main` picks the first dataset with the most answers, none when no dataset has any |
| TokenUsage.AllStatsAnswered | time_experiment/analyze_token_usage.py:188-192 | every analysed file has at least one answer |
| TokenUsage.FoundExactlyWhenAnalysed | time_experiment/analyze_token_usage.py:230-237 | a dataset is chosen exactly when some file could be analysed |
| TokenUsage.SelectDataset | time_experiment/analyze_token_usage.py:186-235 | `main`'s loops: the statistics per base name (a later file with the same base name replaces the earlier entry), then the chosen dataset |
| StatisticalPilot.DesignSize | time_experiment/statistical_pilot_experiment.py:35-114 | the fixed design has 15 models, 30 questions, 2 time conditions and 3 replications: 2700 planned tests |
| StatisticalPilot.RepConds | time_experiment/statistical_pilot_experiment.py:210-211 | the replication loop appends one condition per replication index, in order |
| StatisticalPilot.TimeConds | time_experiment/statistical_pilot_experiment.py:209-211 | one question gives time conditions × replications conditions |
| StatisticalPilot.MulAdd | time_experiment/statistical_pilot_experiment.py:114 | the distributive step behind the test count |
| StatisticalPilot.QuestionConds | time_experiment/statistical_pilot_experiment.py:208-211 | one style gives questions × time conditions × replications conditions |
| StatisticalPilot.StyleConds | time_experiment/statistical_pilot_experiment.py:207-211 | one model gives all questions × time conditions × replications conditions |
| StatisticalPilot.ModelConds | time_experiment/statistical_pilot_experiment.py:206-211 | the models of a pair each give that many conditions |
| StatisticalPilot.AllConditions | time_experiment/statistical_pilot_experiment.py:203-211 | `all_conditions` holds exactly `total_tests` conditions |
| StatisticalPilot.QuestionTests | time_experiment/statistical_pilot_experiment.py:209-211 | the two innermost loops build `TimeConds` |
| StatisticalPilot.StyleTests | time_experiment/statistical_pilot_experiment.py:208-211 | the question loop for one model and style builds `QuestionConds` |
| StatisticalPilot.ModelTests | time_experiment/statistical_pilot_experiment.py:207-211 | the style and question loops for one model build `StyleConds` |
| StatisticalPilot.PairTests | time_experiment/statistical_pilot_experiment.py:206-211 | the model loop of one pair builds `ModelConds` |
| StatisticalPilot.BuildConditions | time_experiment/statistical_pilot_experiment.py:203-211 | the nested loops build `all_conditions` |
| StatisticalPilot.ModelType | time_experiment/statistical_pilot_experiment.py:141 | "thinking" exactly when the lower-cased id mentions thinking, o1 or reasoning; "standard" otherwise |
| StatisticalPilot.RunSingleTest | time_experiment/statistical_pilot_experiment.py:124-193 | the test raises exactly when the model call or the judge fails (the error branch's NameError); a timed-out test stores coherence 0; a judged one stores the judge's score |
| StatisticalPilot.TimedOutSkipsJudge | time_experiment/statistical_pilot_experiment.py:143-159 | a timed-out test never consults the judge |
| StatisticalPilot.RunSingleTestCorrected | time_experiment/statistical_pilot_experiment.py:181-193 | with the error branch naming the style it was given, every test yields a record, an error record exactly on failure, and agrees with the code as written wherever that succeeds |
| StatisticalPilot.Outcomes | time_experiment/statistical_pilot_experiment.py:216-224 | one outcome per planned test, in the shuffled order |
| StatisticalPilot.KeepUntilFailure | time_experiment/statistical_pilot_experiment.py:216-226 | records are kept in order until the first raising test; all were kept exactly when as many records as outcomes were kept |
| StatisticalPilot.RunTests | time_experiment/statistical_pilot_experiment.py:216-226 | the tests run in order until one raises; all ran exactly when every record was kept |
| StatisticalPilot.RunCompletes | time_experiment/statistical_pilot_experiment.py:216-226 | the run records every test exactly when no test raises |
| StatisticalPilot.KeptPrefix | time_experiment/statistical_pilot_experiment.py:216-226 | every kept record is the value of the succeeding outcome at its own position |
| StatisticalPilot.KeepStep | time_experiment/statistical_pilot_experiment.py:224-226 | after an unbroken run, one more succeeding test appends its record |
| StatisticalPilot.FailureStops | time_experiment/statistical_pilot_experiment.py:216-226 | a raising test at position k leaves at most k records |
| StatisticalPilot.CompleteRunSucceeds | time_experiment/statistical_pilot_experiment.py:216-226 | a run that records every test had no failing call |
| StatisticalPilot.IncompleteRunFails | time_experiment/statistical_pilot_experiment.py:216-226 | a run that stops early met a failing call |
| StatisticalPilot.FailedCallStopsRun | time_experiment/statistical_pilot_experiment.py:187 | as written, once the k-th model call fails no record is kept for it or any later test |
| StatisticalPilot.RunTestsCorrected | time_experiment/statistical_pilot_experiment.py:216-226 | with the corrected error branch every planned test is recorded in order, a failed call as an error record |
| StatisticalPilot.CorrectedExtendsRun | time_experiment/statistical_pilot_experiment.py:216-226 | every record the run as written keeps is the corrected run's record |
| StatisticalPilot.Successful | time_experiment/statistical_pilot_experiment.py:291 | the successful records are exactly the judged ones, each as often as it occurs, in order |
| StatisticalPilot.SuccessfulUseCategoryKey | time_experiment/statistical_pilot_experiment.py:169 | a judged record stores its style under `question_category`, the key the analysis at line 321 does not read |
| StatisticalPilot.ConfidenceInterval | time_experiment/statistical_pilot_experiment.py:267-282 | fewer than two values give (0, 0); otherwise an interval centred on the mean that contains it |
| StatisticalPilot.Experiment.constructor | time_experiment/statistical_pilot_experiment.py:34-114 | the fixed design, no results and 2700 planned tests |
| StatisticalPilot.Experiment.RunExperiment | time_experiment/statistical_pilot_experiment.py:195-226 | the conditions are built, shuffled with the given draws and run in that order, appending the records of `RunTests` |
| StatisticalPilot.Experiment.RunInOrder | time_experiment/statistical_pilot_experiment.py:216-226 | the loop appends exactly the records of `RunTests` and reports whether a test raised |
| StatisticalPilot.Trials | time_experiment/statistical_pilot_experiment.py:216-224 | the k-th planned test is paired with the k-th call and judge outcome |
| StatisticalPilot.ExtendFails | time_experiment/statistical_pilot_experiment.py:216-226 | a run that stops at test k yields the same records as the run of the whole list |
| PilotThinking.DesignSize | time_experiment/pilot_thinking_experiment.py:30-60 | the pilot design has 13 models, so 13 × 2 questions × 2 limits = 52 tests |
| PilotThinking.ModelType | time_experiment/pilot_thinking_experiment.py:76 | "thinking" exactly when the id as given mentions thinking or o1 (no lower-casing here) |
| PilotThinking.LimitConds | time_experiment/pilot_thinking_experiment.py:79 | one test per time limit, in order, for the model and question |
| PilotThinking.ModelCondsLength | time_experiment/pilot_thinking_experiment.py:75-79 | the models of a pair give models × limits tests |
| PilotThinking.QuestionCondsLength | time_experiment/pilot_thinking_experiment.py:68-79 | the questions of a pair give models × questions × limits tests |
| PilotThinking.PilotCondsLength | time_experiment/pilot_thinking_experiment.py:57-79 | the tests of the pilot, listed in loop order, number `total_tests` |
| PilotThinking.MulAdd | time_experiment/pilot_thinking_experiment.py:60 | the distributive step behind the test count |
| PilotThinking.RunOne | time_experiment/pilot_thinking_experiment.py:83-131 | an error record exactly when the call or the judge raises; a timed-out record exactly when the call timed out; otherwise the judge's score and the answer; every record carries the model, question, style, limit, label and type |
| PilotThinking.TimedOutScoresZero | time_experiment/pilot_thinking_experiment.py:94-96 | a timed-out test scores 0 whatever the judge would have said |
| PilotThinking.Results | time_experiment/pilot_thinking_experiment.py:83-131 | one record per test, each with its test's model, question and limit |
| PilotThinking.ResultsAppend | time_experiment/pilot_thinking_experiment.py:116-131 | running two lists of tests in turn appends their records |
| PilotThinking.RunLimits | time_experiment/pilot_thinking_experiment.py:79-131 | the time-limit loop records one result per limit |
| PilotThinking.RunModels | time_experiment/pilot_thinking_experiment.py:75-131 | the model loop records one result per model and limit |
| PilotThinking.RunQuestions | time_experiment/pilot_thinking_experiment.py:68-131 | the question loop of a pair records one result per test |
| PilotThinking.RunPilot | time_experiment/pilot_thinking_experiment.py:57-131 | every test gives exactly one record, so `completed` ends equal to the number of records and to `total_tests` |
| PilotThinking.Successful | time_experiment/pilot_thinking_experiment.py:145 | `successful_tests` are exactly the judged records |
| PilotThinking.TimeoutTests | time_experiment/pilot_thinking_experiment.py:146 | `timeout_tests` are exactly the timed-out records |
| PilotThinking.ErrorTests | time_experiment/pilot_thinking_experiment.py:147 | `error_tests` are exactly the error records |
| PilotThinking.PartitionCounts | time_experiment/pilot_thinking_experiment.py:145-147 | the three lists split the records: each lands in exactly one of them |
| RealisticTimeout.RepTests | time_experiment/realistic_timeout_experiment.py:154-165 | three replications numbered 1, 2, 3, each carrying its scenario, answer scenario and timeout |
| RealisticTimeout.TimeoutTests | time_experiment/realistic_timeout_experiment.py:153-165 | one test per timeout condition and replication, all of the given kind and answer scenario |
| RealisticTimeout.AnswerTests | time_experiment/realistic_timeout_experiment.py:152-165 | one block per answer scenario; every test is slow |
| RealisticTimeout.SlowGrid | time_experiment/realistic_timeout_experiment.py:151-165 | scenarios × answer scenarios × timeouts × replications tests, all slow |
| RealisticTimeout.ControlGrid | time_experiment/realistic_timeout_experiment.py:168-182 | scenarios × timeouts × replications tests, all control, all on the early answer scenario |
| RealisticTimeout.MulAdd | time_experiment/realistic_timeout_experiment.py:148-182 | the distributive step behind the grid sizes |
| RealisticTimeout.GridSize | time_experiment/realistic_timeout_experiment.py:12-18 | 36 slow tests and 6 controls: the 42 tests the design promises |
| RealisticTimeout.TimeoutLoop | time_experiment/realistic_timeout_experiment.py:153-165 | the timeout and replication loops append exactly `TimeoutTests` |
| RealisticTimeout.AnswerLoop | time_experiment/realistic_timeout_experiment.py:152-165 | the answer-scenario loop appends exactly `AnswerTests` |
| RealisticTimeout.BuildSlow | time_experiment/realistic_timeout_experiment.py:151-165 | the slow loops build exactly `SlowGrid` |
| RealisticTimeout.BuildControl | time_experiment/realistic_timeout_experiment.py:168-182 | the control loops build exactly `ControlGrid` |
| RealisticTimeout.OfType | time_experiment/realistic_timeout_experiment.py:191-192 | the filtered list holds exactly the tests of that type, in order |
| RealisticTimeout.OfTypeAppend | time_experiment/realistic_timeout_experiment.py:191-192 | filtering distributes over concatenation |
| RealisticTimeout.OfTypeAll | time_experiment/realistic_timeout_experiment.py:191-192 | a list all of one type filters to itself |
| RealisticTimeout.OfTypeNone | time_experiment/realistic_timeout_experiment.py:191-192 | a list with none of a type filters to nothing |
| RealisticTimeout.SplitPartitions | time_experiment/realistic_timeout_experiment.py:191-192 | when every test is slow or control, `fast_tests` and `slow_tests` together are a permutation of the tests |
| RealisticTimeout.SplitGrid | time_experiment/realistic_timeout_experiment.py:191-192 | the split of the grid gives back exactly its control half and its slow half |
| RealisticTimeout.KeepDigits | time_experiment/realistic_timeout_experiment.py:108 | every digit is kept, in order, and nothing else; nothing when the text has none |
| RealisticTimeout.KeepAllDigits | time_experiment/realistic_timeout_experiment.py:108 | a string of digits is kept whole |
| RealisticTimeout.CoherenceDigits | time_experiment/realistic_timeout_experiment.py:105-111 | no score exactly when the first three characters hold no digit (`int('')` raises); otherwise a score in 0..100 |
| RealisticTimeout.ScoreReadsBack | time_experiment/realistic_timeout_experiment.py:106-109 | a judge reply that is a score 0..100 reads back as that score |
| RealisticTimeout.DigitsReadBack | time_experiment/realistic_timeout_experiment.py:108-109 | one to three digits worth at most 100 read back as their value |
| RealisticTimeout.ShortNumeral | time_experiment/realistic_timeout_experiment.py:108 | a score up to 100 has at most three digits, so the three-character cut keeps it whole |
| RealisticTimeout.Truncate | time_experiment/realistic_timeout_experiment.py:130 | the stored response is the content when it has at most 200 characters, else its first 200 characters and "..." |
| RealisticTimeout.JudgeScore | time_experiment/realistic_timeout_experiment.py:88-114 | no score for a timed-out answer; any score lies in 0..100 |
| RealisticTimeout.RunSingleTest | time_experiment/realistic_timeout_experiment.py:71-142 | no record exactly when the model call raises; otherwise the record carries the test's fields, the timed-out flag, no score when timed out, and the truncated response and full length |
| RealisticTimeout.Kept | time_experiment/realistic_timeout_experiment.py:207-212 | a test adds one record, or none when its call raised |
| RealisticTimeout.RunAll | time_experiment/realistic_timeout_experiment.py:207-212 | never more records than tests |
| RealisticTimeout.NoFailureKeepsAll | time_experiment/realistic_timeout_experiment.py:207-212 | when no call raises, every test keeps its record |
| RealisticTimeout.RunAllAppend | time_experiment/realistic_timeout_experiment.py:198-240 | running two lists in turn appends their records |
| RealisticTimeout.RunTests | time_experiment/realistic_timeout_experiment.py:201-212 | the phase loop collects exactly `RunAll` of its tests |
| RealisticTimeout.Batches | time_experiment/realistic_timeout_experiment.py:222-223 | every batch is non-empty and holds at most 8 tests |
| RealisticTimeout.BatchesCover | time_experiment/realistic_timeout_experiment.py:222-225 | the batches cover the slow tests in order, and there are `(n + 7) // 8` of them (`total_batches`) |
| RealisticTimeout.BatchStep | time_experiment/realistic_timeout_experiment.py:222-223 | one slice of 8 (or the rest) is the next batch |
| RealisticTimeout.RunSlow | time_experiment/realistic_timeout_experiment.py:218-245 | the batched loop collects the same records as running the slow tests in order, over exactly `Batches` |
| RealisticTimeout.ShuffledCopy | time_experiment/realistic_timeout_experiment.py:195-196 | the shuffle is the Fisher–Yates permutation drawn by the given draws |
| RealisticTimeout.RunPhases | time_experiment/realistic_timeout_experiment.py:190-245 | all results are the controls' records, shuffled, then the slow records, shuffled, numbered on; the batch count is `(n + 7) // 8` |
| RealisticTimeout.RunExperiment | time_experiment/realistic_timeout_experiment.py:144-249 | the six controls run first, then the 36 slow tests in five batches |
| RealisticTimeout.KeyRuns | time_experiment/realistic_timeout_experiment.py:281-285 | exactly the results whose `scenario_type_answer_scenario` is the key, with their multiplicity and in order |
| RealisticTimeout.TimeoutFlags | time_experiment/realistic_timeout_experiment.py:281-285 | none exactly when no result has the key; all clear exactly when none of them timed out; all set exactly when all did |
| RealisticTimeout.TimeoutFlagsOfRuns | time_experiment/realistic_timeout_experiment.py:281-285 | the flags are the `timed_out` of `KeyRuns`, one per result under the key and in order |
| RealisticTimeout.ScenarioTimeoutRate | time_experiment/realistic_timeout_experiment.py:291-297 | a rate only for a key some result has; it lies in 0..100, is 0 exactly when none timed out and 100 exactly when all did |
| ProperBenchmarkTimeout.DesignSize | time_experiment/proper_benchmark_timeout_test.py:182-184 | three slow scenarios and the control under three limits, twice each: 24 planned runs |
| ProperBenchmarkTimeout.FirstFive | time_experiment/proper_benchmark_timeout_test.py:163 | the stored answers are a prefix of at most five, all of them when there are at most five |
| ProperBenchmarkTimeout.RunBenchmark | time_experiment/proper_benchmark_timeout_test.py:100-170 | a KeyboardInterrupt leaves the function (no record); otherwise the record carries the scenario, label and replication; it is timed out exactly when the call raised under a limit that had passed, with the timeout message; an error message exactly when the call raised; a raised run has no answers and zero quality; a returned run counts all its answers and keeps the first five |
| ProperBenchmarkTimeout.UnlimitedNeverTimesOut | time_experiment/proper_benchmark_timeout_test.py:125 | an unlimited run is never marked timed out, however long it ran |
| ProperBenchmarkTimeout.BenchmarkInterrupts | time_experiment/proper_benchmark_timeout_test.py:193-204 | the script's runs are interrupted exactly where the run is stopped by Ctrl+C |
| ProperBenchmarkTimeout.Reps | time_experiment/proper_benchmark_timeout_test.py:189-204 | the replication loop keeps at most one record per attempted run and attempts at most two runs |
| ProperBenchmarkTimeout.Passes | time_experiment/proper_benchmark_timeout_test.py:187-207 | an interrupt reaches past a loop only when that loop stops the whole experiment |
| ProperBenchmarkTimeout.PassesKeep | time_experiment/proper_benchmark_timeout_test.py:187-207 | a loop whose passes keep at most one record per run does too |
| ProperBenchmarkTimeout.PassesBound | time_experiment/proper_benchmark_timeout_test.py:187-207 | a loop attempts at most its passes' bound per item |
| ProperBenchmarkTimeout.PassesAll | time_experiment/proper_benchmark_timeout_test.py:187-207 | when every pass completes its runs, so does the loop |
| ProperBenchmarkTimeout.PassesAfterInterrupt | time_experiment/proper_benchmark_timeout_test.py:202-204 | as written, an interrupted first pass does not end the loop: every later item still runs all its runs |
| ProperBenchmarkTimeout.PassesStop | time_experiment/proper_benchmark_timeout_test.py:202-204 | when the interrupt ends the experiment, the loop stops at the interrupted pass |
| ProperBenchmarkTimeout.MulAdd | time_experiment/proper_benchmark_timeout_test.py:184 | the distributive step behind the run counts |
| ProperBenchmarkTimeout.RepsAll | time_experiment/proper_benchmark_timeout_test.py:189-197 | without an interrupt both replications run and are recorded |
| ProperBenchmarkTimeout.CondsAll | time_experiment/proper_benchmark_timeout_test.py:188-197 | without an interrupt every limit runs both replications |
| ProperBenchmarkTimeout.ScenariosAll | time_experiment/proper_benchmark_timeout_test.py:184-197 | without an interrupt all `total_tests` runs are attempted and recorded |
| ProperBenchmarkTimeout.ScenariosBound | time_experiment/proper_benchmark_timeout_test.py:184-207 | whatever happens, at most one record per attempted run and at most `total_tests` runs |
| ProperBenchmarkTimeout.InterruptedScenario | time_experiment/proper_benchmark_timeout_test.py:202-204 | a Ctrl+C in a scenario's first run loses that run and its second replication; the other limits all run |
| ProperBenchmarkTimeout.InterruptContinues | time_experiment/proper_benchmark_timeout_test.py:202-204 | as written, a Ctrl+C during the first run leaves all other runs but one attempted and recorded |
| ProperBenchmarkTimeout.InterruptLeaves22 | time_experiment/proper_benchmark_timeout_test.py:202-204 | with the design's scenarios, a Ctrl+C during the first run still leaves 22 records from 23 runs |
| ProperBenchmarkTimeout.InterruptStops | time_experiment/proper_benchmark_timeout_test.py:202-204 | corrected: an interrupt during the first run ends the experiment with nothing recorded |
| ProperBenchmarkTimeout.RunReps | time_experiment/proper_benchmark_timeout_test.py:189-204 | the replication loop, left by `break`, gives exactly `Reps` |
| ProperBenchmarkTimeout.RunConds | time_experiment/proper_benchmark_timeout_test.py:188-207 | the time-limit loop gives exactly `Conds`, never interrupted as a whole |
| ProperBenchmarkTimeout.RunExperiment | time_experiment/proper_benchmark_timeout_test.py:172-215 | the loops give exactly `Scenarios` of the script's runs; `current_test` is at least the records kept and at most `total_tests` |
| ProperBenchmarkTimeout.GroupRuns | time_experiment/proper_benchmark_timeout_test.py:248-251 | `groups[key][label]`: exactly the runs with that scenario key and time-limit label, with their multiplicity and in order |
| ProperBenchmarkTimeout.GroupFlags | time_experiment/proper_benchmark_timeout_test.py:256-262 | none exactly when the group is empty; all clear exactly when no run of it timed out; all set exactly when all did |
| ProperBenchmarkTimeout.GroupFlagsOfRuns | time_experiment/proper_benchmark_timeout_test.py:256-262 | the flags are the `timed_out` of `GroupRuns`, one per run of the group and in order |
| ProperBenchmarkTimeout.GroupTimeoutRate | time_experiment/proper_benchmark_timeout_test.py:256-266 | a rate exactly for a non-empty group; in 0..100; 0 exactly when no run timed out and 100 exactly when all did |
| ProperBenchmarkTimeout.UnlimitedGroupRateZero | time_experiment/proper_benchmark_timeout_test.py:125-266 | when unlimited runs never time out, every unlimited group's rate is 0 |
| FocusedTimeout.Preview | time_experiment/focused_timeout_test.py:170 | a preview is a prefix of at most 100 characters of the answer's text, the whole text when shorter |
| FocusedTimeout.Previews | time_experiment/focused_timeout_test.py:170 | the previews of the first three answers (all of them when fewer), in order |
| FocusedTimeout.Attempt | time_experiment/focused_timeout_test.py:111-186 | the inner loop breaks before recording exactly on a quota error that is not a timeout, and stops after recording exactly on a quota error that is; a record is timed out exactly when the call raised after 90% of its limit; it carries the scenario, limit, runtime, the error message exactly when the call raised, zero quality and no previews then, else the answers' summary and previews |
| FocusedTimeout.UnlimitedNeverTimesOut | time_experiment/focused_timeout_test.py:131 | an unlimited test is never marked timed out, however long it ran |
| FocusedTimeout.Status429Stops | time_experiment/focused_timeout_test.py:137-184 | an error mentioning 429 stops the experiment whatever else it says |
| FocusedTimeout.Step | time_experiment/focused_timeout_test.py:108-186 | one test raises `test_count` by one, notes a quota error exactly when its call raised one, and appends its record unless it broke before the append |
| FocusedTimeout.Row | time_experiment/focused_timeout_test.py:104 | one scenario under each time limit, in order |
| FocusedTimeout.RunEnded | time_experiment/focused_timeout_test.py:95-190 | once the cap is reached or a quota error was seen, nothing more runs |
| FocusedTimeout.RunAppend | time_experiment/focused_timeout_test.py:94-108 | running two grids in turn is running their concatenation |
| FocusedTimeout.RunStopsAt | time_experiment/focused_timeout_test.py:95-106 | once the loops end after part of the grid, the rest of it does not run |
| FocusedTimeout.NestedIsFlat | time_experiment/focused_timeout_test.py:94-190 | the two nested loops and their breaks act as one loop over the scenario-by-limit grid |
| FocusedTimeout.RunCount | time_experiment/focused_timeout_test.py:95-174 | `test_count` only grows and stays within the cap; records are only appended, at most one per test |
| FocusedTimeout.CapRespected | time_experiment/focused_timeout_test.py:81-108 | the experiment never runs more than `max_tests` tests and records at most one per test |
| FocusedTimeout.QuotaEnds | time_experiment/focused_timeout_test.py:137-190 | a test that raised a quota error is the last one run |
| FocusedTimeout.RunsGridPrefix | time_experiment/focused_timeout_test.py:92-174 | without quota errors, the first `max_tests` tests of the grid (all when fewer) run in grid order and each is recorded |
| FocusedTimeout.RecordsFollowGrid | time_experiment/focused_timeout_test.py:92-174 | without quota errors, each record names the scenario question and the time-limit label of its grid cell |
| FocusedTimeout.FirstTwoRows | time_experiment/focused_timeout_test.py:92-174 | with a cap of two rows and no quota error, the records are the first scenario under every limit in order, then the second |
| FocusedTimeout.GridStart | time_experiment/focused_timeout_test.py:94-104 | the grid of the nested loops starts with the first scenario under every limit, then the second |
| FocusedTimeout.DefaultRunTestsExtremeOnly | time_experiment/focused_timeout_test.py:81-108 | the default run of six tests covers only the two extreme scenarios, each under 30 minutes, 1 hour and no limit, in that order |
| FocusedTimeout.GridPrefix | time_experiment/focused_timeout_test.py:92-104 | the grid of fewer scenarios is a prefix of the grid |
| FocusedTimeout.GridSize | time_experiment/focused_timeout_test.py:94-104 | one test per scenario and time limit |
| FocusedTimeout.MulAdd | time_experiment/focused_timeout_test.py:94-104 | the distributive step behind the grid size |
| FocusedTimeout.RunScenario | time_experiment/focused_timeout_test.py:104-186 | the time-limit loop gives exactly `Run` of the scenario's row |
| FocusedTimeout.RunFocusedTest | time_experiment/focused_timeout_test.py:81-198 | `all_results` and `test_count` are those of the nested loops; `test_count` never passes `max_tests` and there is at most one record per test |
| FocusedTimeout.NestedStopsAt | time_experiment/focused_timeout_test.py:94-190 | once the scenario loop ends, later scenarios do not run |
| FocusedTimeout.LongerThan | time_experiment/focused_timeout_test.py:253-254 | exactly the results longer than the limit, each as often as it occurs, in order |
| FocusedTimeout.VeryLongWithinLong | time_experiment/focused_timeout_test.py:253-258 | the runs over 30 minutes are exactly those among the runs over 5 minutes, so never more of them |
| FocusedTimeout.TimedOutRuns | time_experiment/focused_timeout_test.py:267 | exactly the timed-out results, each as often as it occurs, in order |
| FocusedTimeout.NoUnlimitedTimeouts | time_experiment/focused_timeout_test.py:131-133 | a run with only the unlimited condition lists no timeout |
| FocusedTimeout.NoneTimedOut | time_experiment/focused_timeout_test.py:267 | with no timed-out record the timeout list is empty |
| FocusedTimeout.UnlimitedGrid | time_experiment/focused_timeout_test.py:104 | every test of an unlimited-only grid is unlimited |
| FocusedTimeout.UnlimitedRecords | time_experiment/focused_timeout_test.py:131-174 | running only unlimited tests records no timeout |

## Left out

- Calls to OpenRouter, OpenAI and the embedding service are inputs or `Result` values. These cover `chat_with_model`, `chat_with_model_timed`, `embed`, `judgeAnswer`'s request and the game's embedding request. Retries and caching wrappers are not modelled.
- The benchmark's answer loop (`benchmark_question`, `benchmark_question_with_timeout`) is not part of this model. What one call of it returns or raises is an input.
- Threads are not modelled: `ThreadPoolExecutor` and `as_completed` in main.py and realistic_timeout_experiment.py, the lock and the shared progress counter. Tasks run one after another in list order. Completion order under threads can differ, and so can the order of `all_results`.
- Signal-based timeouts and wall-clock readings are not modelled; elapsed times are given as inputs.
- Floating point is modelled as exact reals. Mean, median, quantiles, standard deviation, correlation and fits are left out; where a printout uses them, only the inputs they are computed from are modelled.
- Cosine similarity in the game is computed outside the model. The game takes the similarities to earlier answers as given reals.
- Lower-casing and whitespace are modelled for ASCII and the whitespace characters listed in `Strings`; other Unicode case mappings are not. `int()` is modelled without underscore separators. JavaScript `parseInt` is modelled on exact integers.
- File reading and writing, JSON encoding, timestamps, console output, matplotlib drawing, CSV/Excel export, the slider UI of thresholds.py and the React rendering are left out. The game's API-key inputs, interval handle and asynchronous `isEvaluating` timing are also left out; `validateApiKeys` is modelled with its outcome given.
- Release dates in the timeline filter are day numbers, not parsed dates.
- PlotSummary.ExitTally: bars come in first-seen lab order; the sort by novelty share at plot.py:1496 is not modelled.
- PlotMetrics.CalculateMetrics, PlotMetrics.CalculateClusterMetrics, PlotBest.BestForCluster, PlotBest.GetBestModelsPerCluster, PlotBest.GetBestModelsPerQuestion, PlotBest.GetMaxScores, PlotSummary.BestTimeline: these require every answer to carry the score keys that plot.py indexes directly. A missing key raises KeyError there, and that error path is not modelled.
- BenchmarkProgress: the classification requires the keys that Python's short-circuit `or` reaches, and a non-empty answer list (`answers[-1]`). The KeyError and IndexError paths are not modelled.
- TokenUsage: `processing_times` is collected but never used. The statistics fields and the printed recommendations of `main` are not modelled.
- StatisticalPilot: `analyze_results` reads `question_style` where the records hold `question_category` (line 321), which raises KeyError. Only the success filter before it is modelled. The confidence interval takes its standard deviation as an input. The undefined `ComprehensiveExperiment` (line 431) is not modelled.
- PilotThinking: the average comparisons of the analysis printout are not modelled.
- RealisticTimeout: the coherence lists and recommendations of `analyze_results` are not modelled. The `slow_mid` key is never produced and is ignored. A `None` content is not modelled.
- ProperBenchmarkTimeout: the quality averages of the analysis and the outer `except Exception` (which no modelled step raises) are not modelled.
- FocusedTimeout: a missing `answer` key in an answer preview is modelled as empty text. The sorted top three runs are only printed and are not modelled. A KeyboardInterrupt is not modelled. With an empty condition list, the script reads an unbound `error_message` at line 189 and raises NameError; the model instead runs no test. The grouping printout is not modelled.
- BenchmarkDriver.RunSequential: a KeyboardInterrupt is not modelled. At main.py:65-67 and main.py:138-140 it prints a message and calls `sys.exit(0)`, which abandons the remaining tasks. The model attempts and reports every task.
- TokenUsage.AnalysisOf: the percentiles are not modelled. `statistics.quantiles(..., n=100)` at analyze_token_usage.py:124-131 raises on a single data point in Python 3.8 to 3.12, so a file with exactly one positive length raises there; the model returns an analysis for it.
- Strings.ParseInt: accepts ASCII `0`–`9` only. Python's `int()` accepts every Unicode decimal digit (`int("٨٥") == 85`), so a reply whose score is written in other decimal digits is read by TimeAwarePrompts.JudgeAnswer in the source and fails in the model.
- RealisticTimeout.KeepDigits: keeps ASCII digits only. `str.isdigit` at realistic_timeout_experiment.py:108 also accepts other Unicode digits, such as superscripts and Arabic-Indic digits, which the model drops.

## Findings

| source | as written | input that shows it | evidently intended | confidence | as-written member | corrected member |
|---|---|---|---|---|---|---|
| creativity-game/src/components/CreativityGame.jsx:229 | `setTimeout(moveToNextQuestion, 2000)` schedules the closure of the current render. Its `responses` does not yet hold the answer just added, so the saved results miss the answer that crossed the threshold. | On the first question, answer "a brick pillow" and let the judge score it 5. The question is saved with no answers. | The saved question includes every answer given to it, the last one included. | not executed | CreativityGame.StaleMoveLosesAnswer | CreativityGame.MoveAfterThresholdSavesAnswer |
| time_experiment/statistical_pilot_experiment.py:187 | The error branch of `run_single_test` reads the undefined name `category`. A failed model call therefore raises NameError, which ends `run_experiment`. | Any run in which one model call raises: no record is kept for that test or any later one. | A failed call gives an error record, and the run goes on with the next test. | not executed | StatisticalPilot.FailedCallStopsRun | StatisticalPilot.RunTestsCorrected |
| time_experiment/proper_benchmark_timeout_test.py:202-204 | The `break` on KeyboardInterrupt leaves only the replication loop, so the experiment carries on with the next time limit and scenario. | A Ctrl+C during the first of the 24 runs: 23 runs are still attempted and 22 recorded. | Interrupting the experiment ends it. | not executed | ProperBenchmarkTimeout.InterruptContinues | ProperBenchmarkTimeout.InterruptStops |
