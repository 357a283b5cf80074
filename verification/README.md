# HER role-play evaluator and data pipeline: a Dafny model

HER trains and evaluates language models that play characters from books.
Its multi-turn evaluator runs a scene: each character agent sees what the
others say and do but not what they think. A next-speaker predictor picks
who talks next, and a judge model scores the finished transcript by its flaws.
Results are cached per sample, so an interrupted run can resume. The data
pipeline turns annotated book dialogues into training data. It merges runs
of one speaker, splits conversations into per-reply samples, attaches
revised "system thinking", salvages JSON from judge replies, and buckets
judged comparisons into SFT, RL and test sets.

This project models the core of both halves. Each Dafny module follows one
source file. Operations are functions where the source computes a value.
They are methods with loops and invariants where the source updates
variables, lists or dictionaries step by step, and classes where it
mutates objects. Every deterministic method is proved equal to a
specification function, and the lemmas state what the source promises about
that function; the random splits are proved to be samples and partitions of
their input.

| module | file (relative to the repository root) |
|---|---|
| `CoserUtils` | eval_code/benchmarks/multi_turn/coser/utils.py |
| `Simulation` | eval_code/benchmarks/multi_turn/coser/benchmark.py |
| `BenchmarkBase` | eval_code/benchmarks/multi_turn/base.py |
| `ChatTemplates` | eval_code/models/chat_templates.py |
| `SftFormat` | data_process_code/step1_data_process/convert_to_sft_format.py |
| `SingleTurn` | training_code/step1_roleplay_sft/split_to_single_turn.py |
| `SftConvert` | training_code/step1_roleplay_sft/convert_to_sft.py |
| `FixMerge` | data_process_code/step3_gen_systhinking/step3_10_fix_and_merge.py |
| `ThinkSplit` | data_process_code/step3_gen_systhinking/step3_3_extract_model_think.py |
| `NormalizeFilenames` | data_process_code/step1_data_process/normalize_filenames.py |
| `SplitTrainTest` | training_code/step1_roleplay_sft/split_train_test.py |
| `RlFormat` | training_code/step4_roleplay_rl/main.py |
| `MergeExtract` | data_process_code/step2_gen_rolethinking/merge_extract_results.py |
| `FilterQuality` | training_code/step2_reward_sft/filter_high_quality_sft.py |
| `PatternDiversity` | data_process_code/step2_gen_rolethinking/analyze_pattern_diversity.py |
| `ChatDemo` | chat_demo/chat_demo.py |
| `SysThinkingSamples` | data_process_code/step3_gen_systhinking/step3_1_extract_sys_thinking_samples.py |

Shared modules:
- `Basics` and `Text` (text.dfy) hold `Option` and Python's string operations: `strip`, `find`, `replace`, `split`, `rsplit`, `join`, `lower` and `str(int)`.
- `Patterns` holds the regular expressions the sources use, each as an explicit scanner for its own shape, together with `re.sub`.
- `HerTags` holds HER's `<role_thinking>`, `<role_action>` and `<role_speech>` markup as a sequence of pieces.
- `Messages` holds chat messages.

Two kinds of collaborator become parameters: the judge's and the models'
replies, and `json.loads`.

## Model

| member | source | states |
|---|---|---|
| BenchmarkBase.CacheFileName | eval_code/benchmarks/multi_turn/base.py:138-148 | a result's cache file is named after its sample id and ends in `.json` |
| BenchmarkBase.CacheFileNameInjective | eval_code/benchmarks/multi_turn/base.py:138-148 | two sample ids never share a cache file |
| BenchmarkBase.CacheManager.constructor | eval_code/benchmarks/multi_turn/base.py:73-90 | the manager starts from the loaded inference and evaluation indexes and files |
| BenchmarkBase.CacheManager.GetInferenceCache | eval_code/benchmarks/multi_turn/base.py:121-136 | a result comes back exactly when the id is indexed, the indexed file exists and it loads; otherwise None |
| BenchmarkBase.CacheManager.GetEvalCache | eval_code/benchmarks/multi_turn/base.py:154-172 | the same three failure cases for the evaluation cache |
| BenchmarkBase.StoreLookup | eval_code/benchmarks/multi_turn/base.py:154-172 | the evaluation store gives a result exactly when the id is indexed, its file exists and it loads, and then the file's result |
| BenchmarkBase.StoreSave | eval_code/benchmarks/multi_turn/base.py:174-184 | saving indexes the id (and nothing else new), keeps every other index entry and the key order well formed, and the saved result then loads back |
| BenchmarkBase.CacheManager.SaveInferenceCache | eval_code/benchmarks/multi_turn/base.py:138-148 | the index maps the id to `<id>.json`, a new id goes to the end of the key order, the file holds the result, every other entry and the evaluation side are unchanged |
| BenchmarkBase.CacheManager.SaveEvalCache | eval_code/benchmarks/multi_turn/base.py:174-184 | the same for the evaluation index, leaving the inference side unchanged |
| BenchmarkBase.CacheManager.Loaded | eval_code/benchmarks/multi_turn/base.py:186-193 | every indexed id whose file loads contributes its result, and there are no more results than ids |
| BenchmarkBase.CacheManager.GetAllInferenceResults | eval_code/benchmarks/multi_turn/base.py:186-193 | the loop returns `Loaded` over the index in key order |
| BenchmarkBase.CacheManager.PendingInference | eval_code/benchmarks/multi_turn/base.py:204-206 | the pending ids are, in input order, exactly the given ids with no inference entry |
| BenchmarkBase.CacheManager.PendingEval | eval_code/benchmarks/multi_turn/base.py:208-210 | the pending evaluations are, in index order, exactly the inferred ids with no evaluation entry |
| BenchmarkBase.CacheManager.GetStats | eval_code/benchmarks/multi_turn/base.py:212-219 | the pending-evaluation count never exceeds the inference count |
| BenchmarkBase.FreshResult | eval_code/benchmarks/multi_turn/base.py:338-362 | a run that raises becomes status "failed" with an empty dialogue and the error text; a completed run keeps its dialogue and status; both carry the sample id and model name |
| BenchmarkBase.Processed | eval_code/benchmarks/multi_turn/base.py:331-362 | only pending samples are processed, each stamped with the model name |
| BenchmarkBase.CachedOf | eval_code/benchmarks/multi_turn/base.py:324-328 | at most one cached result per sample id |
| BenchmarkBase.CollectCached | eval_code/benchmarks/multi_turn/base.py:324-328 | the first loop of run_inference returns `CachedOf` |
| BenchmarkBase.ProcessPending | eval_code/benchmarks/multi_turn/base.py:331-362 | the second loop returns `Processed`; with caching on every pending id ends up indexed; cached ids stay indexed; with caching off the index is untouched |
| BenchmarkBase.RunInference | eval_code/benchmarks/multi_turn/base.py:286-367 | the results are the cached ones followed by the processed pending ones, where pending is every id when the cache is skipped |
| BenchmarkBase.CountNotFailed | eval_code/benchmarks/multi_turn/base.py:402-406 | failed samples are not counted |
| BenchmarkBase.Evaluated | eval_code/benchmarks/multi_turn/base.py:400-432 | at most one evaluation per non-failed sample, exactly one when the judge never raises |
| BenchmarkBase.EvalStep | eval_code/benchmarks/multi_turn/base.py:403-427 | a failed record is skipped; a loadable cached evaluation is reused unless the cache is skipped; otherwise the judge's evaluation is kept (nothing when it raises) and saved exactly when caching is on |
| BenchmarkBase.EvalRunBound | eval_code/benchmarks/multi_turn/base.py:403-427 | the loop yields at most one evaluation per record that did not fail |
| BenchmarkBase.EvalRunSkipCache | eval_code/benchmarks/multi_turn/base.py:403-427 | with the cache skipped, the evaluations are the judge's for every non-failed record, in order |
| BenchmarkBase.EvalRunReadOnly | eval_code/benchmarks/multi_turn/base.py:420-422 | with caching off the evaluation store is never written |
| BenchmarkBase.EvalRunAllCached | eval_code/benchmarks/multi_turn/base.py:408-413 | when every non-failed record has a loadable cached evaluation, the loop returns those, in order, and writes nothing |
| BenchmarkBase.EvalRunGrows | eval_code/benchmarks/multi_turn/base.py:403-427 | the evaluation index only grows and its key order stays well formed |
| BenchmarkBase.EvalRunIndexes | eval_code/benchmarks/multi_turn/base.py:420-422 | with caching on, every non-failed record whose evaluation carries its id ends up indexed |
| BenchmarkBase.EvaluateOne | eval_code/benchmarks/multi_turn/base.py:403-427 | one iteration of the loop changes the cache manager exactly as `EvalStep` says and leaves the inference side untouched |
| BenchmarkBase.EvaluateRecords | eval_code/benchmarks/multi_turn/base.py:400-432 | the loop leaves the cache manager's evaluation side exactly as `EvalRun` says (cached evaluations reused unless skipped, misses evaluated and saved when caching is on, failed records skipped) and the inference side untouched; at most one evaluation per non-failed record; with the cache skipped the result is `Evaluated`; with caching off nothing is written |
| BenchmarkBase.RunEvaluation | eval_code/benchmarks/multi_turn/base.py:369-435 | it raises exactly when there are no inference results (taken from the cache when none are passed); otherwise the evaluations and the new evaluation store are `EvalRun` of the records, and the summary is `SummaryOf` the evaluations; the inference side is untouched |
| BenchmarkBase.ScoresFor | eval_code/benchmarks/multi_turn/base.py:563-568 | at most one score per result (its partner `ScoreListsSpec` says which) |
| BenchmarkBase.Min | eval_code/benchmarks/multi_turn/base.py:580 | Python's `min`: an element no larger than any other |
| BenchmarkBase.Max | eval_code/benchmarks/multi_turn/base.py:581 | Python's `max`: an element no smaller than any other |
| BenchmarkBase.ScoreListsSpec | eval_code/benchmarks/multi_turn/base.py:563-568 | the per-key lists hold exactly the keys scored at least once, each with every score under it in result order |
| BenchmarkBase.SumBounds | eval_code/benchmarks/multi_turn/base.py:574-579 | a sum of scores between two bounds lies between count times each bound |
| BenchmarkBase.StatsBounds | eval_code/benchmarks/multi_turn/base.py:578-583 | min <= mean <= max for every non-empty score list |
| BenchmarkBase.SummaryBounds | eval_code/benchmarks/multi_turn/base.py:557-588 | in a summary every key has min <= mean <= max and a count between 1 and the sample total |
| BenchmarkBase.MergedStep | eval_code/benchmarks/multi_turn/base.py:564-568 | adding one more key appends its score to that key's list, creating the list when missing |
| BenchmarkBase.MergedNone | eval_code/benchmarks/multi_turn/base.py:564-568 | merging no keys changes nothing |
| BenchmarkBase.AddScores | eval_code/benchmarks/multi_turn/base.py:564-568 | the inner loop appends every score of one result to its key's list |
| BenchmarkBase.ComputeSummary | eval_code/benchmarks/multi_turn/base.py:557-588 | the summary is `SummaryOf`: an error entry for no results, else the total and per-key mean, min, max and count |
| Simulation.Entry | eval_code/benchmarks/multi_turn/coser/benchmark.py:204-209 | the stored message has the given role and content, and a name exactly when a non-empty name was passed |
| Simulation.CharacterAgent.constructor | eval_code/benchmarks/multi_turn/coser/benchmark.py:185-197 | a new agent's history is exactly one system message holding its prompt |
| Simulation.CharacterAgent.Update | eval_code/benchmarks/multi_turn/coser/benchmark.py:204-209 | update appends exactly one entry; a non-system entry keeps the history's single leading system message |
| Simulation.Heard | eval_code/benchmarks/multi_turn/coser/benchmark.py:648-664 | the speaker's own agent receives the raw reply as assistant; every other agent receives the cleaned reply as user; both are named after the speaker |
| Simulation.Broadcast | eval_code/benchmarks/multi_turn/coser/benchmark.py:648-664 | every agent's history grows by exactly the message `Heard` gives it, and the agents stay distinct and well formed |
| Simulation.Deliver | eval_code/benchmarks/multi_turn/coser/benchmark.py:648-664 | one agent's history grows by exactly the given entry; every other agent's history is unchanged |
| Simulation.DeliverHeard | eval_code/benchmarks/multi_turn/coser/benchmark.py:648-664 | one step of the broadcast loop: the next agent stores what `Heard` gives it, and every agent already served keeps its delivered message |
| Simulation.Appended | eval_code/benchmarks/multi_turn/coser/benchmark.py:648-664 | a speaker's entry reaches every agent as `Heard` gives it; the NSP's pick is stored by the NSP alone |
| Simulation.HistorySnoc2 | eval_code/benchmarks/multi_turn/coser/benchmark.py:648-664 | a round adds to each agent's history what its two entries send, in order |
| Simulation.RandomCandidates | eval_code/benchmarks/multi_turn/coser/benchmark.py:516-519 | the candidates never include the current speaker, come from the speaking characters, are empty only when no other speaker exists, and avoid the environment and narrators whenever another speaker is available |
| Simulation.NextSpeakerRandom | eval_code/benchmarks/multi_turn/coser/benchmark.py:511-526 | random mode picks one of the candidates, "<END CHAT>" only when there are none, and never the current speaker |
| Simulation.FallbackCandidates | eval_code/benchmarks/multi_turn/coser/benchmark.py:562-564 | the fallback set excludes the current speaker, draws from the major characters, the environment and the speaking characters, and is empty only when every one of them is the current speaker |
| Simulation.ResolveModelNsp | eval_code/benchmarks/multi_turn/coser/benchmark.py:548-568 | a predicted "<END CHAT>" is honoured only from round 5 on; a valid different speaker is taken as predicted; anything else falls back to a random pick; the result is never the current speaker |
| Simulation.WithEnvironment | eval_code/benchmarks/multi_turn/coser/benchmark.py:394-395 | the environment is added to the speaking characters exactly when missing |
| Simulation.Act | eval_code/benchmarks/multi_turn/coser/benchmark.py:488-664 | every agent's history grows by exactly what `Appended` gives it for the recorded entry; a speaker's turn records its reply (the environment's after one round of system-thinking removal) and keeps the speaker; the NSP's turn records a speaking character, "<END CHAT>" or "random" and names a next speaker different from the current one |
| Simulation.PlayRound | eval_code/benchmarks/multi_turn/coser/benchmark.py:488-664 | one round records the speaker's entry and then the NSP's, both tagged with the round, moves to a different speaker, and keeps every agent's history equal to its start plus `HistoryOf` the transcript |
| Simulation.NextRound | eval_code/benchmarks/multi_turn/coser/benchmark.py:477-664 | one more round keeps every agent's history equal to its start plus what the transcript sent it, extends the transcript by one well-formed round, and names a speaking character, a major character or "<END CHAT>" next |
| Simulation.CreateAgents | eval_code/benchmarks/multi_turn/coser/benchmark.py:418-469 | one fresh agent per name, each starting with its system prompt and the conversation-start message |
| Simulation.NewAgent | eval_code/benchmarks/multi_turn/coser/benchmark.py:461-468 | a fresh agent named as given, whose history is its system prompt followed by the conversation-start user line |
| Simulation.ExtendTranscript | eval_code/benchmarks/multi_turn/coser/benchmark.py:477-664 | appending a well-formed round keeps the transcript well formed and the speaker changing between rounds |
| Simulation.PlayRounds | eval_code/benchmarks/multi_turn/coser/benchmark.py:477-664 | at most max_rounds rounds, two entries per round, every round recorded as above, the speaker changing between rounds, starting with the first speaking character; every agent's history is its start plus `HistoryOf` the transcript |
| Simulation.Simulate | eval_code/benchmarks/multi_turn/coser/benchmark.py:394-664 | agents exist exactly for the speaking characters, the environment and the NSP; each agent's history is its system prompt, the conversation-start line and `HistoryOf` the transcript; the transcript has the shape `PlayRounds` promises; the run can only fail when a major character has no agent |
| Simulation.JudgeScore | eval_code/benchmarks/multi_turn/coser/benchmark.py:943-944 | the score lies in [0, 100], is 100 when the severity is within the 0.3-per-round allowance and 0 when it exceeds it by 20 or more |
| Simulation.JudgeScoreMonotone | eval_code/benchmarks/multi_turn/coser/benchmark.py:943-944 | more severity never raises the score |
| Simulation.JudgeScoreRounds | eval_code/benchmarks/multi_turn/coser/benchmark.py:943-944 | more actor rounds never lower the score |
| Simulation.FlawSeverity | eval_code/benchmarks/multi_turn/coser/benchmark.py:937-941 | a flaw contributes a severity exactly when it is an object (a non-numeric severity contributes zero) |
| Simulation.TotalSeverity | eval_code/benchmarks/multi_turn/coser/benchmark.py:937-941 | the sum is defined exactly when every flaw is an object (anything else raises outside the caught error) |
| Simulation.IterSeverity | eval_code/benchmarks/multi_turn/coser/benchmark.py:937-941 | iterating the flaws sums exactly when they are an array of objects, or an empty object or string; the empty ones sum to 0 |
| Simulation.FlawsTotal | eval_code/benchmarks/multi_turn/coser/benchmark.py:933-941 | a missing "flaws" entry counts as an empty list; otherwise the sum is that of the entry |
| Simulation.OneFlawScore | eval_code/benchmarks/multi_turn/coser/benchmark.py:931-946 | a dimension with one flaw of numeric severity v gets the formula's score for v and the actor rounds |
| Simulation.BraceSpan | eval_code/benchmarks/multi_turn/coser/benchmark.py:928-929 | the match runs from a '{' to a '}' inside the reply, and there is none exactly when no '{' precedes a '}' |
| Simulation.ParseEvalResponse | eval_code/benchmarks/multi_turn/coser/benchmark.py:915-951 | a computed score is the formula's score for the summed flaw severities and lies in [0, 100]; no brace span, unparsable JSON or a missing dimension gives the default of 50 with no flaws; a non-object dimension raises, and so do flaws that cannot be summed (an empty object or string sums to 0) |
| Simulation.NoFlawsFullMarks | eval_code/benchmarks/multi_turn/coser/benchmark.py:931-946 | a dimension with no flaws scores 100 |
| Simulation.NoDashInNumber | eval_code/benchmarks/multi_turn/coser/benchmark.py:347-352 | a printed index holds no '-' |
| Simulation.SampleIdFields | eval_code/benchmarks/multi_turn/coser/benchmark.py:347-352 | the sample id splits back from the right into book, i_p and i_c, with the defaults "unknown", the index and 0 |
| ChatTemplates.TemplateName | eval_code/models/chat_templates.py:132-139 | the name is lower-cased; her variants, qwen3 and chatml resolve to qwen, coser and llama variants to llama3, api/default/openai and unknown names to None, and every result is a known template |
| ChatTemplates.LowerIdempotent | eval_code/models/chat_templates.py:134 | lower-casing twice is lower-casing once |
| ChatTemplates.TemplateNameCaseInsensitive | eval_code/models/chat_templates.py:132-139 | template resolution ignores letter case |
| ChatTemplates.StopTokens | eval_code/models/chat_templates.py:268-273 | the stop tokens are empty exactly for api or unknown templates, and are the qwen or llama3 list otherwise |
| ChatTemplates.FormatOf | eval_code/models/chat_templates.py:298-299 | only "coser" selects the bracket format; every other name falls back to her |
| ChatTemplates.ReplaceSame | eval_code/models/chat_templates.py:303-308 | replacing a marker by itself changes nothing |
| ChatTemplates.ConvertRoleplayContent | eval_code/models/chat_templates.py:276-310 | the content is unchanged when source equals target, when both resolve to the same format, or when it holds none of the source markers |
| ChatTemplates.ConvertUnchanged | eval_code/models/chat_templates.py:298-308 | the four replacements are the identity between equal formats or on marker-free content |
| ChatTemplates.HerToCoserBrackets | eval_code/models/chat_templates.py:298-308 | on well-formed HER markup, her-to-coser conversion turns the thinking and action tags into `[`, `]`, `(`, `)` and keeps everything else |
| ChatTemplates.ApplyRoleplayFormat | eval_code/models/chat_templates.py:313-341 | same message count and order, roles and names kept, each content converted, and the list returned as is when the formats agree |
| ChatTemplates.DifferentEnds | eval_code/models/chat_templates.py:47-54 | two renderings that differ only in their final marker differ |
| ChatTemplates.QwenTemplateTypo | eval_code/models/chat_templates.py:47-54 | the qwen template as written renders a user turn differently from the chatml template it copies |
| ChatTemplates.Llama3Render | eval_code/models/chat_templates.py:57-65 | the llama3 template always starts with the begin-of-text token |
| ChatTemplates.FallbackApply | eval_code/models/chat_templates.py:203-228 | the fallback loop concatenates each message's template text, prefixing BOS for a llama3 user turn before any system turn, and adds the generation prefix only when asked and the last message is not the assistant's |
| ChatTemplates.FallbackDoubleBos | eval_code/models/chat_templates.py:217-219 | two llama3 user turns without a system message produce two begin-of-text tokens |
| ChatTemplates.FallbackOnceMatchesTemplate | eval_code/models/chat_templates.py:57-65 | with BOS prefixed once, the llama3 fallback text equals the Jinja template's output for conversations without a system message |
| ChatTemplates.QwenFallbackIsChatml | eval_code/models/chat_templates.py:71-76 | the qwen fallback text equals the chatml template's body |
| ChatTemplates.Apply | eval_code/models/chat_templates.py:168-228 | as written: api templates return the messages unformatted and the others a string; with the template engine llama3 output starts with BOS and qwen renders its own template (user turns closed by `<\|im_end\|}`); without it the fallback of lines 203-228 runs, whose qwen text is the chatml body plus the generation prefix when asked and the last turn is not the assistant's |
| ChatTemplates.ApplyIntended | eval_code/models/chat_templates.py:168-228 | the evidently intended `apply`: the same choices, but qwen renders chatml and the llama3 fallback puts BOS in front once |
| ChatTemplates.ApplyAgrees | eval_code/models/chat_templates.py:193-228 | `apply` as written equals the intended output whenever the qwen template sees no user turn and a llama3 fallback conversation opens with its system prompt |
| ChatTemplates.QwenNoUserIsChatml | eval_code/models/chat_templates.py:38-54 | without a user turn the qwen template as written renders exactly chatml |
| ChatTemplates.SystemFirstHasSystem | eval_code/models/chat_templates.py:213-215 | a conversation opening with a system turn has one |
| ChatTemplates.FallbackSystemFirst | eval_code/models/chat_templates.py:203-228 | when the system prompt comes first, the fallback as written and with BOS once give the same text |
| ChatTemplates.QwenFallbackOnce | eval_code/models/chat_templates.py:71-76 | the corrected fallback agrees with chatml for qwen too |
| CoserUtils.StripEach | eval_code/benchmarks/multi_turn/coser/utils.py:53 | every line is stripped, and the line count is kept |
| CoserUtils.RemoveSystemThinking | eval_code/benchmarks/multi_turn/coser/utils.py:19-56 | the intended cleaning: the result holds no system_think(ing), think, thought or role_think opener, is never longer than the input, and equals the single round whenever that round leaves no opener (see Findings) |
| CoserUtils.OnceKeeps | eval_code/benchmarks/multi_turn/coser/utils.py:34-56 | text with no thinking opener and no stray system-thinking closing tag only gets the line cleanup |
| CoserUtils.OnceDropsThinkBlock | eval_code/benchmarks/multi_turn/coser/utils.py:34-56 | one closed `<think>` block is deleted with its tags, and the rest gets the line cleanup |
| CoserUtils.ThinkPassDropsBlock | eval_code/benchmarks/multi_turn/coser/utils.py:41-42 | the `<think>` passes delete the one closed block and leave the text around it |
| CoserUtils.RoundShrinks | eval_code/benchmarks/multi_turn/coser/utils.py:34-56 | one round of the passes never lengthens the text, and shortens it whenever an opener is present |
| CoserUtils.DropTaggedShrinks | eval_code/benchmarks/multi_turn/coser/utils.py:34-50 | deleting a block (closed or running to the end) never lengthens the text, changes it only by shortening it, and shortens it whenever the opener occurs |
| CoserUtils.CleanLinesShrinks | eval_code/benchmarks/multi_turn/coser/utils.py:53-56 | the blank-line cleanup never lengthens the text |
| CoserUtils.JoinStripEachShorter | eval_code/benchmarks/multi_turn/coser/utils.py:53 | stripping every line and rejoining never lengthens the text |
| CoserUtils.OneRoundLeavesOpener | eval_code/benchmarks/multi_turn/coser/utils.py:34-56 | the passes as written turn `<th<thought></thought>ink>s` into `<think>s`, which still holds an opener |
| CoserUtils.HerMarkupKept | eval_code/benchmarks/multi_turn/coser/utils.py:48-56 | well-formed HER markup (role_thinking, role_action, role_speech blocks) passes every tag pass untouched, so only the blank-line cleanup applies: `<role_thinking>` survives because `<role_think>` must be followed by `>` |
| CoserUtils.HerNoOpener | eval_code/benchmarks/multi_turn/coser/utils.py:34-50 | no opener of the five passes matches anywhere in HER markup |
| CoserUtils.SpeakerGroups | eval_code/benchmarks/multi_turn/coser/utils.py:154-157 | every "Next Speaker" match captures a non-empty run free of newlines and '*' |
| CoserUtils.ExtractLastSpeaker | eval_code/benchmarks/multi_turn/coser/utils.py:141-169 | the last match, cleaned, is returned only when non-empty, and holds no newline or '*' |
| CoserUtils.CleanNameChars | eval_code/benchmarks/multi_turn/coser/utils.py:164 | cleaning a captured name adds no newline or '*' |
| CoserUtils.NameIn | eval_code/benchmarks/multi_turn/coser/utils.py:92-96 | a valid character is returned when its lower-cased name occurs in the lower-cased text; None means no valid name occurs |
| CoserUtils.NameInExact | eval_code/benchmarks/multi_turn/coser/utils.py:132-134 | a valid character whose name occurs verbatim is returned; None means none occurs |
| CoserUtils.SpeakerField | eval_code/benchmarks/multi_turn/coser/utils.py:88-101 | the "Next Speaker" field resolves to a valid character, "<END CHAT>" or "random" |
| CoserUtils.FirstLineName | eval_code/benchmarks/multi_turn/coser/utils.py:110-115 | the candidate name is cut at the first newline and the first colon |
| CoserUtils.ParseNspResponse | eval_code/benchmarks/multi_turn/coser/utils.py:59-138 | the result is always a valid character, "<END CHAT>" or "random"; blank input or input longer than max_length gives "random"; the cleaning is the single round of remove_system_thinking as written |
| CoserUtils.NameFromCleaned | eval_code/benchmarks/multi_turn/coser/utils.py:110-138 | from the cleaned reply: a valid character, "<END CHAT>" or "random"; a character picked is named on the first line or somewhere in the cleaned text |
| CoserUtils.SpeakerFieldNamed | eval_code/benchmarks/multi_turn/coser/utils.py:88-101 | a character picked from the "Next Speaker" field is one the field names (equal or contained, ignoring case) |
| CoserUtils.ParseNspNamesMentioned | eval_code/benchmarks/multi_turn/coser/utils.py:59-138 | a character the parser returns is valid, comes from a non-blank reply within max_length, and is named in the "Next Speaker" field or, failing that, in the cleaned reply |
| CoserUtils.PaddedTagMiss | eval_code/benchmarks/multi_turn/coser/utils.py:184-190 | text without '<' holds no thinking block |
| CoserUtils.RemoveInnerThoughtsKeeps | eval_code/benchmarks/multi_turn/coser/utils.py:172-199 | text without thinking tags or brackets, so plain speech and `(...)` actions, only has its lines cleaned |
| CoserUtils.ConvertHerFormatBrackets | eval_code/benchmarks/multi_turn/coser/utils.py:218-239 | on HER markup the conversion maps the thinking and action tags to `[`, `]`, `(`, `)`, deletes the speech tags and strips the result |
| CoserUtils.ConvertDialogueTags | eval_code/benchmarks/multi_turn/coser/utils.py:579-589 | converting coser text to her or qwen wraps one `[x]` in role_thinking tags and one `(y)` in role_action tags and keeps the rest |
| CoserUtils.AddSpeakerName | eval_code/benchmarks/multi_turn/coser/utils.py:303-310 | the text is kept when some stripped line already starts with `speaker:` or the full-width colon, else `speaker: ` is prefixed |
| CoserUtils.AddSpeakerNameIdempotent | eval_code/benchmarks/multi_turn/coser/utils.py:303-310 | after one call the prefix is present, so a second call changes nothing |
| CoserUtils.GetModelType | eval_code/benchmarks/multi_turn/coser/utils.py:468-488 | the model type is one of coser, her, qwen, llama3 and api |
| CoserUtils.QwenParts | eval_code/benchmarks/multi_turn/coser/utils.py:357-379 | one prompt part per message |
| CoserUtils.FormatQwenPrompt | eval_code/benchmarks/multi_turn/coser/utils.py:339-387 | the loop builds exactly `QwenPrompt`: the parts joined by newlines, plus the generation prefix unless the last message is a prefill |
| CoserUtils.QwenPromptEnding | eval_code/benchmarks/multi_turn/coser/utils.py:368-385 | a prompt without a prefill ends by opening an assistant turn; a prompt with one ends with the unclosed prefill tag |
| CoserUtils.SeenTurns | eval_code/benchmarks/multi_turn/coser/utils.py:660-679 | one message per past turn, in order |
| CoserUtils.BuildInitialMessages | eval_code/benchmarks/multi_turn/coser/utils.py:627-681 | the loop builds exactly `InitialMessages` |
| CoserUtils.SeenTurnShape | eval_code/benchmarks/multi_turn/coser/utils.py:662-679 | a turn is named after its speaker, is an assistant message exactly when the speaker is the character, and otherwise a user message that starts with `speaker:` |
| CoserUtils.InitialMessagesShape | eval_code/benchmarks/multi_turn/coser/utils.py:627-681 | the system prompt, the conversation-start marker, then one message per turn before continue_from, each shaped as `SeenTurnShape` says |
| CoserUtils.OpeningShape | eval_code/benchmarks/multi_turn/coser/utils.py:658-679 | the turns follow the opening messages unchanged |
| SftFormat.NoThoughtNoMatch | data_process_code/step1_data_process/convert_to_sft_format.py:115 | text without a bracketed thought gives the thought pattern nothing to delete |
| SftFormat.DropThoughtsFrom | data_process_code/step1_data_process/convert_to_sft_format.py:115 | the deletion scan leaves no bracketed thought behind, and adds no ']' |
| SftFormat.DropThoughtsComplete | data_process_code/step1_data_process/convert_to_sft_format.py:116 | the bracket-deletion pass leaves no `[...]` thought in its output, even one its deletions bring together |
| SftFormat.LeadingThoughtDropped | data_process_code/step1_data_process/convert_to_sft_format.py:116 | a thought that opens the text is deleted with its brackets and the rest is kept |
| SftFormat.ConvertThoughtAction | data_process_code/step1_data_process/convert_to_sft_format.py:37-66 | a thought, blanks, an action and speech become a thinking tag, an action tag and the speech, with no blanks between or after the tags |
| SftFormat.CollapseSpacingPlain | data_process_code/step1_data_process/convert_to_sft_format.py:121-124 | one-line text with no doubled spaces is only stripped by the spacing cleanup |
| SftFormat.HideThoughtShowAction | data_process_code/step1_data_process/convert_to_sft_format.py:102-126 | a turn opening with a thought and an action shows the others only the tagged action and the speech, spacing tidied |
| SftFormat.PlainSpeechUnchanged | data_process_code/step1_data_process/convert_to_sft_format.py:37-66 | text with no brackets, parentheses or tags passes the standard-format conversion unchanged |
| SftFormat.MergeRuns | data_process_code/step1_data_process/convert_to_sft_format.py:411-447 | no more runs than dialogues, and no runs exactly when there are no dialogues |
| SftFormat.Indices | data_process_code/step1_data_process/convert_to_sft_format.py:420 | the list 0..n-1 |
| SftFormat.MergeRunsShape | data_process_code/step1_data_process/convert_to_sft_format.py:420-447 | every run is non-empty with one origin id per message, and adjacent runs belong to different characters |
| SftFormat.MergeRunsIds | data_process_code/step1_data_process/convert_to_sft_format.py:420-447 | the origin_id lists concatenate to 0..n-1 in order |
| SftFormat.MergeRunsOrigins | data_process_code/step1_data_process/convert_to_sft_format.py:420-447 | each merged message is the dialogue its origin id points to, spoken by the run's character |
| SftFormat.MergeDialogues | data_process_code/step1_data_process/convert_to_sft_format.py:411-447 | the merging loop returns `MergeRuns` |
| SftFormat.EnrichDialogues | data_process_code/step1_data_process/convert_to_sft_format.py:397-467 | one enriched entry per run, each with its standard-format and without-think texts; empty input gives [] |
| SftFormat.EnrichedPartition | data_process_code/step1_data_process/convert_to_sft_format.py:420-467 | adjacent enriched entries have different characters, each naming the speaker of its first origin |
| SftFormat.FirstIndex | data_process_code/step1_data_process/convert_to_sft_format.py:129-136 | the position of a name's first appearance, or the length when absent |
| SftFormat.SpeakingCharactersSpec | data_process_code/step1_data_process/convert_to_sft_format.py:129-136 | the speaking characters are distinct, are exactly the non-empty names that occur, and come in first-appearance order |
| SftFormat.GetSpeakingCharacters | data_process_code/step1_data_process/convert_to_sft_format.py:129-136 | the loop returns `SpeakingCharacters` |
| SftFormat.FieldMap | data_process_code/step1_data_process/convert_to_sft_format.py:144-168 | the map's keys are exactly the non-empty names |
| SftFormat.FieldMapLastWins | data_process_code/step1_data_process/convert_to_sft_format.py:144-168 | for a repeated name the last entry's field wins |
| SftFormat.Get | data_process_code/step1_data_process/convert_to_sft_format.py:216-222 | a lookup in an insertion-ordered dict succeeds exactly for its keys |
| SftFormat.Put | data_process_code/step1_data_process/convert_to_sft_format.py:216-222 | assignment adds the key, stores the value and leaves the other keys' values alone |
| SftFormat.OwnProfile | data_process_code/step1_data_process/convert_to_sft_format.py:209-213 | the dataset profile when present and non-empty, else the description, else "" |
| SftFormat.OtherProfilesSpec | data_process_code/step1_data_process/convert_to_sft_format.py:215-222 | other_character_profiles holds exactly the other speaking characters, never the environment, that have a profile or a description, with the dataset profile taking precedence |
| SftFormat.BuildOtherProfiles | data_process_code/step1_data_process/convert_to_sft_format.py:215-222 | the loop returns `OtherProfilesOf` |
| SftFormat.BuildCharacterInfo | data_process_code/step1_data_process/convert_to_sft_format.py:171-238 | info exists exactly for the speaking characters other than the environment, and no character's other profiles mention itself or the environment |
| SftFormat.OthersTextEmpty | data_process_code/step1_data_process/convert_to_sft_format.py:271-276 | the other-characters text is empty exactly when every entry is the character itself or has an empty profile |
| SftFormat.ConcatStartsWith | data_process_code/step1_data_process/convert_to_sft_format.py:279-292 | a concatenation starts with its first part |
| SftFormat.BuildOthersText | data_process_code/step1_data_process/convert_to_sft_format.py:271-276 | the collected text is `OthersText`: one line per other character with a non-empty profile, in dictionary order |
| SftFormat.GetCharacterPrompt | data_process_code/step1_data_process/convert_to_sft_format.py:254-292 | the prompt is `CharacterPrompt` and starts with the "You are ... from ..." line |
| SftFormat.SampleFor | data_process_code/step1_data_process/convert_to_sft_format.py:337-392 | the per-character loop builds `Sample` |
| SftFormat.AssistantsSnoc | data_process_code/step1_data_process/convert_to_sft_format.py:371-375 | appending a message adds it to the assistant messages exactly when it is one |
| SftFormat.MsgIdsSnoc | data_process_code/step1_data_process/convert_to_sft_format.py:358-390 | appending a message appends its origin ids |
| SftFormat.ColonFlushable | data_process_code/step1_data_process/convert_to_sft_format.py:357-379 | once another character's line has been buffered, the buffer is flushed before the next reply |
| SftFormat.FoldShaped | data_process_code/step1_data_process/convert_to_sft_format.py:338-380 | during the loop the messages start with the system prompt, hold no second system message and never two user messages in a row |
| SftFormat.FoldPending | data_process_code/step1_data_process/convert_to_sft_format.py:343-380 | the user buffer is either the start marker, empty, or holds another character's line, and ids are pending only with flushable text |
| SftFormat.FoldReplies | data_process_code/step1_data_process/convert_to_sft_format.py:354-375 | the assistant messages are exactly the target's own turns, as `name: standard_format`, in order |
| SftFormat.FoldIds | data_process_code/step1_data_process/convert_to_sft_format.py:344-380 | the emitted and pending origin ids together are every turn's ids in order |
| SftFormat.SampleShape | data_process_code/step1_data_process/convert_to_sft_format.py:337-392 | each sample starts with its single system message and never has two user messages in a row |
| SftFormat.FinishShape | data_process_code/step1_data_process/convert_to_sft_format.py:382-390 | the final flush keeps that shape and adds the pending user text |
| SftFormat.SampleContents | data_process_code/step1_data_process/convert_to_sft_format.py:337-392 | the target's own turns, and only they, are its assistant messages, and the messages' origin ids are every turn's ids in order |
| SftFormat.CharactersOf | data_process_code/step1_data_process/convert_to_sft_format.py:318 | the characters of the dialogue, in order |
| SftFormat.BuildTrainingSamplesSharegpt | data_process_code/step1_data_process/convert_to_sft_format.py:295-394 | samples exist exactly for the non-environment speaking characters that have info, each built by `Sample` from its prompt |
| SingleTurn.AssistantPositions | training_code/step1_roleplay_sft/split_to_single_turn.py:45-46 | one position per assistant message, each pointing at an assistant message |
| SingleTurn.AssistantPositionsOrdered | training_code/step1_roleplay_sft/split_to_single_turn.py:45-46 | the positions increase and include every assistant message |
| SingleTurn.AssistantPositionsCounted | training_code/step1_roleplay_sft/split_to_single_turn.py:45-56 | the k-th position closes a prefix holding exactly k + 1 assistant messages |
| SingleTurn.SingleTurns | training_code/step1_roleplay_sft/split_to_single_turn.py:28-58 | no samples unless the first message is a system message, and then one sample per assistant message |
| SingleTurn.SplitToSingleTurns | training_code/step1_roleplay_sft/split_to_single_turn.py:28-58 | the loop over the messages returns `SingleTurns`: one sample per assistant message, or none |
| SingleTurn.SystemPrefix | training_code/step1_roleplay_sft/split_to_single_turn.py:48 | `[system_msg] + messages[1:i+1]` is the prefix of length i + 1 |
| SingleTurn.PositionsSnoc | training_code/step1_roleplay_sft/split_to_single_turn.py:45-46 | scanning one more message adds its position exactly when it is an assistant message |
| SingleTurn.SingleTurnsChain | training_code/step1_roleplay_sft/split_to_single_turn.py:48-56 | every sample ends with an assistant message and is a strict prefix of the next |
| SingleTurn.TurnTraceId | training_code/step1_roleplay_sft/split_to_single_turn.py:83 | the new trace id extends the old one with `_turn_` |
| SingleTurn.TurnTraceIdInjective | training_code/step1_roleplay_sft/split_to_single_turn.py:81-83 | different turn indexes give different trace ids |
| SingleTurn.Records | training_code/step1_roleplay_sft/split_to_single_turn.py:79-95 | one record per sample |
| SingleTurn.ProcessConversation | training_code/step1_roleplay_sft/split_to_single_turn.py:75-95 | the record loop returns `Records` |
| SingleTurn.HistoryIsTurnIndex | training_code/step1_roleplay_sft/split_to_single_turn.py:86-94 | history_turns (assistant messages minus one) equals the turn index |
| SftConvert.SafeName | training_code/step1_roleplay_sft/convert_to_sft.py:55 | same length, alphanumerics kept, every other character replaced by '_' |
| SftConvert.SafeNameIdempotent | training_code/step1_roleplay_sft/convert_to_sft.py:55 | sanitising twice is sanitising once |
| SftConvert.TraceId | training_code/step1_roleplay_sft/convert_to_sft.py:56 | the trace id is the base, '_', and the sanitised name |
| SftConvert.TraceIdCollision | training_code/step1_roleplay_sft/convert_to_sft.py:55-56 | two names share a trace id exactly when they agree in length and in every position where either is alphanumeric |
| SftConvert.LastAssistant | training_code/step1_roleplay_sft/convert_to_sft.py:59-62 | the index of the last assistant message, or -1 when there is none |
| SftConvert.FindLastAssistant | training_code/step1_roleplay_sft/convert_to_sft.py:59-62 | the scan returns `LastAssistant` |
| SftConvert.MapRole | training_code/step1_roleplay_sft/convert_to_sft.py:77-81 | system stays system; assistant and role_answer become assistant; every other role becomes user |
| SftConvert.CleanMessages | training_code/step1_roleplay_sft/convert_to_sft.py:65-93 | the cleaning loop returns `Clean` |
| SftConvert.Kept | training_code/step1_roleplay_sft/convert_to_sft.py:72-73 | the positions of exactly the non-empty messages, in order |
| SftConvert.CleanSpec | training_code/step1_roleplay_sft/convert_to_sft.py:65-93 | one clean message per non-empty message, with its role mapped, and its content prefixed with the revised system thinking only at the last assistant message when that thinking is non-empty |
| SftConvert.CleanLength | training_code/step1_roleplay_sft/convert_to_sft.py:72-73 | empty messages are dropped and no others |
| SftConvert.CleanKept | training_code/step1_roleplay_sft/convert_to_sft.py:66-93 | each clean message carries the mapped role and the (possibly prefixed) content of its kept source message |
| SftConvert.CleanKeptStep | training_code/step1_roleplay_sft/convert_to_sft.py:66-93 | that correspondence survives one more loop step |
| SftConvert.CleanLastIrrelevant | training_code/step1_roleplay_sft/convert_to_sft.py:85 | an index past the end marks no message as last |
| SftConvert.CleanWellFormed | training_code/step1_roleplay_sft/convert_to_sft.py:66-93 | every clean message is non-empty with role system, user or assistant |
| SftConvert.OnlyLastReplyGainsThinking | training_code/step1_roleplay_sft/convert_to_sft.py:83-88 | a message whose content changed is the last assistant message and had non-empty revised thinking |
| SftConvert.Convert | training_code/step1_roleplay_sft/convert_to_sft.py:42-103 | a character without a role on its first message fails; a sample is emitted exactly when the first message is a system message and more than one clean message remains, with the sanitised trace id and the clean messages |
| SftConvert.EmittedStartsWithSystem | training_code/step1_roleplay_sft/convert_to_sft.py:47-93 | an emitted sample starts with the unchanged system prompt exactly when that prompt is non-empty |
| SftConvert.ConvertCharacter | training_code/step1_roleplay_sft/convert_to_sft.py:42-103 | the per-character body returns `Convert` |
| SftConvert.LineSamples | training_code/step1_roleplay_sft/convert_to_sft.py:42-106 | at most one sample per character |
| SftConvert.ConvertLine | training_code/step1_roleplay_sft/convert_to_sft.py:38-106 | the character loop returns `LineSamples` |
| SftConvert.LineSamplesShape | training_code/step1_roleplay_sft/convert_to_sft.py:95-103 | every emitted sample has at least two messages and the trace id of one of the characters |
| FixMerge.FixJsonQuotes | data_process_code/step3_gen_systhinking/step3_10_fix_and_merge.py:26-49 | the character loop with its in-string flag returns the repair `FixQuotes` |
| FixMerge.Unescape | data_process_code/step3_gen_systhinking/step3_10_fix_and_merge.py:26-49 | reading `\"` back as a quote never lengthens the text |
| FixMerge.FixFromUnescape | data_process_code/step3_gen_systhinking/step3_10_fix_and_merge.py:31-48 | from any position and either flag value, the repaired text reads back as the original |
| FixMerge.FixQuotesUnescape | data_process_code/step3_gen_systhinking/step3_10_fix_and_merge.py:26-49 | the repair keeps every character and changes only how quotes are escaped |
| FixMerge.FixFromNoQuote | data_process_code/step3_gen_systhinking/step3_10_fix_and_merge.py:45-47 | a text without a quote is copied unchanged |
| FixMerge.QuoteDecisions | data_process_code/step3_gen_systhinking/step3_10_fix_and_merge.py:33-45 | outside a string a bare quote is kept; inside, it is kept when the next non-space character is one of `,}]:` and is emitted as `\"` otherwise |
| FixMerge.JsonFence | data_process_code/step3_gen_systhinking/step3_10_fix_and_merge.py:55-58 | a fenced block is only taken from a text that contains the json fence |
| FixMerge.ArrayClose | data_process_code/step3_gen_systhinking/step3_10_fix_and_merge.py:61-64 | the closing bracket found is followed by optional space and a closing fence |
| FixMerge.FencedArrayAt | data_process_code/step3_gen_systhinking/step3_10_fix_and_merge.py:61-64 | a match at a fence is a span that opens with `[` and closes with `]` |
| FixMerge.FencedArrayFrom | data_process_code/step3_gen_systhinking/step3_10_fix_and_merge.py:60-64 | the leftmost fenced match is such a bracketed span too |
| FixMerge.BalancedEnd | data_process_code/step3_gen_systhinking/step3_10_fix_and_merge.py:67-76 | the first end after the start where the brackets balance, or none when they never do |
| FixMerge.DepthPositive | data_process_code/step3_gen_systhinking/step3_10_fix_and_merge.py:69-76 | from an opening bracket the depth stays positive until it first returns to zero |
| FixMerge.BracketFallbackSome | data_process_code/step3_gen_systhinking/step3_10_fix_and_merge.py:67-76 | the fallback returns the span from the first `[` to its depth-matching `]`, balanced and with positive depth inside |
| FixMerge.BracketFallbackNone | data_process_code/step3_gen_systhinking/step3_10_fix_and_merge.py:67-78 | the fallback gives nothing exactly when there is no `[` or the first one is never closed |
| FixMerge.BracketSpan | data_process_code/step3_gen_systhinking/step3_10_fix_and_merge.py:67-78 | the bracket-depth scan returns `BracketFallback` |
| FixMerge.ExtractJsonRobust | data_process_code/step3_gen_systhinking/step3_10_fix_and_merge.py:52-78 | the three attempts in order return `ExtractJson` |
| FixMerge.ExtractJsonOrder | data_process_code/step3_gen_systhinking/step3_10_fix_and_merge.py:54-78 | with no fence only the bracket fallback applies; with neither fence nor `[` nothing is found; a plain fence with an array yields that array stripped |
| FixMerge.PyInt | data_process_code/step3_gen_systhinking/step3_10_fix_and_merge.py:93-96 | a decimal digit string converts to its value |
| FixMerge.ParseTraceId | data_process_code/step3_gen_systhinking/step3_10_fix_and_merge.py:81-98 | a result exists only for ids with the generator prefix and at least three '/'-separated parts, and its parts hold no '/' |
| FixMerge.ParseTraceIdRoundTrip | data_process_code/step3_gen_systhinking/step3_10_fix_and_merge.py:81-98 | parsing `sys_gen_<prefix>/<character>/<index>` gives back the prefix, the character and `int(index)` |
| FixMerge.ParseTraceIdNeedsPrefix | data_process_code/step3_gen_systhinking/step3_10_fix_and_merge.py:84-85 | an id without the generator prefix gives nothing |
| FixMerge.ResolveOrigin | data_process_code/step3_gen_systhinking/step3_10_fix_and_merge.py:255-264 | an absent origin id gives none; a list gives its first entry, and an empty list none |
| FixMerge.RecordId | data_process_code/step3_gen_systhinking/step3_10_fix_and_merge.py:244 | the book-chapter trace id when it is non-empty, else the plain trace id |
| FixMerge.MergeTurn | data_process_code/step3_gen_systhinking/step3_10_fix_and_merge.py:266-278 | the revised thinking keyed by origin id when present; else the original keyed by the 1-based assistant index; else the turn is unchanged, and role and origin id never change |
| FixMerge.Replies | data_process_code/step3_gen_systhinking/step3_10_fix_and_merge.py:250-253 | no more replies than turns |
| FixMerge.Tally | data_process_code/step3_gen_systhinking/step3_10_fix_and_merge.py:248-278 | total_turns counts every assistant turn, and the three counters together do not exceed it |
| FixMerge.TallySnoc | data_process_code/step3_gen_systhinking/step3_10_fix_and_merge.py:249-278 | one more turn moves the counters by that turn's fate only when it is an assistant turn |
| FixMerge.LookupTurn | data_process_code/step3_gen_systhinking/step3_10_fix_and_merge.py:255-278 | the lookup for one turn returns `MergeTurn` and its fate |
| FixMerge.MergeCharacter | data_process_code/step3_gen_systhinking/step3_10_fix_and_merge.py:247-278 | updates every turn in place to its merged form, ranking assistant turns from 1, and returns `Tally` of the original turns |
| FixMerge.RanksDistinct | data_process_code/step3_gen_systhinking/step3_10_fix_and_merge.py:250-253 | different assistant turns get different ranks, counted from 1 |
| FixMerge.RepliesMonotone | data_process_code/step3_gen_systhinking/step3_10_fix_and_merge.py:250-253 | a longer prefix has at least as many replies |
| FixMerge.TallyPartition | data_process_code/step3_gen_systhinking/step3_10_fix_and_merge.py:248-278 | every assistant turn counts exactly once, as revised, original, not found or without an origin id |
| ThinkSplit.FirstEndTag | data_process_code/step3_gen_systhinking/step3_3_extract_model_think.py:24-43 | the first end tag in the order thinker, think, thinking, thought that the text contains, and none of the earlier ones occur; none when no tag occurs |
| ThinkSplit.DropOpenTag | data_process_code/step3_gen_systhinking/step3_3_extract_model_think.py:48-51 | dropping a leading opening tag only shortens the thinking to a piece of itself |
| ThinkSplit.SkipAlpha | data_process_code/step3_gen_systhinking/step3_3_extract_model_think.py:59 | the run of letters from a position, ending at a non-letter or the end |
| ThinkSplit.WordEnd | data_process_code/step3_gen_systhinking/step3_3_extract_model_think.py:59 | a capitalised word spans at least two characters |
| ThinkSplit.NameEnd | data_process_code/step3_gen_systhinking/step3_3_extract_model_think.py:59 | further capitalised words stay inside the text |
| ThinkSplit.FirstSpeakerLine | data_process_code/step3_gen_systhinking/step3_3_extract_model_think.py:58-60 | the first position of a "\nName: " line followed by a role tag or a plain character, and none before it; none when there is no such line |
| ThinkSplit.Before | data_process_code/step3_gen_systhinking/step3_3_extract_model_think.py:62 | the stripped text before a position is a piece of the text |
| ThinkSplit.After | data_process_code/step3_gen_systhinking/step3_3_extract_model_think.py:63 | the stripped text from a position on is a piece of the text |
| ThinkSplit.SplitAt | data_process_code/step3_gen_systhinking/step3_3_extract_model_think.py:61-64 | both halves of a split are pieces of the text |
| ThinkSplit.TagSplitAt | data_process_code/step3_gen_systhinking/step3_3_extract_model_think.py:44-53 | the response is the stripped text after the end tag, the method is the tag's name, and the thinking is a piece of the text |
| ThinkSplit.SplitTagged | data_process_code/step3_gen_systhinking/step3_3_extract_model_think.py:44-53 | the split at a closing tag is made at its first occurrence, and the response is what follows that tag |
| ThinkSplit.SplitUntagged | data_process_code/step3_gen_systhinking/step3_3_extract_model_think.py:56-75 | without a closing tag: a speaker line splits by name exactly when one exists, else `<role_thinking>` splits directly exactly when it occurs, else there is no split and everything is the response |
| ThinkSplit.TagSplitFirst | data_process_code/step3_gen_systhinking/step3_3_extract_model_think.py:45 | splitting at the first occurrence of the tag puts everything after it in the response |
| ThinkSplit.SplitStripped | data_process_code/step3_gen_systhinking/step3_3_extract_model_think.py:40-75 | a tag split uses the first tag in order that occurs and is `TagSplitAt` its first occurrence (thinking before it with a leading open tag dropped, response after it); without a tag the name pattern splits at the first speaker line exactly when one exists, else `<role_thinking>` splits at its first occurrence; with no match at all the result is ('', text, no_split) |
| ThinkSplit.NothingInvented | data_process_code/step3_gen_systhinking/step3_3_extract_model_think.py:32-75 | whatever the method, thinking and response are pieces of the stripped text |
| ThinkSplit.NoSplitIff | data_process_code/step3_gen_systhinking/step3_3_extract_model_think.py:42-75 | no_split exactly when the text has no end tag, no speaker line and no `<role_thinking>` |
| NormalizeFilenames.ApplyTableConcat | data_process_code/step1_data_process/normalize_filenames.py:55-56 | replacing table entries distributes over concatenation |
| NormalizeFilenames.ApplyTableNoop | data_process_code/step1_data_process/normalize_filenames.py:55-56 | a name holding none of the table's characters is unchanged |
| NormalizeFilenames.ApplyTableOneChar | data_process_code/step1_data_process/normalize_filenames.py:55-56 | in a table whose replacements contain none of its keys, one character becomes its entry |
| NormalizeFilenames.LookupIsTranslate | data_process_code/step1_data_process/normalize_filenames.py:44-53 | the replacement table maps each typographic character to its plain form |
| NormalizeFilenames.LookupStep | data_process_code/step1_data_process/normalize_filenames.py:55 | looking a character up tries the entries in order |
| NormalizeFilenames.TranslateAll | data_process_code/step1_data_process/normalize_filenames.py:43-56 | no typographic quote, dash, ellipsis or zero-width space remains, and a name without them is unchanged |
| NormalizeFilenames.ApplyTableIsTranslate | data_process_code/step1_data_process/normalize_filenames.py:55-56 | replacing entry by entry equals translating each character once |
| NormalizeFilenames.CollapseUnderscores | data_process_code/step1_data_process/normalize_filenames.py:69 | no two consecutive underscores remain, the first and last characters are kept, and a name without a double underscore is unchanged |
| NormalizeFilenames.SkipUnderscores | data_process_code/step1_data_process/normalize_filenames.py:74 | the run of underscores at the front of the base |
| NormalizeFilenames.BackUnderscores | data_process_code/step1_data_process/normalize_filenames.py:74 | the run of underscores at the end of the base |
| NormalizeFilenames.StripUnderscores | data_process_code/step1_data_process/normalize_filenames.py:74 | the result neither starts nor ends with '_', and a base that does neither is unchanged |
| NormalizeFilenames.CollapseAvoids | data_process_code/step1_data_process/normalize_filenames.py:69 | collapsing underscores brings in no new character |
| NormalizeFilenames.NormalizeFilename | data_process_code/step1_data_process/normalize_filenames.py:39-77 | the sequence of rewrites returns `Normalized` |
| NormalizeFilenames.PunctuationClean | data_process_code/step1_data_process/normalize_filenames.py:58-66 | after the table, removing '!' and '?' and replacing ';' and ' ' leaves none of the forbidden characters |
| NormalizeFilenames.Collapsed | data_process_code/step1_data_process/normalize_filenames.py:43-69 | after steps 1 to 5 the name has no forbidden character and no double underscore |
| NormalizeFilenames.TrimJsonBaseAvoids | data_process_code/step1_data_process/normalize_filenames.py:72-75 | trimming the base of a .json name brings in no new character |
| NormalizeFilenames.TrimJsonBaseNoDouble | data_process_code/step1_data_process/normalize_filenames.py:72-75 | trimming the base keeps the absence of double underscores |
| NormalizeFilenames.TrimJsonBaseIdempotent | data_process_code/step1_data_process/normalize_filenames.py:72-75 | trimming twice is trimming once |
| NormalizeFilenames.JsonSuffixClean | data_process_code/step1_data_process/normalize_filenames.py:75 | the suffix .json has no forbidden character |
| NormalizeFilenames.NormalizedClean | data_process_code/step1_data_process/normalize_filenames.py:39-77 | the output has no space, '!', '?', ';' or typographic quote, dash, ellipsis or zero-width space |
| NormalizeFilenames.NormalizedNoDoubleUnderscore | data_process_code/step1_data_process/normalize_filenames.py:69-77 | the output has no two consecutive underscores |
| NormalizeFilenames.NormalizedJson | data_process_code/step1_data_process/normalize_filenames.py:72-75 | a .json name keeps its extension and its base neither starts nor ends with '_' |
| NormalizeFilenames.CollapsedFixed | data_process_code/step1_data_process/normalize_filenames.py:43-69 | steps 1 to 5 leave a clean name without double underscores unchanged |
| NormalizeFilenames.NormalizedIdempotent | data_process_code/step1_data_process/normalize_filenames.py:39-77 | normalising a normalised name returns it unchanged |
| SplitTrainTest.RightmostPair | training_code/step1_roleplay_sft/split_train_test.py:62-67 | the rightmost index whose part and the part before it are both digit strings, with none to its right; none when no such pair exists |
| SplitTrainTest.KeyOfParts | training_code/step1_roleplay_sft/split_train_test.py:58-80 | no key exactly when no two adjacent parts are digit strings |
| SplitTrainTest.ExtractKeyFromTraceId | training_code/step1_roleplay_sft/split_train_test.py:55-80 | the key returned is `KeyOf` of the trace id: the scan over its last eleven '_'-parts |
| SplitTrainTest.ScanForPair | training_code/step1_roleplay_sft/split_train_test.py:57-80 | the backward scan returns `KeyOfParts`: the key of the rightmost adjacent pair of digit parts (parts before i_p joined by '_', with i_p and i_c), or nothing when no two digit parts are adjacent |
| SplitTrainTest.KeyOfRoundTrip | training_code/step1_roleplay_sft/split_train_test.py:40-80 | the id `<prefix>_<i_p>_<i_c>_<name>` of a single-word, non-numeric name gives back (prefix, i_p, i_c) |
| SplitTrainTest.TraceIdParts | training_code/step1_roleplay_sft/split_train_test.py:55 | splitting at most ten times from the right leaves the last three parts separate |
| SplitTrainTest.TestKeyOf | training_code/step1_roleplay_sft/split_train_test.py:29-35 | an entry gives a key exactly when it has a non-empty book, an i_p and an i_c; its book has its spaces turned into '_' |
| SplitTrainTest.KeySet | training_code/step1_roleplay_sft/split_train_test.py:32-35 | the entry's key, when it has one |
| SplitTrainTest.TestKeysSpec | training_code/step1_roleplay_sft/split_train_test.py:27-37 | a key is loaded exactly when some entry gives it |
| SplitTrainTest.LoadTestCases | training_code/step1_roleplay_sft/split_train_test.py:22-37 | the loop returns `TestKeys` |
| SplitTrainTest.GroupTestKeys | training_code/step1_roleplay_sft/split_train_test.py:106-109 | the loop returns `Groups`: the books of the keys, grouped by (i_p, i_c) |
| SplitTrainTest.GroupsAdd | training_code/step1_roleplay_sft/split_train_test.py:107-109 | one more key adds its book to its (i_p, i_c) group |
| SplitTrainTest.IsTestIff | training_code/step1_roleplay_sft/split_train_test.py:117-127 | a record is test exactly when its id has a key and some test case with the same (i_p, i_c) has a book that is a substring of the prefix |
| SplitTrainTest.ClassifyRecords | training_code/step1_roleplay_sft/split_train_test.py:111-132 | the loop sends each record to test or to train, in order |
| SplitTrainTest.FilterSpec | training_code/step1_roleplay_sft/split_train_test.py:129-132 | a record is in the test list exactly when it is test, and in the train list exactly when it is not |
| SplitTrainTest.FilterPartition | training_code/step1_roleplay_sft/split_train_test.py:129-132 | every record lands in exactly one of the two lists |
| RlFormat.BetterAt | training_code/step4_roleplay_rl/main.py:12 | a match at a position names cand_1 or cand_2 |
| RlFormat.FirstBetter | training_code/step4_roleplay_rl/main.py:12-13 | the leftmost position where the verdict pattern matches, and none before it |
| RlFormat.FindBetter | training_code/step4_roleplay_rl/main.py:12-15 | the search finds cand_1 or cand_2, and finds something exactly when the pattern matches somewhere |
| RlFormat.CountChar | training_code/step4_roleplay_rl/main.py:58 | a count never exceeds the length |
| RlFormat.CountCharRStrip | training_code/step4_roleplay_rl/main.py:58-62 | trailing whitespace holds no quote |
| RlFormat.FixLineBalances | training_code/step4_roleplay_rl/main.py:58-62 | a qualifying odd-quote line gets exactly one closing quote after its trailing space is dropped, and its quote count becomes even |
| RlFormat.ClosingQuoteBalances | training_code/step4_roleplay_rl/main.py:62 | adding one quote to an odd count makes it even and keeps the stripped line as a prefix |
| RlFormat.OddSucc | training_code/step4_roleplay_rl/main.py:59 | one more than an odd count is even |
| RlFormat.FixLineOneLine | training_code/step4_roleplay_rl/main.py:56-63 | repairing a line never adds a line break |
| RlFormat.ClosingQuoteOneLine | training_code/step4_roleplay_rl/main.py:62 | the closing quote does not add a line break |
| RlFormat.FixLineIdempotent | training_code/step4_roleplay_rl/main.py:58-62 | repairing a repaired line changes nothing |
| RlFormat.FixAll | training_code/step4_roleplay_rl/main.py:56-63 | one repaired line per line, each repaired on its own |
| RlFormat.FixCommonJsonErrors | training_code/step4_roleplay_rl/main.py:50-65 | the line loop returns `FixedJson` |
| RlFormat.FixedJsonLines | training_code/step4_roleplay_rl/main.py:53-65 | the repaired text splits into the repaired lines, so the line count is kept |
| RlFormat.FixedJsonIdempotent | training_code/step4_roleplay_rl/main.py:50-65 | repairing repaired JSON changes nothing |
| RlFormat.StripFences | training_code/step4_roleplay_rl/main.py:20-24 | removing the fences never lengthens the text |
| RlFormat.VerdictOf | training_code/step4_roleplay_rl/main.py:38-41 | a verdict is found only as the better_response member of the first entry of a non-empty result list |
| RlFormat.ExtractBetterResponse | training_code/step4_roleplay_rl/main.py:5-48 | blank input gives none; a pattern hit gives cand_1 or cand_2 before any parsing; without a hit, stripped content shorter than 20 characters gives none, and otherwise the verdict of the repaired, parsed JSON |
| RlFormat.VerdictRoundTrip | training_code/step4_roleplay_rl/main.py:12-15 | a reply holding `"better_response": "cand_N"` with no quote before it yields cand_N |
| RlFormat.VerdictLayout | training_code/step4_roleplay_rl/main.py:12 | where the key, the spaces and the quoted verdict sit in such a reply |
| RlFormat.NoKeyAt | training_code/step4_roleplay_rl/main.py:12 | no match can start where there is no quote |
| RlFormat.BetterAtHit | training_code/step4_roleplay_rl/main.py:12 | the key followed by spaces and a quoted cand_N matches with that verdict |
| RlFormat.SkipSpaceRun | training_code/step4_roleplay_rl/main.py:12 | `\s*` consumes exactly the run of spaces |
| RlFormat.FirstBetterFrom | training_code/step4_roleplay_rl/main.py:13 | a match with none before it is the one the search finds |
| RlFormat.BuildPrompt | training_code/step4_roleplay_rl/main.py:79-92 | a prefix of the messages that drops the last message exactly when it is an assistant message, and nothing else; empty stays empty |
| RlFormat.Candidates | training_code/step4_roleplay_rl/main.py:67-74 | cand_1 and cand_2 are present exactly when candidate_1 and candidate_2 are, with their texts |
| RlFormat.ConvertToRlFormat | training_code/step4_roleplay_rl/main.py:94-125 | the prompt is `BuildPrompt` of the messages; the answer is the chosen candidate, or "" when that key is absent; data source, golden type and index are the constants |
| RlFormat.VerdictPicksCandidate | training_code/step4_roleplay_rl/main.py:5-15 | a reply with a verdict, on a record with both candidates, trains on the candidate it names |
| MergeExtract.JsonFence | data_process_code/step2_gen_rolethinking/merge_extract_results.py:26 | a json-fenced block is only taken from a text that contains the json fence |
| MergeExtract.PlainFence | data_process_code/step2_gen_rolethinking/merge_extract_results.py:34 | a fenced block is only taken from a text that contains a fence |
| MergeExtract.WidestBraces | data_process_code/step2_gen_rolethinking/merge_extract_results.py:61 | the widest brace span opens with `{` and closes with `}` |
| MergeExtract.MatchingOpen | data_process_code/step2_gen_rolethinking/merge_extract_results.py:45-56 | from the last `}` the backward scan stops at the first `{` where the braces balance to zero, and gives none when they never do |
| MergeExtract.OpenFrom | data_process_code/step2_gen_rolethinking/merge_extract_results.py:49-56 | the scan from any point keeps the brace excess positive until it stops |
| MergeExtract.StaysPositive | data_process_code/step2_gen_rolethinking/merge_extract_results.py:49-56 | a non-zero excess stays positive before the stopping point |
| MergeExtract.ZeroAtOpen | data_process_code/step2_gen_rolethinking/merge_extract_results.py:52-55 | the excess first reaches zero at a `{` |
| MergeExtract.ScanBack | data_process_code/step2_gen_rolethinking/merge_extract_results.py:43-56 | the backward loop with its brace counter returns `MatchingOpen` |
| MergeExtract.BackwardSpan | data_process_code/step2_gen_rolethinking/merge_extract_results.py:41-56 | the span found opens with `{`, closes with `}` and its braces balance |
| MergeExtract.ExcessSlice | data_process_code/step2_gen_rolethinking/merge_extract_results.py:55 | the excess of the cut-out span equals the excess in the text |
| MergeExtract.ExcessShift | data_process_code/step2_gen_rolethinking/merge_extract_results.py:55 | dropping a leading character shifts the excess positions by one |
| MergeExtract.Returned | data_process_code/step2_gen_rolethinking/merge_extract_results.py:19-68 | a parsed `null` counts as nothing extracted |
| MergeExtract.Attempts | data_process_code/step2_gen_rolethinking/merge_extract_results.py:19-66 | the attempts start with the whole text, then json fence, plain fence, last balanced braces and widest braces, five in all |
| MergeExtract.FirstParsed | data_process_code/step2_gen_rolethinking/merge_extract_results.py:19-68 | the value returned is never null |
| MergeExtract.FirstParsedSpec | data_process_code/step2_gen_rolethinking/merge_extract_results.py:19-68 | the first attempt that exists and parses decides the result; if none does, nothing is extracted |
| MergeExtract.FirstDecider | data_process_code/step2_gen_rolethinking/merge_extract_results.py:19-66 | the index of that deciding attempt |
| MergeExtract.ExtractJson | data_process_code/step2_gen_rolethinking/merge_extract_results.py:14-68 | empty text gives none; text that parses whole gives its value |
| MergeExtract.MakeRow | data_process_code/step2_gen_rolethinking/merge_extract_results.py:86-113 | parse_success holds exactly when a value was extracted, and that value is the extraction of the model output; the status defaults to "unknown" |
| MergeExtract.TallyAddsUp | data_process_code/step2_gen_rolethinking/merge_extract_results.py:146-155 | total is the number of rows, succeeded + failed = total and parse_success + parse_failed = total |
| MergeExtract.TallyAppend | data_process_code/step2_gen_rolethinking/merge_extract_results.py:141-155 | counting file by file is counting all rows at once |
| MergeExtract.MergeAndExtract | data_process_code/step2_gen_rolethinking/merge_extract_results.py:124-161 | the rows of all files in order, and the counters `Tally` of them; the outputs are written exactly when there is at least one row, since the percentage summary divides by the total |
| FilterQuality.FenceAt | training_code/step2_reward_sft/filter_high_quality_sft.py:24 | a fenced block is only read where the json fence opens |
| FilterQuality.FirstFence | training_code/step2_reward_sft/filter_high_quality_sft.py:24 | the leftmost position where the fence pattern matches, and none before it |
| FilterQuality.ExtractResponseJson | training_code/step2_reward_sft/filter_high_quality_sft.py:18-35 | empty text gives none; with a fenced block only that block is parsed; otherwise the whole text is parsed |
| FilterQuality.NoFenceParsesWhole | training_code/step2_reward_sft/filter_high_quality_sft.py:31-35 | text without a json fence is parsed whole |
| FilterQuality.FenceNotIn | training_code/step2_reward_sft/filter_high_quality_sft.py:24 | no fence starts inside a prefix without a backtick |
| FilterQuality.PartAt | training_code/step2_reward_sft/filter_high_quality_sft.py:24 | where the middle piece of a concatenation sits |
| FilterQuality.FenceOpening | training_code/step2_reward_sft/filter_high_quality_sft.py:24 | the fence and its line break open a block whose body starts after `\s*` |
| FilterQuality.FenceBody | training_code/step2_reward_sft/filter_high_quality_sft.py:24 | the lazy body stops at the first closing fence |
| FilterQuality.NoCloseAt | training_code/step2_reward_sft/filter_high_quality_sft.py:24 | a body without a closing fence has none inside it |
| FilterQuality.FirstCloseAt | training_code/step2_reward_sft/filter_high_quality_sft.py:24 | the first closing fence is the one the search finds |
| FilterQuality.FenceRoundTrip | training_code/step2_reward_sft/filter_high_quality_sft.py:18-29 | a reply holding one fenced block after backtick-free text parses exactly that block |
| FilterQuality.FirstFenceAt | training_code/step2_reward_sft/filter_high_quality_sft.py:24 | a fence with none before it is the one the search finds |
| FilterQuality.Get | training_code/step2_reward_sft/filter_high_quality_sft.py:42-62 | `.get` works only on objects, and an absent key gives the default |
| FilterQuality.PyLen | training_code/step2_reward_sft/filter_high_quality_sft.py:58 | `len` exists for strings, lists and objects, and is zero exactly when the value is falsy |
| FilterQuality.LoopItems | training_code/step2_reward_sft/filter_high_quality_sft.py:69 | looping over the comparisons visits a list's items; a falsy default visits nothing |
| FilterQuality.CountWinners | training_code/step2_reward_sft/filter_high_quality_sft.py:64-76 | the winners can be counted exactly when every comparison is an object |
| FilterQuality.CountWinnersSpec | training_code/step2_reward_sft/filter_high_quality_sft.py:64-76 | the counters are the numbers of cand_1, cand_2 and tie winners, and together at most the number of comparisons |
| FilterQuality.OtherWinnerIgnored | training_code/step2_reward_sft/filter_high_quality_sft.py:70-76 | a comparison whose winner is not cand_1, cand_2 or tie changes no counter |
| FilterQuality.TallyWinners | training_code/step2_reward_sft/filter_high_quality_sft.py:64-76 | the counting loop returns `CountWinners` |
| FilterQuality.NoneExtends | training_code/step2_reward_sft/filter_high_quality_sft.py:69-70 | a comparison that raises makes the whole count raise |
| FilterQuality.ScoreInputs | training_code/step2_reward_sft/filter_high_quality_sft.py:54-62 | principles and comparisons are read only from an object |
| FilterQuality.QualityOf | training_code/step2_reward_sft/filter_high_quality_sft.py:37-83 | high quality exactly when there is at least 1 principle and both candidates win at least once; a falsy reply, decoded value or result gives (False, 0, 0, 0, 0) |
| FilterQuality.NoQualityCases | training_code/step2_reward_sft/filter_high_quality_sft.py:45-52 | an unparsable reply or an empty result list gives (False, 0, 0, 0, 0) |
| FilterQuality.CheckQuality | training_code/step2_reward_sft/filter_high_quality_sft.py:37-83 | check_quality returns `QualityOf` |
| FilterQuality.PatternOf | training_code/step2_reward_sft/filter_high_quality_sft.py:193-202 | the winner patterns are exhaustive and exclusive: both sides, cand_1 only, cand_2 only, tie only, no winner |
| FilterQuality.BucketOf | training_code/step2_reward_sft/filter_high_quality_sft.py:205-219 | fewer than 3 principles means low quality; otherwise the record goes to the bucket of its winner pattern |
| FilterQuality.ProcessLine | training_code/step2_reward_sft/filter_high_quality_sft.py:85-98 | blank lines are skipped; a scored line carries its parsed data and its quality |
| FilterQuality.CountersAddUp | training_code/step2_reward_sft/filter_high_quality_sft.py:176-186 | total counts the scored lines and parse_error the failed ones |
| FilterQuality.PatternsAddUp | training_code/step2_reward_sft/filter_high_quality_sft.py:192-202 | every scored line adds to exactly one winner pattern |
| FilterQuality.RecordPattern | training_code/step2_reward_sft/filter_high_quality_sft.py:192-202 | one more scored line adds one to the pattern counters |
| FilterQuality.BucketsAddUp | training_code/step2_reward_sft/filter_high_quality_sft.py:204-219 | every scored record goes to exactly one bucket |
| FilterQuality.PrincipleKeys | training_code/step2_reward_sft/filter_high_quality_sft.py:188-190 | the principle distribution has a key for exactly the principle counts that occur |
| FilterQuality.ListsMembers | training_code/step2_reward_sft/filter_high_quality_sft.py:204-219 | a record is in a bucket exactly when some scored line carries it with that bucket |
| FilterQuality.Collect | training_code/step2_reward_sft/filter_high_quality_sft.py:176-219 | the collecting loop returns `StatsOf` and `ListsOf` of the lines |
| FilterQuality.Unchosen | training_code/step2_reward_sft/filter_high_quality_sft.py:238 | the records not chosen, compared by value, and no more of each than there were |
| FilterQuality.ExceptSub | training_code/step2_reward_sft/filter_high_quality_sft.py:238 | filtering never adds a record |
| FilterQuality.Sample | training_code/step2_reward_sft/filter_high_quality_sft.py:237 | a pick of exactly k records from the data |
| FilterQuality.SampleSplits | training_code/step2_reward_sft/filter_high_quality_sft.py:236-243 | for distinct records, the chosen ones and the rest make up the data exactly |
| FilterQuality.DistinctPart | training_code/step2_reward_sft/filter_high_quality_sft.py:236-243 | a part of distinct records is distinct |
| FilterQuality.LimitSplit | training_code/step2_reward_sft/filter_high_quality_sft.py:236-263 | at or over the limit exactly limit records go to SFT and the unchosen ones to RL; under it all go to SFT; for distinct records nothing is lost or duplicated |
| FilterQuality.TieSplit | training_code/step2_reward_sft/filter_high_quality_sft.py:265-290 | with at least tie_for_test records, test is a sample of tie_for_test of them; with enough for both, RL is a sample of tie_for_rl of the remaining ones (all of them when fewer remain, leaving SFT empty) and SFT is what remains after that; between the two thresholds RL is empty and SFT is every record not sent to test; under tie_for_test everything goes to test; for distinct records the three parts make up the bucket |
| FilterQuality.SplitTwice | training_code/step2_reward_sft/filter_high_quality_sft.py:265-290 | two splits in a row make up the whole |
| FilterQuality.TestSplit | training_code/step2_reward_sft/filter_high_quality_sft.py:298-313 | with enough RL candidates, 195 of them plus the tie test records go to test and the rest to RL; otherwise all candidates and the tie records go to test; nothing is lost or duplicated |
| FilterQuality.BuildDatasets | training_code/step2_reward_sft/filter_high_quality_sft.py:231-360 | for distinct records, every kept record lands in exactly one of SFT, RL and test, and low-quality ones in none; the no-winner records close SFT and a both-sides bucket under its limit opens it; test holds at most 195 plus tie_for_test records and ends with the tie-only test records (a sample of tie_for_test, or the whole bucket when it is smaller); with a large enough distinct both-sides bucket it holds exactly 195 plus tie_for_test |
| FilterQuality.SplitBuckets | training_code/step2_reward_sft/filter_high_quality_sft.py:246-299 | the per-bucket splits give SFT (opening with an under-limit both-sides bucket and closing with the no-winner records), the RL candidates and the tie test records, which together make up the kept records when they are distinct; a distinct both-sides bucket of at least its limit plus 195 leaves at least 195 candidates |
| FilterQuality.Regroup | training_code/step2_reward_sft/filter_high_quality_sft.py:298-313 | the test split only moves records between RL and test |
| FilterQuality.Recombine | training_code/step2_reward_sft/filter_high_quality_sft.py:231-313 | the bucket splits together make up the kept records |
| FilterQuality.KeptDistinct | training_code/step2_reward_sft/filter_high_quality_sft.py:204-219 | distinct kept records give distinct buckets |
| PatternDiversity.Matches | data_process_code/step2_gen_rolethinking/analyze_pattern_diversity.py:20-23 | the non-overlapping matches of one block pattern, in order of start, each a real match inside the content |
| PatternDiversity.StartsDiffer | data_process_code/step2_gen_rolethinking/analyze_pattern_diversity.py:20-23 | a thinking block and an action block never start at the same position |
| PatternDiversity.Merge | data_process_code/step2_gen_rolethinking/analyze_pattern_diversity.py:25 | merging keeps every segment of both lists |
| PatternDiversity.MergeSorted | data_process_code/step2_gen_rolethinking/analyze_pattern_diversity.py:25 | merging two sorted lists with distinct starts gives a sorted list |
| PatternDiversity.MergeHead | data_process_code/step2_gen_rolethinking/analyze_pattern_diversity.py:25 | merging keeps a bound that holds on both lists |
| PatternDiversity.SortedUnique | data_process_code/step2_gen_rolethinking/analyze_pattern_diversity.py:25 | two sorted lists with the same segments are equal, so the sort order is unique |
| PatternDiversity.SameHead | data_process_code/step2_gen_rolethinking/analyze_pattern_diversity.py:25 | two such lists start with the same segment |
| PatternDiversity.DropHead | data_process_code/step2_gen_rolethinking/analyze_pattern_diversity.py:25 | the tail of a sorted list is sorted and holds the rest of its segments |
| PatternDiversity.Segments | data_process_code/step2_gen_rolethinking/analyze_pattern_diversity.py:19-25 | the thinking and action blocks, sorted by start and inside the content, and no others |
| PatternDiversity.EmitStep | data_process_code/step2_gen_rolethinking/analyze_pattern_diversity.py:30-37 | one more segment adds 'speech' when there is text before it, then its tag |
| PatternDiversity.Gaps | data_process_code/step2_gen_rolethinking/analyze_pattern_diversity.py:31-35 | one flag per segment |
| PatternDiversity.GapAt | data_process_code/step2_gen_rolethinking/analyze_pattern_diversity.py:31-35 | a segment's flag is set exactly when the stripped text since the last block end, with blocks removed, is non-empty |
| PatternDiversity.TokensOf | data_process_code/step2_gen_rolethinking/analyze_pattern_diversity.py:30-41 | the tokens are those of the segments plus one 'speech' when text follows the last block |
| PatternDiversity.Names | data_process_code/step2_gen_rolethinking/analyze_pattern_diversity.py:43 | each token's name, in order |
| PatternDiversity.Pattern | data_process_code/step2_gen_rolethinking/analyze_pattern_diversity.py:16-17 | empty content maps to 'empty' |
| PatternDiversity.WalkBlocks | data_process_code/step2_gen_rolethinking/analyze_pattern_diversity.py:27-37 | the loop with its last_end cursor emits the tokens of the segments and ends at the last block end |
| PatternDiversity.ExtractPattern | data_process_code/step2_gen_rolethinking/analyze_pattern_diversity.py:14-43 | extract_pattern returns `Pattern` |
| PatternDiversity.Kinds | data_process_code/step2_gen_rolethinking/analyze_pattern_diversity.py:21-23 | the kind of each segment, in order |
| PatternDiversity.TagsSnoc | data_process_code/step2_gen_rolethinking/analyze_pattern_diversity.py:36 | one more token adds its tag when it is one |
| PatternDiversity.EmitTags | data_process_code/step2_gen_rolethinking/analyze_pattern_diversity.py:30-37 | the tags appear in the order of the segments' starts |
| PatternDiversity.EmitSpeech | data_process_code/step2_gen_rolethinking/analyze_pattern_diversity.py:34-36 | each 'speech' in the loop is followed by a tag, and the last token of a non-empty loop is a tag |
| PatternDiversity.TokensShape | data_process_code/step2_gen_rolethinking/analyze_pattern_diversity.py:19-41 | the tags of the pattern are the block kinds in start order, a 'speech' inside is always followed by a tag, and at most one 'speech' precedes each tag and one follows the last |
| PatternDiversity.EmitCount | data_process_code/step2_gen_rolethinking/analyze_pattern_diversity.py:30-37 | the loop emits at most two tokens per segment |
| PatternDiversity.TagFree | data_process_code/step2_gen_rolethinking/analyze_pattern_diversity.py:16-43 | content without a block maps to 'speech' when it has non-blank text and to 'empty' otherwise |
| PatternDiversity.PatternSplits | data_process_code/step2_gen_rolethinking/analyze_pattern_diversity.py:43 | splitting the joined pattern at '→' gives back the token names |
| PatternDiversity.NameNoArrow | data_process_code/step2_gen_rolethinking/analyze_pattern_diversity.py:43 | no token name contains '→' |
| ChatDemo.RemoveSystemThinking | chat_demo/chat_demo.py:34-40 | never lengthens the text, removes something whenever a closed block occurs, only strips text without one, and leaves empty input empty |
| ChatDemo.ExtractSystemThinking | chat_demo/chat_demo.py:43-53 | '' without a closed block; otherwise a result shorter than the text by at least the two tags |
| ChatDemo.RemoveSystemThinkingBlock | chat_demo/chat_demo.py:34-40 | a single closed block and the whitespace after it are removed and the rest is stripped |
| ChatDemo.RemoveNonEmpty | chat_demo/chat_demo.py:36-40 | non-empty input has every padded block deleted and is stripped |
| ChatDemo.ExtractSystemThinkingBlock | chat_demo/chat_demo.py:46-51 | the first block's content, stripped, with role tags deleted |
| ChatDemo.ExtractPlainThinking | chat_demo/chat_demo.py:46-51 | a block without tags inside gives its stripped content |
| ChatDemo.FormatShowsBrackets | chat_demo/chat_demo.py:56-73 | with role thinking shown, thinking becomes [..], action becomes (..) and speech tags vanish |
| ChatDemo.ThoughtLayout | chat_demo/chat_demo.py:63-67 | where a thinking block sits in rendered markup |
| ChatDemo.ThoughtPieces | chat_demo/chat_demo.py:63-67 | the text of a thinking block |
| ChatDemo.HideThought | chat_demo/chat_demo.py:66-67 | with role thinking hidden, a thinking block is deleted and its neighbours are kept |
| ChatDemo.ChainWithoutThinking | chat_demo/chat_demo.py:70-71 | without thinking tags, action becomes (..) and speech tags vanish |
| ChatDemo.FormatHidesThought | chat_demo/chat_demo.py:56-73 | with role thinking hidden, the display is the rest of the markup with action in (..) and no speech tags |
| SysThinkingSamples.CutMarker | data_process_code/step3_gen_systhinking/step3_1_extract_sys_thinking_samples.py:94-95 | the text is cut to a prefix without the marker in any letter case, and a text without it is unchanged |
| SysThinkingSamples.CutBeforeFirst | data_process_code/step3_gen_systhinking/step3_1_extract_sys_thinking_samples.py:95 | the part before the first case-insensitive occurrence holds no occurrence |
| SysThinkingSamples.NothingBeforeFirst | data_process_code/step3_gen_systhinking/step3_1_extract_sys_thinking_samples.py:95 | nothing before the first occurrence is an occurrence |
| SysThinkingSamples.LowerOccurs | data_process_code/step3_gen_systhinking/step3_1_extract_sys_thinking_samples.py:95 | an occurrence stays an occurrence after case folding |
| SysThinkingSamples.PieceAnyCase | data_process_code/step3_gen_systhinking/step3_1_extract_sys_thinking_samples.py:95 | a piece containing the marker makes the text contain it |
| SysThinkingSamples.RemoveRequirementsSection | data_process_code/step3_gen_systhinking/step3_1_extract_sys_thinking_samples.py:82-97 | none of the three headings remains in any case, and text without them is only stripped |
| SysThinkingSamples.RequirementsDropped | data_process_code/step3_gen_systhinking/step3_1_extract_sys_thinking_samples.py:82-97 | everything from "===Requirements===", in any case, to the end is cut |
| SysThinkingSamples.MissingHead | data_process_code/step3_gen_systhinking/step3_1_extract_sys_thinking_samples.py:95 | a text lacking the marker's first letter lacks the marker |
| SysThinkingSamples.BuildChatHistory | data_process_code/step3_gen_systhinking/step3_1_extract_sys_thinking_samples.py:100-129 | the loop returns the stripped `History` of the messages |
| SysThinkingSamples.HistorySnoc | data_process_code/step3_gen_systhinking/step3_1_extract_sys_thinking_samples.py:114-127 | one more message adds its entry |
| SysThinkingSamples.HistoryConcat | data_process_code/step3_gen_systhinking/step3_1_extract_sys_thinking_samples.py:114-127 | the history of two lists is the two histories joined |
| SysThinkingSamples.Contents | data_process_code/step3_gen_systhinking/step3_1_extract_sys_thinking_samples.py:116 | one content per message |
| SysThinkingSamples.DialogueHistory | data_process_code/step3_gen_systhinking/step3_1_extract_sys_thinking_samples.py:122-129 | a dialogue without system messages renders as its contents separated by blank lines |
| SysThinkingSamples.CharacterSamples | data_process_code/step3_gen_systhinking/step3_1_extract_sys_thinking_samples.py:36-77 | one sample per assistant message of the character |
| SysThinkingSamples.AssistantIndices | data_process_code/step3_gen_systhinking/step3_1_extract_sys_thinking_samples.py:41-44 | the scan returns the positions of the assistant messages |
| SysThinkingSamples.FollowingMessages | data_process_code/step3_gen_systhinking/step3_1_extract_sys_thinking_samples.py:58-62 | at most the two messages after the reply |
| SysThinkingSamples.ReplySamples | data_process_code/step3_gen_systhinking/step3_1_extract_sys_thinking_samples.py:46-77 | the per-reply loop returns `CharacterSamples` |
| SysThinkingSamples.ExtractSysThinkingSamples | data_process_code/step3_gen_systhinking/step3_1_extract_sys_thinking_samples.py:18-79 | the character loop returns `SamplesOf` the training samples |
| SysThinkingSamples.SamplesCount | data_process_code/step3_gen_systhinking/step3_1_extract_sys_thinking_samples.py:36-77 | one sample per assistant message per character |
| SysThinkingSamples.SampleContext | data_process_code/step3_gen_systhinking/step3_1_extract_sys_thinking_samples.py:47-75 | context_before is exactly the messages before the reply, the reply is an assistant message, assistant_index is 1-based, and context_after holds at most the two messages after it |
| SysThinkingSamples.TraceIdRoundTrip | data_process_code/step3_gen_systhinking/step3_1_extract_sys_thinking_samples.py:38-49 | with the generator prefix, the trace id `<base>/<char>/<idx:04d>` parses back to the base, the character and the 1-based index |
| SysThinkingSamples.Prefixed | data_process_code/step3_gen_systhinking/step3_1_extract_sys_thinking_samples.py:49 | concatenation regroups the id |
| SysThinkingSamples.TraceIdsDistinct | data_process_code/step3_gen_systhinking/step3_1_extract_sys_thinking_samples.py:49 | different replies of a character get different trace ids |

## Left out

- I/O: every file read and write, JSON (de)serialisation, directory walks, `tqdm`, logging and printing. Records arrive as values, and `json.loads` is a function parameter that may fail.
- Concurrency: the asyncio fan-out, the semaphore and the thread pools in benchmark.py and run_coser.py. Each sample is modelled on its own.
- Model backends and Jinja: the HTTP clients and the Jinja engine itself are not part of this model. The three templates of chat_templates.py:36-65 are written out as the text they render, and `apply` picks between them and the fallback by a flag saying whether the engine is installed.
- Randomness: `random.choice`, `random.sample` and `random.shuffle` are nondeterministic picks from the candidate set (`:|`). Seeds are not modelled, and neither is split_train_test.py's shuffle and validation split.
- Floating point: entropy and percentages in analyze_pattern_diversity.py are left out. The judge score uses exact `real` arithmetic.
- Unicode: `lower()`, `isalpha`, `isdigit`, `isalnum` and `\w` are ASCII-only. Whitespace follows Python's `str.isspace` list.
- calculate_bleu_rouge, format_llama3_prompt, remove_role_thinking, normalize_action_format, convert_coser_to_her_format, extract_actor_name_from_system, get_output_format_instruction and get_stop_tokens of coser/utils.py are not modelled. They are library calls or prompt text.
- convert_dialogue_history of coser/utils.py is folded into `CoserUtils.SeenTurn`.
- Simulation.Simulate: the ground-truth replay before `continue_from` and the models' replies are one reply oracle `reply(round, actor)`. Prompts are parameters.
- Simulation.Simulate: in the model-driven mode the fallback may pick a major character that has no agent. That KeyError is modelled as the sample failing.
- Simulation.SampleIdFields: get_sample_id's dictionary lookups are modelled as optional fields.
- SftFormat.GetCharacterPrompt: the unused `background` parameter of get_character_prompt is dropped. The same goes for build_training_samples_sharegpt's unused `trace_id` parameter.
- SysThinkingSamples.BuildChatHistory: the unused `ai_name` parameter has no effect.
- convert_to_serving_format and process_file of step3_1_extract_sys_thinking_samples.py are file plumbing.
- process_single_file of step3_10_fix_and_merge.py and process_vulcan_output of step3_3_extract_model_think.py are file plumbing. Their per-line logic is the modelled extraction.
- chat_demo.py's interactive loop and the transformers calls are not part of this model.
- CoserUtils.RemoveInnerThoughtsKeeps: only the pass-through of markup-free text is proved, not every deletion of remove_inner_thoughts.
- CoserUtils.ConvertDialogueTags: proved for one thought and one action, not for arbitrary runs of them.
- CoserUtils.AddSpeakerNameIdempotent: requires a one-line speaker name without a leading blank.
- CoserUtils.HerMarkupKept: proved for a single round of remove_system_thinking's passes.
- BenchmarkBase.CacheManager.Loaded: does not state that nothing besides the loaded results is returned; it bounds their number instead.
- BenchmarkBase.CacheManager.GetStats: only the bound of pending evaluations by inference results is stated.
- FilterQuality.LimitSplit: the split is a partition only for distinct records, because Python's `d not in chosen` drops every copy of a duplicate.
- FilterQuality.QualityOf: the comment at filter_high_quality_sft.py:79 asks for at least 3 principles. The code tests `>= 1`, and the model follows the code. The 3-principle bar is applied later, when records are bucketed.
- FilterQuality.BucketOf: the final `else` at filter_high_quality_sft.py:216-217 cannot be reached, since the five winner patterns are exhaustive.
- FixMerge.PyInt: Python's `int()` also accepts `_` between digits (`"1_000"`) and non-ASCII digits; the model rejects both and returns None.
- BenchmarkBase.ComputeSummary: the summary's `average_scores` dictionary is not a separate field. For every key it equals `details[k].mean`, which is computed from the same values.
- ChatDemo.RemoveSystemThinking: what is removed is stated by the partner lemma `RemoveSystemThinkingBlock` for a single block, not for any number of blocks.

## Findings

| source | as written | input that shows it | evidently intended | confidence | as-written member | corrected member |
|---|---|---|---|---|---|---|
| eval_code/benchmarks/multi_turn/coser/utils.py:34-56 | the tag passes of remove_system_thinking run once, so deleting an inner block can join the pieces of an outer tag | `<th<thought></thought>ink>s` becomes `<think>s`, which still opens a thinking block | no thinking opener survives | not executed | CoserUtils.OneRoundLeavesOpener | CoserUtils.RemoveSystemThinking |
| eval_code/models/chat_templates.py:217-219 | without a system message, the llama3 fallback puts the begin-of-text token in front of the prompt again at every user turn | two user turns give a prompt with two begin-of-text tokens | one begin-of-text token at the start, as the llama3 template renders | not executed | ChatTemplates.FallbackDoubleBos | ChatTemplates.FallbackOnceMatchesTemplate |
| eval_code/models/chat_templates.py:50 | the qwen Jinja template closes a user turn with the end marker spelled with `}` instead of `>` | any conversation with a user message renders a broken end marker | the end marker closed by `>`, as in the chatml template at lines 38-45 that the fallback follows | not executed | ChatTemplates.QwenTemplateTypo | ChatTemplates.QwenFallbackIsChatml |

The operations model the code as written: `ParseNspResponse` and what
`Simulation` shows to the other agents use the single pass
`RemoveSystemThinkingOnce`, and `ChatTemplates.Apply` renders the qwen
template and the fallback as they stand. The corrected definitions
(`RemoveSystemThinking`, `ChatTemplates.ApplyIntended`) sit beside them,
with the properties the authors evidently intended proved about them.
