# nlpenem: the ENEM question solver, modelled in Dafny

This project models the core of `nlpenem`. The scripts send ENEM exam
questions to the Maritaca chat API, decide whether each reply names the
official answer, and summarise the results. The model covers:

- **`maritaca_api.py`**: the client.
  - The fallback `.env` loader that runs when the module is imported.
  - The precedence `MaritacaAPI.__init__` uses to find the API key: the argument, then the environment, then a scan of `.env` with quote stripping.
  - The validation of the key.
  - The request that `generate`/`generate_enem_response` build, and how the text is pulled out of the reply.
- **`resolver_todas_questoes.py`**: the batch solver.
  - `formatar_questao_para_prompt` and `resolver_questao`.
  - The resumable loop of `processar_todas_questoes`: reloading a checkpoint, skipping ids already done, and saving every tenth position.
  - The per-area statistics of `gerar_relatorios_por_area`.
  - The list of wrong answers in the markdown report.
- **`resolver_questoes_enem.py`**: the sample solver.
  - `formatar_questao`.
  - The question loop of `resolver_questoes` and its closing summary.
- **`download_enem_data.py`**: `get_statistics`. It counts questions by year and by area, and lists the fields present, sorted.

Python values are modelled as a `Json` datatype (`PyValues`). Dictionaries are
insertion-ordered association lists. A chain such as `q.get('a') or q.get('b') or 'x'` is
`EvalOr`. The HTTP call is a `Transport` function parameter, which receives the
ordinal of the call and the request it is sent. A Python exception becomes the
`Err` side of a `Result`, or a `Halted` state of a loop.

Modules: `Text` (the `str` operations used), `PyValues`, `PromptFormat`
(both formatters), `Verdict`, `Maritaca`, `Batch`, `Reports`, `SampleRun`,
`Statistics`.

## Model

| member | source | states |
|---|---|---|
| Text.Upper | resolver_todas_questoes.py:113-114 | `str.upper` maps each ASCII lower-case letter to its capital and keeps every other character (length kept) |
| Text.UpperIsUpper | resolver_todas_questoes.py:98 | the result of `upper()` has no lower-case letter left, so upper-casing again changes nothing |
| Text.UpperAppend | resolver_todas_questoes.py:117-119 | upper-casing distributes over concatenation |
| Text.TrimStart | maritaca_api.py:25 | the leading whitespace removed is exactly the longest whitespace prefix |
| Text.TrimEnd | maritaca_api.py:25 | the trailing whitespace removed is exactly the longest whitespace suffix |
| Text.StripSpec | maritaca_api.py:25 | `strip()` leaves a piece of the input that neither starts nor ends with whitespace, with only whitespace cut on either side |
| Text.StripUpper | resolver_todas_questoes.py:98 | `upper()` then `strip()` equals `strip()` then `upper()` |
| Text.StripIdempotent | maritaca_api.py:83 | stripping twice equals stripping once, so the second `strip()` in `__init__` never changes a key that was already stripped |
| Text.PiecesOfConcat | resolver_todas_questoes.py:78-96 | each leading run of pieces of a concatenation is a prefix of it, and the last piece a suffix |
| Text.SuffixOfOccurrence | resolver_todas_questoes.py:117-119 | when `prefix + needle` occurs in a text, `needle` occurs in it too |
| PyValues.Get | resolver_todas_questoes.py:66-71 | `dict.get` finds a value exactly when the key is present, and the value is paired with that key in the dict |
| PyValues.Keys | download_enem_data.py:210 | `questao.keys()` holds exactly the keys present |
| PyValues.EvalOr | resolver_todas_questoes.py:66-74 | an `or` chain evaluates to the value of one of its operands, chosen by Python's rule |
| PyValues.EvalOrFirstTruthy | resolver_todas_questoes.py:66-74 | the chain yields the first truthy operand |
| PyValues.EvalOrNoneTruthy | resolver_todas_questoes.py:71 | when no operand is truthy, the chain yields the last operand (possibly falsy, e.g. the default `''`) |
| PromptFormat.MapAreaTable | resolver_todas_questoes.py:21-27 | the five entries of `MAPEAMENTO_AREAS`, and `area_raw.upper()` for any other area |
| PromptFormat.AltLine | resolver_todas_questoes.py:90 | an alternative line starts with its letter and is at least `X) ` long |
| PromptFormat.SplitJoinLines | resolver_todas_questoes.py:90 | lines without newlines joined with `\n` split back into the same lines |
| PromptFormat.AltForUpperFirst | resolver_todas_questoes.py:88 | the capital-letter key wins when truthy, and the lower-case key is used otherwise |
| PromptFormat.DictLines | resolver_todas_questoes.py:86-90 | every line emitted for a dict of alternatives has at least the three characters of `X) `; the full `X) alt` form is stated by `DictLinesShape` |
| PromptFormat.DictLinesShape | resolver_todas_questoes.py:86-90 | at most one line per letter A-E, and each line is the letter's alternative |
| PromptFormat.DictLinesOrdered | resolver_todas_questoes.py:87 | lines appear in letter order |
| PromptFormat.DictLinesComplete | resolver_todas_questoes.py:89-90 | every letter whose alternative is truthy gets a line |
| PromptFormat.ListLines | resolver_todas_questoes.py:91-94 | a list gives one line per item, labelled `chr(65+i)`, with no cap at five, as long as every label is below the surrogate range |
| PromptFormat.ListLabelsPastE | resolver_todas_questoes.py:92-93 | a sixth and a seventh item get the labels F and G |
| PromptFormat.BuildPromptEnds | resolver_todas_questoes.py:78-96 | the prompt starts with the `Questão do ENEM - <area>` header and ends with the alternatives and the closing instruction |
| PromptFormat.BuildPromptWithContext | resolver_todas_questoes.py:80-81 | a truthy context adds `Contexto: …` right after the header |
| PromptFormat.BuildPromptWithoutContext | resolver_todas_questoes.py:80-83 | without context, the question text follows the header directly |
| PromptFormat.FormatForPromptArea | resolver_todas_questoes.py:74-75 | the area falls back to `N/A` (shown as `OUTRAS`), otherwise it goes through the table; a non-string area makes formatting fail |
| PromptFormat.FormatForPromptLayout | resolver_todas_questoes.py:58-98 | the whole layout of the formatted prompt, with and without context |
| PromptFormat.FormatForPromptKey | resolver_todas_questoes.py:98 | the key returned is `str(gabarito).upper().strip()`: upper-case and already stripped |
| PromptFormat.BuildPrompt2Layout | resolver_questoes_enem.py:215-232 | the sample prompt starts with its header and ends with the alternatives and the instruction |
| PromptFormat.FormatQuestionDefaults | resolver_questoes_enem.py:207-212 | the fallbacks `N/A`, `N/A`, `''`, `{}` and `resposta` when the earlier aliases are missing or falsy |
| PromptFormat.FormatQuestionLayout | resolver_questoes_enem.py:196-234 | a formatted sample question carries the raw key, its header and the alternatives followed by the instruction |
| Verdict.Acertou | resolver_todas_questoes.py:113-120 | the reply is correct iff the upper-cased key occurs in the upper-cased reply |
| Verdict.PhraseImpliesKey | resolver_todas_questoes.py:116-119 | the `ALTERNATIVA`/`LETRA`/`OPÇÃO` phrases add nothing, because each contains the key |
| Verdict.EmptyKeyIsCorrect | resolver_todas_questoes.py:116 | an empty key counts as correct |
| Verdict.KeyInReplyIsCorrect | resolver_todas_questoes.py:116 | a reply containing the key is correct |
| Verdict.LongKeyIsWrong | resolver_todas_questoes.py:116 | a key longer than the reply is never found |
| Verdict.AcertouIgnoresCase | resolver_todas_questoes.py:113-114 | the verdict does not depend on letter case |
| Verdict.Verdict2 | resolver_questoes_enem.py:326-330 | no verdict when the key is falsy; otherwise correct iff `str(key).upper()` occurs in the upper-cased reply |
| Verdict.VerdictsAgree | resolver_questoes_enem.py:326-330 | for a non-empty text key, both scripts reach the same verdict |
| Text.IndexOf | maritaca_api.py:27 | the position of the first `=` that `split('=', 1)` cuts at: no earlier `=`, and `|s|` when there is none |
| Maritaca.ParseEnvLine | maritaca_api.py:25-27 | a line is an assignment iff, once stripped, it is non-empty, does not start with `#` and contains `=` |
| Maritaca.ParseEnvLineSplit | maritaca_api.py:27 | `split('=', 1)` gives a name with no `=`, and name, `=`, value give back the stripped line |
| Maritaca.InnerOfWrapped | maritaca_api.py:68 | `[1:-1]` removes exactly the wrapping characters |
| Maritaca.UnquoteDouble | maritaca_api.py:67-71 | a `"`-quoted key loses its quotes and surrounding blanks |
| Maritaca.UnquoteSingle | maritaca_api.py:69-71 | a `'`-quoted key loses its quotes and surrounding blanks |
| Maritaca.UnquoteOnePairOnly | maritaca_api.py:67-68 | only one pair of `"` is removed |
| Maritaca.UnquoteBothKinds | maritaca_api.py:67-71 | `"'k'"` is unwrapped twice |
| Maritaca.UnquotePlain | maritaca_api.py:67-71 | an unquoted value is only stripped |
| Maritaca.KeysOnLines | maritaca_api.py:60-65 | one search result per `.env` line |
| Maritaca.FirstSomeIsFirst | maritaca_api.py:73 | the `break` keeps the first line naming `MARITACA_API_KEY`, and nothing is found only when no line names it |
| Maritaca.FindKeyInDotEnv | maritaca_api.py:59-73 | the scan loop returns the key of the first line naming `MARITACA_API_KEY` |
| Maritaca.Validate | maritaca_api.py:76-93 | an empty key raises "não fornecida"; a stripped key shorter than 10 raises "muito curta" with its length; otherwise the client holds the stripped key, model `sabia-3.1` and the two headers |
| Maritaca.Init | maritaca_api.py:39-93 | precedence: a truthy argument, then a non-blank environment variable, then the first `.env` line (which is also written to the environment); otherwise the missing-key error |
| Maritaca.ClientKeyWellFormed | maritaca_api.py:83-93 | an accepted key has at least 10 characters, is stripped, and is the bearer token |
| Maritaca.Assignments | maritaca_api.py:24-28 | one entry per line of `.env` |
| Maritaca.LoadEnvFallback | maritaca_api.py:14-28 | the fallback loader assigns `os.environ[key.strip()] = value.strip()` line by line |
| Maritaca.ApplyOneMore | maritaca_api.py:26-28 | a skipped line changes nothing; an empty name fails (`os.environ['']` is refused); any other line sets that one variable |
| Maritaca.FailureSticks | maritaca_api.py:24-28 | after a failed assignment no later line is applied |
| Maritaca.UnassignedKept | maritaca_api.py:24-28 | a variable no line assigns keeps its previous value |
| Maritaca.LastAssignmentWins | maritaca_api.py:24-28 | a variable assigned several times ends with its last value |
| Maritaca.LoadEnvLastLineWins | maritaca_api.py:14-28 | the same two facts, stated over the lines of the file |
| Maritaca.BuildMessages | maritaca_api.py:158-169 | a system message only when a non-empty system prompt is given, and the user prompt always last |
| Maritaca.ChatCompletion | maritaca_api.py:116-135 | a successful request yields the JSON reply; a failed one yields exactly the transport's error text prefixed with `Erro na requisição à API: ` |
| Maritaca.ExtractContent | maritaca_api.py:178-182 | a well-formed reply yields `choices[0].message.content`, any other success comes from the documented shape, and a dict reply without choices or with empty choices raises "Resposta inesperada" |
| Maritaca.ExtractContentNotDict | maritaca_api.py:178-179 | a list or string reply that contains `"choices"` raises Python's `TypeError` text for indexing it with a string |
| Maritaca.ExtractCompletionReply | maritaca_api.py:178-180 | extraction inverts the documented reply shape |
| Maritaca.GenerateReturnsContent | maritaca_api.py:137-182 | when the API answers with a reply carrying `text`, `generate` returns `text` |
| Maritaca.EnemRequestMessages | maritaca_api.py:184-212 | the ENEM request is the fixed system prompt followed by the question |
| Batch.QuestionIdDefault | resolver_todas_questoes.py:185 | a question without a truthy `id` and without `number` has id `''` |
| Batch.MakeResult | resolver_todas_questoes.py:101-141 | the record keeps id, `arquivo_origem` (default `''`), area, key and question; it holds a reply and a verdict iff the call returned text; otherwise it holds the call's exception text, or the `AttributeError` text of `.upper()` on a reply that is not a string |
| Batch.ProgressFile.Overwrite | resolver_todas_questoes.py:203-209 | saving replaces the checkpoint file |
| Batch.SkipSet | resolver_todas_questoes.py:169-178 | the ids of the loaded results, or no ids at all when one of them is unhashable (the set construction raises inside the bare `try`) |
| Batch.CollectIds | resolver_todas_questoes.py:175 | the loop builds exactly that set |
| Batch.MakeRun | resolver_todas_questoes.py:164-185 | the run's ids, formats, loaded results and skip set come from the input and the checkpoint |
| Batch.ProcessAll | resolver_todas_questoes.py:144-217 | a client that cannot be built gives `[]` and no write; otherwise the returned results and the checkpoint file are those of the specification fold `RunPrefix` |
| Batch.ProcessOne | resolver_todas_questoes.py:184-209 | one iteration performs exactly one step of `RunPrefix` |
| Batch.HaltedSticks | resolver_todas_questoes.py:184-194 | once an exception escapes, later questions change nothing |
| Batch.RunningIffNoFatal | resolver_todas_questoes.py:185-193 | the loop completes iff no question has an unhashable id, or an unskipped question whose formatting raises |
| Batch.Pending | resolver_todas_questoes.py:184-189 | the positions requested lie in the prefix processed |
| Batch.PendingSpec | resolver_todas_questoes.py:188-193 | a position is requested iff its id is not in the skip set, and requests go in input order |
| Batch.ResultsSpec | resolver_todas_questoes.py:174-194 | the results are the loaded ones followed by one answer per requested position, and there is one API call per request |
| Batch.LoadedResultsKept | resolver_todas_questoes.py:174-194 | the loaded results stay a prefix, and each call adds one result |
| Batch.SkippedNotRequested | resolver_todas_questoes.py:188-189 | a question whose id was processed before is not sent again |
| Batch.EmptyIdIsSkipped | resolver_todas_questoes.py:175-188 | a question without an id is skipped whenever a loaded result has id `''` |
| Batch.UnhashableLoadedIdSkipsNothing | resolver_todas_questoes.py:175-178 | an empty skip set requests every question |
| Batch.ResumeRequestsTheRest | resolver_todas_questoes.py:169-194 | resuming after the first m questions (distinct ids) requests exactly the rest, in order |
| Batch.NothingPendingBefore | resolver_todas_questoes.py:188-189 | positions covered by the checkpoint are never requested |
| Batch.LastSave | resolver_todas_questoes.py:203 | the last position before n that triggers a save |
| Batch.CheckpointSpec | resolver_todas_questoes.py:203-209 | the file holds the checkpoint of the last save point (counts and results at that time), or is untouched when there is none |
| Batch.SnapshotIsPrefix | resolver_todas_questoes.py:194-209 | results only grow, so every checkpoint is a prefix of the final list |
| Batch.NoSaveNoWrite | resolver_todas_questoes.py:203-204 | with `salvar_progresso` false the file is not written |
| Reports.AreaOrderSpec | resolver_todas_questoes.py:229-233 | the areas of the report are distinct, and they are exactly those of the results |
| Reports.UnlistedAreaIsEmpty | resolver_todas_questoes.py:231-233 | an area not in the report has no results |
| Reports.InAreaFilters | resolver_todas_questoes.py:231-233 | a group holds only results of its area |
| Reports.InAreaSnoc | resolver_todas_questoes.py:233 | appending a result extends its own group only |
| Reports.GroupSizesSnoc | resolver_todas_questoes.py:231-233 | appending a result adds one to the grouped total when its area is listed |
| Reports.GroupSizesAppend | resolver_todas_questoes.py:246 | adding an area to the list adds the size of its group |
| Reports.GroupsCoverResults | resolver_todas_questoes.py:229-233 | the groups partition the results |
| Reports.GroupByArea | resolver_todas_questoes.py:229-233 | the loop builds one group per area, in first-appearance order, each holding that area's results in order |
| Reports.CountsPartition | resolver_todas_questoes.py:250-253 | correct + wrong + unanswered equals the size of the group |
| Reports.TaxaAcerto | resolver_todas_questoes.py:255 | the rate is 0 when nothing was judged, otherwise correct over judged |
| Reports.StatsOf | resolver_todas_questoes.py:250-264 | the statistics of one area: its total, a partition of it, and a rate that is zero iff nothing was judged |
| Reports.AllFailedRateZero | resolver_todas_questoes.py:252-255 | a group of failed calls is all unanswered, with rate 0 |
| Reports.GerarRelatorios | resolver_todas_questoes.py:220-266 | the overall total, and one entry per area in first-appearance order with that area's statistics |
| Reports.SumTotalsIsGroupSizes | resolver_todas_questoes.py:246-266 | the area totals add up to the grouped total |
| Reports.ReportCoversResults | resolver_todas_questoes.py:240-266 | the area totals add up to `total_questoes`, every result's area has an entry, and no area appears twice |
| Reports.Misses | resolver_todas_questoes.py:341 | as many entries as there are wrong results, each one judged wrong |
| Reports.MissesAppend | resolver_todas_questoes.py:341 | filtering distributes over concatenation and keeps a single result iff it is wrong, which makes it the order-keeping filter |
| Reports.MissesPositions | resolver_todas_questoes.py:341 | the list is the results at strictly increasing positions, each judged wrong, and every wrong result is at one of those positions |
| Reports.ErrorListing | resolver_todas_questoes.py:341-347 | the first ten wrong results (all of them if fewer), in order, each showing id, key and `resposta_modelo[:100]` |
| SampleRun.SampleOne | resolver_questoes_enem.py:294-348 | one question either ends the run (formatting failed) or is recorded under number i+1 |
| SampleRun.SampleOneSpec | resolver_questoes_enem.py:300-348 | a failed call is recorded as its error; a reply is stored with the raw key; it is judged only under a truthy key, where a reply that is not text raises inside the `try` |
| SampleRun.ResolverQuestoes | resolver_questoes_enem.py:294-348 | the loop records one entry per question, in order; if it stops, it is at the first question that could not be formatted |
| SampleRun.SummaryPartition | resolver_questoes_enem.py:358-361 | correct + wrong + unjudged equals the total |
| SampleRun.Resumo | resolver_questoes_enem.py:358-370 | the summary partitions the total, and shows a rate iff something was judged |
| SampleRun.AllUnjudged | resolver_questoes_enem.py:358-361 | entries that are all unjudged count as neither correct nor wrong |
| SampleRun.AllErroredNoRate | resolver_questoes_enem.py:343-364 | if every call failed, every entry counts as unjudged and no rate is shown |
| SampleRun.KeylessNeverJudged | resolver_questoes_enem.py:326-364 | questions without a key are never judged, so no rate is shown |
| Statistics.EntryIndex | download_enem_data.py:203 | the first entry of a tally with a given key |
| Statistics.SumCountsAppend | download_enem_data.py:203 | tallies add up over concatenation |
| Statistics.SumCountsIncrement | download_enem_data.py:203 | incrementing one entry adds one to the sum |
| Statistics.BumpEntries | download_enem_data.py:203 | `d[k] = d.get(k, 0) + 1` keeps existing positions and appends a new key at the end |
| Statistics.BumpEntriesExisting | download_enem_data.py:203 | an existing key keeps every entry in its place |
| Statistics.BumpEntriesNew | download_enem_data.py:203 | a new key is appended last |
| Statistics.BumpSpec | download_enem_data.py:203-207 | counting one key keeps keys distinct, adds one to the sum and to that key's count only |
| Statistics.TallySpec | download_enem_data.py:200-207 | the tally of a sequence has distinct keys, sums to its length, counts each key as often as it occurs, and lists exactly the keys that occur |
| Statistics.LexLessIrreflexive | download_enem_data.py:212 | string order is irreflexive |
| Statistics.LexLessTransitive | download_enem_data.py:212 | string order is transitive |
| Statistics.LexLessTotal | download_enem_data.py:212 | distinct strings are ordered one way or the other |
| Statistics.Insert | download_enem_data.py:212 | insertion keeps the list strictly sorted and adds exactly the new element |
| Statistics.SortedList | download_enem_data.py:212 | `sorted(list(campos))` is strictly sorted and has exactly the members of the set |
| Statistics.FieldsOfSpec | download_enem_data.py:210 | a field is present iff some question has that key |
| Statistics.YearAndAreaResolution | download_enem_data.py:202-206 | year from `ano`, else `year`, else `desconhecido`; area from `area`, else `subject`, else `desconhecida` |
| Statistics.Years | download_enem_data.py:202 | one year per question |
| Statistics.Areas | download_enem_data.py:206 | one area per question |
| Statistics.CountAllErrorSticks | download_enem_data.py:200-210 | an exception stops the loop |
| Statistics.CountQuestionSpec | download_enem_data.py:200-210 | one question bumps its year and its area and adds its keys, or raises when its year or area is unhashable |
| Statistics.AllCountableMeans | download_enem_data.py:200-207 | the recursive countability predicate means every question is countable |
| Statistics.CountAllSucceeds | download_enem_data.py:200-210 | the loop completes iff every question is countable |
| Statistics.CountAllValue | download_enem_data.py:200-210 | a completed loop gives the tallies of the years, of the areas, and the union of the keys |
| Statistics.CountAllFails | download_enem_data.py:200-210 | a failed loop failed at the first uncountable question, with its `TypeError` text |
| Statistics.GetStatistics | download_enem_data.py:180-214 | an empty input gives `{}`; otherwise the total, the two tallies and the sorted list of fields, or the loop's error |
| Statistics.StatisticsSpec | download_enem_data.py:190-214 | each tally sums to `total`, counts each value as often as it occurs, has distinct keys, and the fields are exactly those present in some question |

## Left out

- I/O: reading JSONL files, the checkpoint's JSON encoding, report and markdown files, `print`, `time.sleep`, `random.sample`, timestamps. The checkpoint file is a `FileState` value. The JSON reports are the values they would hold.
- `buscar_questoes_exemplo`, `buscar_questoes_api`, `buscar_questoes_locais`, `carregar_todas_questoes`, `main`, and `test_api_connection`: loading, sampling and smoke tests only.
- The `python-dotenv` path of `_load_env_file`: a library call not visible here. Only the fallback loop is modelled.
- The v2 script's own `.env` lookup before it builds the client (resolver_questoes_enem.py:246-273). It repeats the client's search, and the client is a parameter of `SampleRun.ResolverQuestoes`.
- The training-data JSON per area (resolver_todas_questoes.py:278-292): a reshaping of the stored records, with no decision in it.
- The markdown tables of `gerar_relatorio_markdown` other than the list of wrong answers.
- Reports.TaxaAcerto: the rate is kept as an exact fraction. `round(..., 2)` and the `%.2f` of the summary are not modelled (no floating point).
- Text.Upper: ASCII only. Python's full Unicode `str.upper` (for example `ç` to `Ç`) is not modelled.
- `PyValues.PyStr`: lists and dictionaries are rendered with a simplified `repr`, without escaping.
- Python's cross-type equality (`1 == True`, `1 == 1.0`) is not modelled. Ids and tally keys are compared structurally. Floating-point values are not part of `Json`.
- `temperature`, `top_p` and the 60 s timeout of the request are fixed in the source and have no effect in the model, so the `Request` value leaves them out.
- Maritaca.ChatCompletion: which `requests` failures happen (timeouts, HTTP errors) is up to the `Transport` parameter. The model states how a failure is re-raised, not when one happens.
- PromptFormat.ListLines: a list of 55,232 or more alternatives makes formatting fail with `SurrogateLabel`, which halts the batch. Python's `chr` accepts the surrogate code points 0xD800-0xDFFF and fails only past 0x10FFFF, but a Dafny `char` cannot hold a surrogate, so such a prompt cannot be represented.
- PyValues.Get: a `Dict` is a list of pairs that could repeat a key, and `Get` returns the first value. A dictionary from `json.loads` never repeats a key (for a repeated key in the text it keeps the last value), so every `Dict` here stands for one with distinct keys; that is not enforced by the type.
- Behaviour of the code that the model keeps as written:
  - list alternatives are labelled `chr(65 + i)` for every element, so a sixth one gets `F`, although the comment at resolver_todas_questoes.py:93 reads `# A, B, C, D, E`;
  - a question whose id is `''` (no truthy `id` and no `number`) is skipped when a loaded result has the id `''`;
  - the progress file is written when the 1-based input position `i` is a multiple of 10 (the comment at resolver_todas_questoes.py:202 says "every 10 questions"), and never after a skipped question, because the `continue` comes first;
  - an empty key is judged correct in `resolver_todas_questoes.py`, because `'' in s` holds for every string.
