/** The resumable batch of resolver_todas_questoes.py: `resolver_questao`
    builds one result per question, and `processar_todas_questoes` runs it
    over every question not already answered in the progress file, saving
    the progress file at every tenth input position. */
module Batch {
  import opened Text
  import opened PyValues
  import opened PromptFormat
  import opened Verdict
  import opened Maritaca

  /** `max_tokens` of every request the batch sends. */
  const MaxTokens := 500

  /** The progress file is rewritten at input positions divisible by this. */
  const CheckpointEvery := 10

  /** The part of a result that depends on how the call went: the reply and
      its verdict, or the text of the exception. */
  datatype Outcome =
    | Answered(resposta: string, acertou: bool, promptUsado: string)
    | Failed(erro: string)

  /** One entry of `resultados`, as `resolver_questao` returns it. */
  datatype EvalResult = EvalResult(questaoId: Json, arquivoOrigem: Json, area: string, gabarito: string,
                                   outcome: Outcome, questaoOriginal: Dict)

  /** `questao.get('id') or questao.get('number', '')`. */
  function QuestionId(q: Dict): Json {
    EvalOr(q, [Key("id"), KeyOr("number", JStr(""))])
  }

  /** A question with neither a truthy `id` nor a `number` key gets `''`. */
  lemma QuestionIdDefault(q: Dict)
    requires !Truthy(GetOr(q, "id", JNull)) && !HasKey(q, "number")
    ensures QuestionId(q) == JStr("")
  {
    EvalOrNoneTruthy(q, [Key("id"), KeyOr("number", JStr(""))]);
  }

  /** `resolver_questao` once the question was formatted: `reply` is what
      `generate_enem_response` returned, or the text of what it raised. A
      reply that is not a string makes `.upper()` raise inside the `try`. */
  function MakeResult(q: Dict, f: Formatted, reply: Result<Json, string>): (r: EvalResult)
    ensures r.questaoId == QuestionId(q) && r.area == f.area && r.gabarito == f.gabarito && r.questaoOriginal == q
    ensures r.outcome.Answered? <==> reply.Ok? && reply.value.JStr?
    ensures r.outcome.Answered? ==>
              r.outcome.resposta == reply.value.s && r.outcome.promptUsado == f.prompt
              && (r.outcome.acertou <==> IsSubstring(Upper(f.gabarito), Upper(reply.value.s)))
    ensures reply.Err? ==> r.outcome == Failed(reply.error)
    ensures reply.Ok? && !reply.value.JStr?
            ==> r.outcome == Failed("'" + TypeName(reply.value) + "' object has no attribute 'upper'")
    ensures r.arquivoOrigem == GetOr(q, "arquivo_origem", JStr(""))
  {
    var outcome :=
      match reply
      case Err(e) => Failed(e)
      case Ok(JStr(text)) => Answered(text, Acertou(text, f.gabarito), f.prompt)
      case Ok(v) => Failed("'" + TypeName(v) + "' object has no attribute 'upper'");
    EvalResult(QuestionId(q), GetOr(q, "arquivo_origem", JStr("")), f.area, f.gabarito, outcome, q)
  }

  // ---------------------------------------------------------------------
  // The progress file

  /** What `json.dump` writes to `progresso_resolucao.json`. */
  datatype Checkpoint = Checkpoint(totalProcessadas: nat, totalQuestoes: nat, resultados: seq<EvalResult>)

  /** The progress file: missing, present but not a loadable checkpoint, or
      a checkpoint. */
  datatype FileState = Absent | Unreadable | Saved(cp: Checkpoint)

  /** `progresso_resolucao.json`, whose contents the batch overwrites. */
  class ProgressFile {
    var state: FileState

    constructor (initial: FileState)
      ensures state == initial
    {
      state := initial;
    }

    /** `open(arquivo_progresso, 'w')` followed by `json.dump`. */
    method Overwrite(cp: Checkpoint)
      modifies this
      ensures state == Saved(cp)
    {
      state := Saved(cp);
    }
  }

  /** The results a run starts from: those of a saved checkpoint, when
      progress saving is on. */
  function LoadedResults(save: bool, file: FileState): seq<EvalResult> {
    if save && file.Saved? then file.cp.resultados else []
  }

  predicate AllIdsHashable(rs: seq<EvalResult>) {
    forall i :: 0 <= i < |rs| ==> Hashable(rs[i].questaoId)
  }

  /** `set(r.get('questao_id', '') for r in resultados)`, or the empty set
      when building it raised (the bare `except` keeps the old `set()`). */
  function SkipSet(rs: seq<EvalResult>): (skip: set<Json>)
    ensures AllIdsHashable(rs) ==> forall i :: 0 <= i < |rs| ==> rs[i].questaoId in skip
    ensures forall x :: x in skip ==> exists i :: 0 <= i < |rs| && rs[i].questaoId == x
    ensures !AllIdsHashable(rs) ==> skip == {}
  {
    if AllIdsHashable(rs) then set i | 0 <= i < |rs| :: rs[i].questaoId else {}
  }

  /** The generator expression that builds the skip set, as a loop. */
  method CollectIds(rs: seq<EvalResult>) returns (ids: set<Json>)
    ensures ids == SkipSet(rs)
  {
    ids := {};
    var n := 0;
    while n < |rs|
      invariant 0 <= n <= |rs|
      invariant ids == set i | 0 <= i < n :: rs[i].questaoId
      invariant forall i :: 0 <= i < n ==> Hashable(rs[i].questaoId)
    {
      if !Hashable(rs[n].questaoId) {
        return {};
      }
      ids := ids + {rs[n].questaoId};
      n := n + 1;
    }
  }

  // ---------------------------------------------------------------------
  // The loop of processar_todas_questoes, as a specification

  /** Everything the loop reads but never changes: the questions with their
      ids and formatted prompts, the skip set, the saving flag, the loaded
      results, the progress file as the run found it, and `resolve`, the
      result `resolver_questao` builds for a formatted question sent as the
      `k`-th request. */
  datatype Run = Run(qs: seq<Dict>, ids: seq<Json>, formats: seq<Result<Formatted, FormatError>>,
                     skip: set<Json>, save: bool, loaded: seq<EvalResult>, file0: FileState,
                     resolve: (Dict, Formatted, nat) -> EvalResult)

  predicate Shaped(run: Run) {
    |run.ids| == |run.qs| && |run.formats| == |run.qs|
  }

  /** The run `processar_todas_questoes` makes over `qs`, with the progress
      file `file` and the client `client`. */
  function MakeRun(qs: seq<Dict>, save: bool, file: FileState, client: Client, send: Transport): (run: Run)
    ensures Shaped(run) && run.qs == qs && run.save == save && run.file0 == file
    ensures forall i :: 0 <= i < |qs| ==> run.ids[i] == QuestionId(qs[i]) && run.formats[i] == FormatForPrompt(qs[i])
    ensures run.loaded == LoadedResults(save, file) && run.skip == SkipSet(run.loaded)
    ensures forall q, f, k :: run.resolve(q, f, k) == MakeResult(q, f, GenerateEnemResponse(client, send, k, f.prompt, MaxTokens))
  {
    var loaded := LoadedResults(save, file);
    Run(qs, seq(|qs|, i requires 0 <= i < |qs| => QuestionId(qs[i])),
        seq(|qs|, i requires 0 <= i < |qs| => FormatForPrompt(qs[i])),
        SkipSet(loaded), save, loaded, file,
        (q: Dict, f: Formatted, k: nat) => MakeResult(q, f, GenerateEnemResponse(client, send, k, f.prompt, MaxTokens)))
  }

  /** The loop state after some input positions: the results so far, the
      number of requests sent, and the progress file; or the exception that
      ended the run, with the file as it was left. */
  datatype RunState =
    | Running(results: seq<EvalResult>, calls: nat, file: FileState)
    | Halted(error: string, file: FileState)

  /** The state before the first question. */
  function Start(run: Run): RunState {
    Running(run.loaded, 0, run.file0)
  }

  /** The body of the loop for 0-based index `i` (input position `i + 1`). */
  function Step(run: Run, st: RunState, i: nat): RunState
    requires Shaped(run) && i < |run.qs|
  {
    match st
    case Halted(_, _) => st
    case Running(results, calls, file) =>
      var id := run.ids[i];
      if !Hashable(id) then Halted(UnhashableMessage(id), file)
      else if id in run.skip then st
      else
        match run.formats[i]
        case Err(e) => Halted(FormatErrorMessage(e), file)
        case Ok(f) =>
          var results' := results + [run.resolve(run.qs[i], f, calls)];
          var file' :=
            if run.save && (i + 1) % CheckpointEvery == 0
            then Saved(Checkpoint(|results'|, |run.qs|, results'))
            else file;
          Running(results', calls + 1, file')
  }

  /** The state after the first `n` questions. */
  function RunPrefix(run: Run, n: nat): RunState
    requires Shaped(run) && n <= |run.qs|
  {
    if n == 0 then Start(run) else Step(run, RunPrefix(run, n - 1), n - 1)
  }

  /** What `processar_todas_questoes` ends with: the result list it returns,
      or the exception that escaped it. */
  datatype RunResult = Finished(resultados: seq<EvalResult>) | Crashed(error: string)

  function Returned(st: RunState): RunResult {
    match st
    case Running(results, _, _) => Finished(results)
    case Halted(e, _) => Crashed(e)
  }

  /** `processar_todas_questoes(questoes, salvar_progresso)`. `client` is
      the outcome of `MaritacaAPI()`; `progress` is the progress file. */
  method ProcessAll(qs: seq<Dict>, save: bool, client: Result<Client, InitError>, send: Transport,
                    progress: ProgressFile)
    returns (r: RunResult)
    modifies progress
    ensures client.Err? ==> r == Finished([]) && progress.state == old(progress.state)
    ensures client.Ok? ==>
              var run := MakeRun(qs, save, old(progress.state), client.value, send);
              r == Returned(RunPrefix(run, |qs|)) && progress.state == RunPrefix(run, |qs|).file
  {
    if client.Err? {
      return Finished([]);
    }
    ghost var run := MakeRun(qs, save, progress.state, client.value, send);
    var results: seq<EvalResult> := [];
    var skip: set<Json> := {};
    if save && progress.state.Saved? {
      results := progress.state.cp.resultados;
      skip := CollectIds(results);
    }
    assert results == run.loaded && skip == run.skip;
    var calls := 0;
    var i := 0;
    while i < |qs|
      invariant 0 <= i <= |qs|
      invariant RunPrefix(run, i) == Running(results, calls, progress.state)
    {
      var halt;
      var id := QuestionId(qs[i]);
      halt, results, calls := ProcessOne(run, client.value, send, save, skip, |qs|, i, qs[i], id, results, calls, progress);
      if halt.Some? {
        HaltedSticks(run, i + 1, |qs|);
        return Crashed(halt.value);
      }
      i := i + 1;
    }
    return Finished(results);
  }

  /** One pass of the loop of `processar_todas_questoes`, for 0-based index
      `i` and the question's id `id`: skip, or resolve and append, and
      rewrite the progress file at every tenth position; `halt` is the
      exception that escapes, if any. */
  method ProcessOne(ghost run: Run, client: Client, send: Transport, save: bool, skip: set<Json>,
                    total: nat, i: nat, q: Dict, id: Json, results: seq<EvalResult>, calls: nat, progress: ProgressFile)
    returns (halt: Option<string>, results': seq<EvalResult>, calls': nat)
    modifies progress
    requires Shaped(run) && i < |run.qs| && q == run.qs[i] && total == |run.qs|
    requires save == run.save && skip == run.skip
    requires id == run.ids[i]
    requires forall j {:trigger FormatForPrompt(run.qs[j])} :: 0 <= j < |run.qs| ==> run.formats[j] == FormatForPrompt(run.qs[j])
    requires forall f, k :: run.resolve(run.qs[i], f, k)
                            == MakeResult(run.qs[i], f, GenerateEnemResponse(client, send, k, f.prompt, MaxTokens))
    ensures var st := Step(run, Running(results, calls, old(progress.state)), i);
            progress.state == st.file
            && (st.Halted? ==> halt == Some(st.error))
            && (st.Running? ==> halt.None? && results' == st.results && calls' == st.calls)
  {
    ghost var st := Running(results, calls, progress.state);
    results', calls' := results, calls;
    if !Hashable(id) {
      StepRaises(run, st, i);
      return Some(UnhashableMessage(id)), results', calls';
    }
    if id in skip {
      StepSkips(run, st, i);
      return None, results', calls';
    }
    var f := Format(run, i, q);
    if f.Err? {
      StepRaises(run, st, i);
      return Some(FormatErrorMessage(f.error)), results', calls';
    }
    var r := Resolve(run, client, send, i, q, f.value, calls);
    results' := results + [r];
    calls' := calls + 1;
    StepAnswers(run, st, i, f.value);
    if save && (i + 1) % CheckpointEvery == 0 {
      progress.Overwrite(Checkpoint(|results'|, total, results'));
    }
    halt := None;
  }

  /** `formatar_questao_para_prompt` for question `i` of the run. */
  method Format(ghost run: Run, i: nat, q: Dict) returns (f: Result<Formatted, FormatError>)
    requires Shaped(run) && i < |run.qs| && q == run.qs[i]
    requires forall j {:trigger FormatForPrompt(run.qs[j])} :: 0 <= j < |run.qs| ==> run.formats[j] == FormatForPrompt(run.qs[j])
    ensures f == run.formats[i]
  {
    f := FormatForPrompt(q);
  }

  /** `resolver_questao` for question `i` of the run, as the `calls`-th request. */
  method Resolve(ghost run: Run, client: Client, send: Transport, i: nat, q: Dict, f: Formatted, calls: nat)
    returns (r: EvalResult)
    requires i < |run.qs| && q == run.qs[i]
    requires forall f, k :: run.resolve(run.qs[i], f, k)
                            == MakeResult(run.qs[i], f, GenerateEnemResponse(client, send, k, f.prompt, MaxTokens))
    ensures r == run.resolve(run.qs[i], f, calls)
  {
    var reply := GenerateEnemResponse(client, send, calls, f.prompt, MaxTokens);
    r := MakeResult(q, f, reply);
  }

  // The three ways one step of the loop can go, for a running state.

  lemma StepRaises(run: Run, st: RunState, i: nat)
    requires Shaped(run) && i < |run.qs| && st.Running?
    requires !Hashable(run.ids[i]) || (run.ids[i] !in run.skip && run.formats[i].Err?)
    ensures Step(run, st, i)
            == Halted(if !Hashable(run.ids[i]) then UnhashableMessage(run.ids[i])
                      else FormatErrorMessage(run.formats[i].error), st.file)
  {
  }

  lemma StepSkips(run: Run, st: RunState, i: nat)
    requires Shaped(run) && i < |run.qs| && st.Running?
    requires Hashable(run.ids[i]) && run.ids[i] in run.skip
    ensures Step(run, st, i) == st
  {
  }

  lemma StepAnswers(run: Run, st: RunState, i: nat, f: Formatted)
    requires Shaped(run) && i < |run.qs| && st.Running?
    requires Hashable(run.ids[i]) && run.ids[i] !in run.skip && run.formats[i] == Ok(f)
    ensures var results' := st.results + [run.resolve(run.qs[i], f, st.calls)];
            Step(run, st, i)
            == Running(results', st.calls + 1,
                       if run.save && (i + 1) % CheckpointEvery == 0
                       then Saved(Checkpoint(|results'|, |run.qs|, results')) else st.file)
  {
  }

  // ---------------------------------------------------------------------
  // Properties of the loop

  /** An exception ends the run: nothing after it changes the state. */
  lemma {:induction false} HaltedSticks(run: Run, n: nat, m: nat)
    requires Shaped(run) && n <= m <= |run.qs| && RunPrefix(run, n).Halted?
    ensures RunPrefix(run, m) == RunPrefix(run, n)
    decreases m - n
  {
    if n < m {
      HaltedSticks(run, n, m - 1);
    }
  }

  /** Index `i` raises: its id is unhashable, or it is not skipped and its
      formatting raises. */
  predicate Fatal(run: Run, i: int)
    requires Shaped(run)
  {
    0 <= i < |run.qs|
    && (!Hashable(run.ids[i]) || (run.ids[i] !in run.skip && run.formats[i].Err?))
  }

  /** The run is still going after `n` questions exactly when none of them
      raised. */
  lemma {:induction false} RunningIffNoFatal(run: Run, n: nat)
    requires Shaped(run) && n <= |run.qs|
    ensures RunPrefix(run, n).Running? <==> forall i :: 0 <= i < n ==> !Fatal(run, i)
  {
    if n > 0 {
      RunningIffNoFatal(run, n - 1);
      var prev := RunPrefix(run, n - 1);
      if prev.Halted? {
        assert RunPrefix(run, n) == prev;
      } else {
        assert RunPrefix(run, n).Running? <==> !Fatal(run, n - 1);
      }
    }
  }

  /** The indices below `n` whose question is not skipped, in input order. */
  function Pending(run: Run, n: nat): (ps: seq<nat>)
    requires Shaped(run) && n <= |run.qs|
    ensures forall j :: 0 <= j < |ps| ==> ps[j] < n
  {
    if n == 0 then []
    else Pending(run, n - 1) + (if run.ids[n - 1] in run.skip then [] else [n - 1])
  }

  /** `Pending` lists exactly the indices not skipped, each once, in order. */
  lemma {:induction false} PendingSpec(run: Run, n: nat)
    requires Shaped(run) && n <= |run.qs|
    ensures forall i :: i in Pending(run, n) <==> 0 <= i < n && run.ids[i] !in run.skip
    ensures forall j, k :: 0 <= j < k < |Pending(run, n)| ==> Pending(run, n)[j] < Pending(run, n)[k]
  {
    if n > 0 {
      PendingSpec(run, n - 1);
    }
  }

  /** The result the run appends for index `i` as its `k`-th request. */
  function ResultAt(run: Run, i: nat, k: nat): EvalResult
    requires Shaped(run) && i < |run.qs| && run.formats[i].Ok?
  {
    run.resolve(run.qs[i], run.formats[i].value, k)
  }

  /** The results appended for the indices `ps`, the `j`-th of them made by
      the `j`-th request. */
  function Answers(run: Run, ps: seq<nat>): seq<EvalResult>
    requires Shaped(run)
    requires forall j :: 0 <= j < |ps| ==> ps[j] < |run.qs| && run.formats[ps[j]].Ok?
  {
    seq(|ps|, j requires 0 <= j < |ps| => ResultAt(run, ps[j], j))
  }

  /** Skipping and appending: while the run goes on, the results are the
      loaded ones followed by one result per question not skipped, in input
      order, and exactly one request was sent per such question. */
  lemma {:induction false} ResultsSpec(run: Run, n: nat)
    requires Shaped(run) && n <= |run.qs| && RunPrefix(run, n).Running?
    ensures forall j :: 0 <= j < |Pending(run, n)| ==> run.formats[Pending(run, n)[j]].Ok?
    ensures RunPrefix(run, n).results == run.loaded + Answers(run, Pending(run, n))
    ensures RunPrefix(run, n).calls == |Pending(run, n)|
  {
    if n > 0 {
      ResultsSpec(run, n - 1);
      var ps := Pending(run, n - 1);
      if run.ids[n - 1] !in run.skip {
        var ps' := ps + [n - 1];
        assert Pending(run, n) == ps';
        assert Answers(run, ps') == Answers(run, ps) + [ResultAt(run, n - 1, |ps|)];
      }
    }
  }

  /** The loaded results stay at the front of the list, and the list grows
      by one result per request. */
  lemma LoadedResultsKept(run: Run, n: nat)
    requires Shaped(run) && n <= |run.qs| && RunPrefix(run, n).Running?
    ensures run.loaded <= RunPrefix(run, n).results
    ensures |RunPrefix(run, n).results| == |run.loaded| + RunPrefix(run, n).calls
  {
    ResultsSpec(run, n);
  }

  /** A question whose id is in the skip set never reaches the client. */
  lemma SkippedNotRequested(run: Run, i: nat)
    requires Shaped(run) && i < |run.qs| && RunPrefix(run, |run.qs|).Running?
    requires run.ids[i] in run.skip
    ensures i !in Pending(run, |run.qs|)
    ensures RunPrefix(run, |run.qs|).calls == |Pending(run, |run.qs|)|
  {
    PendingSpec(run, |run.qs|);
    ResultsSpec(run, |run.qs|);
  }

  /** A question without `id` or `number` is skipped as soon as some loaded
      result has the id `''`. */
  lemma EmptyIdIsSkipped(qs: seq<Dict>, save: bool, file: FileState, client: Client, send: Transport,
                         i: nat, j: nat)
    requires i < |qs| && QuestionId(qs[i]) == JStr("")
    requires AllIdsHashable(LoadedResults(save, file))
    requires j < |LoadedResults(save, file)| && LoadedResults(save, file)[j].questaoId == JStr("")
    ensures i !in Pending(MakeRun(qs, save, file, client, send), |qs|)
  {
    PendingSpec(MakeRun(qs, save, file, client, send), |qs|);
  }

  /** An unhashable id among the loaded results switches skipping off: every
      question is requested again. */
  lemma {:induction false} UnhashableLoadedIdSkipsNothing(run: Run, n: nat)
    requires Shaped(run) && n <= |run.qs| && run.skip == {}
    ensures Pending(run, n) == seq(n, i => i)
  {
    if n > 0 {
      UnhashableLoadedIdSkipsNothing(run, n - 1);
    }
  }

  /** Resuming after a crash: when the ids are distinct and the skip set holds
      exactly the ids of the first `m` questions, the run requests the
      remaining questions and only those, in order. */
  lemma {:induction false} ResumeRequestsTheRest(run: Run, m: nat, n: nat)
    requires Shaped(run) && m <= n <= |run.qs|
    requires forall i, j :: 0 <= i < j < |run.qs| ==> run.ids[i] != run.ids[j]
    requires forall x :: x in run.skip <==> exists i :: 0 <= i < m && run.ids[i] == x
    ensures Pending(run, n) == seq(n - m, k => m + k)
  {
    if n == m {
      NothingPendingBefore(run, m, m);
    } else {
      ResumeRequestsTheRest(run, m, n - 1);
      forall i | 0 <= i < m ensures run.ids[i] != run.ids[n - 1] { }
      assert run.ids[n - 1] !in run.skip;
      assert seq(n - m, k => m + k) == seq(n - 1 - m, k => m + k) + [n - 1];
    }
  }

  lemma {:induction false} NothingPendingBefore(run: Run, m: nat, n: nat)
    requires Shaped(run) && n <= m <= |run.qs|
    requires forall x :: x in run.skip <==> exists i :: 0 <= i < m && run.ids[i] == x
    ensures Pending(run, n) == []
  {
    if n > 0 {
      NothingPendingBefore(run, m, n - 1);
      assert run.ids[n - 1] in run.skip;
    }
  }

  /** Index `i` rewrites the progress file: saving is on, the input position
      `i + 1` is a multiple of ten, and the question is not skipped. */
  predicate SavePoint(run: Run, i: int)
    requires Shaped(run)
  {
    0 <= i < |run.qs| && run.save && (i + 1) % CheckpointEvery == 0 && run.ids[i] !in run.skip
  }

  /** The last save point below `n`. */
  function LastSave(run: Run, n: nat): (r: Option<nat>)
    requires Shaped(run) && n <= |run.qs|
    ensures r.None? ==> forall i :: 0 <= i < n ==> !SavePoint(run, i)
    ensures r.Some? ==> r.value < n && SavePoint(run, r.value)
                        && forall i :: r.value < i < n ==> !SavePoint(run, i)
  {
    if n == 0 then None
    else if SavePoint(run, n - 1) then Some(n - 1)
    else LastSave(run, n - 1)
  }

  /** Checkpoint writes: while the run goes on, the progress file is as the
      run found it if no save point has passed; otherwise it holds the
      snapshot taken at the last save point, with `total_processadas` the
      number of results then and `total_questoes` the number of questions. */
  lemma {:induction false} CheckpointSpec(run: Run, n: nat)
    requires Shaped(run) && n <= |run.qs| && RunPrefix(run, n).Running?
    ensures LastSave(run, n).None? ==> RunPrefix(run, n).file == run.file0
    ensures LastSave(run, n).Some? ==>
              var m := LastSave(run, n).value;
              RunPrefix(run, m + 1).Running?
              && RunPrefix(run, n).file
                 == Saved(Checkpoint(|RunPrefix(run, m + 1).results|, |run.qs|, RunPrefix(run, m + 1).results))
  {
    if n > 0 {
      CheckpointSpec(run, n - 1);
    }
  }

  /** The saved snapshot is a prefix of the results the run holds later. */
  lemma {:induction false} SnapshotIsPrefix(run: Run, m: nat, n: nat)
    requires Shaped(run) && m <= n <= |run.qs| && RunPrefix(run, n).Running?
    ensures RunPrefix(run, m).Running?
    ensures RunPrefix(run, m).results <= RunPrefix(run, n).results
    decreases n - m
  {
    if m < n {
      SnapshotIsPrefix(run, m, n - 1);
    }
  }

  /** With progress saving off the file is never written. */
  lemma NoSaveNoWrite(run: Run, n: nat)
    requires Shaped(run) && n <= |run.qs| && !run.save && RunPrefix(run, n).Running?
    ensures RunPrefix(run, n).file == run.file0
  {
    CheckpointSpec(run, n);
  }
}
