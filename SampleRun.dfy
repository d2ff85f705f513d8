/** The question loop and the closing summary of resolver_questoes_enem.py
    (`resolver_questoes`): every question is formatted, sent once, and
    recorded with its 1-based number; the summary counts correct, wrong and
    unjudged answers. */
module SampleRun {
  import opened Text
  import opened PyValues
  import opened PromptFormat
  import opened Verdict
  import opened Maritaca
  import Batch
  import opened Reports

  /** One entry of `resultados`: the reply with the key and the verdict
      (`None` without a key), or the text of the exception. */
  datatype SampleResult =
    | Answered(questaoNum: nat, gabarito: Json, resposta: Json, acertou: Option<bool>)
    | Errored(questaoNum: nat, erro: string)

  /** The body of the loop for 0-based index `i` (`questao_num` is `i + 1`,
      and the request is the `i`-th one sent). A formatting failure is not
      caught by the loop and ends the function. */
  function SampleOne(client: Client, send: Transport, q: Dict, i: nat): (r: Result<SampleResult, string>)
    ensures r.Ok? <==> FormatQuestion(q).Ok?
    ensures r.Ok? ==> r.value.questaoNum == i + 1
  {
    match FormatQuestion(q)
    case Err(e) => Err(FormatErrorMessage(e))
    case Ok((prompt, key)) =>
      match GenerateEnemResponse(client, send, i, prompt, Batch.MaxTokens)
      case Err(e) => Ok(Errored(i + 1, e))
      case Ok(reply) =>
        if !Truthy(key) then Ok(Answered(i + 1, key, reply, None))
        else if reply.JStr? then Ok(Answered(i + 1, key, reply, Verdict2(reply.s, key)))
        else Ok(Errored(i + 1, "'" + TypeName(reply) + "' object has no attribute 'upper'"))
  }

  /** What one question contributes: a formatting failure ends the run; a
      failed call is recorded as an error; a reply is recorded with the raw
      key, and judged only when the key is truthy, in which case a reply
      that is not text makes `.upper()` raise inside the `try`. */
  lemma SampleOneSpec(client: Client, send: Transport, q: Dict, i: nat)
    ensures var r := SampleOne(client, send, q, i);
            r.Err? ==> r.error == FormatErrorMessage(FormatQuestion(q).error)
    ensures var r := SampleOne(client, send, q, i);
            r.Ok? ==>
              var key := FormatQuestion(q).value.1;
              var reply := GenerateEnemResponse(client, send, i, FormatQuestion(q).value.0, Batch.MaxTokens);
              (r.value.Errored? <==> reply.Err? || (Truthy(key) && !reply.value.JStr?))
              && (reply.Err? ==> r.value.erro == reply.error)
              && (r.value.Answered? ==>
                    reply == Ok(r.value.resposta) && r.value.gabarito == key
                    && (r.value.acertou.None? <==> !Truthy(key))
                    && (r.value.acertou.Some? ==>
                          r.value.resposta.JStr?
                          && (r.value.acertou.value <==> IsSubstring(Upper(PyStr(key)), Upper(r.value.resposta.s)))))
  {
  }

  /** The loop of `resolver_questoes` over the chosen questions, once the
      client exists. */
  method ResolverQuestoes(qs: seq<Dict>, client: Client, send: Transport)
    returns (r: Result<seq<SampleResult>, string>)
    ensures r.Ok? ==> |r.value| == |qs|
    ensures r.Ok? ==> forall i :: 0 <= i < |qs| ==> SampleOne(client, send, qs[i], i) == Ok(r.value[i])
    ensures r.Err? ==> exists i :: 0 <= i < |qs| && SampleOne(client, send, qs[i], i) == Err(r.error)
                                   && forall j :: 0 <= j < i ==> SampleOne(client, send, qs[j], j).Ok?
  {
    var resultados: seq<SampleResult> := [];
    var i := 0;
    while i < |qs|
      invariant 0 <= i <= |qs| && |resultados| == i
      invariant forall j :: 0 <= j < i ==> SampleOne(client, send, qs[j], j) == Ok(resultados[j])
    {
      var one := SampleOne(client, send, qs[i], i);
      if one.Err? {
        return Err(one.error);
      }
      ghost var before := resultados;
      resultados := resultados + [one.value];
      forall j | 0 <= j <= i
        ensures SampleOne(client, send, qs[j], j) == Ok(resultados[j])
      {
        if j < i {
          assert resultados[j] == before[j];
        }
      }
      i := i + 1;
    }
    return Ok(resultados);
  }

  // ---------------------------------------------------------------------
  // The summary

  /** `r.get('acertou') == True`. */
  predicate Hit(r: SampleResult) {
    r.Answered? && r.acertou.Some? && r.acertou.value
  }

  /** `r.get('acertou') == False`. */
  predicate Miss(r: SampleResult) {
    r.Answered? && r.acertou.Some? && !r.acertou.value
  }

  /** `r.get('acertou') is None`: no key to compare with, or an error entry
      that has no `acertou` at all. */
  predicate Unjudged(r: SampleResult) {
    r.Errored? || r.acertou.None?
  }

  function CountHits(rs: seq<SampleResult>): nat {
    if |rs| == 0 then 0 else (if Hit(rs[0]) then 1 else 0) + CountHits(rs[1..])
  }

  function CountMisses(rs: seq<SampleResult>): nat {
    if |rs| == 0 then 0 else (if Miss(rs[0]) then 1 else 0) + CountMisses(rs[1..])
  }

  function CountUnjudged(rs: seq<SampleResult>): nat {
    if |rs| == 0 then 0 else (if Unjudged(rs[0]) then 1 else 0) + CountUnjudged(rs[1..])
  }

  /** Every entry is exactly one of correct, wrong or unjudged. */
  lemma {:induction false} SummaryPartition(rs: seq<SampleResult>)
    ensures CountHits(rs) + CountMisses(rs) + CountUnjudged(rs) == |rs|
  {
    if |rs| > 0 {
      SummaryPartition(rs[1..]);
    }
  }

  /** What the summary shows: the total, the three counts, and the rate,
      printed only when some answer was judged. */
  datatype Summary = Summary(total: nat, acertos: nat, erros: nat, semGabarito: nat, taxa: Option<Rate>)

  function Resumo(rs: seq<SampleResult>): (s: Summary)
    ensures s.total == |rs| && s.acertos + s.erros + s.semGabarito == s.total
    ensures s.taxa.Some? <==> s.acertos + s.erros > 0
    ensures s.taxa.Some? ==> s.taxa.value == Percent(s.acertos, s.acertos + s.erros)
  {
    SummaryPartition(rs);
    var acertos := CountHits(rs);
    var erros := CountMisses(rs);
    Summary(|rs|, acertos, erros, CountUnjudged(rs),
            if acertos + erros > 0 then Some(TaxaAcerto(acertos, erros)) else None)
  }

  /** Every error entry is counted as unjudged: a run in which every call
      failed shows no rate. */
  lemma AllErroredNoRate(rs: seq<SampleResult>)
    requires forall k :: 0 <= k < |rs| ==> rs[k].Errored?
    ensures Resumo(rs).semGabarito == |rs| && Resumo(rs).taxa.None?
  {
    AllUnjudged(rs);
  }

  lemma {:induction false} AllUnjudged(rs: seq<SampleResult>)
    requires forall k :: 0 <= k < |rs| ==> Unjudged(rs[k])
    ensures CountUnjudged(rs) == |rs| && CountHits(rs) == 0 && CountMisses(rs) == 0
  {
    if |rs| > 0 {
      AllUnjudged(rs[1..]);
    }
  }

  /** Questions without a key never count as correct or wrong. */
  lemma KeylessNeverJudged(client: Client, send: Transport, qs: seq<Dict>, rs: seq<SampleResult>)
    requires |rs| == |qs|
    requires forall i :: 0 <= i < |qs| ==> SampleOne(client, send, qs[i], i) == Ok(rs[i])
    requires forall i :: 0 <= i < |qs| ==> FormatQuestion(qs[i]).Ok? && !Truthy(FormatQuestion(qs[i]).value.1)
    ensures Resumo(rs).semGabarito == |rs| && Resumo(rs).taxa.None?
  {
    forall k | 0 <= k < |rs|
      ensures Unjudged(rs[k])
    {
      SampleOneSpec(client, send, qs[k], k);
    }
    AllUnjudged(rs);
  }
}
