/** The per-area reports of resolver_todas_questoes.py
    (`gerar_relatorios_por_area`): the results are grouped by area in order
    of first appearance, and each group is counted into correct, wrong and
    unanswered results. */
module Reports {
  import opened PyValues
  import opened Batch

  // ---------------------------------------------------------------------
  // Grouping, as a specification

  /** The areas of `rs` in order of first appearance: the key order of the
      `defaultdict` after the grouping loop. */
  function AreaOrder(rs: seq<EvalResult>): seq<string> {
    if |rs| == 0 then []
    else
      var o := AreaOrder(rs[..|rs| - 1]);
      var a := rs[|rs| - 1].area;
      if a in o then o else o + [a]
  }

  /** The results of area `a`, in their order in `rs`. */
  function InArea(rs: seq<EvalResult>, a: string): seq<EvalResult> {
    if |rs| == 0 then []
    else InArea(rs[..|rs| - 1], a) + (if rs[|rs| - 1].area == a then [rs[|rs| - 1]] else [])
  }

  predicate Distinct<T(==)>(s: seq<T>) {
    forall i, j :: 0 <= i < j < |s| ==> s[i] != s[j]
  }

  /** Every area occurs once in the order, and the order lists exactly the
      areas that occur in the results. */
  lemma {:induction false} AreaOrderSpec(rs: seq<EvalResult>)
    ensures Distinct(AreaOrder(rs))
    ensures forall a :: a in AreaOrder(rs) <==> exists i :: 0 <= i < |rs| && rs[i].area == a
  {
    if |rs| > 0 {
      var p := rs[..|rs| - 1];
      AreaOrderSpec(p);
      forall a | a in AreaOrder(rs)
        ensures exists i :: 0 <= i < |rs| && rs[i].area == a
      {
        if a in AreaOrder(p) {
          var i :| 0 <= i < |p| && p[i].area == a;
          assert rs[i] == p[i];
        } else {
          assert rs[|rs| - 1].area == a;
        }
      }
      forall a | exists i :: 0 <= i < |rs| && rs[i].area == a
        ensures a in AreaOrder(rs)
      {
        var i :| 0 <= i < |rs| && rs[i].area == a;
        if i < |p| {
          assert p[i] == rs[i];
        }
      }
    }
  }

  /** An area that does not occur has no results. */
  lemma {:induction false} UnlistedAreaIsEmpty(rs: seq<EvalResult>, a: string)
    requires a !in AreaOrder(rs)
    ensures InArea(rs, a) == []
  {
    if |rs| > 0 {
      var p := rs[..|rs| - 1];
      assert AreaOrder(p) <= AreaOrder(rs) || AreaOrder(rs) == AreaOrder(p);
      assert a !in AreaOrder(p);
      UnlistedAreaIsEmpty(p, a);
    }
  }

  /** Every result of a group belongs to that area, and a group keeps the
      relative order of `rs`: it is `rs` filtered by area. */
  lemma {:induction false} InAreaFilters(rs: seq<EvalResult>, a: string)
    ensures forall k :: 0 <= k < |InArea(rs, a)| ==> InArea(rs, a)[k].area == a && InArea(rs, a)[k] in rs
    ensures |InArea(rs, a)| <= |rs|
  {
    if |rs| > 0 {
      var p := rs[..|rs| - 1];
      InAreaFilters(p, a);
      forall k | 0 <= k < |InArea(rs, a)|
        ensures InArea(rs, a)[k].area == a && InArea(rs, a)[k] in rs
      {
        if k < |InArea(p, a)| {
          assert InArea(rs, a)[k] == InArea(p, a)[k];
          assert InArea(p, a)[k] in p;
        }
      }
    }
  }

  /** The number of results in the groups named by `order`. */
  function GroupSizes(rs: seq<EvalResult>, order: seq<string>): nat {
    if |order| == 0 then 0 else |InArea(rs, order[0])| + GroupSizes(rs, order[1..])
  }

  lemma InAreaSnoc(rs: seq<EvalResult>, x: EvalResult, a: string)
    ensures InArea(rs + [x], a) == InArea(rs, a) + (if x.area == a then [x] else [])
  {
    assert (rs + [x])[..|rs|] == rs;
  }

  lemma {:induction false} GroupSizesSnoc(rs: seq<EvalResult>, x: EvalResult, order: seq<string>)
    requires Distinct(order)
    ensures GroupSizes(rs + [x], order) == GroupSizes(rs, order) + (if x.area in order then 1 else 0)
  {
    if |order| > 0 {
      InAreaSnoc(rs, x, order[0]);
      assert Distinct(order[1..]);
      GroupSizesSnoc(rs, x, order[1..]);
      assert x.area in order <==> x.area == order[0] || x.area in order[1..];
      if x.area == order[0] {
        assert x.area !in order[1..];
      }
    }
  }

  lemma {:induction false} GroupSizesAppend(rs: seq<EvalResult>, order: seq<string>, a: string)
    ensures GroupSizes(rs, order + [a]) == GroupSizes(rs, order) + |InArea(rs, a)|
  {
    if |order| > 0 {
      assert (order + [a])[1..] == order[1..] + [a];
      GroupSizesAppend(rs, order[1..], a);
    } else {
      assert order + [a] == [a];
    }
  }

  /** The groups together hold every result exactly once: their sizes add
      up to the number of results. */
  lemma {:induction false} GroupsCoverResults(rs: seq<EvalResult>)
    ensures GroupSizes(rs, AreaOrder(rs)) == |rs|
  {
    if |rs| > 0 {
      var p := rs[..|rs| - 1];
      var x := rs[|rs| - 1];
      assert rs == p + [x];
      var o := AreaOrder(p);
      GroupsCoverResults(p);
      AreaOrderSpec(p);
      GroupSizesSnoc(p, x, o);
      if x.area !in o {
        GroupSizesAppend(rs, o, x.area);
        InAreaSnoc(p, x, x.area);
        UnlistedAreaIsEmpty(p, x.area);
      }
    }
  }

  /** The grouping loop of `gerar_relatorios_por_area`: each result is
      appended to the list of its area in a `defaultdict(list)`;
      `order` is the dictionary's key order. */
  method GroupByArea(rs: seq<EvalResult>) returns (order: seq<string>, groups: map<string, seq<EvalResult>>)
    ensures order == AreaOrder(rs)
    ensures forall a :: a in groups <==> a in order
    ensures forall a :: a in groups ==> groups[a] == InArea(rs, a)
  {
    order, groups := [], map[];
    var n := 0;
    while n < |rs|
      invariant 0 <= n <= |rs|
      invariant order == AreaOrder(rs[..n])
      invariant forall a :: a in groups <==> a in order
      invariant forall a :: a in groups ==> groups[a] == InArea(rs[..n], a)
    {
      var a := rs[n].area;
      assert rs[..n + 1] == rs[..n] + [rs[n]];
      assert rs[..n + 1][..n] == rs[..n];
      if a !in groups {
        UnlistedAreaIsEmpty(rs[..n], a);
        order := order + [a];
        groups := groups[a := []];
      }
      groups := groups[a := groups[a] + [rs[n]]];
      n := n + 1;
    }
    assert rs[..n] == rs;
  }

  // ---------------------------------------------------------------------
  // Counting

  /** `r.get('acertou') == True`. */
  predicate IsHit(r: EvalResult) {
    r.outcome.Answered? && r.outcome.acertou
  }

  /** `r.get('acertou') == False`. */
  predicate IsMiss(r: EvalResult) {
    r.outcome.Answered? && !r.outcome.acertou
  }

  /** `r.get('acertou') is None`: a failed call stores no verdict. */
  predicate IsUnanswered(r: EvalResult) {
    r.outcome.Failed?
  }

  function Acertos(rs: seq<EvalResult>): nat {
    if |rs| == 0 then 0 else (if IsHit(rs[0]) then 1 else 0) + Acertos(rs[1..])
  }

  function Erros(rs: seq<EvalResult>): nat {
    if |rs| == 0 then 0 else (if IsMiss(rs[0]) then 1 else 0) + Erros(rs[1..])
  }

  function SemResposta(rs: seq<EvalResult>): nat {
    if |rs| == 0 then 0 else (if IsUnanswered(rs[0]) then 1 else 0) + SemResposta(rs[1..])
  }

  /** Every result is exactly one of correct, wrong or unanswered. */
  lemma {:induction false} CountsPartition(rs: seq<EvalResult>)
    ensures Acertos(rs) + Erros(rs) + SemResposta(rs) == |rs|
  {
    if |rs| > 0 {
      CountsPartition(rs[1..]);
    }
  }

  /** `taxa_acerto` before rounding: `acertos / (acertos + erros) * 100`, or
      0 when no result has a verdict. `Percent(n, d)` stands for `100 * n / d`. */
  datatype Rate = Zero | Percent(numer: nat, denom: nat)

  function TaxaAcerto(acertos: nat, erros: nat): (r: Rate)
    ensures r.Zero? <==> acertos + erros == 0
    ensures r.Percent? ==> r.denom > 0 && r.numer <= r.denom
    ensures r.Percent? ==> r.numer == acertos && r.denom - r.numer == erros
  {
    if acertos + erros > 0 then Percent(acertos, acertos + erros) else Zero
  }

  /** `stats_area` of one area. */
  datatype AreaStats = AreaStats(area: string, totalQuestoes: nat, acertos: nat, erros: nat,
                                 semResposta: nat, taxaAcerto: Rate)

  function StatsOf(area: string, rs: seq<EvalResult>): (s: AreaStats)
    ensures s.area == area && s.totalQuestoes == |rs|
    ensures s.acertos + s.erros + s.semResposta == s.totalQuestoes
    ensures s.taxaAcerto.Zero? <==> s.acertos + s.erros == 0
  {
    CountsPartition(rs);
    AreaStats(area, |rs|, Acertos(rs), Erros(rs), SemResposta(rs), TaxaAcerto(Acertos(rs), Erros(rs)))
  }

  /** A group made only of failed calls has rate 0. */
  lemma {:induction false} AllFailedRateZero(area: string, rs: seq<EvalResult>)
    requires forall k :: 0 <= k < |rs| ==> rs[k].outcome.Failed?
    ensures StatsOf(area, rs).semResposta == |rs| && StatsOf(area, rs).taxaAcerto == Zero
  {
    if |rs| > 0 {
      AllFailedRateZero(area, rs[1..]);
    }
  }

  /** `stats_geral`: the number of results and, in the key order of the
      grouping, the statistics of each area. */
  datatype GeneralStats = GeneralStats(totalQuestoes: nat, porArea: seq<AreaStats>)

  function SumTotals(por: seq<AreaStats>): nat {
    if |por| == 0 then 0 else por[0].totalQuestoes + SumTotals(por[1..])
  }

  /** `gerar_relatorios_por_area`, without the files it writes. */
  method GerarRelatorios(rs: seq<EvalResult>) returns (geral: GeneralStats)
    ensures geral.totalQuestoes == |rs|
    ensures |geral.porArea| == |AreaOrder(rs)|
    ensures forall j :: 0 <= j < |geral.porArea| ==>
              geral.porArea[j] == StatsOf(AreaOrder(rs)[j], InArea(rs, AreaOrder(rs)[j]))
  {
    var order, groups := GroupByArea(rs);
    var por: seq<AreaStats> := [];
    for j := 0 to |order|
      invariant |por| == j
      invariant forall k :: 0 <= k < j ==> por[k] == StatsOf(order[k], InArea(rs, order[k]))
    {
      por := por + [StatsOf(order[j], groups[order[j]])];
    }
    geral := GeneralStats(|rs|, por);
  }

  lemma {:induction false} SumTotalsIsGroupSizes(rs: seq<EvalResult>, order: seq<string>, por: seq<AreaStats>)
    requires |por| == |order|
    requires forall j :: 0 <= j < |por| ==> por[j].totalQuestoes == |InArea(rs, order[j])|
    ensures SumTotals(por) == GroupSizes(rs, order)
  {
    if |por| > 0 {
      SumTotalsIsGroupSizes(rs, order[1..], por[1..]);
    }
  }

  /** The report's areas are distinct, every area of the results has its
      entry, and the per-area totals add up to `total_questoes`. */
  lemma ReportCoversResults(rs: seq<EvalResult>, geral: GeneralStats)
    requires geral.totalQuestoes == |rs| && |geral.porArea| == |AreaOrder(rs)|
    requires forall j :: 0 <= j < |geral.porArea| ==>
               geral.porArea[j] == StatsOf(AreaOrder(rs)[j], InArea(rs, AreaOrder(rs)[j]))
    ensures SumTotals(geral.porArea) == geral.totalQuestoes
    ensures forall i :: 0 <= i < |rs| ==> exists j :: 0 <= j < |geral.porArea| && geral.porArea[j].area == rs[i].area
    ensures forall j, k :: 0 <= j < k < |geral.porArea| ==> geral.porArea[j].area != geral.porArea[k].area
  {
    AreaOrderSpec(rs);
    SumTotalsIsGroupSizes(rs, AreaOrder(rs), geral.porArea);
    GroupsCoverResults(rs);
    forall i | 0 <= i < |rs|
      ensures exists j :: 0 <= j < |geral.porArea| && geral.porArea[j].area == rs[i].area
    {
      assert rs[i].area in AreaOrder(rs);
      var j :| 0 <= j < |AreaOrder(rs)| && AreaOrder(rs)[j] == rs[i].area;
      assert geral.porArea[j].area == rs[i].area;
    }
  }

  // ---------------------------------------------------------------------
  // The error list of the Markdown report

  /** One entry of "Questões com Erro (Primeiras 10)": the id, the key and
      the first 100 characters of the reply. */
  datatype ErrorEntry = ErrorEntry(questaoId: Json, gabarito: string, preview: string)

  /** `[r for r in resultados_area if r.get('acertou') == False]`. */
  function Misses(rs: seq<EvalResult>): (m: seq<EvalResult>)
    ensures |m| == Erros(rs)
    ensures forall k :: 0 <= k < |m| ==> IsMiss(m[k])
  {
    if |rs| == 0 then []
    else (if IsMiss(rs[0]) then [rs[0]] else []) + Misses(rs[1..])
  }

  /** Filtering distributes over concatenation: with `Misses([]) == []` and
      the one-element case, this determines `Misses` as the filter that keeps
      the wrong results of a list in their order. */
  lemma {:induction false} MissesAppend(a: seq<EvalResult>, b: seq<EvalResult>)
    ensures Misses(a + b) == Misses(a) + Misses(b)
    ensures |a| == 1 ==> Misses(a) == (if IsMiss(a[0]) then a else [])
  {
    if |a| == 0 {
      assert a + b == b;
    } else {
      var h := if IsMiss(a[0]) then [a[0]] else [];
      assert Misses(a + b) == h + Misses(a[1..] + b) by {
        assert (a + b)[0] == a[0];
        assert (a + b)[1..] == a[1..] + b;
      }
      MissesAppend(a[1..], b);
      assert Misses(a) == h + Misses(a[1..]);
    }
  }

  /** Every position moved one place to the right. */
  function Shift(ps: seq<nat>): (r: seq<nat>)
    ensures |r| == |ps| && forall k :: 0 <= k < |ps| ==> r[k] == ps[k] + 1
  {
    seq(|ps|, k requires 0 <= k < |ps| => ps[k] + 1)
  }

  /** The misses are `rs` at strictly increasing positions, and every wrong
      result of `rs` is at one of them: an order-keeping subsequence holding
      all the misses. */
  lemma {:induction false} MissesPositions(rs: seq<EvalResult>) returns (pos: seq<nat>)
    ensures |pos| == |Misses(rs)|
    ensures forall k :: 0 <= k < |pos| ==> pos[k] < |rs| && Misses(rs)[k] == rs[pos[k]] && IsMiss(rs[pos[k]])
    ensures forall k, l :: 0 <= k < l < |pos| ==> pos[k] < pos[l]
    ensures forall i :: 0 <= i < |rs| && IsMiss(rs[i]) ==> i in pos
  {
    if |rs| == 0 {
      pos := [];
    } else {
      var tail := MissesPositions(rs[1..]);
      var h := if IsMiss(rs[0]) then [0] else [];
      pos := h + Shift(tail);
      assert forall k :: 0 <= k < |tail| ==> rs[1..][tail[k]] == rs[tail[k] + 1];
      ShiftedElements(rs, Misses(rs[1..]), Misses(rs), tail, h, pos);
      ShiftedOrdered(tail, h, pos);
      ShiftedCover(rs, tail, h, pos);
    }
  }

  // The three facts of the step of `MissesPositions`: the positions found in
  // `rs[1..]`, moved right by one and preceded by `0` when `rs[0]` is a miss.

  lemma ShiftedElements(rs: seq<EvalResult>, mt: seq<EvalResult>, m: seq<EvalResult>,
                        tail: seq<nat>, h: seq<nat>, pos: seq<nat>)
    requires |rs| > 0 && h == (if IsMiss(rs[0]) then [0] else []) && pos == h + Shift(tail)
    requires m == (if IsMiss(rs[0]) then [rs[0]] else []) + mt
    requires |tail| == |mt|
    requires forall k :: 0 <= k < |tail| ==>
               tail[k] < |rs| - 1 && mt[k] == rs[tail[k] + 1] && IsMiss(rs[tail[k] + 1])
    ensures |pos| == |m|
    ensures forall k :: 0 <= k < |pos| ==> pos[k] < |rs| && m[k] == rs[pos[k]] && IsMiss(rs[pos[k]])
  {
    forall k | 0 <= k < |pos|
      ensures pos[k] < |rs| && m[k] == rs[pos[k]] && IsMiss(rs[pos[k]])
    {
      if k >= |h| {
        assert pos[k] == tail[k - |h|] + 1;
        assert m[k] == mt[k - |h|];
      }
    }
  }

  lemma ShiftedOrdered(tail: seq<nat>, h: seq<nat>, pos: seq<nat>)
    requires (h == [] || h == [0]) && pos == h + Shift(tail)
    requires forall k, l :: 0 <= k < l < |tail| ==> tail[k] < tail[l]
    ensures forall k, l :: 0 <= k < l < |pos| ==> pos[k] < pos[l]
  {
    forall k, l | 0 <= k < l < |pos|
      ensures pos[k] < pos[l]
    {
      if k >= |h| {
        assert pos[k] == tail[k - |h|] + 1 && pos[l] == tail[l - |h|] + 1;
      } else {
        assert pos[l] == tail[l - |h|] + 1;
      }
    }
  }

  lemma ShiftedCover(rs: seq<EvalResult>, tail: seq<nat>, h: seq<nat>, pos: seq<nat>)
    requires |rs| > 0 && h == (if IsMiss(rs[0]) then [0] else []) && pos == h + Shift(tail)
    requires forall i :: 0 <= i < |rs[1..]| && IsMiss(rs[1..][i]) ==> i in tail
    ensures forall i :: 0 <= i < |rs| && IsMiss(rs[i]) ==> i in pos
  {
    forall i | 0 <= i < |rs| && IsMiss(rs[i])
      ensures i in pos
    {
      if i == 0 {
        assert pos[0] == 0;
      } else {
        assert rs[1..][i - 1] == rs[i];
        var k :| 0 <= k < |tail| && tail[k] == i - 1;
        assert pos[|h| + k] == i;
      }
    }
  }

  function Preview(r: EvalResult): string
    requires r.outcome.Answered?
  {
    var s := r.outcome.resposta;
    if |s| <= 100 then s else s[..100]
  }

  /** The error list of one area: at most ten wrong results, in order, each
      with at most 100 characters of its reply. */
  function ErrorListing(rs: seq<EvalResult>): (es: seq<ErrorEntry>)
    ensures |es| == if Erros(rs) < 10 then Erros(rs) else 10
    ensures forall k :: 0 <= k < |es| ==>
              var m := Misses(rs)[k];
              es[k].questaoId == m.questaoId && es[k].gabarito == m.gabarito
              && |es[k].preview| <= 100 && es[k].preview <= m.outcome.resposta
              && es[k].preview == (if |m.outcome.resposta| <= 100 then m.outcome.resposta
                                   else m.outcome.resposta[..100])
  {
    var m := Misses(rs);
    var top := if |m| <= 10 then m else m[..10];
    seq(|top|, k requires 0 <= k < |top| => ErrorEntry(top[k].questaoId, top[k].gabarito, Preview(top[k])))
  }
}
