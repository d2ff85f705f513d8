/** `ENEMDataDownloader.get_statistics` of download_enem_data.py: counts of
    the questions per year and per area, and the sorted list of every field
    name that occurs. */
module Statistics {
  import opened PyValues

  // ---------------------------------------------------------------------
  // Counters

  /** A counting dictionary (`stats["por_ano"]`, `stats["por_area"]`): keys
      with their counts, in insertion order. */
  type Tally = seq<(Json, nat)>

  predicate DistinctKeys(t: Tally) {
    forall i, j :: 0 <= i < j < |t| ==> t[i].0 != t[j].0
  }

  /** Position of the entry for `k`, or `|t|` when there is none. */
  function EntryIndex(t: Tally, k: Json): (i: nat)
    ensures i <= |t| && (i < |t| ==> t[i].0 == k)
    ensures forall j :: 0 <= j < i ==> t[j].0 != k
  {
    if |t| == 0 || t[0].0 == k then 0 else 1 + EntryIndex(t[1..], k)
  }

  /** `counts.get(k, 0)`. */
  function CountOf(t: Tally, k: Json): nat {
    var i := EntryIndex(t, k);
    if i < |t| then t[i].1 else 0
  }

  /** `counts[k] = counts.get(k, 0) + 1`: an existing entry keeps its place,
      a new key goes last. */
  function Bump(t: Tally, k: Json): Tally {
    var i := EntryIndex(t, k);
    if i < |t| then t[i := (k, t[i].1 + 1)] else t + [(k, 1)]
  }

  /** The counter after counting every key of `ks` in order. */
  function TallyOf(ks: seq<Json>): Tally {
    if |ks| == 0 then [] else Bump(TallyOf(ks[..|ks| - 1]), ks[|ks| - 1])
  }

  function SumCounts(t: Tally): nat {
    if |t| == 0 then 0 else t[0].1 + SumCounts(t[1..])
  }

  lemma {:induction false} SumCountsAppend(a: Tally, b: Tally)
    ensures SumCounts(a + b) == SumCounts(a) + SumCounts(b)
  {
    if |a| > 0 {
      assert (a + b)[1..] == a[1..] + b;
      SumCountsAppend(a[1..], b);
    } else {
      assert a + b == b;
    }
  }

  lemma {:induction false} SumCountsIncrement(t: Tally, i: nat, k: Json)
    requires i < |t|
    ensures SumCounts(t[i := (k, t[i].1 + 1)]) == SumCounts(t) + 1
  {
    if i > 0 {
      assert t[i := (k, t[i].1 + 1)][1..] == t[1..][i - 1 := (k, t[i].1 + 1)];
      SumCountsIncrement(t[1..], i - 1, k);
    }
  }

  /** Where each key's entry is after a bump: where it was, or last for
      a key seen for the first time. */
  lemma BumpEntries(t: Tally, k: Json)
    ensures forall x :: EntryIndex(Bump(t, k), x)
                        == if EntryIndex(t, x) < |t| then EntryIndex(t, x) else if x == k then |t| else |Bump(t, k)|
  {
    if EntryIndex(t, k) < |t| {
      BumpEntriesExisting(t, k);
    } else {
      BumpEntriesNew(t, k);
    }
  }

  lemma BumpEntriesExisting(t: Tally, k: Json)
    requires EntryIndex(t, k) < |t|
    ensures forall x :: EntryIndex(Bump(t, k), x) == EntryIndex(t, x)
  {
    var u := Bump(t, k);
    assert forall j :: 0 <= j < |t| ==> u[j].0 == t[j].0;
    forall x
      ensures EntryIndex(u, x) == EntryIndex(t, x)
    {
      var jt := EntryIndex(t, x);
      var ju := EntryIndex(u, x);
      assert ju <= jt by {
        if jt < |t| {
          assert u[jt].0 == x;
        }
      }
      assert jt <= ju by {
        if ju < |u| {
          assert t[ju].0 == x;
        }
      }
    }
  }

  lemma BumpEntriesNew(t: Tally, k: Json)
    requires EntryIndex(t, k) == |t|
    ensures forall x :: EntryIndex(Bump(t, k), x)
                        == if EntryIndex(t, x) < |t| then EntryIndex(t, x) else if x == k then |t| else |t| + 1
  {
    var u := Bump(t, k);
    assert forall j :: 0 <= j < |t| ==> u[j] == t[j];
    forall x
      ensures EntryIndex(u, x) == if EntryIndex(t, x) < |t| then EntryIndex(t, x) else if x == k then |t| else |t| + 1
    {
      var jt := EntryIndex(t, x);
      if jt < |t| {
        assert u[jt].0 == x;
      } else if x == k {
        assert u[|t|].0 == x;
      }
    }
  }

  /** One more key counted adds exactly one to the total, keeps the keys
      distinct, and changes only the count of that key. */
  lemma BumpSpec(t: Tally, k: Json)
    requires DistinctKeys(t)
    ensures DistinctKeys(Bump(t, k))
    ensures SumCounts(Bump(t, k)) == SumCounts(t) + 1
    ensures forall x :: CountOf(Bump(t, k), x) == CountOf(t, x) + (if x == k then 1 else 0)
    ensures forall x :: EntryIndex(Bump(t, k), x) < |Bump(t, k)| <==> EntryIndex(t, x) < |t| || x == k
  {
    var i := EntryIndex(t, k);
    BumpEntries(t, k);
    if i < |t| {
      SumCountsIncrement(t, i, k);
    } else {
      SumCountsAppend(t, [(k, 1)]);
    }
  }

  /** The counter holds one entry per distinct key, with as many as the key
      occurs, and the counts add up to the number of keys counted. */
  lemma {:induction false} TallySpec(ks: seq<Json>)
    ensures DistinctKeys(TallyOf(ks))
    ensures SumCounts(TallyOf(ks)) == |ks|
    ensures forall x :: CountOf(TallyOf(ks), x) == multiset(ks)[x]
    ensures forall x :: EntryIndex(TallyOf(ks), x) < |TallyOf(ks)| <==> x in ks
  {
    if |ks| > 0 {
      var p := ks[..|ks| - 1];
      var k := ks[|ks| - 1];
      assert ks == p + [k];
      TallySpec(p);
      BumpSpec(TallyOf(p), k);
    }
  }

  // ---------------------------------------------------------------------
  // Field names and their order

  /** Python's `<` on `str`: code points compared in turn, and a proper
      prefix before the longer string. */
  predicate LexLess(a: string, b: string) {
    if |a| == 0 then |b| > 0
    else |b| > 0 && (a[0] < b[0] || (a[0] == b[0] && LexLess(a[1..], b[1..])))
  }

  lemma {:induction false} LexLessIrreflexive(a: string)
    ensures !LexLess(a, a)
  {
    if |a| > 0 {
      LexLessIrreflexive(a[1..]);
    }
  }

  lemma {:induction false} LexLessTransitive(a: string, b: string, c: string)
    requires LexLess(a, b) && LexLess(b, c)
    ensures LexLess(a, c)
  {
    if |a| > 0 && a[0] == b[0] && b[0] == c[0] {
      LexLessTransitive(a[1..], b[1..], c[1..]);
    }
  }

  lemma {:induction false} LexLessTotal(a: string, b: string)
    requires a != b
    ensures LexLess(a, b) || LexLess(b, a)
  {
    if |a| > 0 && |b| > 0 && a[0] == b[0] {
      assert a == [a[0]] + a[1..] && b == [b[0]] + b[1..];
      LexLessTotal(a[1..], b[1..]);
    }
  }

  /** Strictly increasing, hence free of duplicates. */
  predicate StrictlySorted(s: seq<string>) {
    forall i, j :: 0 <= i < j < |s| ==> LexLess(s[i], s[j])
  }

  /** `x` put into its place in a strictly sorted list. */
  function Insert(s: seq<string>, x: string): (r: seq<string>)
    requires StrictlySorted(s) && x !in s
    ensures StrictlySorted(r) && multiset(r) == multiset(s) + multiset{x}
  {
    if |s| == 0 then [x]
    else if LexLess(x, s[0]) then
      forall j | 0 <= j < |s|
        ensures LexLess(x, s[j])
      {
        if j > 0 {
          LexLessTransitive(x, s[0], s[j]);
        }
      }
      SortedCons(x, s);
      [x] + s
    else
      LexLessTotal(x, s[0]);
      SortedTail(s);
      var rest := Insert(s[1..], x);
      forall j | 0 <= j < |rest|
        ensures LexLess(s[0], rest[j])
      {
        assert rest[j] in multiset(rest);
        if rest[j] != x {
          assert rest[j] in s[1..];
        }
      }
      SortedCons(s[0], rest);
      assert s == [s[0]] + s[1..];
      [s[0]] + rest
  }

  lemma SortedCons(a: string, t: seq<string>)
    requires StrictlySorted(t) && forall j :: 0 <= j < |t| ==> LexLess(a, t[j])
    ensures StrictlySorted([a] + t)
  {
    var r := [a] + t;
    forall i, j | 0 <= i < j < |r|
      ensures LexLess(r[i], r[j])
    {
      if i > 0 {
        assert r[i] == t[i - 1] && r[j] == t[j - 1];
      } else {
        assert r[j] == t[j - 1];
      }
    }
  }

  lemma SortedTail(s: seq<string>)
    requires StrictlySorted(s) && |s| > 0
    ensures StrictlySorted(s[1..])
    ensures forall j :: 0 <= j < |s[1..]| ==> LexLess(s[0], s[1..][j])
  {
    forall i, j | 0 <= i < j < |s[1..]|
      ensures LexLess(s[1..][i], s[1..][j])
    {
      assert s[1..][i] == s[i + 1] && s[1..][j] == s[j + 1];
    }
    forall j | 0 <= j < |s[1..]|
      ensures LexLess(s[0], s[1..][j])
    {
      assert s[1..][j] == s[j + 1];
    }
  }


  /** `sorted(list(campos))`: the members of the set are taken in any order
      and each is put into its place. */
  method SortedList(campos: set<string>) returns (out: seq<string>)
    ensures StrictlySorted(out)
    ensures forall x :: x in out <==> x in campos
    ensures |out| == |campos|
  {
    out := [];
    var rest := campos;
    while rest != {}
      invariant StrictlySorted(out)
      invariant forall x :: x in out <==> x in campos && x !in rest
      invariant rest <= campos && |out| + |rest| == |campos|
      decreases |rest|
    {
      var x :| x in rest;
      assert multiset(Insert(out, x)) == multiset(out) + multiset{x};
      assert forall y :: y in Insert(out, x) <==> y in multiset(Insert(out, x));
      out := Insert(out, x);
      rest := rest - {x};
    }
  }

  /** The field names that occur in some question. */
  function FieldsOf(qs: seq<Dict>): set<string> {
    if |qs| == 0 then {} else FieldsOf(qs[..|qs| - 1]) + Keys(qs[|qs| - 1])
  }

  lemma {:induction false} FieldsOfSpec(qs: seq<Dict>)
    ensures forall k :: k in FieldsOf(qs) <==> exists i :: 0 <= i < |qs| && HasKey(qs[i], k)
  {
    if |qs| > 0 {
      var p := qs[..|qs| - 1];
      FieldsOfSpec(p);
      forall k | (exists i :: 0 <= i < |qs| && HasKey(qs[i], k))
        ensures k in FieldsOf(qs)
      {
        var i :| 0 <= i < |qs| && HasKey(qs[i], k);
        if i < |p| {
          assert HasKey(p[i], k);
        }
      }
      forall k | k in FieldsOf(qs)
        ensures exists i :: 0 <= i < |qs| && HasKey(qs[i], k)
      {
        if k in FieldsOf(p) {
          var i :| 0 <= i < |p| && HasKey(p[i], k);
          assert qs[i] == p[i];
        } else {
          assert HasKey(qs[|qs| - 1], k);
        }
      }
    }
  }

  // ---------------------------------------------------------------------
  // get_statistics

  /** `questao.get('ano') or questao.get('year') or 'desconhecido'`. */
  function YearOf(q: Dict): Json {
    EvalOr(q, [Key("ano"), Key("year"), Lit(JStr("desconhecido"))])
  }

  /** `questao.get('area') or questao.get('subject') or 'desconhecida'`. */
  function AreaOf(q: Dict): Json {
    EvalOr(q, [Key("area"), Key("subject"), Lit(JStr("desconhecida"))])
  }

  /** The year is the first truthy of `ano` and `year`, and the placeholder
      when neither is; the area likewise. */
  lemma YearAndAreaResolution(q: Dict)
    ensures Truthy(GetOr(q, "ano", JNull)) ==> YearOf(q) == GetOr(q, "ano", JNull)
    ensures !Truthy(GetOr(q, "ano", JNull)) && Truthy(GetOr(q, "year", JNull)) ==> YearOf(q) == GetOr(q, "year", JNull)
    ensures !Truthy(GetOr(q, "ano", JNull)) && !Truthy(GetOr(q, "year", JNull)) ==> YearOf(q) == JStr("desconhecido")
    ensures Truthy(GetOr(q, "area", JNull)) ==> AreaOf(q) == GetOr(q, "area", JNull)
    ensures !Truthy(GetOr(q, "area", JNull)) && Truthy(GetOr(q, "subject", JNull)) ==> AreaOf(q) == GetOr(q, "subject", JNull)
    ensures !Truthy(GetOr(q, "area", JNull)) && !Truthy(GetOr(q, "subject", JNull)) ==> AreaOf(q) == JStr("desconhecida")
  {
    var ys := [Key("ano"), Key("year"), Lit(JStr("desconhecido"))];
    var as_ := [Key("area"), Key("subject"), Lit(JStr("desconhecida"))];
    if Truthy(GetOr(q, "ano", JNull)) {
      EvalOrFirstTruthy(q, ys, 0);
    } else if Truthy(GetOr(q, "year", JNull)) {
      EvalOrFirstTruthy(q, ys, 1);
    } else {
      EvalOrFirstTruthy(q, ys, 2);
    }
    if Truthy(GetOr(q, "area", JNull)) {
      EvalOrFirstTruthy(q, as_, 0);
    } else if Truthy(GetOr(q, "subject", JNull)) {
      EvalOrFirstTruthy(q, as_, 1);
    } else {
      EvalOrFirstTruthy(q, as_, 2);
    }
  }

  function Years(qs: seq<Dict>): (ys: seq<Json>)
    ensures |ys| == |qs|
  {
    seq(|qs|, i requires 0 <= i < |qs| => YearOf(qs[i]))
  }

  function Areas(qs: seq<Dict>): (as_: seq<Json>)
    ensures |as_| == |qs|
  {
    seq(|qs|, i requires 0 <= i < |qs| => AreaOf(qs[i]))
  }

  /** Both of the question's counter keys can be dictionary keys. */
  predicate Countable(q: Dict) {
    Hashable(YearOf(q)) && Hashable(AreaOf(q))
  }

  /** The exception the first uncountable question raises: its year is
      counted before its area. */
  function UncountableMessage(q: Dict): string {
    if !Hashable(YearOf(q)) then UnhashableMessage(YearOf(q)) else UnhashableMessage(AreaOf(q))
  }

  /** The three accumulators of the loop: `por_ano`, `por_area` and the
      set `campos_presentes`. */
  datatype Counters = Counters(porAno: Tally, porArea: Tally, campos: set<string>)

  /** One pass of the loop: count the year, then the area, then add the
      keys; a key that cannot be a dictionary key raises `TypeError`. */
  function CountQuestion(c: Counters, q: Dict): Result<Counters, string> {
    var ano := YearOf(q);
    if !Hashable(ano) then Err(UnhashableMessage(ano))
    else
      var area := AreaOf(q);
      if !Hashable(area) then Err(UnhashableMessage(area))
      else Ok(Counters(Bump(c.porAno, ano), Bump(c.porArea, area), c.campos + Keys(q)))
  }

  /** The accumulators after the loop has run over `qs`. */
  function CountAll(qs: seq<Dict>): Result<Counters, string> {
    if |qs| == 0 then Ok(Counters([], [], {}))
    else
      match CountAll(qs[..|qs| - 1])
      case Err(e) => Err(e)
      case Ok(c) => CountQuestion(c, qs[|qs| - 1])
  }

  /** Once the loop has raised, the longer input raises the same. */
  lemma {:induction false} CountAllErrorSticks(qs: seq<Dict>, n: nat)
    requires n <= |qs| && CountAll(qs[..n]).Err?
    ensures CountAll(qs) == CountAll(qs[..n])
    decreases |qs| - n
  {
    if n < |qs| {
      assert qs[..n + 1][..n] == qs[..n];
      CountAllErrorSticks(qs, n + 1);
    } else {
      assert qs[..n] == qs;
    }
  }

  /** One pass succeeds exactly on a countable question, and then bumps
      both counters and adds the question's keys. */
  lemma CountQuestionSpec(c: Counters, q: Dict)
    ensures CountQuestion(c, q).Ok? <==> Countable(q)
    ensures CountQuestion(c, q).Ok? ==>
              CountQuestion(c, q).value == Counters(Bump(c.porAno, YearOf(q)), Bump(c.porArea, AreaOf(q)), c.campos + Keys(q))
    ensures CountQuestion(c, q).Err? ==> CountQuestion(c, q).error == UncountableMessage(q)
  {
  }

  /** Every question of `qs` is countable, stated question by question. */
  predicate AllCountable(qs: seq<Dict>) {
    AllOf(qs, Countable)
  }

  /** `p` holds of every element, stated by recursion on the last one. */
  predicate AllOf<T>(xs: seq<T>, p: T -> bool) {
    |xs| == 0 || (AllOf(xs[..|xs| - 1], p) && p(xs[|xs| - 1]))
  }

  lemma {:induction false} AllOfMeans<T>(xs: seq<T>, p: T -> bool)
    ensures AllOf(xs, p) <==> forall i :: 0 <= i < |xs| ==> p(xs[i])
  {
    if |xs| > 0 {
      var ys := xs[..|xs| - 1];
      AllOfMeans(ys, p);
      assert forall i :: 0 <= i < |ys| ==> ys[i] == xs[i];
    }
  }

  lemma AllCountableMeans(qs: seq<Dict>)
    ensures AllCountable(qs) <==> forall i :: 0 <= i < |qs| ==> Countable(qs[i])
  {
    AllOfMeans(qs, Countable);
  }

  /** The loop succeeds exactly when every question is countable. */
  lemma {:induction false} CountAllSucceeds(qs: seq<Dict>)
    ensures CountAll(qs).Ok? <==> AllCountable(qs)
  {
    if |qs| > 0 {
      var p := qs[..|qs| - 1];
      CountAllSucceeds(p);
      if CountAll(p).Ok? {
        CountQuestionSpec(CountAll(p).value, qs[|qs| - 1]);
      }
    }
  }

  /** When it succeeds, the loop holds the tallies of the years and of the
      areas, and the union of the keys. */
  lemma {:induction false} CountAllValue(qs: seq<Dict>)
    requires CountAll(qs).Ok?
    ensures CountAll(qs).value == Counters(TallyOf(Years(qs)), TallyOf(Areas(qs)), FieldsOf(qs))
  {
    if |qs| > 0 {
      var p := qs[..|qs| - 1];
      var q := qs[|qs| - 1];
      CountAllValue(p);
      CountQuestionSpec(CountAll(p).value, q);
      assert Years(qs)[..|qs| - 1] == Years(p);
      assert Areas(qs)[..|qs| - 1] == Areas(p);
    }
  }

  /** Question `i` is the first that cannot be counted, and `e` is the
      exception it raises. */
  predicate FirstUncountable(qs: seq<Dict>, i: int, e: string) {
    0 <= i < |qs| && AllCountable(qs[..i]) && !Countable(qs[i]) && e == UncountableMessage(qs[i])
  }

  /** When it raises, it is for the first question that is not countable:
      the one at index `i`, all before it being countable. */
  lemma {:induction false} CountAllFails(qs: seq<Dict>)
    requires CountAll(qs).Err?
    ensures exists i :: FirstUncountable(qs, i, CountAll(qs).error)
  {
    var p := qs[..|qs| - 1];
    var q := qs[|qs| - 1];
    if CountAll(p).Err? {
      assert CountAll(qs) == CountAll(p);
      CountAllFails(p);
      var i :| FirstUncountable(p, i, CountAll(p).error);
      FirstUncountableExtends(p, qs, i, CountAll(p).error);
    } else {
      CountAllSucceeds(p);
      CountQuestionSpec(CountAll(p).value, q);
      assert CountAll(qs) == CountQuestion(CountAll(p).value, q);
      assert qs[..|qs| - 1] == p;
      assert FirstUncountable(qs, |qs| - 1, CountAll(qs).error);
    }
  }

  /** The first uncountable question of a prefix stays the first one. */
  lemma FirstUncountableExtends(p: seq<Dict>, qs: seq<Dict>, i: int, e: string)
    requires |p| <= |qs| && p == qs[..|p|] && FirstUncountable(p, i, e)
    ensures FirstUncountable(qs, i, e)
  {
    assert p[..i] == qs[..i] && p[i] == qs[i];
  }

  /** What `get_statistics` returns: `{}` for no questions, or the total,
      both counters and the sorted field names. */
  datatype DatasetStats =
    | NoQuestions
    | DatasetStats(total: nat, porAno: Tally, porArea: Tally, camposPresentes: seq<string>)

  method GetStatistics(qs: seq<Dict>) returns (r: Result<DatasetStats, string>)
    ensures |qs| == 0 ==> r == Ok(NoQuestions)
    ensures |qs| > 0 ==> (r.Ok? <==> CountAll(qs).Ok?)
    ensures |qs| > 0 && r.Err? ==> r.error == CountAll(qs).error
    ensures |qs| > 0 && r.Ok? ==>
              var c := CountAll(qs).value;
              r.value.DatasetStats? && r.value.total == |qs|
              && r.value.porAno == c.porAno && r.value.porArea == c.porArea
              && StrictlySorted(r.value.camposPresentes)
              && (forall k :: k in r.value.camposPresentes <==> k in c.campos)
  {
    if |qs| == 0 {
      return Ok(NoQuestions);
    }
    var porAno: Tally := [];
    var porArea: Tally := [];
    var campos: set<string> := {};
    for n := 0 to |qs|
      invariant CountAll(qs[..n]) == Ok(Counters(porAno, porArea, campos))
    {
      assert qs[..n + 1][..n] == qs[..n];
      var ano := YearOf(qs[n]);
      if !Hashable(ano) {
        CountAllErrorSticks(qs, n + 1);
        return Err(UnhashableMessage(ano));
      }
      porAno := Bump(porAno, ano);
      var area := AreaOf(qs[n]);
      if !Hashable(area) {
        CountAllErrorSticks(qs, n + 1);
        return Err(UnhashableMessage(area));
      }
      porArea := Bump(porArea, area);
      campos := campos + Keys(qs[n]);
    }
    assert qs[..|qs|] == qs;
    var lista := SortedList(campos);
    return Ok(DatasetStats(|qs|, porAno, porArea, lista));
  }

  /** The per-year and per-area counts each add up to the total, every
      count is the number of questions with that key, and the field list is
      the union of all question keys. */
  lemma StatisticsSpec(qs: seq<Dict>, s: DatasetStats)
    requires |qs| > 0 && CountAll(qs).Ok? && s.DatasetStats? && s.total == |qs|
    requires s.porAno == CountAll(qs).value.porAno && s.porArea == CountAll(qs).value.porArea
    requires forall k :: k in s.camposPresentes <==> k in CountAll(qs).value.campos
    ensures SumCounts(s.porAno) == s.total && SumCounts(s.porArea) == s.total
    ensures forall y :: CountOf(s.porAno, y) == multiset(Years(qs))[y]
    ensures forall a :: CountOf(s.porArea, a) == multiset(Areas(qs))[a]
    ensures DistinctKeys(s.porAno) && DistinctKeys(s.porArea)
    ensures forall k :: k in s.camposPresentes <==> exists i :: 0 <= i < |qs| && HasKey(qs[i], k)
  {
    CountAllValue(qs);
    TallySpec(Years(qs));
    TallySpec(Areas(qs));
    FieldsOfSpec(qs);
  }
}
