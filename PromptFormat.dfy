/** Turning a question record into the text sent to the model, as both
    scripts do it: `formatar_questao_para_prompt` in resolver_todas_questoes.py
    and `formatar_questao` in resolver_questoes_enem.py. */
module PromptFormat {
  import opened Text
  import opened PyValues

  /** `MAPEAMENTO_AREAS`: raw area tokens of the dataset and their labels. */
  const AreaLabels: map<string, string> := map[
    "languages" := "LINGUAGENS",
    "human-sciences" := "HUMANAS",
    "natural-sciences" := "NATUREZA",
    "mathematics" := "MATEMATICA",
    "N/A" := "OUTRAS"
  ]

  /** The closing instruction line both formatters append. */
  const Instruction := "\nResolva esta questão passo a passo e indique a alternativa correta:"

  /** The letters a dictionary of alternatives is searched for, in order. */
  const DictLetters := "ABCDE"

  /** Exceptions the formatting raises. */
  datatype FormatError =
    | AreaNotText(typeName: string)  // `area_raw.upper()` on a non-string
    | ChrOutOfRange                  // `chr(65 + i)` past U+10FFFF
    | SurrogateLabel                 // a label in U+D800..U+DFFF, which has no Dafny `char`

  /** `str(e)` for the formatting errors. */
  function FormatErrorMessage(e: FormatError): string {
    match e
    case AreaNotText(t) => "'" + t + "' object has no attribute 'upper'"
    case ChrOutOfRange => "chr() arg not in range(0x110000)"
    case SurrogateLabel => "alternative label in the surrogate range"
  }

  /** `MAPEAMENTO_AREAS.get(area_raw, area_raw.upper())`. */
  function MapArea(raw: string): string {
    if raw in AreaLabels then AreaLabels[raw] else Upper(raw)
  }

  /** The table's five entries, and the pass-through of every other token. */
  lemma MapAreaTable(raw: string)
    ensures MapArea("languages") == "LINGUAGENS" && MapArea("human-sciences") == "HUMANAS"
    ensures MapArea("natural-sciences") == "NATUREZA" && MapArea("mathematics") == "MATEMATICA"
    ensures MapArea("N/A") == "OUTRAS"
    ensures raw !in {"languages", "human-sciences", "natural-sciences", "mathematics", "N/A"}
            ==> MapArea(raw) == Upper(raw)
  {
  }

  /** One rendered alternative: `f"{letra}) {alt}"`. */
  function AltLine(letter: char, alt: Json): (line: string)
    ensures |line| >= 3 && line[0] == letter
  {
    [letter] + ") " + PyStr(alt)
  }

  /** `"".join(line + "\n" for line in lines)`: the lines as the prompt holds them. */
  function JoinLines(lines: seq<string>): string {
    if lines == [] then "" else lines[0] + "\n" + JoinLines(lines[1..])
  }

  /** Reads text back as a list of lines (the inverse of `JoinLines`). */
  function SplitLines(s: string): seq<string>
    decreases |s|
  {
    if s == [] then []
    else
      var k := IndexOf(s, '\n');
      if k == |s| then [s] else [s[..k]] + SplitLines(s[k + 1..])
  }

  /** A line followed by `'\n'` is cut exactly at that break. */
  lemma LineThenBreak(l: string, rest: string)
    requires forall j :: 0 <= j < |l| ==> l[j] != '\n'
    ensures IndexOf(l + "\n" + rest, '\n') == |l|
    ensures (l + "\n" + rest)[..|l|] == l && (l + "\n" + rest)[|l| + 1..] == rest
  {
    var s := l + "\n" + rest;
    assert s[|l|] == '\n';
    assert forall j :: 0 <= j < |l| ==> s[j] == l[j];
  }

  /** The alternatives block reads back as exactly the rendered lines, one per
      alternative, as long as no alternative text holds a line break. */
  lemma {:induction false} SplitJoinLines(lines: seq<string>)
    requires forall i, j :: 0 <= i < |lines| && 0 <= j < |lines[i]| ==> lines[i][j] != '\n'
    ensures SplitLines(JoinLines(lines)) == lines
  {
    if lines != [] {
      var l, rest := lines[0], JoinLines(lines[1..]);
      assert JoinLines(lines) == l + "\n" + rest;
      LineThenBreak(l, rest);
      SplitJoinLines(lines[1..]);
    }
  }

  /** `alternativas.get(letra) or alternativas.get(letra.lower())`. */
  function AltFor(alts: Dict, letter: char): Json
    requires 'A' <= letter <= 'Z'
  {
    EvalOr(alts, [Key([letter]), Key([(letter as int + 32) as char])])
  }

  /** The upper-case key wins whenever it holds a truthy value; otherwise the
      lower-case key is used, whatever it holds. */
  lemma AltForUpperFirst(alts: Dict, letter: char)
    requires 'A' <= letter <= 'Z'
    ensures Truthy(GetOr(alts, [letter], JNull)) ==> AltFor(alts, letter) == GetOr(alts, [letter], JNull)
    ensures !Truthy(GetOr(alts, [letter], JNull))
            ==> AltFor(alts, letter) == GetOr(alts, [(letter as int + 32) as char], JNull)
  {
    var ops := [Key([letter]), Key([(letter as int + 32) as char])];
    if Truthy(GetOr(alts, [letter], JNull)) {
      EvalOrFirstTruthy(alts, ops, 0);
    } else if Truthy(OperandValue(alts, ops[1])) {
      EvalOrFirstTruthy(alts, ops, 1);
    } else {
      EvalOrNoneTruthy(alts, ops);
    }
  }

  /** The loop over the letters of a dictionary of alternatives. */
  function DictLines(alts: Dict, letters: string): (lines: seq<string>)
    requires forall i :: 0 <= i < |letters| ==> 'A' <= letters[i] <= 'Z'
    ensures forall i :: 0 <= i < |lines| ==> |lines[i]| >= 3
  {
    if letters == [] then []
    else
      var alt := AltFor(alts, letters[0]);
      (if Truthy(alt) then [AltLine(letters[0], alt)] else []) + DictLines(alts, letters[1..])
  }

  predicate StrictlyIncreasing(letters: string) {
    forall i, j :: 0 <= i < j < |letters| ==> letters[i] < letters[j]
  }

  /** A rendered dictionary line: the letter, `") "`, and the truthy
      alternative found for that letter. */
  predicate IsDictLine(alts: Dict, letters: string, line: string) {
    |line| >= 3 && line[0] in letters && 'A' <= line[0] <= 'Z'
    && Truthy(AltFor(alts, line[0])) && line == AltLine(line[0], AltFor(alts, line[0]))
  }

  /** Every line the dictionary loop renders belongs to one of the letters
      and shows that letter's truthy alternative; there are at most as many
      lines as letters. */
  lemma {:induction false} DictLinesShape(alts: Dict, letters: string)
    requires forall i :: 0 <= i < |letters| ==> 'A' <= letters[i] <= 'Z'
    ensures |DictLines(alts, letters)| <= |letters|
    ensures forall i :: 0 <= i < |DictLines(alts, letters)| ==>
              IsDictLine(alts, letters, DictLines(alts, letters)[i])
  {
    if letters != [] {
      var rest := letters[1..];
      DictLinesShape(alts, rest);
      var tail := DictLines(alts, rest);
      var alt := AltFor(alts, letters[0]);
      var head := if Truthy(alt) then [AltLine(letters[0], alt)] else [];
      assert DictLines(alts, letters) == head + tail;
      forall i | 0 <= i < |tail| ensures IsDictLine(alts, letters, tail[i]) {
        assert IsDictLine(alts, rest, tail[i]);
        var m :| 0 <= m < |rest| && rest[m] == tail[i][0];
        assert letters[m + 1] == tail[i][0];
      }
    }
  }

  /** The dictionary loop over given alternative values `vals`, one per
      letter: the same rendering with the lookups already done. */
  function LinesOf(letters: string, vals: seq<Json>): (lines: seq<string>)
    requires |vals| == |letters|
    ensures forall i :: 0 <= i < |lines| ==> |lines[i]| >= 3
  {
    if letters == [] then []
    else (if Truthy(vals[0]) then [AltLine(letters[0], vals[0])] else []) + LinesOf(letters[1..], vals[1..])
  }

  /** The alternative each letter finds. */
  function AltsOf(alts: Dict, letters: string): (vs: seq<Json>)
    requires forall i :: 0 <= i < |letters| ==> 'A' <= letters[i] <= 'Z'
    ensures |vs| == |letters| && forall i :: 0 <= i < |letters| ==> vs[i] == AltFor(alts, letters[i])
  {
    seq(|letters|, i requires 0 <= i < |letters| => AltFor(alts, letters[i]))
  }

  lemma {:induction false} DictLinesAsLinesOf(alts: Dict, letters: string)
    requires forall i :: 0 <= i < |letters| ==> 'A' <= letters[i] <= 'Z'
    ensures DictLines(alts, letters) == LinesOf(letters, AltsOf(alts, letters))
  {
    if letters != [] {
      DictLinesAsLinesOf(alts, letters[1..]);
      assert AltsOf(alts, letters)[1..] == AltsOf(alts, letters[1..]);
    }
  }

  lemma {:induction false} LinesOfOrdered(letters: string, vals: seq<Json>)
    requires |vals| == |letters| && StrictlyIncreasing(letters)
    ensures forall i :: 0 <= i < |LinesOf(letters, vals)| ==> LinesOf(letters, vals)[i][0] in letters
    ensures forall i, j :: 0 <= i < j < |LinesOf(letters, vals)| ==>
              LinesOf(letters, vals)[i][0] < LinesOf(letters, vals)[j][0]
  {
    if letters != [] {
      var rest := letters[1..];
      assert StrictlyIncreasing(rest);
      LinesOfOrdered(rest, vals[1..]);
      var tail := LinesOf(rest, vals[1..]);
      forall i | 0 <= i < |tail| ensures letters[0] < tail[i][0] && tail[i][0] in letters {
        var m :| 0 <= m < |rest| && rest[m] == tail[i][0];
        assert letters[m + 1] == tail[i][0];
      }
    }
  }

  lemma {:induction false} LinesOfComplete(letters: string, vals: seq<Json>, k: nat)
    requires |vals| == |letters| && k < |letters| && Truthy(vals[k])
    ensures exists i :: 0 <= i < |LinesOf(letters, vals)| && LinesOf(letters, vals)[i][0] == letters[k]
  {
    var tail := LinesOf(letters[1..], vals[1..]);
    var lines := LinesOf(letters, vals);
    var head := if Truthy(vals[0]) then [AltLine(letters[0], vals[0])] else [];
    assert lines == head + tail;
    if k == 0 {
      assert lines[0] == head[0];
      assert lines[0][0] == letters[k];
    } else {
      assert vals[1..][k - 1] == vals[k] && letters[1..][k - 1] == letters[k];
      LinesOfComplete(letters[1..], vals[1..], k - 1);
      var i :| 0 <= i < |tail| && tail[i][0] == letters[k];
      assert lines[|head| + i] == tail[i];
      assert lines[|head| + i][0] == letters[k];
    }
  }

  /** The lines come in the order of the letters (A before B before ...). */
  lemma DictLinesOrdered(alts: Dict, letters: string)
    requires forall i :: 0 <= i < |letters| ==> 'A' <= letters[i] <= 'Z'
    requires StrictlyIncreasing(letters)
    ensures forall i, j :: 0 <= i < j < |DictLines(alts, letters)| ==>
              DictLines(alts, letters)[i][0] < DictLines(alts, letters)[j][0]
  {
    DictLinesAsLinesOf(alts, letters);
    LinesOfOrdered(letters, AltsOf(alts, letters));
  }

  /** No truthy alternative is dropped: each letter whose alternative is
      truthy gets a line. */
  lemma DictLinesComplete(alts: Dict, letters: string, k: nat)
    requires forall i :: 0 <= i < |letters| ==> 'A' <= letters[i] <= 'Z'
    requires k < |letters| && Truthy(AltFor(alts, letters[k]))
    ensures exists i :: 0 <= i < |DictLines(alts, letters)| && DictLines(alts, letters)[i][0] == letters[k]
  {
    DictLinesAsLinesOf(alts, letters);
    LinesOfComplete(letters, AltsOf(alts, letters), k);
  }



  /** `chr(65 + i)` for every position of a list of alternatives. Python's
      `chr` fails past 0x10FFFF (`ChrOutOfRange`); a label in the surrogate
      range, which Python accepts, cannot be a Dafny `char` (`SurrogateLabel`). */
  function ListLines(items: seq<Json>): (r: Result<seq<string>, FormatError>)
    ensures r.Ok? <==> 64 + |items| < 0xD800
    ensures r.Ok? ==> |r.value| == |items|
    ensures r.Ok? ==> forall i :: 0 <= i < |items| ==> r.value[i] == AltLine((65 + i) as char, items[i])
  {
    if 64 + |items| > 0x10FFFF then Err(ChrOutOfRange)
    else if 64 + |items| >= 0xD800 then Err(SurrogateLabel)
    else Ok(seq(|items|, i requires 0 <= i < |items| => AltLine((65 + i) as char, items[i])))
  }

  /** The alternatives block: a dictionary, a list, or nothing at all. */
  function AlternativeLines(alts: Json): Result<seq<string>, FormatError> {
    match alts
    case JObj(fields) => Ok(DictLines(fields, DictLetters))
    case JList(items) => ListLines(items)
    case _ => Ok([])
  }

  /** A list of alternatives is not cut at five: element `i` gets the label
      `chr(65 + i)`, so a sixth element is labelled `F` and a seventh `G`. */
  lemma ListLabelsPastE(items: seq<Json>)
    requires 7 <= |items| < 100
    ensures AlternativeLines(JList(items)).Ok?
    ensures |AlternativeLines(JList(items)).value| == |items|
    ensures AlternativeLines(JList(items)).value[5] == AltLine('F', items[5])
    ensures AlternativeLines(JList(items)).value[6] == AltLine('G', items[6])
  {
  }

  // ---------------------------------------------------------------------
  // resolver_todas_questoes.py: formatar_questao_para_prompt

  /** What `formatar_questao_para_prompt` returns. */
  datatype Formatted = Formatted(prompt: string, gabarito: string, area: string)

  function QuestionText(q: Dict): Json {
    EvalOr(q, [Key("question"), Key("questao"), KeyOr("original_question", JStr(""))])
  }

  function Context(q: Dict): Json {
    EvalOr(q, [Key("context"), KeyOr("description", JStr(""))])
  }

  function Alternatives(q: Dict): Json {
    EvalOr(q, [Key("alternatives"), Key("alternativas"), KeyOr("options", JObj([]))])
  }

  function AnswerKey(q: Dict): Json {
    EvalOr(q, [Key("answer"), Key("gabarito"), KeyOr("correct_answer", JStr(""))])
  }

  function RawArea(q: Dict): Json {
    EvalOr(q, [Key("area"), Key("subject"), Lit(JStr("N/A"))])
  }

  function Header(area: string): string {
    "Questão do ENEM - " + area + "\n\n"
  }

  function ContextBlock(context: Json): string {
    if Truthy(context) then "Contexto: " + PyStr(context) + "\n\n" else ""
  }

  /** `formatar_questao_para_prompt(questao)`. */
  function FormatForPrompt(q: Dict): Result<Formatted, FormatError> {
    var areaRaw := RawArea(q);
    if !areaRaw.JStr? then Err(AreaNotText(TypeName(areaRaw)))
    else
      var area := MapArea(areaRaw.s);
      match AlternativeLines(Alternatives(q))
      case Err(e) => Err(e)
      case Ok(lines) =>
        var prompt := BuildPrompt(area, Context(q), QuestionText(q), lines);
        Ok(Formatted(prompt, Strip(Upper(PyStr(AnswerKey(q)))), area))
  }

  /** The string `formatar_questao_para_prompt` accumulates with `+=`. */
  function BuildPrompt(area: string, context: Json, text: Json, lines: seq<string>): string {
    Concat4(Header(area), ContextBlock(context), PyStr(text) + "\n\n", Closing(lines))
  }

  /** The alternatives, one per line, and the closing instruction. */
  function Closing(lines: seq<string>): string {
    JoinLines(lines) + Instruction
  }

  function Concat4(a: string, b: string, c: string, d: string): string {
    a + b + c + d
  }

  /** The prompt opens with the header naming the area and closes with the
      alternatives and the instruction. */
  lemma BuildPromptEnds(area: string, context: Json, text: Json, lines: seq<string>)
    ensures IsPrefix(Header(area), BuildPrompt(area, context, text, lines))
    ensures IsSuffix(Closing(lines), BuildPrompt(area, context, text, lines))
  {
    PiecesOfConcat(Header(area), ContextBlock(context), PyStr(text) + "\n\n", Closing(lines));
  }

  /** With a truthy context the `Contexto:` paragraph follows the header. */
  lemma BuildPromptWithContext(area: string, context: Json, text: Json, lines: seq<string>)
    requires Truthy(context)
    ensures ContextBlock(context) == "Contexto: " + PyStr(context) + "\n\n"
    ensures IsPrefix(Header(area) + ContextBlock(context), BuildPrompt(area, context, text, lines))
  {
    PiecesOfConcat(Header(area), ContextBlock(context), PyStr(text) + "\n\n", Closing(lines));
  }

  /** Without a context the question text follows the header directly. */
  lemma BuildPromptWithoutContext(area: string, context: Json, text: Json, lines: seq<string>)
    requires !Truthy(context)
    ensures IsPrefix(Header(area) + (PyStr(text) + "\n\n"), BuildPrompt(area, context, text, lines))
  {
    assert ContextBlock(context) == "";
    PrefixPastEmpty(Header(area), ContextBlock(context), PyStr(text) + "\n\n", Closing(lines));
  }

  /** With an empty second piece, the first and third pieces start the whole. */
  lemma PrefixPastEmpty(a: string, b: string, c: string, d: string)
    requires b == []
    ensures IsPrefix(a + c, Concat4(a, b, c, d))
  {
    assert Concat4(a, b, c, d) == (a + c) + d;
    PrefixOfConcat(a + c, d);
  }

  /** The area: a question with neither `area` nor `subject` is filed under
      `OUTRAS`; a string token goes through the table; anything else makes
      `.upper()` raise. */
  lemma FormatForPromptArea(q: Dict)
    ensures !Truthy(GetOr(q, "area", JNull)) && !Truthy(GetOr(q, "subject", JNull))
            ==> RawArea(q) == JStr("N/A")
                && (FormatForPrompt(q).Ok? ==> FormatForPrompt(q).value.area == "OUTRAS")
    ensures FormatForPrompt(q).Ok? ==> RawArea(q).JStr? && FormatForPrompt(q).value.area == MapArea(RawArea(q).s)
    ensures !RawArea(q).JStr? ==> FormatForPrompt(q) == Err(AreaNotText(TypeName(RawArea(q))))
  {
    var ops := [Key("area"), Key("subject"), Lit(JStr("N/A"))];
    if !Truthy(GetOr(q, "area", JNull)) && !Truthy(GetOr(q, "subject", JNull)) {
      EvalOrFirstTruthy(q, ops, 2);
    }
  }

  /** The prompt layout: the header, then the `Contexto:` paragraph exactly
      when the context is truthy, then the question text; it ends with the
      alternatives block and the fixed instruction. */
  lemma FormatForPromptLayout(q: Dict)
    requires FormatForPrompt(q).Ok?
    ensures AlternativeLines(Alternatives(q)).Ok?
    ensures IsPrefix(Header(FormatForPrompt(q).value.area), FormatForPrompt(q).value.prompt)
    ensures Truthy(Context(q)) ==>
              IsPrefix(Header(FormatForPrompt(q).value.area) + ContextBlock(Context(q)), FormatForPrompt(q).value.prompt)
    ensures !Truthy(Context(q)) ==>
              IsPrefix(Header(FormatForPrompt(q).value.area) + (PyStr(QuestionText(q)) + "\n\n"), FormatForPrompt(q).value.prompt)
    ensures IsSuffix(Closing(AlternativeLines(Alternatives(q)).value), FormatForPrompt(q).value.prompt)
  {
    var f := FormatForPrompt(q).value;
    var lines := AlternativeLines(Alternatives(q)).value;
    assert f.prompt == BuildPrompt(f.area, Context(q), QuestionText(q), lines);
    BuildPromptEnds(f.area, Context(q), QuestionText(q), lines);
    if Truthy(Context(q)) {
      BuildPromptWithContext(f.area, Context(q), QuestionText(q), lines);
    } else {
      BuildPromptWithoutContext(f.area, Context(q), QuestionText(q), lines);
    }
  }

  /** The answer key is returned normalised: upper-case, without surrounding
      whitespace, and upper-casing or stripping it again changes nothing. */
  lemma FormatForPromptKey(q: Dict)
    requires FormatForPrompt(q).Ok?
    ensures var g := FormatForPrompt(q).value.gabarito;
      && g == Strip(Upper(PyStr(AnswerKey(q))))
      && IsUpper(g) && Upper(g) == g && Strip(g) == g
  {
    UpperStripped(PyStr(AnswerKey(q)));
  }

  /** `s.upper().strip()` is upper-case and has nothing left to strip. */
  lemma UpperStripped(s: string)
    ensures var g := Strip(Upper(s));
      IsUpper(g) && Upper(g) == g && Strip(g) == g
  {
    StripUpper(s);
    UpperIsUpper(Strip(s));
    StripIdempotent(Upper(s));
  }

  // ---------------------------------------------------------------------
  // resolver_questoes_enem.py: formatar_questao

  function Year2(q: Dict): Json {
    EvalOr(q, [Key("ano"), Key("year"), KeyOr("edicao", JStr("N/A"))])
  }

  function Area2(q: Dict): Json {
    EvalOr(q, [Key("area"), Key("subject"), KeyOr("disciplina", JStr("N/A"))])
  }

  function Text2(q: Dict): Json {
    EvalOr(q, [Key("questao"), Key("question"), KeyOr("texto", JStr(""))])
  }

  function Alternatives2(q: Dict): Json {
    EvalOr(q, [Key("alternativas"), Key("alternatives"), Lit(JObj([]))])
  }

  function AnswerKey2(q: Dict): Json {
    EvalOr(q, [Key("gabarito"), Key("correct_answer"), KeyOr("resposta", JStr(""))])
  }

  function Header2(q: Dict): string {
    "Questão do ENEM " + PyStr(Year2(q)) + " - " + PyStr(Area2(q)) + "\n\n" + PyStr(Text2(q)) + "\n\n"
  }

  /** `formatar_questao(questao)`: the prompt and the answer key exactly as
      the record holds it. */
  function FormatQuestion(q: Dict): Result<(string, Json), FormatError> {
    match AlternativeLines(Alternatives2(q))
    case Err(e) => Err(e)
    case Ok(lines) => Ok((BuildPrompt2(Header2(q), lines), AnswerKey2(q)))
  }

  function BuildPrompt2(header: string, lines: seq<string>): string {
    header + JoinLines(lines) + Instruction
  }

  lemma BuildPrompt2Layout(header: string, lines: seq<string>)
    ensures IsPrefix(header, BuildPrompt2(header, lines))
    ensures IsSuffix(JoinLines(lines) + Instruction, BuildPrompt2(header, lines))
  {
    var tail := JoinLines(lines) + Instruction;
    assert BuildPrompt2(header, lines) == header + tail;
    PrefixOfConcat(header, tail);
    SuffixOfConcat(header, tail);
  }

  /** The defaults of `formatar_questao`: when none of the aliases is present
      the year and area are `'N/A'`, the text and key `''`, the alternatives
      `{}`; when only the last alias is present it is used even if falsy. */
  lemma FormatQuestionDefaults(q: Dict)
    ensures !HasKey(q, "ano") && !HasKey(q, "year") && !HasKey(q, "edicao") ==> Year2(q) == JStr("N/A")
    ensures !HasKey(q, "area") && !HasKey(q, "subject") && !HasKey(q, "disciplina") ==> Area2(q) == JStr("N/A")
    ensures !HasKey(q, "questao") && !HasKey(q, "question") && !HasKey(q, "texto") ==> Text2(q) == JStr("")
    ensures !Truthy(GetOr(q, "alternativas", JNull)) && !Truthy(GetOr(q, "alternatives", JNull))
            ==> Alternatives2(q) == JObj([])
    ensures (!Truthy(GetOr(q, "gabarito", JNull)) && !Truthy(GetOr(q, "correct_answer", JNull))
             && HasKey(q, "resposta")) ==> AnswerKey2(q) == GetOr(q, "resposta", JNull)
  {
    YearAndAreaDefaults(q);
    TextDefault(q);
    AlternativesDefault(q);
    AnswerKeyFallback(q);
  }

  lemma YearAndAreaDefaults(q: Dict)
    ensures !HasKey(q, "ano") && !HasKey(q, "year") && !HasKey(q, "edicao") ==> Year2(q) == JStr("N/A")
    ensures !HasKey(q, "area") && !HasKey(q, "subject") && !HasKey(q, "disciplina") ==> Area2(q) == JStr("N/A")
  {
  }

  lemma TextDefault(q: Dict)
    ensures !HasKey(q, "questao") && !HasKey(q, "question") && !HasKey(q, "texto") ==> Text2(q) == JStr("")
  {
  }

  lemma AlternativesDefault(q: Dict)
    ensures !Truthy(GetOr(q, "alternativas", JNull)) && !Truthy(GetOr(q, "alternatives", JNull))
            ==> Alternatives2(q) == JObj([])
  {
    var alts := [Key("alternativas"), Key("alternatives"), Lit(JObj([]))];
    if !Truthy(GetOr(q, "alternativas", JNull)) && !Truthy(GetOr(q, "alternatives", JNull)) {
      EvalOrNoneTruthy(q, alts);
    }
  }

  lemma AnswerKeyFallback(q: Dict)
    ensures (!Truthy(GetOr(q, "gabarito", JNull)) && !Truthy(GetOr(q, "correct_answer", JNull))
             && HasKey(q, "resposta")) ==> AnswerKey2(q) == GetOr(q, "resposta", JNull)
  {
    var keys := [Key("gabarito"), Key("correct_answer"), KeyOr("resposta", JStr(""))];
    if !Truthy(GetOr(q, "gabarito", JNull)) && !Truthy(GetOr(q, "correct_answer", JNull)) && HasKey(q, "resposta") {
      if Truthy(GetOr(q, "resposta", JNull)) {
        EvalOrFirstTruthy(q, keys, 2);
      } else {
        EvalOrNoneTruthy(q, keys);
      }
    }
  }


  /** The layout of `formatar_questao`: a header naming year and area, the
      text, then the alternatives block and the fixed instruction; the key is
      returned untouched. */
  lemma FormatQuestionLayout(q: Dict)
    requires FormatQuestion(q).Ok?
    ensures FormatQuestion(q).value.1 == AnswerKey2(q)
    ensures AlternativeLines(Alternatives2(q)).Ok?
    ensures IsPrefix(Header2(q), FormatQuestion(q).value.0)
    ensures IsSuffix(JoinLines(AlternativeLines(Alternatives2(q)).value) + Instruction, FormatQuestion(q).value.0)
  {
    BuildPrompt2Layout(Header2(q), AlternativeLines(Alternatives2(q)).value);
  }
}
