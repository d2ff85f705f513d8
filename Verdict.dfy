/** The answer-verdict heuristic of both scripts: does the model's reply
    mention the answer key? */
module Verdict {
  import opened Text
  import opened PyValues

  /** The verdict `resolver_questao` computes from the reply and the
      (already normalised) key: the key, or one of the phrases
      `ALTERNATIVA <key>`, `LETRA <key>`, `OPÇÃO <key>`, occurs in the
      upper-cased reply. Every phrase ends with the key, so the verdict is
      just the first test. */
  function Acertou(resposta: string, gabarito: string): (r: bool)
    ensures r <==> IsSubstring(Upper(gabarito), Upper(resposta))
  {
    var ru := Upper(resposta);
    var gu := Upper(gabarito);
    var verdict :=
      IsSubstring(gu, ru)
      || IsSubstring("ALTERNATIVA " + gu, ru)
      || IsSubstring("LETRA " + gu, ru)
      || IsSubstring("OPÇÃO " + gu, ru);
    PhraseImpliesKey("ALTERNATIVA ", gu, ru);
    PhraseImpliesKey("LETRA ", gu, ru);
    PhraseImpliesKey("OPÇÃO ", gu, ru);
    verdict
  }

  lemma PhraseImpliesKey(phrase: string, key: string, reply: string)
    ensures IsSubstring(phrase + key, reply) ==> IsSubstring(key, reply)
  {
    if IsSubstring(phrase + key, reply) {
      SuffixOfOccurrence(phrase, key, reply);
    }
  }

  /** An empty answer key is judged correct whatever the reply says. */
  lemma EmptyKeyIsCorrect(resposta: string)
    ensures Acertou(resposta, "")
  {
    assert Upper("") == "";
    EmptyIsSubstring(Upper(resposta));
  }

  /** The key appearing verbatim in the reply is judged correct. */
  lemma KeyInReplyIsCorrect(before: string, gabarito: string, after: string)
    ensures Acertou(before + gabarito + after, gabarito)
  {
    var reply := before + gabarito + after;
    UpperAppend(before + gabarito, after);
    UpperAppend(before, gabarito);
    var ru := Upper(reply);
    assert ru == Upper(before) + Upper(gabarito) + Upper(after);
    var i := |before|;
    assert ru[i..i + |gabarito|] == Upper(gabarito);
    assert OccursAt(Upper(gabarito), ru, i);
  }

  /** A key longer than the reply is never found. */
  lemma LongKeyIsWrong(resposta: string, gabarito: string)
    requires |gabarito| > |resposta|
    ensures !Acertou(resposta, gabarito)
  {
  }

  /** The comparison ignores the case of ASCII letters on both sides. */
  lemma AcertouIgnoresCase(resposta: string, gabarito: string)
    ensures Acertou(Upper(resposta), Upper(gabarito)) == Acertou(resposta, gabarito)
  {
    UpperIsUpper(resposta);
    UpperIsUpper(gabarito);
  }

  /** The verdict of `resolver_questoes`: no verdict without a truthy key;
      otherwise the test of `str(key).upper()`, or `ALTERNATIVA <key>`, in
      the upper-cased reply. */
  function Verdict2(resposta: string, gabarito: Json): (r: Option<bool>)
    ensures r.None? <==> !Truthy(gabarito)
    ensures r.Some? ==> (r.value <==> IsSubstring(Upper(PyStr(gabarito)), Upper(resposta)))
  {
    if !Truthy(gabarito) then None
    else
      var ru := Upper(resposta);
      var gu := Upper(PyStr(gabarito));
      PhraseImpliesKey("ALTERNATIVA ", gu, ru);
      Some(IsSubstring(gu, ru) || IsSubstring("ALTERNATIVA " + gu, ru))
  }

  /** On a key that is already an upper-case, stripped string, the two
      scripts reach the same verdict whenever the second gives one. */
  lemma VerdictsAgree(resposta: string, gabarito: string)
    requires gabarito != ""
    ensures Verdict2(resposta, JStr(gabarito)) == Some(Acertou(resposta, gabarito))
  {
  }
}
