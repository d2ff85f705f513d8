/** The chat-completion client of maritaca_api.py: where the API key comes
    from, how it is validated, the request a prompt becomes, and how the
    answer text is taken out of the reply. The HTTP exchange itself is a
    parameter (`Transport`). */
module Maritaca {
  import opened Text
  import opened PyValues

  const BaseUrl := "https://chat.maritaca.ai/api/chat/completions"
  const ModelName := "sabia-3.1"
  const KeyVar := "MARITACA_API_KEY"
  const MinKeyLength := 10

  /** The system prompt `generate_enem_response` sends. */
  const EnemSystemPrompt :=
    "Você é um assistente especializado em questões do ENEM (Exame Nacional do Ensino Médio) "
    + "e Teoria da Resposta ao Item (TRI). Forneça respostas precisas, didáticas e baseadas "
    + "em conhecimento educacional brasileiro."

  /** The process environment (`os.environ`). */
  type Env = map<string, string>

  // ---------------------------------------------------------------------
  // `.env` lines

  /** A `.env` line that takes part: after `strip()`, not empty, not a `#`
      comment, and holding a `=`. */
  predicate Qualifies(line: string) {
    var t := Strip(line);
    t != [] && t[0] != '#' && '=' in t
  }

  /** `line.strip().split('=', 1)` for a qualifying line: the raw key and
      value, neither of them stripped yet. */
  function ParseEnvLine(line: string): (r: Option<(string, string)>)
    ensures r.Some? <==> Qualifies(line)
  {
    var t := Strip(line);
    if t == [] || t[0] == '#' || '=' !in t then None
    else
      var k := IndexOf(t, '=');
      Some((t[..k], t[k + 1..]))
  }

  /** Splitting happens at the first `=`: the key holds none, and key, `=`
      and value put back together give the stripped line. */
  lemma ParseEnvLineSplit(line: string)
    requires Qualifies(line)
    ensures ParseEnvLine(line).Some?
    ensures var (key, value) := ParseEnvLine(line).value;
            '=' !in key && key + "=" + value == Strip(line)
  {
    var t := Strip(line);
    SplitAtFirst(t, IndexOf(t, '='));
  }

  /** Cutting at the first `=` gives back the text around it. */
  lemma SplitAtFirst(t: string, k: nat)
    requires k < |t| && t[k] == '=' && forall j :: 0 <= j < k ==> t[j] != '='
    ensures '=' !in t[..k] && t[..k] + "=" + t[k + 1..] == t
  {
    assert t == t[..k] + [t[k]] + t[k + 1..];
  }

  /** `s[1:-1]`. */
  function Inner(s: string): string {
    if |s| >= 2 then s[1..|s| - 1] else ""
  }

  /** The quote removal of `__init__` before its final `strip()`: one
      surrounding pair of `"`, then one surrounding pair of `'`. A lone `"`
      counts as both ends and leaves `""`. */
  function Unwrap(v: string): string {
    var a := if Enclosed(v, '"') then Inner(v) else v;
    if Enclosed(a, '\'') then Inner(a) else a
  }

  /** The quote removal of `__init__`, applied to the stripped value. */
  function Unquote(v: string): string {
    Strip(Unwrap(v))
  }

  /** `s[1:-1]` of a string wrapped in `c` gives the wrapped text back. */
  lemma InnerOfWrapped(c: char, k: string)
    ensures Enclosed([c] + k + [c], c)
    ensures Inner([c] + k + [c]) == k
  {
    assert ([c] + k + [c])[1..|k| + 1] == k;
  }

  lemma UnquoteDouble(k: string)
    requires !Enclosed(k, '\'')
    ensures Unquote("\"" + k + "\"") == Strip(k)
  {
    assert "\"" + k + "\"" == ['"'] + k + ['"'];
    InnerOfWrapped('"', k);
  }

  lemma UnquoteSingle(k: string)
    ensures Unquote("'" + k + "'") == Strip(k)
  {
    var v := "'" + k + "'";
    assert v == ['\''] + k + ['\''];
    assert !Enclosed(v, '"');
    InnerOfWrapped('\'', k);
  }

  /** Only one pair of double quotes goes: `""k""` keeps its inner pair. */
  lemma UnquoteOnePairOnly(k: string)
    ensures Unquote("\"\"" + k + "\"\"") == Strip("\"" + k + "\"")
  {
    var w := "\"" + k + "\"";
    assert "\"\"" + k + "\"\"" == ['"'] + w + ['"'];
    InnerOfWrapped('"', w);
    assert w[0] == '"';
  }

  /** A double-quoted, single-quoted value loses both pairs. */
  lemma UnquoteBothKinds(k: string)
    ensures Unquote("\"'" + k + "'\"") == Strip(k)
  {
    var w := "'" + k + "'";
    assert "\"'" + k + "'\"" == ['"'] + w + ['"'];
    InnerOfWrapped('"', w);
    assert w == ['\''] + k + ['\''];
    InnerOfWrapped('\'', k);
  }

  lemma UnquotePlain(v: string)
    requires !Enclosed(v, '"') && !Enclosed(v, '\'')
    ensures Unquote(v) == Strip(v)
  {
  }

  /** What a `.env` line contributes to the key search of `__init__`: the
      unquoted value when its stripped key is `MARITACA_API_KEY`. */
  function KeyOnLine(line: string): Option<string> {
    match ParseEnvLine(line)
    case Some((key, value)) => if Strip(key) == KeyVar then Some(Unquote(Strip(value))) else None
    case None => None
  }

  /** What each line of `.env` contributes to the search. */
  function KeysOnLines(lines: seq<string>): (ks: seq<Option<string>>)
    ensures |ks| == |lines|
  {
    seq(|lines|, i requires 0 <= i < |lines| => KeyOnLine(lines[i]))
  }

  /** The first present value of a sequence of options. */
  function FirstSome<T>(xs: seq<Option<T>>): Option<T> {
    if xs == [] then None
    else if xs[0].Some? then xs[0]
    else FirstSome(xs[1..])
  }

  /** The key the `.env` search settles on: that of the first line naming
      `MARITACA_API_KEY`. */
  function FirstKeyLine(lines: seq<string>): Option<string> {
    FirstSome(KeysOnLines(lines))
  }

  /** `FirstSome` picks the first present entry, and is absent only when all
      entries are. */
  lemma {:induction false} FirstSomeIsFirst<T>(xs: seq<Option<T>>)
    ensures FirstSome(xs).None? <==> forall i :: 0 <= i < |xs| ==> xs[i].None?
    ensures FirstSome(xs).Some? ==>
              exists i :: 0 <= i < |xs| && xs[i] == FirstSome(xs) && forall j :: 0 <= j < i ==> xs[j].None?
  {
    if xs != [] && xs[0].None? {
      var rest := xs[1..];
      FirstSomeIsFirst(rest);
      if FirstSome(rest).Some? {
        var i :| 0 <= i < |rest| && rest[i] == FirstSome(rest) && forall j :: 0 <= j < i ==> rest[j].None?;
        assert xs[i + 1] == FirstSome(xs);
        forall j | 0 <= j < i + 1 ensures xs[j].None? {
          if j > 0 { assert xs[j] == rest[j - 1]; }
        }
      } else {
        forall i | 0 <= i < |xs| ensures xs[i].None? {
          if i > 0 { assert xs[i] == rest[i - 1]; }
        }
      }
    } else if xs != [] {
      assert xs[0] == FirstSome(xs);
    }
  }

  /** The line-scanning loop of `__init__` with its `break`. */
  method FindKeyInDotEnv(lines: seq<string>) returns (found: Option<string>)
    ensures found == FirstKeyLine(lines)
  {
    var ks := KeysOnLines(lines);
    found := None;
    var n := 0;
    while n < |lines|
      invariant 0 <= n <= |lines|
      invariant FirstKeyLine(lines) == FirstSome(ks[n..])
    {
      assert ks[n..][1..] == ks[n + 1..];
      var candidate := KeyOnLine(lines[n]);
      if candidate.Some? {
        found := candidate;
        return;
      }
      n := n + 1;
    }
  }

  // ---------------------------------------------------------------------
  // MaritacaAPI.__init__

  /** The `ValueError`s `__init__` raises. */
  datatype InitError = MissingKey | KeyTooShort(length: nat)

  function InitErrorMessage(e: InitError): string {
    match e
    case MissingKey =>
      "API key não fornecida. Defina MARITACA_API_KEY no arquivo .env, como variável de ambiente ou passe como argumento."
    case KeyTooShort(n) => "API key parece inválida (muito curta: " + NatToString(n) + " caracteres)"
  }

  /** The client's attributes once `__init__` returns. */
  datatype Client = Client(apiKey: string, model: string, headers: seq<(string, string)>)

  /** The final validation: a key that is empty, or shorter than ten
      characters once stripped, is refused; otherwise the stripped key goes
      into the `Authorization` header. */
  function Validate(key: string): (r: Result<Client, InitError>)
    ensures r.Ok? <==> |Strip(key)| >= MinKeyLength
    ensures key == "" ==> r == Err(MissingKey)
    ensures key != "" && |Strip(key)| < MinKeyLength ==> r == Err(KeyTooShort(|Strip(key)|))
    ensures r.Ok? ==> r.value.apiKey == Strip(key) && r.value.model == ModelName
    ensures r.Ok? ==> r.value.headers == [("Content-Type", "application/json"), ("Authorization", "Bearer " + Strip(key))]
  {
    if key == "" then Err(MissingKey)
    else
      var k := Strip(key);
      if |k| < MinKeyLength then Err(KeyTooShort(|k|))
      else Ok(Client(k, ModelName, [("Content-Type", "application/json"), ("Authorization", "Bearer " + k)]))
  }

  /** `if api_key:` for the explicit argument. */
  predicate ExplicitGiven(apiKey: Option<string>) {
    apiKey.Some? && apiKey.value != ""
  }

  /** The environment holds a key that is not blank once stripped. */
  predicate EnvGiven(env: Env) {
    KeyVar in env && Strip(env[KeyVar]) != ""
  }

  /** `MaritacaAPI(api_key)`. `dotEnv` is the `.env` file as lines, `None`
      when it does not exist; `env'` is the environment afterwards, which
      receives the key when it was found in `.env`. */
  method Init(apiKey: Option<string>, env: Env, dotEnv: Option<seq<string>>)
    returns (r: Result<Client, InitError>, env': Env)
    ensures ExplicitGiven(apiKey) ==> r == Validate(Strip(apiKey.value)) && env' == env
    ensures !ExplicitGiven(apiKey) && EnvGiven(env) ==> r == Validate(Strip(env[KeyVar])) && env' == env
    ensures !ExplicitGiven(apiKey) && !EnvGiven(env) ==>
              var fromFile := if dotEnv.Some? then FirstKeyLine(dotEnv.value) else None;
              match fromFile
              case Some(k) => r == Validate(k) && env' == env[KeyVar := k]
              case None => r == Err(MissingKey) && env' == env
  {
    env' := env;
    var key: Option<string>;
    if apiKey.Some? && apiKey.value != "" {
      key := Some(Strip(apiKey.value));
    } else {
      key := if KeyVar in env then Some(env[KeyVar]) else None;
      if key.Some? && key.value != "" {
        key := Some(Strip(key.value));
      }
      if key.None? || key.value == "" {
        if dotEnv.Some? {
          var found := FindKeyInDotEnv(dotEnv.value);
          if found.Some? {
            key := found;
            env' := env[KeyVar := found.value];
          }
        }
      }
    }
    if key.None? || key.value == "" {
      r := Err(MissingKey);
      return;
    }
    StripIdempotent(key.value);
    r := Validate(key.value);
    if apiKey.Some? && apiKey.value != "" {
      StripIdempotent(apiKey.value);
    } else if EnvGiven(env) {
      StripIdempotent(env[KeyVar]);
    }
  }

  /** A client that was built holds a stripped key of at least ten
      characters, whichever source it came from. */
  lemma ClientKeyWellFormed(key: string)
    requires Validate(key).Ok?
    ensures var c := Validate(key).value;
            |c.apiKey| >= MinKeyLength && Strip(c.apiKey) == c.apiKey
            && c.headers[1].1 == "Bearer " + c.apiKey
  {
    StripIdempotent(key);
  }

  // ---------------------------------------------------------------------
  // _load_env_file, manual fallback

  /** Why the fallback loader can fail: `os.environ[""] = ...` is refused. */
  datatype EnvError = EmptyName(lineIndex: nat)

  /** The assignment a line makes, if any: stripped name, stripped value. */
  function Assignment(line: string): Option<(string, string)> {
    match ParseEnvLine(line)
    case Some((key, value)) => Some((Strip(key), Strip(value)))
    case None => None
  }

  function Assignments(lines: seq<string>): (asg: seq<Option<(string, string)>>)
    ensures |asg| == |lines|
  {
    seq(|lines|, i requires 0 <= i < |lines| => Assignment(lines[i]))
  }

  /** The environment after a sequence of assignments, applied in order; the
      first assignment to an empty name fails. */
  function Apply(env: Env, asg: seq<Option<(string, string)>>): Result<Env, EnvError>
  {
    if asg == [] then Ok(env)
    else
      match Apply(env, asg[..|asg| - 1])
      case Err(e) => Err(e)
      case Ok(e1) =>
        match asg[|asg| - 1]
        case None => Ok(e1)
        case Some((name, value)) =>
          if name == "" then Err(EmptyName(|asg| - 1)) else Ok(e1[name := value])
  }

  /** What `_load_env_file` leaves in the environment. */
  function ApplyLines(env: Env, lines: seq<string>): Result<Env, EnvError> {
    Apply(env, Assignments(lines))
  }

  /** The loop of `_load_env_file` when `python-dotenv` is missing. */
  method LoadEnvFallback(env: Env, lines: seq<string>) returns (r: Result<Env, EnvError>)
    ensures r == ApplyLines(env, lines)
  {
    var asg := Assignments(lines);
    var cur := env;
    var n := 0;
    while n < |asg|
      invariant 0 <= n <= |asg|
      invariant Apply(env, asg[..n]) == Ok(cur)
    {
      ApplyOneMore(env, asg, n);
      if asg[n].Some? {
        if asg[n].value.0 == "" {
          r := Err(EmptyName(n));
          FailureSticks(env, asg, n + 1);
          return;
        }
        cur := cur[asg[n].value.0 := asg[n].value.1];
      }
      n := n + 1;
    }
    assert asg[..n] == asg;
    r := Ok(cur);
  }

  /** One more assignment on top of a successful prefix. */
  lemma ApplyOneMore(env: Env, asg: seq<Option<(string, string)>>, n: nat)
    requires n < |asg| && Apply(env, asg[..n]).Ok?
    ensures asg[n].None? ==> Apply(env, asg[..n + 1]) == Apply(env, asg[..n])
    ensures asg[n].Some? && asg[n].value.0 == "" ==> Apply(env, asg[..n + 1]) == Err(EmptyName(n))
    ensures asg[n].Some? && asg[n].value.0 != "" ==>
              Apply(env, asg[..n + 1]) == Ok(Apply(env, asg[..n]).value[asg[n].value.0 := asg[n].value.1])
  {
    assert asg[..n + 1][..n] == asg[..n];
  }

  /** Once an assignment fails, the whole load fails with that error. */
  lemma {:induction false} FailureSticks(env: Env, asg: seq<Option<(string, string)>>, n: nat)
    requires n <= |asg| && Apply(env, asg[..n]).Err?
    ensures Apply(env, asg) == Apply(env, asg[..n])
    decreases |asg| - n
  {
    if n < |asg| {
      assert asg[..n + 1][..n] == asg[..n];
      FailureSticks(env, asg, n + 1);
    } else {
      assert asg[..n] == asg;
    }
  }

  /** `asg[i]` assigns `name`. */
  predicate Assigns(asg: seq<Option<(string, string)>>, i: int, name: string) {
    0 <= i < |asg| && asg[i].Some? && asg[i].value.0 == name
  }

  /** A name no assignment touches keeps its value from the environment. */
  lemma {:induction false} UnassignedKept(env: Env, asg: seq<Option<(string, string)>>, name: string)
    requires Apply(env, asg).Ok?
    requires forall i :: 0 <= i < |asg| ==> !Assigns(asg, i, name)
    ensures name in Apply(env, asg).value <==> name in env
    ensures name in env ==> Apply(env, asg).value[name] == env[name]
  {
    if asg != [] {
      var init := asg[..|asg| - 1];
      forall i | 0 <= i < |init| ensures !Assigns(init, i, name) {
        assert !Assigns(asg, i, name);
      }
      UnassignedKept(env, init, name);
      assert !Assigns(asg, |asg| - 1, name);
    }
  }

  /** The last assignment to a name decides its value. */
  lemma {:induction false} LastAssignmentWins(env: Env, asg: seq<Option<(string, string)>>, name: string, i: nat)
    requires Apply(env, asg).Ok?
    requires Assigns(asg, i, name)
    requires forall j :: i < j < |asg| ==> !Assigns(asg, j, name)
    ensures name in Apply(env, asg).value && Apply(env, asg).value[name] == asg[i].value.1
  {
    var init := asg[..|asg| - 1];
    assert Apply(env, init).Ok?;
    if i < |asg| - 1 {
      assert Assigns(init, i, name);
      forall j | i < j < |init| ensures !Assigns(init, j, name) {
        assert !Assigns(asg, j, name);
      }
      LastAssignmentWins(env, init, name, i);
      assert !Assigns(asg, |asg| - 1, name);
    }
  }

  /** For the lines of `.env`: the last line that sets a name decides its
      value, and a name no line sets keeps its value from the environment. */
  lemma LoadEnvLastLineWins(env: Env, lines: seq<string>, name: string)
    requires ApplyLines(env, lines).Ok?
    ensures (forall i :: 0 <= i < |lines| ==> !Assigns(Assignments(lines), i, name))
            ==> (name in ApplyLines(env, lines).value <==> name in env)
                && (name in env ==> ApplyLines(env, lines).value[name] == env[name])
    ensures forall i :: (Assigns(Assignments(lines), i, name)
                         && forall j :: i < j < |lines| ==> !Assigns(Assignments(lines), j, name))
                        ==> name in ApplyLines(env, lines).value
                            && ApplyLines(env, lines).value[name] == Assignment(lines[i]).value.1
  {
    var asg := Assignments(lines);
    if forall i :: 0 <= i < |lines| ==> !Assigns(asg, i, name) {
      UnassignedKept(env, asg, name);
    }
    forall i | Assigns(asg, i, name) && forall j :: i < j < |lines| ==> !Assigns(asg, j, name)
      ensures name in ApplyLines(env, lines).value
              && ApplyLines(env, lines).value[name] == Assignment(lines[i]).value.1
    {
      LastAssignmentWins(env, asg, name, i);
    }
  }

  // ---------------------------------------------------------------------
  // generate / chat_completion

  datatype Message = Message(role: string, content: string)

  /** The `messages` list `generate` builds: the system prompt first when it
      is truthy, then the user prompt. */
  function BuildMessages(prompt: string, system: Option<string>): (ms: seq<Message>)
    ensures |ms| == (if system.Some? && system.value != "" then 2 else 1)
    ensures ms[|ms| - 1] == Message("user", prompt)
    ensures |ms| == 2 ==> ms[0] == Message("system", system.value)
  {
    var head := if system.Some? && system.value != "" then [Message("system", system.value)] else [];
    head + [Message("user", prompt)]
  }

  /** The POST `chat_completion` sends (sampling parameters aside). */
  datatype Request = Request(url: string, headers: seq<(string, string)>, model: string,
                             messages: seq<Message>, maxTokens: nat, stream: bool)

  /** The HTTP exchange: the `k`-th request of a run and the parsed JSON body
      of the reply, or the text of the `RequestException`. */
  type Transport = (nat, Request) -> Result<Json, string>

  /** `chat_completion`: transport failures are re-raised with a prefix. */
  function ChatCompletion(c: Client, send: Transport, k: nat, messages: seq<Message>, maxTokens: nat)
    : (r: Result<Json, string>)
    ensures send(k, Request(BaseUrl, c.headers, c.model, messages, maxTokens, false)).Ok?
            ==> r == send(k, Request(BaseUrl, c.headers, c.model, messages, maxTokens, false))
    ensures send(k, Request(BaseUrl, c.headers, c.model, messages, maxTokens, false)).Err?
            ==> r == Err("Erro na requisição à API: "
                         + send(k, Request(BaseUrl, c.headers, c.model, messages, maxTokens, false)).error)
    ensures r.Err? ==> IsPrefix("Erro na requisição à API: ", r.error)
  {
    match send(k, Request(BaseUrl, c.headers, c.model, messages, maxTokens, false))
    case Ok(body) => Ok(body)
    case Err(e) =>
      PrefixOfConcat("Erro na requisição à API: ", e);
      Err("Erro na requisição à API: " + e)
  }

  /** Why extraction fails: the reply has no usable `choices` (the
      `Resposta inesperada` exception), or indexing into it raised. */
  datatype ExtractError = Unexpected(response: Json) | Malformed(message: string)

  function ExtractErrorMessage(e: ExtractError): string {
    match e
    case Unexpected(resp) => "Resposta inesperada da API: " + PyStr(resp)
    case Malformed(m) => m
  }

  /** `len(v)`, for the values that have one. */
  function Len(v: Json): Option<nat> {
    match v
    case JStr(s) => Some(|s|)
    case JList(items) => Some(|items|)
    case JObj(fields) => Some(|fields|)
    case _ => None
  }

  /** `v[key]` for a string key. */
  function Subscript(v: Json, key: string): Result<Json, ExtractError> {
    match v
    case JObj(fields) =>
      (match Get(fields, key)
       case Some(x) => Ok(x)
       case None => Err(Malformed(Repr(JStr(key)))))
    case JList(_) => Err(Malformed("list indices must be integers or slices, not str"))
    case JStr(_) => Err(Malformed("string indices must be integers, not 'str'"))
    case _ => Err(Malformed("'" + TypeName(v) + "' object is not subscriptable"))
  }

  /** `"choices" in response` on any JSON value. */
  function HasChoices(response: Json): Result<bool, ExtractError> {
    match response
    case JObj(fields) => Ok(HasKey(fields, "choices"))
    case JList(items) => Ok(JStr("choices") in items)
    case JStr(s) => Ok(IsSubstring("choices", s))
    case _ => Err(Malformed("argument of type '" + TypeName(response) + "' is not iterable"))
  }

  /** A reply that has the documented shape:
      `{"choices": [{"message": {"content": text}, ...}, ...], ...}`. */
  predicate HasContent(response: Json, text: Json) {
    response.JObj? && Get(response.fields, "choices").Some?
    && var choices := Get(response.fields, "choices").value;
       choices.JList? && |choices.items| > 0 && choices.items[0].JObj?
       && Get(choices.items[0].fields, "message").Some?
       && var message := Get(choices.items[0].fields, "message").value;
          message.JObj? && Get(message.fields, "content") == Some(text)
  }

  /** The extraction at the end of `generate`. */
  function ExtractContent(response: Json): (r: Result<Json, ExtractError>)
    ensures r.Ok? ==> HasContent(response, r.value)
    ensures forall text :: HasContent(response, text) ==> r == Ok(text)
    ensures response.JObj? && (!HasKey(response.fields, "choices")
              || Len(Get(response.fields, "choices").value) == Some(0))
            ==> r == Err(Unexpected(response))
  {
    match HasChoices(response)
    case Err(e) => Err(e)
    case Ok(false) => Err(Unexpected(response))
    case Ok(true) =>
      if !response.JObj? then Err(Subscript(response, "choices").error)
      else
        var choices := Get(response.fields, "choices").value;
        match Len(choices)
        case None => Err(Malformed("object of type '" + TypeName(choices) + "' has no len()"))
        case Some(n) =>
          if n == 0 then Err(Unexpected(response))
          else
            var first :=
              match choices
              case JList(items) => Ok(items[0])
              case JStr(s) => Ok(JStr([s[0]]))
              case _ => Err(Malformed("0"));
            match first
            case Err(e) => Err(e)
            case Ok(item) =>
              match Subscript(item, "message")
              case Err(e) => Err(e)
              case Ok(message) => Subscript(message, "content")
  }

  /** A list or a string that contains `"choices"` passes the `in` test, and
      `response["choices"]` then raises Python's `TypeError` for indexing it
      with a string. */
  lemma ExtractContentNotDict(response: Json)
    ensures response.JList? && JStr("choices") in response.items
            ==> ExtractContent(response) == Err(Malformed("list indices must be integers or slices, not str"))
    ensures response.JStr? && IsSubstring("choices", response.s)
            ==> ExtractContent(response) == Err(Malformed("string indices must be integers, not 'str'"))
  {
  }

  /** The reply the API documents for a completion. */
  function CompletionReply(text: Json): Json {
    JObj([("id", JStr("chatcmpl")),
          ("choices", JList([JObj([("index", JInt(0)),
                                   ("message", JObj([("role", JStr("assistant")), ("content", text)]))])]))])
  }

  /** Extraction gives back exactly the text a well-formed reply carries. */
  lemma ExtractCompletionReply(text: Json)
    ensures ExtractContent(CompletionReply(text)) == Ok(text)
  {
    var message := JObj([("role", JStr("assistant")), ("content", text)]);
    var item := JObj([("index", JInt(0)), ("message", message)]);
    var reply := CompletionReply(text);
    assert Get(message.fields, "content") == Some(text) by {
      assert message.fields[0].0 != "content";
      assert message.fields[1..] == [("content", text)];
    }
    assert Get(item.fields, "message") == Some(message) by {
      assert item.fields[0].0 != "message";
      assert item.fields[1..] == [("message", message)];
    }
    assert Get(reply.fields, "choices") == Some(JList([item])) by {
      assert reply.fields[0].0 != "choices";
      assert reply.fields[1..] == [("choices", JList([item]))];
    }
    assert HasContent(reply, text);
  }

  /** `generate(prompt, system_prompt, max_tokens=...)` as the `k`-th call of
      a run: the content of the reply, or the text of the exception. */
  function Generate(c: Client, send: Transport, k: nat, prompt: string, system: Option<string>, maxTokens: nat)
    : (r: Result<Json, string>)
  {
    match ChatCompletion(c, send, k, BuildMessages(prompt, system), maxTokens)
    case Err(e) => Err(e)
    case Ok(response) =>
      match ExtractContent(response)
      case Ok(text) => Ok(text)
      case Err(e) => Err(ExtractErrorMessage(e))
  }

  /** A reply of the documented shape gives its text back unchanged. */
  lemma GenerateReturnsContent(c: Client, send: Transport, k: nat, prompt: string, system: Option<string>,
                               maxTokens: nat, text: Json)
    requires send(k, Request(BaseUrl, c.headers, c.model, BuildMessages(prompt, system), maxTokens, false))
             == Ok(CompletionReply(text))
    ensures Generate(c, send, k, prompt, system, maxTokens) == Ok(text)
  {
    ExtractCompletionReply(text);
  }

  /** `generate_enem_response`: `generate` with the fixed system prompt. */
  function GenerateEnemResponse(c: Client, send: Transport, k: nat, prompt: string, maxTokens: nat)
    : Result<Json, string>
  {
    Generate(c, send, k, prompt, Some(EnemSystemPrompt), maxTokens)
  }

  /** The request of `generate_enem_response` carries the system prompt
      first and the question second. */
  lemma EnemRequestMessages(prompt: string)
    ensures BuildMessages(prompt, Some(EnemSystemPrompt))
            == [Message("system", EnemSystemPrompt), Message("user", prompt)]
  {
  }
}
