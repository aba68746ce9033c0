/**
 * `PromptEngineerAgent`: read the model's intent analysis (a JSON object, possibly
 * fenced), and fill the two prompt templates handed to the architect.
 */
module PromptEngineerAgent {
  import opened Text
  import opened Llm

  /** The parsed analysis: an intent name and its parameters. */
  datatype Analysis = Analysis(intent: string, params: map<string, string>)

  /** The intents the analysis prompt lists as valid. */
  const Intents: seq<string> := ["BUILD", "MODIFY", "DESIGN", "COMMIT", "RUN", "COMPILE", "UNKNOWN"]

  /** `{"intent": "UNKNOWN", "params": {}}` */
  const UnknownIntent := Analysis("UNKNOWN", map[])

  /** The text handed to `json.loads`: with a fence, the block between the first two
      fences with every `json` deleted, stripped; otherwise the reply itself. */
  function IntentText(reply: string): (t: string)
    ensures !Contains(reply, Fence) ==> t == reply
    ensures Contains(reply, Fence) ==> t == [] || (!IsSpace(t[0]) && !IsSpace(t[|t| - 1]))
  {
    if Contains(reply, Fence) then Strip(ReplaceAll(FencedBlock(reply), "json", ""))
    else reply
  }

  /** `analyze_user_intent` given the model's reply; `loads` stands for `json.loads`,
      `None` for a `JSONDecodeError`. */
  function AnalyzeUserIntent(reply: string, loads: string -> Option<Analysis>): (a: Analysis)
    ensures loads(IntentText(reply)).None? ==> a == UnknownIntent
    ensures loads(IntentText(reply)).Some? ==> a == loads(IntentText(reply)).value
  {
    match loads(IntentText(reply))
    case None => UnknownIntent
    case Some(parsed) => parsed
  }

  /** The `IndexError` handler is dead code: a reply holding a fence always splits into
      at least two pieces. The fenced text is the block between the first two fences,
      and a block without `json` is only stripped. */
  lemma IntentTextFenced(reply: string)
    requires Contains(reply, Fence)
    ensures |Split(reply, Fence)| > 1
    ensures var b := FencedBlock(reply);
      && FencedAt(reply, b, |Split(reply, Fence)[0]| + |Fence|)
      && (!Contains(b, "json") ==> IntentText(reply) == Strip(b))
  {
    SplitCountsOccurrence(reply, Fence);
    var b := FencedBlock(reply);
    if !Contains(b, "json") {
      ReplaceAbsent(b, "json", "");
    }
  }

  /** Deletion is a single pass: removing an inner `json` can join its neighbours into
      a new one, which is left in the text. */
  lemma JsonDeletionSinglePass()
    ensures ReplaceAll("jsjsonon", "json", "") == "json"
  {
    var s := "js" + "json" + "on";
    assert s == "jsjsonon";
    assert !OccursAt(s, "json", 0) by { assert s[2] != "json"[2]; }
    assert !OccursAt(s, "json", 1) by { assert s[1] != "json"[0]; }
    ReplaceAtFirst("js", "json", "on", "");
  }

  /** A failed model call falls back to UNKNOWN: its reply, when the detail holds no
      backtick, has no fence and starts with `E`, which no JSON text does. */
  lemma SentinelGivesUnknown(detail: string, loads: string -> Option<Analysis>)
    requires '`' !in detail
    requires forall t :: t != [] && t[0] == 'E' ==> loads(t).None?
    ensures AnalyzeUserIntent(FailureReply(detail), loads) == UnknownIntent
  {
    var r := FailureReply(detail);
    var prefix := ErrorPrefix + " Não consegui processar " + "o pedido. Detalhes: ";
    assert r == prefix + detail;
    assert '`' !in prefix;
    assert '`' !in r;
    assert '`' in Fence;
    MissingCharExcludes(r, Fence, '`');
    assert IntentText(r) == r;
    assert r[0] == 'E';
  }

  /** The parsed object is returned as it is: an intent outside the listed seven
      reaches the caller. */
  lemma UnlistedIntentReturned(reply: string, loads: string -> Option<Analysis>, a: Analysis)
    requires loads(IntentText(reply)) == Some(a) && a.intent !in Intents
    ensures AnalyzeUserIntent(reply, loads).intent !in Intents
  {
  }

  const Creation0 :=
    "\n" +
    "        Crie um plano de desenvolvimento detalhado para " +
    "o seguinte pedido de criação.\n" +
    "        O plano deve incluir o nome do arquivo, a estrutura " +
    "de pastas e o conteúdo completo de cada arquivo a ser criado.\n" +
    "        Seja literal e siga a descrição exatamente.\n" +
    "\n" +
    "        **Pedido do usuário:** '"

  const Creation1 :=
    "'\n" +
    "        "

  const Modification0 :=
    "\n" +
    "        Sua tarefa é gerar um patch para modificar um arquivo " +
    "de código.\n" +
    "        Gere um patch no formato 'diff unificado' que aplica " +
    "a mudança solicitada.\n" +
    "        O patch deve ser aplicável usando o comando 'patch'.\n" +
    "\n" +
    "        **REGRAS E RESTRIÇÕES ESTRITAS:**\n" +
    "        1.  Sua saída deve ser APENAS o patch. Não inclua " +
    "explicações, comentários ou blocos de código markdown.\n" +
    "        2.  O patch deve ser o mais minimalista possível, " +
    "alterando apenas as linhas necessárias.\n" +
    "        3.  As linhas de cabeçalho do diff (--- a/... e " +
    "+++ b/...) devem usar o caminho do arquivo fornecido.\n" +
    "\n" +
    "        **O CAMINHO DO ARQUIVO É:**\n" +
    "        "

  const Modification1 :=
    "\n" +
    "\n" +
    "        **O CÓDIGO ATUAL COMPLETO DO ARQUIVO É:**\n" +
    "        ---\n" +
    "        "

  const Modification2 :=
    "\n" +
    "        ---\n" +
    "\n" +
    "        **A MODIFICAÇÃO SOLICITADA É A SEGUINTE:**\n" +
    "        \""

  const Modification3 :=
    "\"\n" +
    "\n" +
    "        Agora, gere o patch no formato diff unificado.\n" +
    "        "
  /** `optimize_creation_prompt(description)` */
  function CreationPrompt(description: string): (p: string)
    ensures StartsWith(p, Creation0) && EndsWith(p, Creation1)
    ensures |p| == |Creation0| + |description| + |Creation1|
    ensures p[|Creation0|..|p| - |Creation1|] == description
  {
    var p := Creation0 + description + Creation1;
    assert p[..|Creation0|] == Creation0;
    assert p[|p| - |Creation1|..] == Creation1;
    assert p[|Creation0|..|p| - |Creation1|] == description;
    p
  }

  /** The description is recovered from the creation prompt, so two descriptions never
      share a prompt. */
  lemma CreationPromptInjective(d1: string, d2: string)
    requires CreationPrompt(d1) == CreationPrompt(d2)
    ensures d1 == d2
  {
    var p := CreationPrompt(d1);
    assert d1 == p[|Creation0|..|p| - |Creation1|];
  }

  /** `optimize_modification_prompt(file_path, existing_code, description)`: each
      argument appears verbatim at its place in the template. */
  function ModificationPrompt(filePath: string, existingCode: string, description: string): (p: string)
    ensures var c := |Modification0| + |filePath| + |Modification1|;
      var d := c + |existingCode| + |Modification2|;
      && StartsWith(p, Modification0) && EndsWith(p, Modification3)
      && |p| == d + |description| + |Modification3|
      && OccursAt(p, filePath, |Modification0|)
      && OccursAt(p, existingCode, c)
      && OccursAt(p, description, d)
  {
    SplicedAt3(Modification0, filePath, Modification1, existingCode, Modification2, description, Modification3);
    Modification0 + filePath + Modification1 + existingCode + Modification2 + description + Modification3
  }
}
