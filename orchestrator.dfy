/**
 * The orchestrator's interactive shell (`Orchestrator.interactive_shell`).
 *
 * Each prompt yields an event: a line the user typed, Ctrl-C, or some other
 * failure. A line is parsed the way the shell does it (`split()`, `lower()`,
 * `" ".join(...)`, `strip('"')`) into a command, and the command's effects are what
 * the shell prints and whether it hands a message to the Git agent. The Git agent
 * itself is an oracle: each typed line carries the answer it would give if it
 * were called. The shell's fixed texts are a `Messages` record, `Shell` being the
 * one the source prints.
 */
module Orchestrator {
  import opened Text

  /** The fixed texts the shell prints. */
  datatype Messages = Messages(
    greeting: string, usage: string, exitMessage: string, interruptMessage: string,
    commitUsageError: string, commitUsageExample: string,
    commitSucceeded: string, commitFailed: string,
    commitStarted: string, unknownCommand: string, unexpectedError: string)
  {
    /** The success message differs from the failure message, and every other text
        the shell prints starts with a different character than the success message. */
    predicate Valid() {
      && commitSucceeded != commitFailed
      && StartsApart(commitSucceeded, exitMessage)
      && StartsApart(commitSucceeded, interruptMessage)
      && StartsApart(commitSucceeded, commitUsageError)
      && StartsApart(commitSucceeded, commitUsageExample)
      && StartsApart(commitSucceeded, commitStarted)
      && StartsApart(commitSucceeded, unknownCommand)
      && StartsApart(commitSucceeded, unexpectedError)
    }
  }

  predicate StartsApart(a: string, b: string) {
    a != [] && b != [] && a[0] != b[0]
  }

  /** A text that starts apart from `a` stays different from it whatever follows. */
  lemma ApartWithSuffix(a: string, b: string, rest: string)
    requires StartsApart(a, b)
    ensures b + rest != a
  {
    assert (b + rest)[0] == b[0];
  }

  const Shell := Messages(
    "Bem-vindo ao shell interativo. " + "Digite 'exit' para sair.",
    "Comandos disponíveis: " + "commit \"<mensagem>\", exit",
    "Saindo do shell.",
    "\nSaindo do shell.",
    "Erro: O comando 'commit' " + "requer uma mensagem.",
    "Exemplo: commit " + "\"Adiciona nova funcionalidade X\"",
    "Processo de commit " + "finalizado com sucesso.",
    "Processo de commit falhou. " + "Verifique os logs acima.",
    "Iniciando processo de commit " + "com a mensagem: '",
    "Comando desconhecido: '",
    "Ocorreu um erro inesperado: ")

  lemma ShellValid()
    ensures Shell.Valid()
  {
    assert Shell.commitSucceeded[20] != Shell.commitFailed[20];
    assert Shell.commitSucceeded[0] == 'P';
    assert Shell.exitMessage[0] == 'S' && Shell.interruptMessage[0] == '\n';
    assert Shell.commitUsageError[0] == 'E' && Shell.commitUsageExample[0] == 'E';
    assert Shell.commitStarted[0] == 'I' && Shell.unknownCommand[0] == 'C';
    assert Shell.unexpectedError[0] == 'O';
  }

  /** What a call of the Git agent's `run` does: return a value (truthy or not), raise,
      or be cut short by a keyboard interrupt, which the shell's own handler catches. */
  datatype GitResult = Returned(truthy: bool) | Raised(detail: string) | Interrupted

  /** `GitAgent.run` falls off its end or returns bare on every path: it returns `None`. */
  const GitAgentReturns := Returned(false)

  /** What one prompt yields: a typed line (with the answer the Git agent would give
      if this line commits), a keyboard interrupt, or any other exception. */
  datatype Event = Line(text: string, git: GitResult) | Interrupt | Failure(detail: string)

  datatype Effect = Say(text: string) | RunGit(message: string)

  datatype Command = Blank | Exit | CommitUsage | Commit(message: string) | Unknown(name: string)

  datatype Outcome = Outcome(effects: seq<Effect>, stop: bool)

  /** How the shell reads one typed line. */
  function Parse(line: string): (c: Command)
    ensures c == Blank <==> Strip(line) == []
    ensures c.Unknown? ==> c.name != "exit" && c.name != "commit"
  {
    WordsEmpty(line);
    if Strip(line) == [] then Blank
    else
      var parts := Words(line);
      Interpret(Lower(parts[0]), Join(" ", parts[1..]))
  }

  /** The command dispatch on the lower-cased first word and the re-joined arguments. */
  function Interpret(command: string, args: string): (c: Command)
    ensures c != Blank
    ensures c.Unknown? ==> c.name != "exit" && c.name != "commit"
  {
    if command == "exit" then Exit
    else if command == "commit" then
      if args == "" then CommitUsage else Commit(StripChar(args, '"'))
    else Unknown(command)
  }

  /** What the shell prints after calling the Git agent. */
  function GitReport(msg: Messages, g: GitResult): Effect {
    match g
    case Returned(truthy) => Say(if truthy then msg.commitSucceeded else msg.commitFailed)
    case Raised(detail) => Say(msg.unexpectedError + detail)
    case Interrupted => Say(msg.interruptMessage)
  }

  /** The success message is printed exactly when the Git agent returns something truthy. */
  lemma GitReportSucceeds(msg: Messages, g: GitResult)
    requires msg.Valid()
    ensures GitReport(msg, g) == Say(msg.commitSucceeded) <==> g == Returned(true)
  {
    if g.Raised? {
      ApartWithSuffix(msg.commitSucceeded, msg.unexpectedError, g.detail);
    } else if g.Interrupted? {
      assert msg.interruptMessage[0] != msg.commitSucceeded[0];
    }
  }

  /** One pass of the loop body. */
  function Step(msg: Messages, e: Event): Outcome {
    match e
    case Interrupt => Outcome([Say(msg.interruptMessage)], true)
    case Failure(detail) => Outcome([Say(msg.unexpectedError + detail)], false)
    case Line(text, git) => Respond(msg, Parse(text), git)
  }

  /** What the loop body does with a parsed line; `git` is what the Git agent would answer. */
  function Respond(msg: Messages, c: Command, git: GitResult): Outcome {
    match c
    case Blank => Outcome([], false)
    case Exit => Outcome([Say(msg.exitMessage)], true)
    case CommitUsage => Outcome([Say(msg.commitUsageError), Say(msg.commitUsageExample)], false)
    case Commit(m) =>
      Outcome([Say(msg.commitStarted + m + "'"), RunGit(m), GitReport(msg, git)], git.Interrupted?)
    case Unknown(name) => Outcome([Say(msg.unknownCommand + name + "'")], false)
  }

  /** Only `exit` and a keyboard interrupt end the loop, whether the interrupt comes at
      the prompt or while the Git agent runs. */
  lemma StepStops(msg: Messages, e: Event)
    ensures Step(msg, e).stop <==>
      || e.Interrupt?
      || (e.Line? && Parse(e.text) == Exit)
      || (e.Line? && Parse(e.text).Commit? && e.git.Interrupted?)
  {
    if e.Line? {
      assert Step(msg, e) == Respond(msg, Parse(e.text), e.git);
    }
  }

  /** The Git agent is called, once and with the parsed message, only for a commit
      with a message: never for `commit` alone, an unknown command or a blank line. */
  lemma StepRunsGit(msg: Messages, e: Event, m: string)
    ensures RunGit(m) in Step(msg, e).effects <==> e.Line? && Parse(e.text) == Commit(m)
  {
    if e.Line? {
      assert Step(msg, e) == Respond(msg, Parse(e.text), e.git);
      RespondRunsGit(msg, Parse(e.text), e.git, m);
    }
  }

  lemma RespondRunsGit(msg: Messages, c: Command, git: GitResult, m: string)
    ensures RunGit(m) in Respond(msg, c, git).effects <==> c == Commit(m)
  {
    if c.Commit? {
      assert Respond(msg, c, git).effects[1] == RunGit(c.message);
    }
  }

  /** The effects of the outcomes from the `i`-th on, up to and including the first
      one that ends the loop. */
  function Collect(outcomes: seq<Outcome>, i: nat): seq<Effect>
    requires i <= |outcomes|
    decreases |outcomes| - i
  {
    if i == |outcomes| then []
    else outcomes[i].effects + (if outcomes[i].stop then [] else Collect(outcomes, i + 1))
  }

  /** What each prompt would lead to, were it reached. */
  function Outcomes(msg: Messages, events: seq<Event>): (os: seq<Outcome>)
    ensures |os| == |events|
    ensures forall j :: 0 <= j < |events| ==> os[j] == Step(msg, events[j])
  {
    seq(|events|, j requires 0 <= j < |events| => Step(msg, events[j]))
  }

  /** The effects of a sequence of prompts, up to and including the one that ends the loop. */
  function Session(msg: Messages, events: seq<Event>): seq<Effect> {
    Collect(Outcomes(msg, events), 0)
  }

  function Banner(msg: Messages): seq<Effect> {
    [Say(msg.greeting), Say(msg.usage)]
  }

  /** The shell loop: print the banner, then handle prompts until one ends the loop. */
  method InteractiveShell(msg: Messages, events: seq<Event>) returns (out: seq<Effect>)
    ensures out == Banner(msg) + Session(msg, events)
  {
    ghost var os := Outcomes(msg, events);
    out := Banner(msg);
    for i := 0 to |events|
      invariant out + Collect(os, i) == Banner(msg) + Collect(os, 0)
    {
      var outcome := Step(msg, events[i]);
      assert outcome == os[i];
      CollectAt(os, i, out);
      out := out + outcome.effects;
      if outcome.stop {
        break;
      }
    }
  }

  /** One more outcome moves its effects from the pending part to the printed part. */
  lemma CollectAt(os: seq<Outcome>, i: nat, out: seq<Effect>)
    requires i < |os|
    ensures out + Collect(os, i) ==
      (out + os[i].effects) + (if os[i].stop then [] else Collect(os, i + 1))
  {
    AppendAssoc(out, os[i].effects, if os[i].stop then [] else Collect(os, i + 1));
  }

  /** A line of nothing but whitespace is skipped; any other line is a command. */
  lemma ParseBlank(line: string)
    ensures Parse(line) == Blank <==> AllSpace(line)
  {
    StripEmpty(line);
  }

  /** The shell sees a line only through its words, with the first one lower-cased:
      how much whitespace separates them and the case of the command do not matter. */
  lemma ParseSeesLoweredWords(a: string, b: string)
    requires |Words(a)| == |Words(b)|
    requires Words(a) != [] ==> Lower(Words(a)[0]) == Lower(Words(b)[0]) && Words(a)[1..] == Words(b)[1..]
    ensures Parse(a) == Parse(b)
  {
    WordsEmpty(a);
    WordsEmpty(b);
    if Words(a) != [] {
      ParseOf(a);
      ParseOf(b);
    }
  }

  /** `exit`, in any case, ends the loop whatever follows it on the line. */
  lemma ExitInAnyCase(w: string, rest: string)
    requires Lower(w) == "exit"
    requires rest == [] || IsSpace(rest[0])
    ensures Parse(w + rest) == Exit
  {
    LoweredWord(w, "exit");
    var s := w + rest;
    LStripNoLead(s);
    TakeWordOf(w, rest);
    assert Words(s)[0] == w;
    ParseOf(s);
  }

  /** `commit` followed by nothing but whitespace prints the usage and commits nothing. */
  lemma CommitWithoutMessage(w: string, rest: string)
    requires Lower(w) == "commit"
    requires AllSpace(rest)
    ensures Parse(w + rest) == CommitUsage
  {
    LoweredWord(w, "commit");
    var s := w + rest;
    LStripNoLead(s);
    TakeWordOf(w, rest);
    assert s[|w|..] == rest;
    WordsOfSpace(rest);
    assert Words(s) == [w];
    ParseOf(s);
  }

  /** The commit message is the rest of the line with its words re-joined by single
      spaces and the surrounding double quotes removed. */
  lemma CommitMessageCollapsesSpaces(w: string, sp: char, rest: string)
    requires Lower(w) == "commit" && IsSpace(sp)
    requires !AllSpace(rest)
    ensures Parse(w + [sp] + rest) == Commit(StripChar(Join(" ", Words(rest)), '"'))
  {
    LoweredWord(w, "commit");
    var s := w + [sp] + rest;
    FirstWordThenRest(w, sp, rest);
    ParseOf(s);
    var args := Join(" ", Words(s)[1..]);
    assert args == Join(" ", Words(rest));
    InterpretCommit(Lower(Words(s)[0]), args);
  }

  lemma InterpretCommit(command: string, args: string)
    requires command == "commit" && args != ""
    ensures Interpret(command, args) == Commit(StripChar(args, '"'))
  {
  }

  /** A line made of a word, a whitespace character and text with words in it splits
      into that word followed by the words of the text, which join to non-empty arguments. */
  lemma FirstWordThenRest(w: string, sp: char, rest: string)
    requires w != [] && NoSpace(w) && IsSpace(sp) && !AllSpace(rest)
    ensures Words(w + [sp] + rest) != []
    ensures Words(w + [sp] + rest)[0] == w && Words(w + [sp] + rest)[1..] == Words(rest)
    ensures Join(" ", Words(rest)) != ""
  {
    WordsCons(w, sp, rest);
    WordsEmpty(rest);
    StripEmpty(rest);
    JoinFirst(Words(rest));
  }

  /** A word whose lower-case form has no whitespace has none itself. */
  lemma LoweredWord(w: string, command: string)
    requires Lower(w) == command && NoSpace(command)
    ensures NoSpace(w) && |w| == |command|
  {
    forall i | 0 <= i < |w| ensures !IsSpace(w[i]) {
      assert LowerChar(w[i]) == command[i];
    }
  }

  /** A line with words is interpreted from its lower-cased first word and the rest. */
  lemma ParseOf(line: string)
    requires Words(line) != []
    ensures Parse(line) == Interpret(Lower(Words(line)[0]), Join(" ", Words(line)[1..]))
  {
    WordsEmpty(line);
  }

  /** Joining keeps the first piece at the front. */
  lemma JoinFirst(ws: seq<string>)
    requires ws != [] && ws[0] != []
    ensures Join(" ", ws) != [] && Join(" ", ws)[0] == ws[0][0]
  {
  }

  /** The message handed to the Git agent is the joined arguments with every leading
      and trailing double quote removed, and nothing else removed. */
  lemma CommitMessageTrimmed(line: string, args: string)
    requires Parse(line).Commit?
    requires Words(line) != [] && args == Join(" ", Words(line)[1..])
    ensures TrimmedOf(args, Parse(line).message, '"', |args| - |LStripChar(args, '"')|)
  {
    var m := Parse(line).message;
    assert m == StripChar(args, '"') by {
      CommitMessageIs(line);
    }
    assert TrimmedOf(args, m, '"', |args| - |LStripChar(args, '"')|) by {
      StripCharMiddle(args, '"');
    }
  }

  lemma CommitMessageIs(line: string)
    requires Parse(line).Commit?
    ensures Words(line) != [] && Parse(line).message == StripChar(Join(" ", Words(line)[1..]), '"')
  {
    WordsEmpty(line);
    ParseOf(line);
  }

  /** Nothing after the prompt that ends the loop is read. */
  lemma SessionEndsAtStop(msg: Messages, events: seq<Event>, k: nat)
    requires k < |events| && Step(msg, events[k]).stop
    ensures Session(msg, events) == Session(msg, events[..k + 1])
  {
    var os := Outcomes(msg, events);
    var ps := Outcomes(msg, events[..k + 1]);
    assert ps == os[..k + 1];
    PrefixAgrees(os, k, 0);
  }

  lemma {:induction false} PrefixAgrees(os: seq<Outcome>, k: nat, i: nat)
    requires i <= k < |os| && os[k].stop
    ensures Collect(os, i) == Collect(os[..k + 1], i)
    decreases k - i
  {
    if i < k {
      PrefixAgrees(os, k, i + 1);
    }
  }

  /** A prompt that does not end the loop adds its effects and the loop carries on:
      an unexpected error, an unknown command or a failed commit never stop the shell. */
  lemma SessionContinues(msg: Messages, e: Event, rest: seq<Event>)
    requires !Step(msg, e).stop
    ensures Session(msg, [e] + rest) == Step(msg, e).effects + Session(msg, rest)
  {
    OutcomesCons(msg, e, rest);
    CollectCons(Step(msg, e), Outcomes(msg, rest));
  }

  lemma OutcomesCons(msg: Messages, e: Event, rest: seq<Event>)
    ensures Outcomes(msg, [e] + rest) == [Step(msg, e)] + Outcomes(msg, rest)
  {
    assert ([e] + rest)[1..] == rest;
  }

  /** A first outcome that does not stop contributes its effects before the rest. */
  lemma CollectCons(o: Outcome, os: seq<Outcome>)
    requires !o.stop
    ensures Collect([o] + os, 0) == o.effects + Collect(os, 0)
  {
    assert ([o] + os)[0] == o;
    Shifted(o, os, 0);
  }

  lemma {:induction false} Shifted(o: Outcome, os: seq<Outcome>, i: nat)
    requires i <= |os|
    ensures Collect([o] + os, i + 1) == Collect(os, i)
    decreases |os| - i
  {
    if i < |os| {
      assert ([o] + os)[i + 1] == os[i];
      Shifted(o, os, i + 1);
    }
  }

  /** The success message is printed only for a truthy answer of the Git agent. */
  lemma NoSuccessWithoutTruthy(msg: Messages, events: seq<Event>)
    requires msg.Valid()
    requires forall j :: 0 <= j < |events| && events[j].Line? ==> events[j].git != Returned(true)
    ensures Say(msg.commitSucceeded) !in Session(msg, events)
  {
    var os := Outcomes(msg, events);
    forall j | 0 <= j < |os| ensures Say(msg.commitSucceeded) !in os[j].effects {
      NoSuccessInStep(msg, events[j]);
    }
    NotCollected(os, Say(msg.commitSucceeded), 0);
  }

  lemma NoSuccessInStep(msg: Messages, e: Event)
    requires msg.Valid()
    requires e.Line? ==> e.git != Returned(true)
    ensures Say(msg.commitSucceeded) !in Step(msg, e).effects
  {
    var ok := msg.commitSucceeded;
    match e
    case Interrupt =>
    case Failure(d) => ApartWithSuffix(ok, msg.unexpectedError, d);
    case Line(text, git) =>
      assert Step(msg, e) == Respond(msg, Parse(text), git);
      NoSuccessInRespond(msg, Parse(text), git);
  }

  lemma NoSuccessInRespond(msg: Messages, c: Command, git: GitResult)
    requires msg.Valid()
    requires git != Returned(true)
    ensures Say(msg.commitSucceeded) !in Respond(msg, c, git).effects
  {
    var ok := msg.commitSucceeded;
    match c
      case Blank =>
      case Exit =>
      case CommitUsage =>
      case Commit(m) =>
        ApartWithSuffix(ok, msg.commitStarted, m + "'");
        assert msg.commitStarted + m + "'" == msg.commitStarted + (m + "'");
        GitReportSucceeds(msg, git);
      case Unknown(name) =>
        ApartWithSuffix(ok, msg.unknownCommand, name + "'");
        assert msg.unknownCommand + name + "'" == msg.unknownCommand + (name + "'");
  }

  /** An effect that no outcome has is never collected. */
  lemma {:induction false} NotCollected(os: seq<Outcome>, x: Effect, i: nat)
    requires i <= |os|
    requires forall j :: 0 <= j < |os| ==> x !in os[j].effects
    ensures x !in Collect(os, i)
    decreases |os| - i
  {
    if i < |os| {
      var rest := if os[i].stop then [] else Collect(os, i + 1);
      if !os[i].stop {
        NotCollected(os, x, i + 1);
      }
      assert x !in os[i].effects;
      assert Collect(os, i) == os[i].effects + rest;
    }
  }

  /** With the Git agent as written (returning `None`, or raising), the shell never
      reports a commit as successful. */
  lemma CommitNeverReportedSuccessful(events: seq<Event>)
    requires forall j :: 0 <= j < |events| && events[j].Line? ==>
      events[j].git == GitAgentReturns || events[j].git.Raised? || events[j].git.Interrupted?
    ensures Say(Shell.commitSucceeded) !in Session(Shell, events)
  {
    ShellValid();
    NoSuccessWithoutTruthy(Shell, events);
  }
}
