/** `apply_patch` from the orchestrator patch script: edits the lines of
    `src/core/orchestrator.py`, held as a list, to add the `ExecutionAgent` import,
    an `"executor"` registry entry and a `run` command block. Each step is skipped
    when the text it would add is already there.

    The step functions `ImportStep`, `ExecutorStep` and `RunStep` state what each
    step produces, for any `Texts` the script might insert and search for; `Script`
    holds the script's own texts. The methods `AddImport`, `AddExecutor`,
    `AddRunBlock` and `ApplyPatch` perform the same edits on a local list, with the
    script's loops, and are proved to produce exactly that. */
module PatchOrchestrator {
  import opened Text

  const FilePath: string := "src/core/orchestrator.py"

  /** The texts `apply_patch` inserts and the anchors it searches for. */
  datatype Texts = Texts(
    importText: string,       // `import_to_add.strip()`; the line added is this plus "\n"
    executorKey: string,      // the guard of step 3
    registryAnchor: string,   // the registry line the entry goes after
    executorEntry: string,    // the registry line added
    runMarker: string,        // the guard of step 4
    commitAnchor: string,     // the line the commit block starts with
    runBlock: seq<string>)    // `run_block_lines`, before indentation
  {
    /** What makes a second application change nothing: each inserted text contains
        its own guard, the import survives the comma edit, and some non-blank
        character of the registry anchor appears in no line of the run block. */
    predicate Valid() {
      && importText != [] && !IsSpace(importText[|importText| - 1]) && '\n' !in importText
      && Contains(executorEntry, executorKey)
      && |runBlock| > 0 && StartsWith(runBlock[0], runMarker)
      && exists c :: c in registryAnchor && c != ' ' && forall i :: 0 <= i < |runBlock| ==> c !in runBlock[i]
    }
  }

  /** The script's texts; the longer ones are written in pieces so that facts
      about their characters are proved piece by piece. */
  const Script: Texts := Texts(
    "from src.agents.execution_agent" + " import ExecutionAgent",
    "\"executor\":",
    "\"code_generator\": CodeGeneratorAgent(self.state)",
    Spaces(8) + "\"executor\":" + " ExecutionAgent(),\n",
    "elif command == \"run\":",
    "if command == \"commit\":",
    [ "elif command == \"run\":\n",
      "    if not args:\n",
      "        print(\"Erro: " + "O comando 'run' " + "requer um argumento.\")\n",
      "        print(\"Uso: run " + "<comando_a_ser_executado>\")\n",
      "        continue\n",
      "    \n",
      "    # Converte a lista " + "de argumentos de volta " + "para uma string de comando\n",
      "    command_to_run = " + "\" \".join(args)\n",
      "    print(f\"Executando comando: " + "'{command_to_run}'...\")\n",
      "    self.agents[\"executor\"]" + ".run(command_to_run)\n" ])

  // ---------------------------------------------------------------- line tests

  predicate IsClassLine(line: string) {
    StartsWith(Strip(line), "class Orchestrator")
  }

  predicate IsImportLine(line: string) {
    StartsWith(Strip(line), "import ") || StartsWith(Strip(line), "from ")
  }

  /** The test `anchor in line`. */
  function HasText(anchor: string): string -> bool {
    line => Contains(line, anchor)
  }

  /** `anchor in line.strip()` */
  predicate StrippedContains(line: string, anchor: string) {
    Contains(Strip(line), anchor)
  }

  /** The test `anchor in line.strip()`. */
  function StrippedHasText(anchor: string): string -> bool {
    line => StrippedContains(line, anchor)
  }

  /** `len(line) - len(line.lstrip())`: the number of leading whitespace characters. */
  function Indent(line: string): (n: nat)
    ensures n <= |line|
    ensures forall i :: 0 <= i < n ==> IsSpace(line[i])
    ensures n == |line| || !IsSpace(line[n])
  {
    |line| - |LStrip(line)|
  }

  /** A non-blank line indented no deeper than `indent` closes the commit block. */
  predicate EndsBlock(line: string, indent: nat) {
    Strip(line) != [] && Indent(line) <= indent
  }

  /** `any(t in line for line in lines)` */
  predicate AnyContains(lines: seq<string>, t: string) {
    exists i :: 0 <= i < |lines| && Contains(lines[i], t)
  }

  // ---------------------------------------------------------------- searches

  /** Index of the first element satisfying `P`, or -1. */
  function FirstIndex(s: seq<string>, P: string -> bool): (r: int)
    ensures -1 <= r < |s|
    ensures r >= 0 ==> P(s[r])
    ensures forall j :: 0 <= j < |s| && (r == -1 || j < r) ==> !P(s[j])
  {
    if |s| == 0 then -1
    else if P(s[0]) then 0
    else
      var k := FirstIndex(s[1..], P);
      if k == -1 then -1 else k + 1
  }

  lemma {:induction false} FirstIndexIs(s: seq<string>, P: string -> bool, k: int)
    requires -1 <= k < |s|
    requires k >= 0 ==> P(s[k])
    requires forall j :: 0 <= j < |s| && (k == -1 || j < k) ==> !P(s[j])
    ensures FirstIndex(s, P) == k
    decreases |s|
  {
    if |s| > 0 && k != 0 {
      FirstIndexIs(s[1..], P, if k == -1 then -1 else k - 1);
    }
  }

  /** Index of the last element satisfying `P`, or -1. */
  function LastIndex(s: seq<string>, P: string -> bool): (r: int)
    ensures -1 <= r < |s|
    ensures r >= 0 ==> P(s[r])
    ensures forall j :: r < j < |s| ==> !P(s[j])
  {
    if |s| == 0 then -1
    else if P(s[|s| - 1]) then |s| - 1
    else LastIndex(s[..|s| - 1], P)
  }

  lemma {:induction false} LastIndexIs(s: seq<string>, P: string -> bool, k: int)
    requires -1 <= k < |s|
    requires k >= 0 ==> P(s[k])
    requires forall j :: k < j < |s| ==> !P(s[j])
    ensures LastIndex(s, P) == k
    decreases |s|
  {
    if |s| > 0 && k != |s| - 1 {
      LastIndexIs(s[..|s| - 1], P, k);
    }
  }

  /** First index at or after `from` whose line closes a block indented `indent`,
      or `|lines|` when the block runs to the end. */
  function BlockEnd(lines: seq<string>, from: nat, indent: nat): (e: nat)
    requires from <= |lines|
    ensures from <= e <= |lines|
    ensures forall j :: from <= j < e ==> !EndsBlock(lines[j], indent)
    ensures e < |lines| ==> EndsBlock(lines[e], indent)
    decreases |lines| - from
  {
    if from == |lines| then from
    else if EndsBlock(lines[from], indent) then from
    else BlockEnd(lines, from + 1, indent)
  }

  lemma {:induction false} BlockEndIs(lines: seq<string>, from: nat, indent: nat, e: nat)
    requires from <= e <= |lines|
    requires forall j :: from <= j < e ==> !EndsBlock(lines[j], indent)
    requires e < |lines| ==> EndsBlock(lines[e], indent)
    ensures BlockEnd(lines, from, indent) == e
    decreases |lines| - from
  {
    if from < e {
      BlockEndIs(lines, from + 1, indent, e);
    }
  }

  // ---------------------------------------------------------------- edits

  function Insert(s: seq<string>, i: nat, x: string): seq<string>
    requires i <= |s|
  {
    s[..i] + [x] + s[i..]
  }

  function Spaces(n: nat): (r: string)
    ensures |r| == n && forall i :: 0 <= i < n ==> r[i] == ' '
  {
    seq(n, _ => ' ')
  }

  /** `[(' ' * indent) + line for line in block]` */
  function Indented(block: seq<string>, indent: nat): (r: seq<string>)
    ensures |r| == |block|
    ensures forall i :: 0 <= i < |block| ==> r[i] == Spaces(indent) + block[i]
  {
    seq(|block|, i requires 0 <= i < |block| => Spaces(indent) + block[i])
  }

  /** The registry line after the comma check: kept when its stripped text already ends
      with a comma, otherwise `line.rstrip().replace('\n', '') + ',\n'`. */
  function WithComma(line: string): string {
    if EndsWith(Strip(line), ",") then line else RemoveChar(RStrip(line), '\n') + ",\n"
  }

  /** The registry line at `i` (if any) with its comma, followed by `entry`. */
  function AddEntryAt(lines: seq<string>, i: int, entry: string): seq<string>
    requires -1 <= i < |lines|
  {
    if i == -1 then lines else lines[..i] + [WithComma(lines[i]), entry] + lines[i + 1..]
  }

  /** `block`, indented like the line at `a`, inserted where that line's block ends. */
  function InsertBlockAfter(lines: seq<string>, a: int, block: seq<string>): seq<string>
    requires -1 <= a < |lines|
  {
    if a == -1 then lines
    else
      var indent := Indent(lines[a]);
      var e := BlockEnd(lines, a + 1, indent);
      lines[..e] + Indented(block, indent) + lines[e..]
  }

  // ---------------------------------------------------------------- the three steps

  /** Step 2: add the import (plus a blank line) before the class, or else the bare
      import line after the last import. */
  function ImportStep(t: Texts, lines: seq<string>): seq<string> {
    ImportAt(t, lines, AnyContains(lines, t.importText),
             FirstIndex(lines, IsClassLine), LastIndex(lines, IsImportLine))
  }

  /** Step 2 once the searches are done: whether the import is present, the first
      class line and the last import line (each -1 when there is none). */
  function ImportAt(t: Texts, lines: seq<string>, present: bool, c: int, m: int): seq<string>
    requires -1 <= c < |lines| && -1 <= m < |lines|
  {
    if present then lines
    else if c != -1 then Insert(lines, c, t.importText + "\n" + "\n")
    else Insert(lines, m + 1, t.importText + "\n")
  }

  /** Step 3: add the registry entry right after the first registry anchor line. */
  function ExecutorStep(t: Texts, lines: seq<string>): seq<string> {
    if AnyContains(lines, t.executorKey) then lines
    else AddEntryAt(lines, FirstIndex(lines, HasText(t.registryAnchor)), t.executorEntry)
  }

  /** Step 4: add the indented run block where the commit block ends. */
  function RunStep(t: Texts, lines: seq<string>): seq<string> {
    if AnyContains(lines, t.runMarker) then lines
    else InsertBlockAfter(lines, FirstIndex(lines, StrippedHasText(t.commitAnchor)), t.runBlock)
  }

  /** The whole edit: steps 2, 3 and 4 in order. */
  function Patch(t: Texts, lines: seq<string>): seq<string> {
    RunStep(t, ExecutorStep(t, ImportStep(t, lines)))
  }

  // ---------------------------------------------------------------- where each step edits

  /** With no import yet and a class line, the import plus an extra newline is inserted
      as one element right before the first class line. */
  lemma ImportBeforeClass(t: Texts, lines: seq<string>, c: nat)
    requires !AnyContains(lines, t.importText)
    requires c < |lines| && IsClassLine(lines[c])
    requires forall j :: 0 <= j < c ==> !IsClassLine(lines[j])
    ensures ImportStep(t, lines) == lines[..c] + [t.importText + "\n\n"] + lines[c..]
  {
    FirstIndexIs(lines, IsClassLine, c);
    ImportStepAfterImports(t, lines);
    ImportAtClass(t, lines, c, LastIndex(lines, IsImportLine));
  }

  /** With no import yet and no class line, the bare import line goes right after the
      last `import`/`from` line, or first when there is none. */
  lemma ImportAfterLastImport(t: Texts, lines: seq<string>, m: int)
    requires !AnyContains(lines, t.importText)
    requires forall j :: 0 <= j < |lines| ==> !IsClassLine(lines[j])
    requires -1 <= m < |lines| && (m >= 0 ==> IsImportLine(lines[m]))
    requires forall j :: m < j < |lines| ==> !IsImportLine(lines[j])
    ensures ImportStep(t, lines) == lines[..m + 1] + [t.importText + "\n"] + lines[m + 1..]
  {
    FirstIndexIs(lines, IsClassLine, -1);
    LastIndexIs(lines, IsImportLine, m);
    ImportStepAfterImports(t, lines);
    ImportAtLast(t, lines, m);
  }

  /** Without the import, step 2 is decided by the first class line and the last import line. */
  lemma ImportStepAfterImports(t: Texts, lines: seq<string>)
    requires !AnyContains(lines, t.importText)
    ensures ImportStep(t, lines) == ImportAt(t, lines, false, FirstIndex(lines, IsClassLine), LastIndex(lines, IsImportLine))
  {
  }

  lemma ImportAtClass(t: Texts, lines: seq<string>, c: nat, m: int)
    requires c < |lines| && -1 <= m < |lines|
    ensures ImportAt(t, lines, false, c, m) == lines[..c] + [t.importText + "\n\n"] + lines[c..]
  {
    assert t.importText + "\n" + "\n" == t.importText + "\n\n";
  }

  lemma ImportAtLast(t: Texts, lines: seq<string>, m: int)
    requires -1 <= m < |lines|
    ensures ImportAt(t, lines, false, -1, m) == lines[..m + 1] + [t.importText + "\n"] + lines[m + 1..]
  {
  }

  /** Wherever step 2 inserts, the inserted element holds the import. */
  lemma ImportAtAdds(t: Texts, lines: seq<string>, c: int, m: int)
    requires -1 <= c < |lines| && -1 <= m < |lines|
    ensures AnyContains(ImportAt(t, lines, false, c, m), t.importText)
  {
    var k: nat := if c != -1 then c else m + 1;
    var x := if c != -1 then t.importText + "\n" + "\n" else t.importText + "\n";
    assert OccursAt(x, t.importText, 0);
    assert ImportAt(t, lines, false, c, m)[k] == x;
  }

  /** With no executor entry yet, only the first anchor line is touched: it gets its
      comma, and the entry follows it. */
  lemma ExecutorAfterRegistry(t: Texts, lines: seq<string>, i: nat)
    requires !AnyContains(lines, t.executorKey)
    requires i < |lines| && Contains(lines[i], t.registryAnchor)
    requires forall j :: 0 <= j < i ==> !Contains(lines[j], t.registryAnchor)
    ensures ExecutorStep(t, lines) == lines[..i] + [WithComma(lines[i]), t.executorEntry] + lines[i + 1..]
  {
    FirstIndexIs(lines, HasText(t.registryAnchor), i);
  }

  /** With no run block yet, its lines, each indented by the commit line's indent, go in
      order at the first later non-blank line indented no deeper than the commit line
      (or at the end). */
  lemma RunBlockAtBlockEnd(t: Texts, lines: seq<string>, a: nat, e: nat)
    requires !AnyContains(lines, t.runMarker)
    requires a < |lines| && StrippedContains(lines[a], t.commitAnchor)
    requires forall j :: 0 <= j < a ==> !StrippedContains(lines[j], t.commitAnchor)
    requires a < e <= |lines|
    requires forall j :: a < j < e ==> !EndsBlock(lines[j], Indent(lines[a]))
    requires e < |lines| ==> EndsBlock(lines[e], Indent(lines[a]))
    ensures RunStep(t, lines) == lines[..e] + Indented(t.runBlock, Indent(lines[a])) + lines[e..]
  {
    FirstIndexIs(lines, StrippedHasText(t.commitAnchor), a);
    BlockEndIs(lines, a + 1, Indent(lines[a]), e);
  }

  /** A step whose anchor is missing leaves the lines as they are. */
  lemma MissingAnchorsChangeNothing(t: Texts, lines: seq<string>)
    ensures (forall j :: 0 <= j < |lines| ==> !Contains(lines[j], t.registryAnchor))
      ==> ExecutorStep(t, lines) == lines
    ensures (forall j :: 0 <= j < |lines| ==> !StrippedContains(lines[j], t.commitAnchor))
      ==> RunStep(t, lines) == lines
  {
    if forall j :: 0 <= j < |lines| ==> !Contains(lines[j], t.registryAnchor) {
      FirstIndexIs(lines, HasText(t.registryAnchor), -1);
    }
    if forall j :: 0 <= j < |lines| ==> !StrippedContains(lines[j], t.commitAnchor) {
      FirstIndexIs(lines, StrippedHasText(t.commitAnchor), -1);
    }
  }

  // ---------------------------------------------------------------- idempotence

  /** An inserted run of lines keeps every line that contained `s`. */
  lemma AnyContainsInsert(lines: seq<string>, k: nat, xs: seq<string>, s: string)
    requires k <= |lines| && AnyContains(lines, s)
    ensures AnyContains(lines[..k] + xs + lines[k..], s)
  {
    var i :| 0 <= i < |lines| && Contains(lines[i], s);
    var r := lines[..k] + xs + lines[k..];
    if i < k { assert r[i] == lines[i]; }
    else { assert r[i + |xs|] == lines[i]; }
  }

  /** After step 2 the import is present. */
  lemma ImportStepAdds(t: Texts, lines: seq<string>)
    ensures AnyContains(ImportStep(t, lines), t.importText)
  {
    if !AnyContains(lines, t.importText) {
      ImportStepAfterImports(t, lines);
      ImportAtAdds(t, lines, FirstIndex(lines, IsClassLine), LastIndex(lines, IsImportLine));
    }
  }

  /** The comma edit keeps every text that has no newline and does not end in
      whitespace (the import, for one). */
  lemma WithCommaKeeps(line: string, s: string)
    requires Contains(line, s) && s != [] && !IsSpace(s[|s| - 1]) && '\n' !in s
    ensures Contains(WithComma(line), s)
  {
    if !EndsWith(Strip(line), ",") {
      var trimmed := RStrip(line);
      RStripKeeps(line, s);
      RemoveCharKeeps(trimmed, '\n', s);
      ContainsPrefix(RemoveChar(trimmed, '\n'), ",\n", s);
    }
  }

  lemma ExecutorStepKeeps(t: Texts, lines: seq<string>, s: string)
    requires AnyContains(lines, s) && s != [] && !IsSpace(s[|s| - 1]) && '\n' !in s
    ensures AnyContains(ExecutorStep(t, lines), s)
  {
    if !AnyContains(lines, t.executorKey) {
      var i := FirstIndex(lines, HasText(t.registryAnchor));
      if i != -1 {
        var r := AddEntryAt(lines, i, t.executorEntry);
        var j :| 0 <= j < |lines| && Contains(lines[j], s);
        if j < i { assert r[j] == lines[j]; }
        else if j == i { WithCommaKeeps(lines[i], s); assert r[i] == WithComma(lines[i]); }
        else { assert r[j + 1] == lines[j]; }
      }
    }
  }

  lemma RunStepKeeps(t: Texts, lines: seq<string>, s: string)
    requires AnyContains(lines, s)
    ensures AnyContains(RunStep(t, lines), s)
  {
    if !AnyContains(lines, t.runMarker) {
      var a := FirstIndex(lines, StrippedHasText(t.commitAnchor));
      if a != -1 {
        var indent := Indent(lines[a]);
        AnyContainsInsert(lines, BlockEnd(lines, a + 1, indent), Indented(t.runBlock, indent), s);
      }
    }
  }

  /** Step 3 is settled when the entry is there or no line holds the anchor. */
  predicate ExecutorSettled(t: Texts, lines: seq<string>) {
    AnyContains(lines, t.executorKey) || forall j :: 0 <= j < |lines| ==> !Contains(lines[j], t.registryAnchor)
  }

  lemma ExecutorStepSettles(t: Texts, lines: seq<string>)
    requires Contains(t.executorEntry, t.executorKey)
    ensures ExecutorSettled(t, ExecutorStep(t, lines))
  {
    if !AnyContains(lines, t.executorKey) {
      var i := FirstIndex(lines, HasText(t.registryAnchor));
      if i != -1 {
        assert AddEntryAt(lines, i, t.executorEntry)[i + 1] == t.executorEntry;
      }
    }
  }

  lemma SettledExecutorStepFixes(t: Texts, lines: seq<string>)
    requires ExecutorSettled(t, lines)
    ensures ExecutorStep(t, lines) == lines
  {
    MissingAnchorsChangeNothing(t, lines);
  }

  /** No indented line of a valid run block holds the registry anchor. */
  lemma BlockLineLacksAnchor(t: Texts, indent: nat, i: nat)
    requires t.Valid() && i < |t.runBlock|
    ensures !Contains(Spaces(indent) + t.runBlock[i], t.registryAnchor)
  {
    var c :| c in t.registryAnchor && c != ' ' && forall i :: 0 <= i < |t.runBlock| ==> c !in t.runBlock[i];
    var line := Spaces(indent) + t.runBlock[i];
    forall k | 0 <= k < |line| ensures line[k] != c {
      if k >= indent { assert line[k] == t.runBlock[i][k - indent]; }
    }
    MissingCharExcludes(line, t.registryAnchor, c);
  }

  /** Lines lacking `anchor` with a block lacking it inserted still lack it. */
  lemma InsertLacks(lines: seq<string>, e: nat, block: seq<string>, anchor: string)
    requires e <= |lines|
    requires forall j :: 0 <= j < |lines| ==> !Contains(lines[j], anchor)
    requires forall j :: 0 <= j < |block| ==> !Contains(block[j], anchor)
    ensures var r := lines[..e] + block + lines[e..];
      forall j :: 0 <= j < |r| ==> !Contains(r[j], anchor)
  {
    var r := lines[..e] + block + lines[e..];
    forall j | 0 <= j < |r| ensures !Contains(r[j], anchor) {
      if j < e { assert r[j] == lines[j]; }
      else if j < e + |block| { assert r[j] == block[j - e]; }
      else { assert r[j] == lines[j - |block|]; }
    }
  }

  lemma IndentedBlockLacksAnchor(t: Texts, indent: nat)
    requires t.Valid()
    ensures forall j :: 0 <= j < |t.runBlock| ==> !Contains(Indented(t.runBlock, indent)[j], t.registryAnchor)
  {
    forall j | 0 <= j < |t.runBlock| ensures !Contains(Indented(t.runBlock, indent)[j], t.registryAnchor) {
      BlockLineLacksAnchor(t, indent, j);
    }
  }

  lemma RunStepKeepsSettled(t: Texts, lines: seq<string>)
    requires t.Valid() && ExecutorSettled(t, lines)
    ensures ExecutorSettled(t, RunStep(t, lines))
  {
    if AnyContains(lines, t.executorKey) {
      RunStepKeeps(t, lines, t.executorKey);
    } else if !AnyContains(lines, t.runMarker) {
      var a := FirstIndex(lines, StrippedHasText(t.commitAnchor));
      if a != -1 {
        var indent := Indent(lines[a]);
        var e := BlockEnd(lines, a + 1, indent);
        var block := Indented(t.runBlock, indent);
        RunStepInserts(t, lines);
        IndentedBlockLacksAnchor(t, indent);
        InsertLacks(lines, e, block, t.registryAnchor);
      }
    }
  }

  /** Without a run block, step 4 puts the indented block where the commit block ends. */
  lemma RunStepInserts(t: Texts, lines: seq<string>)
    requires !AnyContains(lines, t.runMarker)
    requires FirstIndex(lines, StrippedHasText(t.commitAnchor)) != -1
    ensures var a := FirstIndex(lines, StrippedHasText(t.commitAnchor));
      var e := BlockEnd(lines, a + 1, Indent(lines[a]));
      RunStep(t, lines) == lines[..e] + Indented(t.runBlock, Indent(lines[a])) + lines[e..]
  {
  }

  /** An indented copy of a line keeps the text the line starts with. */
  lemma IndentedKeepsStart(indent: nat, line: string, m: string)
    requires StartsWith(line, m)
    ensures Contains(Spaces(indent) + line, m)
  {
    var x := Spaces(indent) + line;
    assert x[indent..indent + |m|] == line[..|m|];
    assert OccursAt(x, m, indent);
  }

  /** After step 4 the run marker is present, unless step 4 changed nothing. */
  lemma RunStepMarks(t: Texts, lines: seq<string>)
    requires |t.runBlock| > 0 && StartsWith(t.runBlock[0], t.runMarker)
    ensures RunStep(t, lines) == lines || AnyContains(RunStep(t, lines), t.runMarker)
  {
    if !AnyContains(lines, t.runMarker) {
      var a := FirstIndex(lines, StrippedHasText(t.commitAnchor));
      if a != -1 {
        var indent := Indent(lines[a]);
        var e := BlockEnd(lines, a + 1, indent);
        var block := Indented(t.runBlock, indent);
        var r := lines[..e] + block + lines[e..];
        assert r[e] == block[0];
        IndentedKeepsStart(indent, t.runBlock[0], t.runMarker);
      }
    }
  }

  /** Step 4 applied twice is step 4 applied once. */
  lemma RunStepIdempotent(t: Texts, lines: seq<string>)
    requires |t.runBlock| > 0 && StartsWith(t.runBlock[0], t.runMarker)
    ensures RunStep(t, RunStep(t, lines)) == RunStep(t, lines)
  {
    RunStepMarks(t, lines);
  }

  /** With valid texts, applying the patch to its own output changes nothing. */
  lemma PatchIdempotent(t: Texts, lines: seq<string>)
    requires t.Valid()
    ensures Patch(t, Patch(t, lines)) == Patch(t, lines)
  {
    var i1 := ImportStep(t, lines);
    var e1 := ExecutorStep(t, i1);
    var r1 := RunStep(t, e1);
    ImportStepAdds(t, lines);
    ExecutorStepKeeps(t, i1, t.importText);
    RunStepKeeps(t, e1, t.importText);
    assert ImportStep(t, r1) == r1;
    ExecutorStepSettles(t, i1);
    RunStepKeepsSettled(t, e1);
    SettledExecutorStepFixes(t, r1);
    RunStepIdempotent(t, e1);
  }

  lemma ScriptValid()
    ensures Script.Valid()
  {
    ScriptImportValid();
    ScriptGuardsValid();
    ScriptBlockLacksG();
    assert Script.registryAnchor[22] == 'G';
    assert 'G' in Script.registryAnchor;
  }

  lemma ScriptImportValid()
    ensures var x := Script.importText;
      x != [] && !IsSpace(x[|x| - 1]) && '\n' !in x
  {
    assert '\n' !in "from src.agents.execution_agent";
    assert '\n' !in " import ExecutionAgent";
  }

  lemma ScriptGuardsValid()
    ensures Contains(Script.executorEntry, Script.executorKey)
    ensures |Script.runBlock| > 0 && StartsWith(Script.runBlock[0], Script.runMarker)
  {
    assert OccursAt(Script.executorEntry, Script.executorKey, 8);
    assert Script.runBlock[0][..|Script.runMarker|] == Script.runMarker;
  }

  lemma ScriptBlockLacksG()
    ensures forall i :: 0 <= i < |Script.runBlock| ==> 'G' !in Script.runBlock[i]
  {
    ScriptBlockLacksG0();
    ScriptBlockLacksG1();
    ScriptBlockLacksG2();
    ScriptBlockLacksG3();
    ScriptBlockLacksG4();
    ScriptBlockLacksG5();
    ScriptBlockLacksG6();
  }

  lemma ScriptBlockLacksG0()
    ensures 'G' !in Script.runBlock[0]
  {
  }

  lemma ScriptBlockLacksG1()
    ensures 'G' !in Script.runBlock[1]
  {
  }

  lemma ScriptBlockLacksG2()
    ensures 'G' !in Script.runBlock[2]
  {
  }

  lemma ScriptBlockLacksG3()
    ensures forall i :: 3 <= i < 5 ==> 'G' !in Script.runBlock[i]
  {
    assert 'G' !in Script.runBlock[3];
    assert 'G' !in Script.runBlock[4];
  }

  lemma ScriptBlockLacksG4()
    ensures forall i :: 5 <= i < 7 ==> 'G' !in Script.runBlock[i]
  {
    assert 'G' !in Script.runBlock[5];
    assert 'G' !in Script.runBlock[6];
  }

  lemma ScriptBlockLacksG5()
    ensures forall i :: 7 <= i < 9 ==> 'G' !in Script.runBlock[i]
  {
    assert 'G' !in Script.runBlock[7];
    assert 'G' !in Script.runBlock[8];
  }

  lemma ScriptBlockLacksG6()
    ensures 'G' !in Script.runBlock[9]
  {
  }

  /** The script's own patch is idempotent. */
  lemma ScriptPatchIdempotent(lines: seq<string>)
    ensures Patch(Script, Patch(Script, lines)) == Patch(Script, lines)
  {
    ScriptValid();
    PatchIdempotent(Script, lines);
  }

  // ---------------------------------------------------------------- the script

  /** The script's `for i, line in enumerate(lines)` searches that stop at the first hit. */
  method FindFirst(lines: seq<string>, P: string -> bool) returns (index: int)
    ensures index == FirstIndex(lines, P)
  {
    index := -1;
    var i := 0;
    while i < |lines|
      invariant 0 <= i <= |lines|
      invariant forall j :: 0 <= j < i ==> !P(lines[j])
    {
      if P(lines[i]) {
        index := i;
        break;
      }
      i := i + 1;
    }
    FirstIndexIs(lines, P, index);
  }

  /** The search for the last import line, which runs over the whole list. */
  method FindLast(lines: seq<string>, P: string -> bool) returns (index: int)
    ensures index == LastIndex(lines, P)
  {
    index := -1;
    for i := 0 to |lines|
      invariant -1 <= index < i
      invariant index >= 0 ==> P(lines[index])
      invariant forall j :: index < j < i ==> !P(lines[j])
    {
      if P(lines[i]) {
        index := i;
      }
    }
    LastIndexIs(lines, P, index);
  }

  /** The scan below the commit line for the first non-blank line indented no deeper. */
  method FindBlockEnd(lines: seq<string>, from: nat, indent: nat) returns (end: nat)
    requires from <= |lines|
    ensures end == BlockEnd(lines, from, indent)
  {
    var k := from;
    while k < |lines|
      invariant from <= k <= |lines|
      invariant forall j :: from <= j < k ==> !EndsBlock(lines[j], indent)
    {
      var line := lines[k];
      if Strip(line) != [] {
        var currentIndent := |line| - |LStrip(line)|;
        assert currentIndent == Indent(line);
        if currentIndent <= indent {
          assert EndsBlock(lines[k], indent);
          BlockEndIs(lines, from, indent, k);
          return k;
        }
      }
      assert forall j :: from <= j < k + 1 ==> !EndsBlock(lines[j], indent) by {
        assert !EndsBlock(lines[k], indent);
      }
      k := k + 1;
    }
    BlockEndIs(lines, from, indent, |lines|);
    return |lines|;
  }

  /** Step 2 as the script performs it. */
  method AddImport(t: Texts, lines: seq<string>) returns (r: seq<string>)
    ensures r == ImportStep(t, lines)
  {
    r := lines;
    var importExists := AnyContains(r, t.importText);
    if !importExists {
      var classDefIndex := FindFirst(r, IsClassLine);
      if classDefIndex != -1 {
        r := Insert(r, classDefIndex, t.importText + "\n" + "\n");
      } else {
        var lastImportIndex := FindLast(r, IsImportLine);
        r := Insert(r, lastImportIndex + 1, t.importText + "\n");
      }
    }
  }

  /** Step 3 as the script performs it; the comma edit and the insertion are one
      update of the local list. */
  method AddExecutor(t: Texts, lines: seq<string>) returns (r: seq<string>)
    ensures r == ExecutorStep(t, lines)
  {
    r := lines;
    var agentAdded := AnyContains(r, t.executorKey);
    if !agentAdded {
      var i := FindFirst(r, HasText(t.registryAnchor));
      if i != -1 {
        var line := r[i];
        var edited := line;
        if !EndsWith(Strip(line), ",") {
          edited := RemoveChar(RStrip(line), '\n') + ",\n";
        }
        r := r[..i] + [edited, t.executorEntry] + r[i + 1..];
        assert r == AddEntryAt(lines, i, t.executorEntry) by {
          assert edited == WithComma(lines[i]);
        }
      }
      assert ExecutorStep(t, lines) == AddEntryAt(lines, i, t.executorEntry);
    }
  }

  /** Step 4 as the script performs it. */
  method AddRunBlock(t: Texts, lines: seq<string>) returns (r: seq<string>)
    ensures r == RunStep(t, lines)
  {
    r := lines;
    var runBlockExists := AnyContains(r, t.runMarker);
    if !runBlockExists {
      var commitBlockStartIndex := FindFirst(r, StrippedHasText(t.commitAnchor));
      if commitBlockStartIndex != -1 {
        var line := r[commitBlockStartIndex];
        var commitBlockIndent := |line| - |LStrip(line)|;
        var commitBlockEndIndex := FindBlockEnd(r, commitBlockStartIndex + 1, commitBlockIndent);
        var indentedRunBlock := Indented(t.runBlock, commitBlockIndent);
        r := r[..commitBlockEndIndex] + indentedRunBlock + r[commitBlockEndIndex..];
      }
    }
  }

  /** `apply_patch`: nothing is read or written when the file is missing; otherwise
      the lines written back are the three steps applied in order. */
  method ApplyPatch(fileExists: bool, contents: seq<string>) returns (written: Option<seq<string>>)
    ensures !fileExists ==> written == None
    ensures fileExists ==> written == Some(Patch(Script, contents))
  {
    if !fileExists {
      return None;
    }
    var lines := contents;
    lines := AddImport(Script, lines);
    lines := AddExecutor(Script, lines);
    lines := AddRunBlock(Script, lines);
    return Some(lines);
  }
}
