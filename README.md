# AGENTES_AUTONOMOS_DEV — the deterministic core, in Dafny

AGENTES_AUTONOMOS_DEV is a small multi-agent development assistant written in Python:
- an orchestrator shell takes commands from the user;
- language-model "cognitive" agents write code, plans and patches into `workspace/`;
- "functional" agents check commands, compile scripts, audit the tree and keep a project map.

This project models the parts of that system that are plain string and list
transformations, and proves what they compute. Those parts are:

- **`SecurityAgent`** (`security_agent.dfy`): the case-insensitive, first-match safety check of a shell command against the fixed list of destructive patterns.
- **`PatchOrchestrator`** (`patch_orchestrator.dfy`): the `apply_patch` script. It edits the lines of `src/core/orchestrator.py` to add:
  - the `ExecutionAgent` import;
  - an `"executor"` registry entry;
  - an indented `elif command == "run":` block after the commit block.

  Step functions (`ImportStep`, `ExecutorStep`, `RunStep`, `Patch`) say what each step produces. The methods (`AddImport`, `AddExecutor`, `AddRunBlock`, `ApplyPatch`) do the same edits with the script's loops and index variables, and are proved equal to them. The step lemmas give each insertion point exactly. The patch is proved idempotent.
- **`Orchestrator`** (`orchestrator.dfy`): the line handling of `interactive_shell`.
  - Parsing: `split()`, lower-casing the first word, `" ".join` of the rest, `strip('"')`.
  - Dispatch: `exit`, `commit`, unknown commands.
  - Interrupts and other exceptions.
  - The Git agent is an oracle. `InteractiveShell` runs the loop over a sequence of prompt events and is proved equal to `Session`.
- **`Llm`** (`llm.dfy`): what the cognitive agents share:
  - the `"Erro:"` reply that `think` returns on failure and the gate the agents put in front of a reply;
  - the segment between the first two code fences;
  - dropping a segment's first line.
- **`BackendAgent`, `FrontendAgent`, `ArchitectAgent`, `PromptEngineerAgent`**: the agents' reply cleaning (each one's own language-tag rule) and what they then write or return. `PromptEngineerAgent` also covers the two prompt templates.
- **`CompilerAgent`** (`compiler_agent.dfy`):
  - the PyInstaller output name and command;
  - the expected executable path;
  - the effects of `run`: what is printed and the one command handed to the executor.
- **`AuditorAgent`** (`auditor_agent.dfy`):
  - `_list_files` over an abstract directory tree, skipping `__pycache__` and `.venv`;
  - the timestamped report file name;
  - the report text.
- **`LibrarianAgent`** (`librarian_agent.dfy`): the text `generate_project_map` writes, given an `isdir` oracle.
- **`WorkspaceAuditor`** (`workspace_auditor.dfy`): `audit_code` of the workspace copy of the auditor.
- **`Text`** (`text.dfy`): the Python `str` operations the code relies on, with their laws. These are `strip`/`lstrip`/`rstrip` (also with a character argument), `lower`, `split(sep)`, `split()`, `join`, `replace` and `in`. For example, `Text.JoinSplit` proves `join(sep, s.split(sep)) == s`.

The language model, the file system, the clock and subprocesses are parameters:
- `think`'s reply is a string argument;
- whether a write succeeds, whether a path exists and whether it is a directory are a boolean or a predicate;
- the directory tree is a datatype;
- `datetime.now()` is a `DateTime` value;
- `json.loads` is a function from text to an optional result;
- the Git agent's answer is carried by each typed line.

The system's design also describes a plan queue, a plan executor, a project manifest and a
path sandbox. The source files modelled here contain none of them, so the model follows
the code and leaves those components out. It also keeps these behaviours of the code as written:
- The frontend agent compares the stripped, lower-cased first line of the fenced block against `html`, `css`, `javascript` and `js`.
- The prompt engineer deletes every `json` in the block, not only a leading tag. `PromptEngineerAgent.JsonDeletionSinglePass` shows that a single pass of `replace` can leave a `json` behind.
- `GitAgent.run` returns `None` on every path, so the shell never reports a successful commit.

## Model

| member | source | states |
|---|---|---|
| SecurityAgent.FirstMatch | src/agents/security_agent.py:35-39 | the first pattern index with a match, no earlier pattern matching, or the list length when none matches |
| SecurityAgent.FirstMatchIs | src/agents/security_agent.py:35-39 | an index with a match and no earlier match is the one the search returns |
| SecurityAgent.Verdict | src/agents/security_agent.py:41-42 | a safe verdict always carries the reason "Comando parece seguro." |
| SecurityAgent.VerdictMeaning | src/agents/security_agent.py:33-39 | a command needs confirmation exactly when some pattern occurs in its lower-cased, stripped form; the reason then names the first such pattern in list order |
| SecurityAgent.AnalyzeCommand | src/agents/security_agent.py:25-42 | the loop with early return yields exactly the verdict above |
| SecurityAgent.CaseInsensitive | src/agents/security_agent.py:33 | commands that differ only in letter case get the same verdict |
| SecurityAgent.ForceDeleteNeedsConfirmation | src/agents/security_agent.py:15-39 | a command containing `rm -rf` always needs confirmation, with `rm -rf` as the reason |
| SecurityAgent.GitAddIsFlagged | src/agents/security_agent.py:19-39 | `git add .` needs confirmation because it contains `dd ` |
| SecurityAgent.ListingIsSafe | src/agents/security_agent.py:33-42 | `LS -LA` matches no pattern and is safe |
| PatchOrchestrator.FirstIndex | temp_patch_orchestrator.py:17-21 | the first line satisfying the test, none before it, or -1 when no line does |
| PatchOrchestrator.FirstIndexIs | temp_patch_orchestrator.py:17-21 | an index with those properties is the one the search yields |
| PatchOrchestrator.LastIndex | temp_patch_orchestrator.py:26-29 | the last line satisfying the test, none after it, or -1 |
| PatchOrchestrator.LastIndexIs | temp_patch_orchestrator.py:26-29 | an index with those properties is the one the backward search yields |
| PatchOrchestrator.Indent | temp_patch_orchestrator.py:52 | the width of the leading whitespace: all whitespace before it, none at it |
| PatchOrchestrator.BlockEnd | temp_patch_orchestrator.py:56-66 | the first later non-blank line indented no deeper than the anchor, or the number of lines when there is none |
| PatchOrchestrator.BlockEndIs | temp_patch_orchestrator.py:56-66 | an index with those properties is the block end |
| PatchOrchestrator.Indented | temp_patch_orchestrator.py:82 | each run-block line prefixed with exactly the anchor's indentation in spaces, order kept |
| PatchOrchestrator.ImportBeforeClass | temp_patch_orchestrator.py:14-23 | with the import absent, the import line plus an extra newline is inserted right before the first `class Orchestrator` line and nothing else changes |
| PatchOrchestrator.ImportAfterLastImport | temp_patch_orchestrator.py:24-30 | with no class line, the bare import line goes right after the last `import`/`from` line, or first when there is none |
| PatchOrchestrator.ImportAtAdds | temp_patch_orchestrator.py:22-30 | whichever branch inserts, the import text is then present |
| PatchOrchestrator.ImportStepAdds | temp_patch_orchestrator.py:14-30 | after the import step the import text is always present, so the guard of a second run holds |
| PatchOrchestrator.ExecutorAfterRegistry | temp_patch_orchestrator.py:33-42 | with no `"executor":` line, only the first registry line is edited (comma ensured) and the entry is inserted directly after it |
| PatchOrchestrator.MissingAnchorsChangeNothing | temp_patch_orchestrator.py:33-66 | without a registry line the executor step changes nothing; without a commit line the run step changes nothing |
| PatchOrchestrator.RunBlockAtBlockEnd | temp_patch_orchestrator.py:45-84 | with the run block absent, the indented block is spliced in at the end of the first commit block, the other lines kept in order |
| PatchOrchestrator.AnyContainsInsert | temp_patch_orchestrator.py:23-84 | inserting lines keeps every text already present |
| PatchOrchestrator.WithCommaKeeps | temp_patch_orchestrator.py:38-39 | the comma edit keeps any text that does not end in whitespace |
| PatchOrchestrator.ExecutorStepKeeps | temp_patch_orchestrator.py:33-42 | the executor step keeps every such text present, including the import |
| PatchOrchestrator.RunStepKeeps | temp_patch_orchestrator.py:45-84 | the run step keeps every text present |
| PatchOrchestrator.ExecutorStepSettles | temp_patch_orchestrator.py:33-41 | after the executor step, either the entry is present or no registry line exists |
| PatchOrchestrator.SettledExecutorStepFixes | temp_patch_orchestrator.py:33-42 | in that settled state the executor step changes nothing |
| PatchOrchestrator.RunStepKeepsSettled | temp_patch_orchestrator.py:45-84 | the run step keeps that state, because no run-block line holds the registry anchor |
| PatchOrchestrator.RunStepMarks | temp_patch_orchestrator.py:45-84 | the run step either changes nothing or leaves the `elif command == "run":` marker present |
| PatchOrchestrator.RunStepIdempotent | temp_patch_orchestrator.py:45-84 | a second run step changes nothing |
| PatchOrchestrator.PatchIdempotent | temp_patch_orchestrator.py:13-84 | for texts whose insertions contain their own guards, applying the patch twice equals applying it once |
| PatchOrchestrator.ScriptValid | temp_patch_orchestrator.py:14-79 | the script's own texts meet those conditions |
| PatchOrchestrator.ScriptPatchIdempotent | temp_patch_orchestrator.py:13-84 | applying the script a second time inserts nothing |
| PatchOrchestrator.FindFirst | temp_patch_orchestrator.py:17-21 | the loop with `break` finds the first matching line |
| PatchOrchestrator.FindLast | temp_patch_orchestrator.py:26-29 | the loop that keeps overwriting the index finds the last matching line |
| PatchOrchestrator.FindBlockEnd | temp_patch_orchestrator.py:56-66 | the loop over the lines after the anchor finds the block end |
| PatchOrchestrator.AddImport | temp_patch_orchestrator.py:13-30 | the import step performed with the script's searches and `insert` |
| PatchOrchestrator.AddExecutor | temp_patch_orchestrator.py:32-42 | the executor step performed with the script's loop, index assignment and `insert` |
| PatchOrchestrator.AddRunBlock | temp_patch_orchestrator.py:44-84 | the run-block step performed with the script's loops and slice assignment |
| PatchOrchestrator.ApplyPatch | temp_patch_orchestrator.py:5-88 | a missing file is neither read nor written; otherwise the written lines are the three steps applied in order |
| Orchestrator.Parse | src/core/orchestrator.py:39-45 | a line is blank exactly when it strips to nothing; an unknown command is never `exit` or `commit` |
| Orchestrator.Interpret | src/core/orchestrator.py:47-71 | dispatch never yields a blank command, and an unknown name is neither `exit` nor `commit` |
| Orchestrator.ParseBlank | src/core/orchestrator.py:39-40 | empty or whitespace-only input is skipped |
| Orchestrator.ParseSeesLoweredWords | src/core/orchestrator.py:42-45 | a line is read only through its words, with the first lower-cased, so extra whitespace and the command's case do not matter |
| Orchestrator.ExitInAnyCase | src/core/orchestrator.py:43-49 | `exit` in any letter case ends the loop, whatever arguments follow |
| Orchestrator.CommitWithoutMessage | src/core/orchestrator.py:52-55 | `commit` without arguments is the usage error |
| Orchestrator.CommitMessageCollapsesSpaces | src/core/orchestrator.py:42-58 | the commit message is the re-joined words with surrounding quotes removed |
| Orchestrator.CommitMessageTrimmed | src/core/orchestrator.py:58 | the commit message is the argument string with exactly its leading and trailing `"` runs removed |
| Orchestrator.GitReportSucceeds | src/core/orchestrator.py:62-66 | the success message is printed exactly when the Git agent returns something truthy |
| Orchestrator.StepStops | src/core/orchestrator.py:36-77 | only `exit` and a keyboard interrupt end the loop, the interrupt coming at the prompt or during the Git agent's run; other exceptions are printed and the loop goes on |
| Orchestrator.StepRunsGit | src/core/orchestrator.py:52-62 | the Git agent is called, with the parsed message, exactly for a commit that has a message |
| Orchestrator.RespondRunsGit | src/core/orchestrator.py:47-71 | of all parsed commands, only a commit with a message calls the Git agent |
| Orchestrator.InteractiveShell | src/core/orchestrator.py:33-77 | the loop prints the two banner lines, then the effects of each prompt up to and including the one that ends it |
| Orchestrator.SessionEndsAtStop | src/core/orchestrator.py:36-49 | prompts after the one that ends the loop have no effect |
| Orchestrator.SessionContinues | src/core/orchestrator.py:36-77 | a prompt that does not end the loop contributes its effects and the loop goes on with the next one |
| Orchestrator.NoSuccessInRespond | src/core/orchestrator.py:47-71 | without a truthy Git answer no command prints the success message |
| Orchestrator.NoSuccessInStep | src/core/orchestrator.py:36-77 | the same for every kind of prompt event |
| Orchestrator.NoSuccessWithoutTruthy | src/core/orchestrator.py:62-66 | if the Git agent never answers truthily, a session never prints the success message |
| Orchestrator.CommitNeverReportedSuccessful | src/agents/git_agent.py:29-51 | as `GitAgent.run` returns `None` on every path, the shell never reports a successful commit |
| Orchestrator.ShellValid | src/core/orchestrator.py:33-77 | the shell's own messages keep the success message apart from every other line it prints |
| Llm.FailureReply | src/core/base_agent.py:38-42 | the reply `think` returns on failure never passes the agents' gate |
| Llm.FencedBlock | src/agents/backend_agent.py:37-40 | the segment after the first fence, running up to the next fence or the end |
| Llm.FencedUnique | src/agents/backend_agent.py:37-40 | that segment is determined uniquely |
| Llm.DropFirstLine | src/agents/backend_agent.py:42 | `'\n'.join(s.split('\n')[1:])`: empty without a newline, otherwise everything after the first newline |
| Llm.FirstLineUnique | src/agents/backend_agent.py:42 | the first newline is determined uniquely |
| BackendAgent.CleanCode | src/agents/backend_agent.py:36-45 | a reply without a fence is kept as is; with one, the result has no surrounding whitespace |
| BackendAgent.CleanCodeFenced | src/agents/backend_agent.py:37-45 | with a fence, the code is the first fenced segment, minus its first line when it starts with `py` in any case, then stripped |
| BackendAgent.PythonTagIsPyTag | src/agents/backend_agent.py:41 | testing for `python` or `py` is the same as testing for `py` |
| BackendAgent.WriteCode | src/agents/backend_agent.py:34-61 | the result is true exactly when the reply passes the gate, the path has a folder part (`makedirs("")` raises otherwise) and the write succeeds; a rejected reply or a bare file name writes nothing; otherwise the cleaned code goes to the given path |
| BackendAgent.FailedThinkWritesNothing | src/agents/backend_agent.py:59-61 | a failed `think` writes nothing and returns false |
| FrontendAgent.CleanMarkup | src/agents/frontend_agent.py:35-45 | a reply without a fence is kept as is; with one, the result has no surrounding whitespace |
| FrontendAgent.CleanMarkupFenced | src/agents/frontend_agent.py:37-45 | the first line of the fenced segment is dropped exactly when, stripped and lower-cased, it is `html`, `css`, `javascript` or `js`; otherwise the segment is kept whole; then stripped |
| FrontendAgent.WriteCode | src/agents/frontend_agent.py:33-61 | true exactly when the reply passes the gate, the path has a folder part (`makedirs("")` raises otherwise) and the write succeeds; a rejected reply or a bare file name writes nothing; otherwise the cleaned markup goes to the given path |
| FrontendAgent.FailedThinkWritesNothing | src/agents/frontend_agent.py:59-61 | a failed `think` writes nothing and returns false |
| ArchitectAgent.PlanCreation | src/agents/architect_agent.py:26-36 | a usable reply is written unchanged to `workspace/plan.md`; any other reply raises the creation failure |
| ArchitectAgent.CleanPatch | src/agents/architect_agent.py:48-55 | a reply without a fence is kept as is; with one, the result has no surrounding whitespace |
| ArchitectAgent.CleanPatchFenced | src/agents/architect_agent.py:48-55 | the patch is the first fenced segment, minus its first line when it starts with `diff` or `patch` in any case, then stripped |
| ArchitectAgent.PlanModification | src/agents/architect_agent.py:38-61 | a usable reply's cleaned patch goes to `workspace/modification.patch` whatever the file path; any other reply raises |
| ArchitectAgent.FailedThinkRaises | src/agents/architect_agent.py:32-61 | a failed `think` makes both operations raise without writing |
| PromptEngineerAgent.IntentText | src/agents/prompt_engineer_agent.py:63-66 | a reply without a fence goes to the parser unchanged; with one, the text has no surrounding whitespace |
| PromptEngineerAgent.IntentTextFenced | src/agents/prompt_engineer_agent.py:62-69 | a fenced reply always splits into at least two parts, so the `IndexError` branch is unreachable; the text is the first fenced segment, stripped, when it holds no `json` |
| PromptEngineerAgent.JsonDeletionSinglePass | src/agents/prompt_engineer_agent.py:64 | every `json` is deleted in a single pass, so `jsjsonon` becomes `json` |
| PromptEngineerAgent.AnalyzeUserIntent | src/agents/prompt_engineer_agent.py:60-69 | a parse failure gives the UNKNOWN intent with no parameters; otherwise the parsed object is returned |
| PromptEngineerAgent.SentinelGivesUnknown | src/agents/prompt_engineer_agent.py:60-69 | a failed `think` gives the UNKNOWN intent |
| PromptEngineerAgent.UnlistedIntentReturned | src/agents/prompt_engineer_agent.py:62-66 | an intent outside the seven listed is returned unchecked |
| PromptEngineerAgent.CreationPrompt | src/agents/prompt_engineer_agent.py:71-81 | the creation template holds the description verbatim between its fixed head and tail |
| PromptEngineerAgent.CreationPromptInjective | src/agents/prompt_engineer_agent.py:74-80 | different descriptions give different prompts |
| PromptEngineerAgent.ModificationPrompt | src/agents/prompt_engineer_agent.py:83-112 | the modification template holds the path, the code and the description verbatim, each at its fixed place |
| CompilerAgent.BaseName | src/agents/compiler_agent.py:49 | the part of the path after its last `/` |
| CompilerAgent.StemRemovesLastExtension | src/agents/compiler_agent.py:49 | `splitext` removes the last extension, and only when the part before it is not all dots |
| CompilerAgent.OutputName | src/agents/compiler_agent.py:49-50 | the executable name ends in `_app` and holds no `/` |
| CompilerAgent.CompileCommand | src/agents/compiler_agent.py:53-59 | the PyInstaller command holds the output name and the script path at their fixed places between its fixed texts |
| CompilerAgent.FinalPath | src/agents/compiler_agent.py:67 | the expected executable is the output name under `workspace/dist` |
| CompilerAgent.Run | src/agents/compiler_agent.py:44-47 | a missing script only prints the error |
| CompilerAgent.ExecutorCalledOnce | src/agents/compiler_agent.py:44-65 | the executor is handed exactly the compile command once when the script exists, and nothing otherwise |
| CompilerAgent.SuccessExactlyWhenBuilt | src/agents/compiler_agent.py:67-71 | success is reported exactly when the executable exists afterwards |
| AuditorAgent.Walk | src/agents/auditor_agent.py:24-38 | the walk appends exactly the listing of a tree to what was listed before |
| AuditorAgent.ListFiles | src/agents/auditor_agent.py:24-38 | `_list_files` returns exactly the listing of the tree |
| AuditorAgent.FilesAppend | src/agents/auditor_agent.py:34-37 | the files of two runs of entries are listed in order |
| AuditorAgent.DescendAppend | src/agents/auditor_agent.py:27-32 | the kept subdirectories of two runs of entries are walked in order |
| AuditorAgent.PrunedContentsIgnored | src/agents/auditor_agent.py:29-32 | whatever a `__pycache__` or `.venv` directory holds, the listing is the same |
| AuditorAgent.FileListed | src/agents/auditor_agent.py:34-37 | every file directly under the start path is listed |
| AuditorAgent.KeptDirectoryListed | src/agents/auditor_agent.py:27-37 | everything listed under a kept subdirectory is listed |
| AuditorAgent.Digits | src/agents/auditor_agent.py:51 | a zero-padded field of the given width, all decimal digits |
| AuditorAgent.DigitsValue | src/agents/auditor_agent.py:51 | reading a padded field back gives the number |
| AuditorAgent.Stamp | src/agents/auditor_agent.py:51 | the `%Y%m%d_%H%M%S` stamp has 15 characters with `_` in the middle |
| AuditorAgent.StampFields | src/agents/auditor_agent.py:51 | each field of the stamp reads back as the corresponding part of the time |
| AuditorAgent.Readable | src/agents/auditor_agent.py:60 | the `%Y-%m-%d %H:%M:%S` title stamp has 19 characters |
| AuditorAgent.ReadableFields | src/agents/auditor_agent.py:60 | each field of the title stamp reads back as the corresponding part of the time, with `-`, ` ` and `:` at their places |
| AuditorAgent.ReportPath | src/agents/auditor_agent.py:51-53 | the report path is `logs/audit_log_<stamp>.txt` |
| AuditorAgent.ReportPathInjective | src/agents/auditor_agent.py:51-53 | different times give different report files |
| AuditorAgent.Repeat | src/agents/auditor_agent.py:61 | `"="*40` and the dashed rules: that character, that many times |
| AuditorAgent.Dashed | src/agents/auditor_agent.py:66 | one `- <path>` line per file, in order |
| AuditorAgent.Bullets | src/agents/auditor_agent.py:65-68 | the "Nenhum arquivo encontrado." text appears exactly when the list is empty |
| AuditorAgent.BulletsOneLinePerFile | src/agents/auditor_agent.py:66 | a non-empty list splits back into exactly one `- <path>` line per file |
| AuditorAgent.AuditReport | src/agents/auditor_agent.py:60-75 | the repeated `+=` builds exactly the report text |
| AuditorAgent.ReportLayout | src/agents/auditor_agent.py:60-75 | the report opens with the timestamped title and 40 `=`; the agents' list comes before the workspace heading, and the workspace list ends the report |
| AuditorAgent.AuditOnce | src/agents/auditor_agent.py:49-81 | one pass writes the report of both listings to the timestamped path |
| LibrarianAgent.WriteMap | src/agents/librarian_agent.py:36-44 | the successive writes produce exactly the project map |
| LibrarianAgent.GenerateProjectMap | src/agents/librarian_agent.py:19-48 | the map goes to `workspace/project_map.md`; a file that cannot be opened gets nothing, and the failure does not reach the caller |
| LibrarianAgent.SectionsStep | src/agents/librarian_agent.py:40-44 | each entry adds its own section after those of the entries before it |
| LibrarianAgent.SectionsPrefix | src/agents/librarian_agent.py:40-44 | the sections written so far are a prefix of the final text |
| LibrarianAgent.ProjectMapLayout | src/agents/librarian_agent.py:26-44 | the map opens with the title and introduction, then holds one section per entry in order, each right after the previous one, and nothing after the last |
| LibrarianAgent.SectionStatus | src/agents/librarian_agent.py:41-43 | a section reports "✅ Encontrado" exactly when the path is a directory |
| WorkspaceAuditor.AuditCode | workspace/src/agents/auditor_agent.py:10-23 | always returns "Audit complete. Issues logged."; the log opens with the start marker and closes with the end marker |
| WorkspaceAuditor.NotesExactlyWhenFound | workspace/src/agents/auditor_agent.py:14-22 | the TODO note is logged exactly when `TODO` occurs, the pass note exactly when `pass` occurs, in that order between the markers |
| WorkspaceAuditor.PasswordGetsPassNote | workspace/src/agents/auditor_agent.py:19-20 | `pass` is found inside `password` |
| WorkspaceAuditor.LowerCaseTodoUnnoticed | workspace/src/agents/auditor_agent.py:16-17 | the TODO test is case-sensitive |
| Text.JoinSplit | src/agents/frontend_agent.py:40-44 | joining the pieces of a split with the separator gives back the string, so an untagged fenced block is kept whole |
| Text.SplitCountsOccurrence | src/agents/backend_agent.py:37-39 | the separator occurs in the string exactly when the split has more than one piece |
| Text.StripCharMiddle | src/core/orchestrator.py:58 | `strip(c)` removes exactly the leading and trailing runs of `c` |
| Text.ReplaceAbsent | src/agents/prompt_engineer_agent.py:64 | `replace` leaves a string without the pattern unchanged |

## Left out

- The language-model transport (`google.generativeai`, the API key, the chat) is not modelled. `think` is a reply string given as an argument; `FailureReply` is the text it returns when the chat call raises.
- Real files, directories, clocks and subprocesses are not modelled:
  - `open`/`write`, `makedirs`, `os.path.exists`, `os.path.isdir`, `os.walk` and `datetime.now()` become arguments;
  - a write either succeeds completely or fails, so partial writes are not modelled;
  - `write_to_workspace` swallows its own errors, which is modelled as always writing.
- Logging calls and the interleaving of log and `print` output are not modelled.
- The polling loops and sleeps are timing and concurrency and are not modelled. These are `AuditorAgent.run` (src/agents/auditor_agent.py:47-91) and `LibrarianAgent.run` (src/agents/librarian_agent.py:51-65). `AuditOnce` is one pass of the former. The error branch and sleep at src/agents/auditor_agent.py:89-91 are left out.
- The PyInstaller check in the compiler's constructor (src/agents/compiler_agent.py:26-35) is left out. So are the execution, Git and patcher agents, which are thin wrappers over subprocesses. The Git agent's answer is an oracle in `Orchestrator`; `ExecutionAgent.run` is recorded as an `Execute` effect.
- `apply_patch` mutates one Python list in place (`insert`, index and slice assignment). The methods instead reassign a local sequence with the same contents, so aliasing of that list is not captured. The file is read as given lines and written as the result. `FILE_PATH` is a constant (its line 3 is not valid Python). The closing message is not modelled.
- `lower()` is modelled for ASCII letters only; other characters are unchanged. The whitespace set is that of `str.isspace`.
- `os.path.join` and `os.path.relpath` are modelled as `root + "/" + name`. Path normalisation (`./`, `..`, repeated slashes) is not modelled. `CompilerAgent.BaseName` and the folder test of `write_code` (`Llm.HasFolder`) split on `/` only, as POSIX paths do; Windows `\` separators are not modelled. `os.walk`'s order is the order of the entries in the tree.
- `AuditorAgent.FileListed`: states that each file is listed, not that it is listed only once; names within a directory are taken as distinct.
- `AuditorAgent.Stamp`: always pads the year to four digits, whereas some platforms' `strftime` does not pad years below 1000.
- `AuditorAgent.AuditOnce`: the `logs` directory creation and the final console line are not modelled.
- `json.loads` is a function from text to an optional parsed result, and only the `JSONDecodeError` failure is modelled; the `IndexError` one is proved unreachable.
- `PromptEngineerAgent.AnalyzeUserIntent`: a parsed result is an `Analysis` holding a string intent and string-valued parameters. `analyze_user_intent` returns whatever `json.loads` yields, and the model cannot represent the other cases: a list, a number, a string or `null` at the top level; an object without `"intent"` or `"params"`; a non-string intent; or parameters whose values are numbers, lists or nested objects.
- `CompilerAgent.Run`: its own ensures covers only the missing-script case. The existing-script case is stated by `ExecutorCalledOnce` and `SuccessExactlyWhenBuilt`.
- The shell's fixed texts are a `Messages` record and the patch's texts a `Texts` record. The source's own are `Orchestrator.Shell` and `PatchOrchestrator.Script`, which are proved to meet their records' `Valid` conditions.
- `Orchestrator.execute_task` and `__init__` only print or build the agent table. They are not modelled.
- The `len(parts) > 1` tests after a fence check always hold (`IntentTextFenced`, `Text.SplitCountsOccurrence`), so their else-paths are not modelled.
