/**
 * `audit_code` of the workspace copy of `AuditorAgent`: two substring checks on a code
 * snippet, each logging a note, between a start and an end marker.
 */
module WorkspaceAuditor {
  import opened Text

  const Start := "--- Starting code audit ---"
  const TodoNote := "Found 'TODO' comment. " + "This might indicate incomplete work."
  const PassNote := "Found 'pass' statement. " + "Ensure this is intentional."
  const Finish := "--- Code audit finished ---"
  const Done := "Audit complete. Issues logged."

  /** The lines `audit_code` logs, in order, and the value it returns. */
  datatype Audit = Audit(log: seq<string>, result: string)

  function AuditCode(snippet: string): (a: Audit)
    ensures a.result == Done
    ensures 2 <= |a.log| <= 4 && a.log[0] == Start && a.log[|a.log| - 1] == Finish
  {
    Audit([Start]
            + (if Contains(snippet, "TODO") then [TodoNote] else [])
            + (if Contains(snippet, "pass") then [PassNote] else [])
            + [Finish],
          Done)
  }

  /** The four lines differ from each other. */
  lemma LinesApart()
    ensures TodoNote !in [Start, PassNote, Finish]
    ensures PassNote !in [Start, TodoNote, Finish]
  {
    assert TodoNote[0] == 'F' && PassNote[0] == 'F' && Start[0] == '-' && Finish[0] == '-';
    assert TodoNote[7] == 'T' && PassNote[7] == 'p';
  }

  /** The TODO note is logged exactly when `TODO` (in capitals) is in the snippet, and
      the pass note exactly when `pass` is; when both are, the TODO note comes first. */
  lemma NotesExactlyWhenFound(snippet: string)
    ensures var log := AuditCode(snippet).log;
      && (TodoNote in log <==> Contains(snippet, "TODO"))
      && (PassNote in log <==> Contains(snippet, "pass"))
      && (Contains(snippet, "TODO") && Contains(snippet, "pass") ==> log == [Start, TodoNote, PassNote, Finish])
  {
    LinesApart();
  }

  /** `pass` is found inside other words: a line assigning a password gets the note. */
  lemma PasswordGetsPassNote()
    ensures PassNote in AuditCode("password = 1").log
  {
    assert OccursAt("password = 1", "pass", 0);
    assert AuditCode("password = 1").log[|AuditCode("password = 1").log| - 2] == PassNote;
  }

  /** The check is case-sensitive: a lower-case `todo` gets no note. */
  lemma LowerCaseTodoUnnoticed()
    ensures TodoNote !in AuditCode("# todo").log
  {
    assert "TODO"[0] == 'T';
    MissingCharExcludes("# todo", "TODO", 'T');
    LinesApart();
  }
}
