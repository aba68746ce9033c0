/**
 * `BackendAgent.write_code`: ask the model for Python code, cut the code out of a
 * fenced reply, drop a `python`/`py` tag line, and write the result to the file.
 */
module BackendAgent {
  import opened Text
  import opened Llm

  /** `code_block.lower().startswith(('python', 'py'))` */
  predicate PythonTagged(block: string) {
    StartsWith(Lower(block), "python") || StartsWith(Lower(block), "py")
  }

  /** The cleaning applied to a usable reply before it is written. */
  function CleanCode(reply: string): (code: string)
    ensures !Contains(reply, Fence) ==> code == reply
    ensures Contains(reply, Fence) ==> code == [] || (!IsSpace(code[0]) && !IsSpace(code[|code| - 1]))
  {
    if Contains(reply, Fence) then
      var block := FencedBlock(reply);
      Strip(if PythonTagged(block) then DropFirstLine(block) else block)
    else reply
  }

  /** `write_code(file_path, ...)` given the model's `reply` and whether creating the
      folder and writing the file succeed. A path without a folder part fails before the
      file is opened: `os.makedirs("")` raises, and the handler returns `False`. */
  function WriteCode(filePath: string, reply: string, writeSucceeds: bool): (w: CodeWrite)
    ensures w.result <==> Usable(reply) && HasFolder(filePath) && writeSucceeds
    ensures !Usable(reply) || !HasFolder(filePath) ==> w.attempt == None
    ensures Usable(reply) && HasFolder(filePath) ==> w.attempt == Some(Write(filePath, CleanCode(reply)))
  {
    if !Usable(reply) || !HasFolder(filePath) then CodeWrite(None, false)
    else CodeWrite(Some(Write(filePath, CleanCode(reply))), writeSucceeds)
  }

  /** A failed model call never reaches the file. */
  lemma FailedThinkWritesNothing(filePath: string, detail: string, writeSucceeds: bool)
    ensures WriteCode(filePath, FailureReply(detail), writeSucceeds) == CodeWrite(None, false)
  {
  }

  /** The `python` alternative adds nothing: every block starting with it starts with `py`. */
  lemma PythonTagIsPyTag(block: string)
    ensures PythonTagged(block) <==> StartsWith(Lower(block), "py")
  {
    if StartsWith(Lower(block), "python") {
      assert Lower(block)[..2] == Lower(block)[..6][..2];
    }
  }

  /** With a fence, the code comes only from the block between the first two fences:
      the block stripped, or, for a block whose first letters are `py` in any case,
      what follows its first line, stripped. */
  lemma CleanCodeFenced(reply: string)
    requires Contains(reply, Fence)
    ensures var b := FencedBlock(reply); var code := CleanCode(reply);
      && FencedAt(reply, b, |Split(reply, Fence)[0]| + |Fence|)
      && (!StartsWith(Lower(b), "py") ==> code == Strip(b))
      && (StartsWith(Lower(b), "py") && '\n' !in b ==> code == "")
      && (StartsWith(Lower(b), "py") ==> forall k :: FirstLineEnds(b, k) ==> code == Strip(b[k + 1..]))
  {
    var b := FencedBlock(reply);
    PythonTagIsPyTag(b);
  }
}
