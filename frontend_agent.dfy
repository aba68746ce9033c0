/**
 * `FrontendAgent.write_code`: ask the model for HTML, CSS or JavaScript, cut the code
 * out of a fenced reply, drop a language tag line, and write the result to the file.
 */
module FrontendAgent {
  import opened Text
  import opened Llm

  const Tags: seq<string> := ["html", "css", "javascript", "js"]

  /** `first_line.lower().strip() in ['html', 'css', 'javascript', 'js']` */
  predicate TagLine(line: string) {
    Strip(Lower(line)) in Tags
  }

  /** The cleaning applied to a usable reply before it is written: the fenced block is
      split into its first line and the rest, and re-joined with or without that line. */
  function CleanMarkup(reply: string): (code: string)
    ensures !Contains(reply, Fence) ==> code == reply
    ensures Contains(reply, Fence) ==> code == [] || (!IsSpace(code[0]) && !IsSpace(code[|code| - 1]))
  {
    if Contains(reply, Fence) then
      var block := FencedBlock(reply);
      var lines := Split(block, "\n");
      var first := lines[0];
      var rest := lines[1..];
      Strip(if TagLine(first) then Join("\n", rest) else Join("\n", [first] + rest))
    else reply
  }

  /** `write_code(file_path, ...)` given the model's `reply` and whether creating the
      folder and writing the file succeed. A path without a folder part fails before the
      file is opened: `os.makedirs("")` raises, and the handler returns `False`. */
  function WriteCode(filePath: string, reply: string, writeSucceeds: bool): (w: CodeWrite)
    ensures w.result <==> Usable(reply) && HasFolder(filePath) && writeSucceeds
    ensures !Usable(reply) || !HasFolder(filePath) ==> w.attempt == None
    ensures Usable(reply) && HasFolder(filePath) ==> w.attempt == Some(Write(filePath, CleanMarkup(reply)))
  {
    if !Usable(reply) || !HasFolder(filePath) then CodeWrite(None, false)
    else CodeWrite(Some(Write(filePath, CleanMarkup(reply))), writeSucceeds)
  }

  /** A failed model call never reaches the file. */
  lemma FailedThinkWritesNothing(filePath: string, detail: string, writeSucceeds: bool)
    ensures WriteCode(filePath, FailureReply(detail), writeSucceeds) == CodeWrite(None, false)
  {
  }

  /** With a fence, the code is the block between the first two fences, stripped:
      unchanged when its first line is not a language tag (splitting on newlines and
      joining back loses nothing), and without that first line when it is one. */
  lemma CleanMarkupFenced(reply: string)
    requires Contains(reply, Fence)
    ensures var b := FencedBlock(reply); var first := Split(b, "\n")[0];
      var code := CleanMarkup(reply);
      && FencedAt(reply, b, |Split(reply, Fence)[0]| + |Fence|)
      && StartsWith(b, first) && '\n' !in first
      && (|first| < |b| ==> FirstLineEnds(b, |first|))
      && (!TagLine(first) ==> code == Strip(b))
      && (TagLine(first) ==> code == Strip(DropFirstLine(b)))
  {
    var b := FencedBlock(reply);
    var lines := Split(b, "\n");
    SplitHead(b, "\n");
    JoinSplit(b, "\n");
    assert [lines[0]] + lines[1..] == lines;
    var first := lines[0];
    forall j | 0 <= j < |first| ensures first[j] != '\n' {
      assert !OccursAt(b, "\n", j);
    }
  }
}
