/**
 * `ArchitectAgent`: turn an optimised prompt's reply into `workspace/plan.md` (a new
 * artefact) or `workspace/modification.patch` (a change), or raise when the model failed.
 */
module ArchitectAgent {
  import opened Text
  import opened Llm

  /** How a planning call ends: it raises with a message, or it hands one write to
      `write_to_workspace` (which swallows its own errors, so the call returns normally). */
  datatype PlanOutcome = Raised(message: string) | Wrote(write: Write)

  const PlanFailure := "Arquiteto falhou em gerar um plano de criação " + "a partir do prompt otimizado."
  const PatchFailure := "Arquiteto falhou em gerar o patch " + "a partir do prompt otimizado."

  /** `plan_creation`: a usable reply is written verbatim to the plan file. */
  function PlanCreation(reply: string): (o: PlanOutcome)
    ensures o.Wrote? <==> Usable(reply)
    ensures o.Wrote? ==> o.write == Write(WorkspacePath("plan.md"), reply)
    ensures o.Raised? ==> o.message == PlanFailure
  {
    if Usable(reply) then Wrote(Write(WorkspacePath("plan.md"), reply))
    else Raised(PlanFailure)
  }

  /** `patch_content.lower().startswith(('diff', 'patch'))` */
  predicate DiffTagged(block: string) {
    StartsWith(Lower(block), "diff") || StartsWith(Lower(block), "patch")
  }

  /** The cleaning applied to a usable patch reply. Only a fenced reply is stripped. */
  function CleanPatch(reply: string): (p: string)
    ensures !Contains(reply, Fence) ==> p == reply
    ensures Contains(reply, Fence) ==> p == [] || (!IsSpace(p[0]) && !IsSpace(p[|p| - 1]))
  {
    if Contains(reply, Fence) then
      var block := FencedBlock(reply);
      Strip(if DiffTagged(block) then DropFirstLine(block) else block)
    else reply
  }

  /** `plan_modification(optimized_prompt, file_path)`: the patch always goes to the
      same file, whatever `file_path` names. */
  function PlanModification(reply: string, filePath: string): (o: PlanOutcome)
    ensures o.Wrote? <==> Usable(reply)
    ensures o.Wrote? ==> o.write == Write(WorkspacePath("modification.patch"), CleanPatch(reply))
    ensures o.Raised? ==> o.message == PatchFailure
  {
    if Usable(reply) then Wrote(Write(WorkspacePath("modification.patch"), CleanPatch(reply)))
    else Raised(PatchFailure)
  }

  /** A failed model call raises in both planning calls and writes nothing. */
  lemma FailedThinkRaises(detail: string, filePath: string)
    ensures PlanCreation(FailureReply(detail)) == Raised(PlanFailure)
    ensures PlanModification(FailureReply(detail), filePath) == Raised(PatchFailure)
  {
  }

  /** With a fence, the patch is the block between the first two fences, stripped, or,
      for a block starting with `diff` or `patch` in any case, what follows its first
      line, stripped. */
  lemma CleanPatchFenced(reply: string)
    requires Contains(reply, Fence)
    ensures var b := FencedBlock(reply); var p := CleanPatch(reply);
      && FencedAt(reply, b, |Split(reply, Fence)[0]| + |Fence|)
      && (!DiffTagged(b) ==> p == Strip(b))
      && (DiffTagged(b) && '\n' !in b ==> p == "")
      && (DiffTagged(b) ==> forall k :: FirstLineEnds(b, k) ==> p == Strip(b[k + 1..]))
  {
  }
}
