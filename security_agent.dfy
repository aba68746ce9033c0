/** The command safety check of `SecurityAgent.analyze_command`: a case-insensitive,
    first-match substring test against a fixed list of destructive patterns. */
module SecurityAgent {
  import opened Text

  /** `confirmation_patterns`, in list order; the list is a constant and never changes. */
  const ConfirmationPatterns: seq<string> :=
    ["rm -rf", "sudo", "mv /", "dd ", ":(){:|:&};:", "mkfs", "> /dev/sd"]

  const SafeReason: string := "Comando parece seguro."

  datatype Status = Safe | NeedsConfirmation

  /** The returned dictionary: exactly the keys `status` and `reason`. */
  datatype Analysis = Analysis(status: Status, reason: string)

  function DangerReason(pattern: string): string {
    "Comando perigoso detectado (padrão: '" + pattern + "')."
  }

  /** `command_string.lower().strip()` */
  function Normalize(command: string): string {
    Strip(Lower(command))
  }

  /** Index of the first pattern that occurs in `text`, or `|patterns|` when none does. */
  function FirstMatch(patterns: seq<string>, text: string): (k: nat)
    ensures k <= |patterns|
    ensures forall i :: 0 <= i < k ==> !Contains(text, patterns[i])
    ensures k < |patterns| ==> Contains(text, patterns[k])
  {
    if |patterns| == 0 then 0
    else if Contains(text, patterns[0]) then 0
    else 1 + FirstMatch(patterns[1..], text)
  }

  /** The verdict `analyze_command` returns for `command`; `VerdictMeaning` states what it means. */
  function Verdict(command: string): (r: Analysis)
    ensures r.status == Safe ==> r.reason == SafeReason
  {
    var k := FirstMatch(ConfirmationPatterns, Normalize(command));
    if k < |ConfirmationPatterns| then Analysis(NeedsConfirmation, DangerReason(ConfirmationPatterns[k]))
    else Analysis(Safe, SafeReason)
  }

  /** A command needs confirmation exactly when some pattern occurs in its normalized
      form, and the reason then names the first such pattern in list order. */
  lemma VerdictMeaning(command: string)
    ensures Verdict(command).status == NeedsConfirmation <==>
      exists i :: 0 <= i < |ConfirmationPatterns| && Contains(Normalize(command), ConfirmationPatterns[i])
    ensures Verdict(command).status == NeedsConfirmation ==>
      exists k :: 0 <= k < |ConfirmationPatterns|
        && Contains(Normalize(command), ConfirmationPatterns[k])
        && (forall i :: 0 <= i < k ==> !Contains(Normalize(command), ConfirmationPatterns[i]))
        && Verdict(command).reason == DangerReason(ConfirmationPatterns[k])
  {
    var k := FirstMatch(ConfirmationPatterns, Normalize(command));
    if k < |ConfirmationPatterns| {
      assert Contains(Normalize(command), ConfirmationPatterns[k]);
    }
  }

  /** `analyze_command`: the for loop over the patterns, returning at the first match. */
  method AnalyzeCommand(command: string) returns (r: Analysis)
    ensures r == Verdict(command)
  {
    var commandLower := Strip(Lower(command));
    assert commandLower == Normalize(command);
    var i := 0;
    while i < |ConfirmationPatterns|
      invariant 0 <= i <= |ConfirmationPatterns|
      invariant forall j :: 0 <= j < i ==> !Contains(commandLower, ConfirmationPatterns[j])
    {
      var pattern := ConfirmationPatterns[i];
      if Contains(commandLower, pattern) {
        FirstMatchIs(ConfirmationPatterns, commandLower, i);
        return Analysis(NeedsConfirmation, DangerReason(pattern));
      }
      assert forall j :: 0 <= j < i + 1 ==> !Contains(commandLower, ConfirmationPatterns[j]) by {
        assert !Contains(commandLower, ConfirmationPatterns[i]);
      }
      i := i + 1;
    }
    FirstMatchIs(ConfirmationPatterns, commandLower, i);
    return Analysis(Safe, SafeReason);
  }

  /** The first match is the one index with a match and none before it. */
  lemma {:induction false} FirstMatchIs(patterns: seq<string>, text: string, k: nat)
    requires k <= |patterns|
    requires forall i :: 0 <= i < k ==> !Contains(text, patterns[i])
    requires k < |patterns| ==> Contains(text, patterns[k])
    ensures FirstMatch(patterns, text) == k
    decreases |patterns|
  {
    if |patterns| > 0 && k > 0 {
      FirstMatchIs(patterns[1..], text, k - 1);
    }
  }

  /** Commands that differ only in letter case get the same verdict. */
  lemma CaseInsensitive(a: string, b: string)
    requires |a| == |b|
    requires forall i :: 0 <= i < |a| ==> LowerChar(a[i]) == LowerChar(b[i])
    ensures Verdict(a) == Verdict(b)
  {
    assert Lower(a) == Lower(b);
  }

  /** A recursive force-delete anywhere in the command is never judged safe. */
  lemma ForceDeleteNeedsConfirmation(command: string)
    requires Contains(Normalize(command), "rm -rf")
    ensures Verdict(command).status == NeedsConfirmation
    ensures Verdict(command).reason == DangerReason("rm -rf")
  {
    assert ConfirmationPatterns[0] == "rm -rf";
    FirstMatchIs(ConfirmationPatterns, Normalize(command), 0);
  }

  /** The `"dd "` pattern also matches inside words: `git add .` needs confirmation,
      and the reason names `dd `. */
  lemma GitAddIsFlagged()
    ensures Verdict("git add .") == Analysis(NeedsConfirmation, DangerReason("dd "))
  {
    GitAddNormalized();
    GitAddMatchesDd();
  }

  lemma GitAddNormalized()
    ensures Normalize("git add .") == "git add ."
  {
    assert Lower("git add .") == "git add .";
    StripTrimmed("git add .");
  }

  lemma GitAddMatchesDd()
    ensures FirstMatch(ConfirmationPatterns, "git add .") == 3
  {
    var c := "git add .";
    MissingCharExcludes(c, "rm -rf", 'r');
    MissingCharExcludes(c, "sudo", 'u');
    MissingCharExcludes(c, "mv /", 'm');
    assert OccursAt(c, "dd ", 5);
    FirstMatchIs(ConfirmationPatterns, c, 3);
  }

  /** A command holding no pattern, such as a plain listing in capitals, is safe. */
  lemma ListingIsSafe()
    ensures Verdict("LS -LA") == Analysis(Safe, SafeReason)
  {
    ListingNormalized();
    ListingMatchesNothing();
  }

  lemma ListingNormalized()
    ensures Normalize("LS -LA") == "ls -la"
  {
    assert Lower("LS -LA") == "ls -la";
    StripTrimmed("ls -la");
  }

  lemma ListingMatchesNothing()
    ensures FirstMatch(ConfirmationPatterns, "ls -la") == |ConfirmationPatterns|
  {
    var n := "ls -la";
    MissingCharExcludes(n, "rm -rf", 'r');
    MissingCharExcludes(n, "sudo", 'u');
    MissingCharExcludes(n, "mv /", 'm');
    MissingCharExcludes(n, "dd ", 'd');
    MissingCharExcludes(n, ":(){:|:&};:", ':');
    MissingCharExcludes(n, "mkfs", 'm');
    MissingCharExcludes(n, "> /dev/sd", '>');
    FirstMatchIs(ConfirmationPatterns, n, 7);
  }
}
