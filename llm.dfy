/**
 * What every cognitive agent shares: the reply of `BaseAgent.think`, the `"Erro:"`
 * sentinel the agents test before using a reply, the Markdown code fence they cut
 * code out of, and the `workspace` folder `write_to_workspace` writes into.
 */
module Llm {
  import opened Text

  /** A file write: the path and the text written. */
  datatype Write = Write(path: string, content: string)

  /** What a `write_code` call does: the file write it attempts, if any, and what it
      returns. */
  datatype CodeWrite = CodeWrite(attempt: Option<Write>, result: bool)

  const Fence := "```"
  const ErrorPrefix := "Erro:"

  /** `reply and not reply.startswith("Erro:")`: the gate every agent puts before
      using a reply. */
  predicate Usable(reply: string) {
    reply != [] && !StartsWith(reply, ErrorPrefix)
  }

  /** What `think` returns when the chat call raises `detail`. */
  function FailureReply(detail: string): (r: string)
    ensures !Usable(r)
  {
    var r := ErrorPrefix + " Não consegui processar " + "o pedido. Detalhes: " + detail;
    assert r[..|ErrorPrefix|] == ErrorPrefix;
    r
  }

  /** `os.path.join('workspace', name)` for the relative file names the agents use. */
  function WorkspacePath(name: string): string {
    "workspace/" + name
  }

  /** `os.path.dirname(path) != ""`: the path names a folder to create. */
  predicate HasFolder(path: string) {
    '/' in path
  }

  /** `b` sits in `s` right after the first fence and runs up to the next fence or to
      the end of `s`, `a` being where it starts. */
  predicate FencedAt(s: string, b: string, a: int) {
    && |Fence| <= a && a + |b| <= |s|
    && OccursAt(s, Fence, a - |Fence|)
    && (forall j :: 0 <= j < a - |Fence| ==> !OccursAt(s, Fence, j))
    && s[a..a + |b|] == b
    && (forall j :: a <= j < a + |b| ==> !OccursAt(s, Fence, j))
    && (a + |b| == |s| || OccursAt(s, Fence, a + |b|))
  }

  /** `reply.split('```')[1]`: with a fence in the reply the split has a second piece,
      so the index is always in range. */
  function FencedBlock(reply: string): (b: string)
    requires Contains(reply, Fence)
    ensures FencedAt(reply, b, |Split(reply, Fence)[0]| + |Fence|)
  {
    SplitCountsOccurrence(reply, Fence);
    SecondPieceBetween(reply, Fence);
    Split(reply, Fence)[1]
  }

  /** The fenced block is the only text with that description: the first fence and the
      one after it fix it. */
  lemma FencedUnique(s: string, b1: string, a1: int, b2: string, a2: int)
    requires FencedAt(s, b1, a1) && FencedAt(s, b2, a2)
    ensures b1 == b2 && a1 == a2
  {
  }

  /** `'\n'.join(s.split('\n')[1:])`: `s` without its first line; empty when `s` has
      a single line. */
  function DropFirstLine(s: string): (r: string)
    ensures '\n' !in s ==> r == ""
    ensures forall k :: FirstLineEnds(s, k) ==> r == s[k + 1..]
  {
    var p := Split(s, "\n");
    SplitHead(s, "\n");
    var k := |p[0]|;
    if |p| == 1 then
      NoNewline(s);
      ""
    else
      JoinSplit(s[k + 1..], "\n");
      assert FirstLineEnds(s, k) by {
        forall j | 0 <= j < k ensures s[j] != '\n' {
          assert !OccursAt(s, "\n", j);
        }
      }
      assert forall k' :: FirstLineEnds(s, k') ==> k' == k by {
        forall k' | FirstLineEnds(s, k') ensures k' == k {
          FirstLineUnique(s, k, k');
        }
      }
      Join("\n", p[1..])
  }

  /** The first line of `s` ends at index `k`, where its first newline is. */
  predicate FirstLineEnds(s: string, k: int) {
    0 <= k < |s| && s[k] == '\n' && forall j :: 0 <= j < k ==> s[j] != '\n'
  }

  /** A string has one first line. */
  lemma FirstLineUnique(s: string, k1: int, k2: int)
    requires FirstLineEnds(s, k1) && FirstLineEnds(s, k2)
    ensures k1 == k2
  {
  }

  lemma NoNewline(s: string)
    requires !Contains(s, "\n")
    ensures '\n' !in s
  {
    forall j | 0 <= j < |s| ensures s[j] != '\n' {
      assert !OccursAt(s, "\n", j);
    }
  }
}
