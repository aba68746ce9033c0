/** Python `str` operations used by the agents, over `string` (a `seq<char>`).
    Whitespace is the set `str.isspace()` accepts; `Lower` folds ASCII letters. */
module Text {

  /** A value that may be missing (Python's `None`). */
  datatype Option<T> = None | Some(value: T)

  /** `c.isspace()`: ASCII tab..carriage return, the four separators 0x1C..0x1F,
      space, and the Unicode whitespace code points. */
  predicate IsSpace(c: char) {
    var n := c as int;
    (9 <= n <= 13) || (28 <= n <= 32) || n == 0x85 || n == 0xA0 || n == 0x1680
    || (0x2000 <= n <= 0x200A) || n == 0x2028 || n == 0x2029 || n == 0x202F
    || n == 0x205F || n == 0x3000
  }

  predicate NoSpace(s: string) {
    forall i :: 0 <= i < |s| ==> !IsSpace(s[i])
  }

  predicate AllSpace(s: string) {
    forall i :: 0 <= i < |s| ==> IsSpace(s[i])
  }

  function LowerChar(c: char): (r: char)
    ensures 'A' <= c <= 'Z' ==> r as int == c as int + 32
    ensures !('A' <= c <= 'Z') ==> r == c
  {
    if 'A' <= c <= 'Z' then (c as int + 32) as char else c
  }

  /** `s.lower()` for the ASCII letters. */
  function Lower(s: string): (r: string)
    ensures |r| == |s|
    ensures forall i :: 0 <= i < |s| ==> r[i] == LowerChar(s[i])
  {
    seq(|s|, i requires 0 <= i < |s| => LowerChar(s[i]))
  }

  predicate StartsWith(s: string, p: string) {
    |p| <= |s| && s[..|p|] == p
  }

  predicate EndsWith(s: string, p: string) {
    |p| <= |s| && s[|s| - |p|..] == p
  }

  /** `t` occurs in `s` starting at index `j`. */
  predicate OccursAt(s: string, t: string, j: int) {
    0 <= j && j + |t| <= |s| && s[j..j + |t|] == t
  }

  /** Python's `t in s`. */
  predicate Contains(s: string, t: string) {
    exists j :: 0 <= j <= |s| - |t| && OccursAt(s, t, j)
  }

  /** `s.lstrip()` */
  function LStrip(s: string): (r: string)
    ensures |r| <= |s| && r == s[|s| - |r|..]
    ensures forall i :: 0 <= i < |s| - |r| ==> IsSpace(s[i])
    ensures r == [] || !IsSpace(r[0])
  {
    if |s| > 0 && IsSpace(s[0]) then LStrip(s[1..]) else s
  }

  /** `s.rstrip()` */
  function RStrip(s: string): (r: string)
    ensures |r| <= |s| && r == s[..|r|]
    ensures forall i :: |r| <= i < |s| ==> IsSpace(s[i])
    ensures r == [] || !IsSpace(r[|r| - 1])
  {
    if |s| > 0 && IsSpace(s[|s| - 1]) then RStrip(s[..|s| - 1]) else s
  }

  /** `s.strip()` */
  function Strip(s: string): (r: string)
    ensures r == [] || (!IsSpace(r[0]) && !IsSpace(r[|r| - 1]))
  {
    var l := LStrip(s);
    var r := RStrip(l);
    assert r != [] ==> r[0] == l[0];
    r
  }

  /** `s.strip()` leaves a string with no whitespace at either end unchanged. */
  lemma StripTrimmed(s: string)
    requires s == [] || (!IsSpace(s[0]) && !IsSpace(s[|s| - 1]))
    ensures Strip(s) == s
  {
    assert LStrip(s) == s;
    assert RStrip(s) == s;
  }

  lemma {:induction false} LStripAllSpace(s: string)
    requires AllSpace(s)
    ensures LStrip(s) == []
    decreases |s|
  {
    if |s| > 0 { LStripAllSpace(s[1..]); }
  }

  /** `s.strip()` is empty exactly when `s` is whitespace only. */
  lemma StripEmpty(s: string)
    ensures Strip(s) == [] <==> AllSpace(s)
  {
    if AllSpace(s) {
      LStripAllSpace(s);
    }
    if Strip(s) == [] {
      assert LStrip(s) == [];
      assert s[..|s|] == s;
    }
  }

  /** `s.lstrip(c)` for one character `c`. */
  function LStripChar(s: string, c: char): (r: string)
    ensures |r| <= |s| && r == s[|s| - |r|..]
    ensures forall i :: 0 <= i < |s| - |r| ==> s[i] == c
    ensures r == [] || r[0] != c
  {
    if |s| > 0 && s[0] == c then LStripChar(s[1..], c) else s
  }

  /** `s.rstrip(c)` for one character `c`. */
  function RStripChar(s: string, c: char): (r: string)
    ensures |r| <= |s| && r == s[..|r|]
    ensures forall i :: |r| <= i < |s| ==> s[i] == c
    ensures r == [] || r[|r| - 1] != c
  {
    if |s| > 0 && s[|s| - 1] == c then RStripChar(s[..|s| - 1], c) else s
  }

  /** `s.strip(c)` for one character `c`. */
  function StripChar(s: string, c: char): (r: string) {
    RStripChar(LStripChar(s, c), c)
  }

  /** `m` is `s` with a run of `c` removed at each end, `m` itself neither starting
      nor ending with `c`, and `a` characters removed at the front. */
  predicate TrimmedOf(s: string, m: string, c: char, a: nat) {
    && a + |m| <= |s| && m == s[a..a + |m|]
    && (forall i :: 0 <= i < a ==> s[i] == c)
    && (forall i :: a + |m| <= i < |s| ==> s[i] == c)
    && (m == [] || (m[0] != c && m[|m| - 1] != c))
  }

  /** `s.strip(c)` is the middle of `s` once every leading and trailing `c` is gone. */
  lemma StripCharMiddle(s: string, c: char)
    ensures TrimmedOf(s, StripChar(s, c), c, |s| - |LStripChar(s, c)|)
  {
    var l := LStripChar(s, c);
    var r := StripChar(s, c);
    assert TrimmedOf(s, r, c, |s| - |l|) by {
      LStripCharCuts(s, c);
      RStripCharCuts(l, c);
      assert r == RStripChar(l, c);
      TrimmedOfEnds(s, l, r, c);
    }
  }

  /** `l` is `s` with a run of `c` cut off its front, and does not start with `c`. */
  predicate FrontCut(s: string, l: string, c: char) {
    && |l| <= |s| && l == s[|s| - |l|..] && (l == [] || l[0] != c)
    && (forall i :: 0 <= i < |s| - |l| ==> s[i] == c)
  }

  /** `r` is `l` with a run of `c` cut off its back, and does not end with `c`. */
  predicate BackCut(l: string, r: string, c: char) {
    && |r| <= |l| && r == l[..|r|] && (r == [] || r[|r| - 1] != c)
    && (forall i :: |r| <= i < |l| ==> l[i] == c)
  }

  lemma LStripCharCuts(s: string, c: char)
    ensures FrontCut(s, LStripChar(s, c), c)
  {
  }

  lemma RStripCharCuts(s: string, c: char)
    ensures BackCut(s, RStripChar(s, c), c)
  {
  }

  /** Cutting a run of `c` off the front of `s` (giving `l`) and then off the back of
      `l` (giving `r`) leaves `r` trimmed out of `s`. */
  lemma TrimmedOfEnds(s: string, l: string, r: string, c: char)
    requires FrontCut(s, l, c) && BackCut(l, r, c)
    ensures TrimmedOf(s, r, c, |s| - |l|)
  {
    var a := |s| - |l|;
    assert r == s[a..a + |r|];
    forall i | a + |r| <= i < |s| ensures s[i] == c {
      assert s[i] == l[i - a];
    }
    if r != [] {
      assert r[0] == l[0];
    }
  }

  /** `sep.join(parts)` */
  function Join(sep: string, parts: seq<string>): (r: string)
    decreases |parts|
  {
    if |parts| == 0 then ""
    else if |parts| == 1 then parts[0]
    else parts[0] + sep + Join(sep, parts[1..])
  }

  /** `s.split(sep)` for a non-empty separator: cut at each occurrence, leftmost first,
      occurrences never overlapping. */
  function Split(s: string, sep: string): (r: seq<string>)
    requires |sep| > 0
    ensures |r| >= 1
    decreases |s|
  {
    if |s| < |sep| then [s]
    else if s[..|sep|] == sep then [""] + Split(s[|sep|..], sep)
    else
      var rest := Split(s[1..], sep);
      [[s[0]] + rest[0]] + rest[1..]
  }

  /** Splitting and re-joining with the same separator gives back the string. */
  lemma {:induction false} JoinSplit(s: string, sep: string)
    requires |sep| > 0
    ensures Join(sep, Split(s, sep)) == s
    decreases |s|
  {
    if |s| < |sep| {
    } else if s[..|sep|] == sep {
      JoinSplit(s[|sep|..], sep);
      var rest := Split(s[|sep|..], sep);
      assert Split(s, sep) == [""] + rest;
      assert s == sep + s[|sep|..];
    } else {
      JoinSplit(s[1..], sep);
      var rest := Split(s[1..], sep);
      var r := Split(s, sep);
      assert r == [[s[0]] + rest[0]] + rest[1..];
      if |rest| == 1 {
        assert s == [s[0]] + s[1..];
      } else {
        assert r[1..] == rest[1..];
        assert Join(sep, r) == [s[0]] + rest[0] + sep + Join(sep, rest[1..]);
        assert s == [s[0]] + s[1..];
      }
    }
  }

  /** The first piece of `s.split(sep)` is a prefix of `s` holding no occurrence of
      `sep`; it is all of `s` when there is only one piece. */
  lemma {:induction false} SplitFirst(s: string, sep: string)
    requires |sep| > 0
    ensures StartsWith(s, Split(s, sep)[0])
    ensures forall j :: 0 <= j < |Split(s, sep)[0]| ==> !OccursAt(s, sep, j)
    ensures |Split(s, sep)| == 1 ==> Split(s, sep)[0] == s
    decreases |s|
  {
    var p := Split(s, sep);
    if |s| >= |sep| && s[..|sep|] != sep {
      var rest := Split(s[1..], sep);
      SplitFirst(s[1..], sep);
      assert p == [[s[0]] + rest[0]] + rest[1..];
      assert !OccursAt(s, sep, 0);
      PieceCons(s, sep, rest[0]);
      if |p| == 1 {
        assert s == [s[0]] + s[1..];
      }
    }
  }

  /** A piece free of `sep` extends by one character in front when `sep` does not
      start there. */
  lemma PieceCons(s: string, sep: string, piece: string)
    requires |s| > 0 && !OccursAt(s, sep, 0)
    requires StartsWith(s[1..], piece)
    requires forall j :: 0 <= j < |piece| ==> !OccursAt(s[1..], sep, j)
    ensures StartsWith(s, [s[0]] + piece)
    ensures forall j :: 0 <= j < |piece| + 1 ==> !OccursAt(s, sep, j)
  {
    forall j | 0 < j < |piece| + 1 ensures !OccursAt(s, sep, j) {
      OccursShift(s, sep, 1, j);
    }
    assert s[..|piece| + 1] == [s[0]] + s[1..][..|piece|];
  }

  /** With more than one piece, `sep` occurs right after the first piece and the other
      pieces are the split of the text after that occurrence. */
  lemma {:induction false} SplitRest(s: string, sep: string)
    requires |sep| > 0
    ensures |Split(s, sep)| > 1 ==> |Split(s, sep)[0]| + |sep| <= |s|
    ensures |Split(s, sep)| > 1 ==> OccursAt(s, sep, |Split(s, sep)[0]|)
    ensures |Split(s, sep)| > 1 ==> Split(s[|Split(s, sep)[0]| + |sep|..], sep) == Split(s, sep)[1..]
    decreases |s|
  {
    var p := Split(s, sep);
    if |s| >= |sep| && s[..|sep|] != sep {
      var rest := Split(s[1..], sep);
      SplitRest(s[1..], sep);
      assert p == [[s[0]] + rest[0]] + rest[1..];
      if |p| > 1 {
        var k := |rest[0]|;
        assert |p[0]| == k + 1;
        assert p[1..] == rest[1..];
        OccursShift(s, sep, 1, k + 1);
        var tail := s[1..][k + |sep|..];
        assert Split(tail, sep) == rest[1..];
        assert s[|p[0]| + |sep|..] == tail;
      }
    } else if |s| >= |sep| {
      assert p == [""] + Split(s[|sep|..], sep);
      assert p[1..] == Split(s[|sep|..], sep);
    }
  }

  /** The first piece of `s.split(sep)` is the text before the first occurrence of
      `sep`; when there is one, the remaining pieces are the split of what follows it. */
  lemma SplitHead(s: string, sep: string)
    requires |sep| > 0
    ensures var p := Split(s, sep);
      && StartsWith(s, p[0])
      && (forall j :: 0 <= j < |p[0]| ==> !OccursAt(s, sep, j))
      && (|p| == 1 ==> p[0] == s && !Contains(s, sep))
      && (|p| > 1 ==> (|p[0]| + |sep| <= |s| && OccursAt(s, sep, |p[0]|)
                       && Split(s[|p[0]| + |sep|..], sep) == p[1..]))
  {
    SplitFirst(s, sep);
    SplitRest(s, sep);
  }

  /** `sep in s` exactly when `s.split(sep)` has more than one piece. */
  lemma SplitCountsOccurrence(s: string, sep: string)
    requires |sep| > 0
    ensures Contains(s, sep) <==> |Split(s, sep)| > 1
  {
    SplitHead(s, sep);
  }

  /** Concatenation regroups freely. */
  lemma AppendAssoc<T>(a: seq<T>, b: seq<T>, c: seq<T>)
    ensures a + b + c == a + (b + c)
  {
  }

  /** Splitting stops at the first occurrence of `sep`, wherever it stands, and goes
      on with what follows it. */
  lemma {:induction false} SplitAtFirst(a: string, sep: string, b: string)
    requires |sep| > 0
    requires forall j :: 0 <= j < |a| ==> !OccursAt(a + sep + b, sep, j)
    ensures Split(a + sep + b, sep) == [a] + Split(b, sep)
    decreases |a|
  {
    var s := a + sep + b;
    if a == [] {
      assert s[..|sep|] == sep && s[|sep|..] == b;
    } else {
      assert !OccursAt(s, sep, 0);
      var t := a[1..] + sep + b;
      assert s[1..] == t;
      forall j | 0 <= j < |a| - 1 ensures !OccursAt(t, sep, j) {
        assert !OccursAt(s, sep, j + 1);
        if j + |sep| <= |t| {
          assert s[j + 1..j + 1 + |sep|] == t[j..j + |sep|];
        }
      }
      SplitAtFirst(a[1..], sep, b);
      assert a == [s[0]] + a[1..];
    }
  }

  /** Pieces free of the character `c`, joined on `c`, split back into the same pieces. */
  lemma {:induction false} SplitJoinChar(parts: seq<string>, c: char)
    requires |parts| >= 1
    requires forall i :: 0 <= i < |parts| ==> c !in parts[i]
    ensures Split(Join([c], parts), [c]) == parts
    decreases |parts|
  {
    if |parts| == 1 {
      MissingCharExcludes(parts[0], [c], c);
      SplitCountsOccurrence(parts[0], [c]);
      SplitHead(parts[0], [c]);
    } else {
      var rest := Join([c], parts[1..]);
      forall j | 0 <= j < |parts[0]| ensures !OccursAt(parts[0] + [c] + rest, [c], j) {
        assert (parts[0] + [c] + rest)[j] == parts[0][j];
      }
      SplitAtFirst(parts[0], [c], rest);
      SplitJoinChar(parts[1..], c);
      assert parts == [parts[0]] + parts[1..];
    }
  }

  /** An occurrence in a suffix is an occurrence in the whole, shifted. */
  lemma OccursShift(s: string, sep: string, a: nat, j: int)
    requires a <= |s| && a <= j
    ensures OccursAt(s[a..], sep, j - a) <==> OccursAt(s, sep, j)
  {
    if j + |sep| <= |s| {
      assert s[a..][j - a..j - a + |sep|] == s[j..j + |sep|];
    }
  }

  /** `s.split(sep)[1]`, the text between the first and the second occurrence of `sep`
      (or the end of `s`), is found in `s` right after the first occurrence and holds
      no occurrence of its own. */
  lemma SecondPieceBetween(s: string, sep: string)
    requires |sep| > 0 && Contains(s, sep)
    ensures |Split(s, sep)| > 1
    ensures var p := Split(s, sep);
      && (forall j :: 0 <= j < |p[0]| ==> !OccursAt(s, sep, j))
      && OccursAt(s, sep, |p[0]|)
    ensures var p := Split(s, sep); PieceBetween(s, sep, |p[0]| + |sep|, p[1])
  {
    var p := Split(s, sep);
    SplitHead(s, sep);
    assert |p| > 1;
    var a := |p[0]| + |sep|;
    var q := Split(s[a..], sep);
    assert q == p[1..];
    FirstPieceAt(s, sep, a, p[1]);
  }

  /** `piece` sits in `s` at `a`, holds no occurrence of `sep`, and is followed by one
      or by the end of `s`. */
  predicate PieceBetween(s: string, sep: string, a: nat, piece: string) {
    && a + |piece| <= |s| && s[a..a + |piece|] == piece
    && (forall j :: a <= j < a + |piece| ==> !OccursAt(s, sep, j))
    && (a + |piece| == |s| || OccursAt(s, sep, a + |piece|))
  }

  /** The first piece of the split of `s[a..]`, seen inside `s`. */
  lemma FirstPieceAt(s: string, sep: string, a: nat, piece: string)
    requires |sep| > 0 && a <= |s| && piece == Split(s[a..], sep)[0]
    ensures PieceBetween(s, sep, a, piece)
  {
    var t := s[a..];
    SplitHead(t, sep);
    assert |piece| == |t| || OccursAt(t, sep, |piece|);
    PieceShifted(s, sep, a, t, piece);
  }

  /** A piece found at the front of `s[a..]` is found in `s` at `a`. */
  lemma PieceShifted(s: string, sep: string, a: nat, t: string, piece: string)
    requires a <= |s| && t == s[a..]
    requires StartsWith(t, piece) && forall j :: 0 <= j < |piece| ==> !OccursAt(t, sep, j)
    requires |piece| == |t| || OccursAt(t, sep, |piece|)
    ensures PieceBetween(s, sep, a, piece)
  {
    var b := a + |piece|;
    assert s[a..b] == t[..|piece|];
    forall j | a <= j < b ensures !OccursAt(s, sep, j) {
      OccursShift(s, sep, a, j);
    }
    if b < |s| {
      OccursShift(s, sep, a, b);
    }
  }

  /** `s.split()`: the maximal runs of non-whitespace characters. */
  function Words(s: string): (r: seq<string>)
    ensures forall i :: 0 <= i < |r| ==> r[i] != [] && NoSpace(r[i])
    decreases |s|
  {
    var t := LStrip(s);
    if t == [] then []
    else
      var w := TakeWord(t);
      var rest := Words(t[|w|..]);
      ConsWord(w, rest);
      [w] + rest
  }

  lemma ConsWord(w: string, rest: seq<string>)
    requires w != [] && NoSpace(w)
    requires forall i :: 0 <= i < |rest| ==> rest[i] != [] && NoSpace(rest[i])
    ensures forall i :: 0 <= i < |[w] + rest| ==> ([w] + rest)[i] != [] && NoSpace(([w] + rest)[i])
  {
  }

  /** The longest prefix of `s` without whitespace. */
  function TakeWord(s: string): (w: string)
    ensures StartsWith(s, w) && NoSpace(w)
    ensures |w| == |s| || IsSpace(s[|w|])
  {
    if |s| == 0 || IsSpace(s[0]) then "" else [s[0]] + TakeWord(s[1..])
  }

  lemma TakeWordOf(w: string, rest: string)
    requires NoSpace(w)
    requires rest == [] || IsSpace(rest[0])
    ensures TakeWord(w + rest) == w
    decreases |w|
  {
    if w != [] {
      assert (w + rest)[1..] == w[1..] + rest;
      TakeWordOf(w[1..], rest);
    }
  }

  lemma LStripNoLead(s: string)
    requires s == [] || !IsSpace(s[0])
    ensures LStrip(s) == s
  {
  }

  /** A string made only of whitespace splits into no words. */
  lemma WordsOfSpace(s: string)
    requires AllSpace(s)
    ensures Words(s) == []
    decreases |s|
  {
    if |s| > 0 {
      WordsOfSpace(s[1..]);
    }
  }

  /** Splitting on whitespace finds a first word exactly when `s.strip()` is non-empty. */
  lemma WordsEmpty(s: string)
    ensures Words(s) == [] <==> Strip(s) == []
  {
    var t := LStrip(s);
    assert Words(s) == [] <==> t == [];
    assert t != [] ==> RStrip(t) != [] by {
      if t != [] { assert !IsSpace(t[0]); }
    }
  }

  /** A first word followed by whitespace is split off whole. */
  lemma {:induction false} WordsCons(w: string, sp: char, rest: string)
    requires w != [] && NoSpace(w) && IsSpace(sp)
    ensures Words(w + [sp] + rest) == [w] + Words(rest)
  {
    var s := w + [sp] + rest;
    LStripNoLead(s);
    TakeWordOf(w, [sp] + rest);
    assert s == w + ([sp] + rest);
    var tail := s[|w|..];
    assert tail == [sp] + rest;
    assert LStrip(tail) == LStrip(rest) by { assert tail[1..] == rest; }
    assert Words(tail) == Words(rest) by {
      assert LStrip(tail) == LStrip(rest);
    }
  }

  /** Re-splitting words joined by single spaces gives back the same words: joining
      collapses runs of whitespace and loses nothing else. */
  lemma {:induction false} WordsJoin(ws: seq<string>)
    requires forall i :: 0 <= i < |ws| ==> ws[i] != [] && NoSpace(ws[i])
    ensures Words(Join(" ", ws)) == ws
    decreases |ws|
  {
    if |ws| == 0 {
    } else if |ws| == 1 {
      var w := ws[0];
      LStripNoLead(w);
      TakeWordOf(w, "");
      assert w + "" == w;
      assert w[|w|..] == "";
    } else {
      WordsJoin(ws[1..]);
      assert Join(" ", ws) == ws[0] + [' '] + Join(" ", ws[1..]);
      WordsCons(ws[0], ' ', Join(" ", ws[1..]));
    }
  }

  /** `s.replace(pat, rep)`: every non-overlapping occurrence, leftmost first. */
  function ReplaceAll(s: string, pat: string, rep: string): (r: string)
    requires |pat| > 0
    decreases |s|
  {
    if |s| < |pat| then s
    else if s[..|pat|] == pat then rep + ReplaceAll(s[|pat|..], pat, rep)
    else [s[0]] + ReplaceAll(s[1..], pat, rep)
  }

  /** `s.replace(pat, rep)` leaves a string with no occurrence of `pat` unchanged. */
  lemma {:induction false} ReplaceAbsent(s: string, pat: string, rep: string)
    requires |pat| > 0 && !Contains(s, pat)
    ensures ReplaceAll(s, pat, rep) == s
    decreases |s|
  {
    if |s| >= |pat| {
      assert !OccursAt(s, pat, 0);
      assert !Contains(s[1..], pat) by {
        forall j | OccursAt(s[1..], pat, j) ensures OccursAt(s, pat, j + 1) {
          assert s[j + 1..j + 1 + |pat|] == s[1..][j..j + |pat|];
        }
      }
      ReplaceAbsent(s[1..], pat, rep);
      assert s == [s[0]] + s[1..];
    }
  }

  /** `replace` works left to right in one pass: the first occurrence of `pat` is
      replaced wherever it is, and the scan resumes right after it. */
  lemma {:induction false} ReplaceAtFirst(a: string, pat: string, b: string, rep: string)
    requires |pat| > 0
    requires forall j :: 0 <= j < |a| ==> !OccursAt(a + pat + b, pat, j)
    ensures ReplaceAll(a + pat + b, pat, rep) == a + rep + ReplaceAll(b, pat, rep)
    decreases |a|
  {
    var s := a + pat + b;
    if a == [] {
      assert s[..|pat|] == pat && s[|pat|..] == b;
    } else {
      assert !OccursAt(s, pat, 0);
      var t := a[1..] + pat + b;
      assert s[1..] == t;
      NoOccurrenceInTail(s, pat, |a|);
      ReplaceAtFirst(a[1..], pat, b, rep);
      var r := ReplaceAll(b, pat, rep);
      assert ReplaceAll(s, pat, rep) == [a[0]] + (a[1..] + rep + r);
      assert [a[0]] + (a[1..] + rep + r) == a + rep + r by {
        assert a == [a[0]] + a[1..];
      }
    }
  }

  /** No occurrence of `pat` before `k` in `s` means none before `k - 1` in `s[1..]`. */
  lemma NoOccurrenceInTail(s: string, pat: string, k: nat)
    requires 0 < k <= |s|
    requires forall j :: 0 <= j < k ==> !OccursAt(s, pat, j)
    ensures forall j :: 0 <= j < k - 1 ==> !OccursAt(s[1..], pat, j)
  {
    forall j | 0 <= j < k - 1 ensures !OccursAt(s[1..], pat, j) {
      OccursShift(s, pat, 1, j + 1);
    }
  }

  /** A concatenation starts with its first part and ends with its second. */
  lemma AppendParts(x: string, y: string)
    ensures StartsWith(x + y, x) && EndsWith(x + y, y)
  {
    assert (x + y)[..|x|] == x;
    assert (x + y)[|x|..] == y;
  }

  /** A prefix made of two parts: the first is a prefix too, the second follows it. */
  lemma PrefixParts(r: string, x: string, y: string)
    requires StartsWith(r, x + y)
    ensures StartsWith(r, x) && OccursAt(r, y, |x|)
  {
    assert r[..|x|] == (x + y)[..|x|];
    assert r[|x|..|x| + |y|] == (x + y)[|x|..];
  }

  /** Putting the same text in front keeps a prefix a prefix. */
  lemma PrefixExtend(h: string, s: string, p: string)
    requires StartsWith(s, p)
    ensures StartsWith(h + s, h + p)
  {
    assert (h + s)[..|h + p|] == h + s[..|p|];
  }

  /** Two arguments spliced between three fixed pieces land right after the pieces
      before them. */
  lemma SplicedAt2(h0: string, x: string, h1: string, y: string, h2: string)
    ensures var p := h0 + x + h1 + y + h2;
      var c := |h0| + |x| + |h1|;
      && StartsWith(p, h0) && EndsWith(p, h2)
      && |p| == c + |y| + |h2|
      && OccursAt(p, x, |h0|) && OccursAt(p, y, c)
  {
    var p := h0 + x + h1 + y + h2;
    var c := |h0| + |x| + |h1|;
    assert p[..|h0|] == h0;
    assert p[|p| - |h2|..] == h2;
    assert p[|h0|..|h0| + |x|] == x;
    assert p[c..c + |y|] == y;
  }

  /** Three arguments spliced between four fixed pieces land at the offsets the
      pieces before them add up to. */
  lemma SplicedAt3(h0: string, x: string, h1: string, y: string, h2: string, z: string, h3: string)
    ensures var p := h0 + x + h1 + y + h2 + z + h3;
      var c := |h0| + |x| + |h1|;
      var d := c + |y| + |h2|;
      && StartsWith(p, h0) && EndsWith(p, h3)
      && |p| == d + |z| + |h3|
      && OccursAt(p, x, |h0|) && OccursAt(p, y, c) && OccursAt(p, z, d)
  {
    var p := h0 + x + h1 + y + h2 + z + h3;
    var c := |h0| + |x| + |h1|;
    var d := c + |y| + |h2|;
    assert p[..|h0|] == h0;
    assert p[|p| - |h3|..] == h3;
    assert p[|h0|..|h0| + |x|] == x;
    assert p[c..c + |y|] == y;
    assert p[d..d + |z|] == z;
  }

  /** Characters of `s` other than `c`, in order (`s.replace(c, '')` for one character). */
  function RemoveChar(s: string, c: char): (r: string)
    ensures c !in r
  {
    if s == [] then [] else (if s[0] == c then [] else [s[0]]) + RemoveChar(s[1..], c)
  }

  lemma {:induction false} RemoveCharAppend(a: string, b: string, c: char)
    ensures RemoveChar(a + b, c) == RemoveChar(a, c) + RemoveChar(b, c)
    decreases |a|
  {
    if a != [] {
      assert (a + b)[1..] == a[1..] + b;
      RemoveCharAppend(a[1..], b, c);
    } else {
      assert a + b == b;
    }
  }

  lemma {:induction false} RemoveCharAbsent(s: string, c: char)
    requires c !in s
    ensures RemoveChar(s, c) == s
    decreases |s|
  {
    if s != [] {
      RemoveCharAbsent(s[1..], c);
      assert s == [s[0]] + s[1..];
    }
  }

  /** Deleting a character `t` does not use keeps every occurrence of `t`. */
  lemma RemoveCharKeeps(s: string, c: char, t: string)
    requires Contains(s, t) && c !in t
    ensures Contains(RemoveChar(s, c), t)
  {
    var j :| 0 <= j <= |s| - |t| && OccursAt(s, t, j);
    var a, m, b := s[..j], s[j..j + |t|], s[j + |t|..];
    assert s == a + m + b;
    RemoveCharAppend(a + m, b, c);
    RemoveCharAppend(a, m, c);
    RemoveCharAbsent(m, c);
    var r := RemoveChar(a, c) + t + RemoveChar(b, c);
    assert OccursAt(r, t, |RemoveChar(a, c)|);
  }

  /** `s.rstrip()` keeps an occurrence that does not end in whitespace. */
  lemma RStripKeeps(s: string, t: string)
    requires Contains(s, t) && t != [] && !IsSpace(t[|t| - 1])
    ensures Contains(RStrip(s), t)
  {
    var j :| 0 <= j <= |s| - |t| && OccursAt(s, t, j);
    var r := RStrip(s);
    assert s[j + |t| - 1] == t[|t| - 1];
    assert r[j..j + |t|] == s[j..j + |t|];
    assert OccursAt(r, t, j);
  }

  /** An occurrence in a part is an occurrence in the whole. */
  lemma ContainsInfix(a: string, m: string, b: string, t: string)
    requires Contains(m, t)
    ensures Contains(a + m + b, t)
  {
    var j :| 0 <= j <= |m| - |t| && OccursAt(m, t, j);
    assert (a + m + b)[|a| + j..|a| + j + |t|] == m[j..j + |t|];
    assert OccursAt(a + m + b, t, |a| + j);
  }

  /** An occurrence in a prefix is an occurrence in the whole. */
  lemma ContainsPrefix(m: string, b: string, t: string)
    requires Contains(m, t)
    ensures Contains(m + b, t)
  {
    var j :| 0 <= j <= |m| - |t| && OccursAt(m, t, j);
    assert (m + b)[j..j + |t|] == m[j..j + |t|];
    assert OccursAt(m + b, t, j);
  }

  lemma ContainsSelf(t: string)
    ensures Contains(t, t)
  {
    assert OccursAt(t, t, 0);
  }

  /** A string lacking some character of `t` cannot contain `t`. */
  lemma MissingCharExcludes(s: string, t: string, c: char)
    requires c in t && c !in s
    ensures !Contains(s, t)
  {
    var k :| 0 <= k < |t| && t[k] == c;
    forall j | 0 <= j <= |s| - |t| ensures !OccursAt(s, t, j) {
      assert s[j..j + |t|][k] == s[j + k];
    }
  }
}
