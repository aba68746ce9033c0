/**
 * `AuditorAgent`: list the files below a directory, skipping `__pycache__` and `.venv`
 * directories, and write a timestamped report of the agents' files and the
 * workspace's files.
 */
module AuditorAgent {
  import opened Text

  /** A directory entry as `os.walk` sees it: a file, or a directory with its entries in
      listing order. */
  datatype Entry = File(name: string) | Dir(name: string, entries: seq<Entry>)

  function Size(es: seq<Entry>): (n: nat)
    ensures es != [] ==> n > Size(es[1..]) && n >= EntrySize(es[0])
  {
    if es == [] then 0 else EntrySize(es[0]) + Size(es[1..])
  }

  function EntrySize(e: Entry): (n: nat)
    ensures n >= 1
    ensures e.Dir? ==> n > Size(e.entries)
  {
    match e
    case File(_) => 1
    case Dir(_, entries) => 1 + Size(entries)
  }

  /** The directories `_list_files` removes from `dirs` before `os.walk` descends. */
  predicate Pruned(name: string) {
    name == "__pycache__" || name == ".venv"
  }

  /** `os.path.join(root, name)` for a relative `root`, as `relpath(..., '.')` keeps it. */
  function PathJoin(root: string, name: string): string {
    root + "/" + name
  }

  /** The files of one directory, in listing order, as paths under `root`. */
  function Files(root: string, es: seq<Entry>): seq<string>
  {
    if es == [] then []
    else (if es[0].File? then [PathJoin(root, es[0].name)] else []) + Files(root, es[1..])
  }

  /** What `_list_files(root)` returns for a directory whose entries are `es`: `os.walk`
      is top-down, so a directory's own files come first, then the listings of its
      subdirectories that are not pruned, in order. */
  function Listing(root: string, es: seq<Entry>): seq<string>
    decreases Size(es), 1
  {
    Files(root, es) + Descend(root, es)
  }

  function Descend(root: string, es: seq<Entry>): seq<string>
    decreases Size(es), 0
  {
    if es == [] then []
    else
      (if es[0].Dir? && !Pruned(es[0].name)
       then Listing(PathJoin(root, es[0].name), es[0].entries) else [])
      + Descend(root, es[1..])
  }

  lemma {:induction false} SizeOfEntry(es: seq<Entry>, i: nat)
    requires i < |es|
    ensures EntrySize(es[i]) <= Size(es)
  {
    if i > 0 {
      SizeOfEntry(es[1..], i - 1);
    }
  }

  lemma TailOfAppend(a: seq<Entry>, b: seq<Entry>)
    requires a != []
    ensures (a + b)[0] == a[0] && (a + b)[1..] == a[1..] + b
  {
  }

  lemma {:induction false} FilesAppend(root: string, a: seq<Entry>, b: seq<Entry>)
    ensures Files(root, a + b) == Files(root, a) + Files(root, b)
  {
    if a == [] {
      assert a + b == b;
    } else {
      FilesAppend(root, a[1..], b);
      var head := if a[0].File? then [PathJoin(root, a[0].name)] else [];
      TailOfAppend(a, b);
      assert Files(root, a + b) == head + Files(root, a[1..] + b);
      AppendAssoc(head, Files(root, a[1..]), Files(root, b));
    }
  }

  lemma {:induction false} DescendAppend(root: string, a: seq<Entry>, b: seq<Entry>)
    ensures Descend(root, a + b) == Descend(root, a) + Descend(root, b)
  {
    if a == [] {
      assert a + b == b;
    } else {
      DescendAppend(root, a[1..], b);
      var head := if a[0].Dir? && !Pruned(a[0].name)
        then Listing(PathJoin(root, a[0].name), a[0].entries) else [];
      TailOfAppend(a, b);
      assert Descend(root, a + b) == head + Descend(root, a[1..] + b);
      AppendAssoc(head, Descend(root, a[1..]), Descend(root, b));
    }
  }

  /** The files of the first `i + 1` entries: those of the first `i`, then entry `i`'s. */
  lemma FilesStep(root: string, es: seq<Entry>, i: nat)
    requires i < |es|
    ensures Files(root, es[..i + 1])
         == Files(root, es[..i]) + if es[i].File? then [PathJoin(root, es[i].name)] else []
  {
    assert es[..i + 1] == es[..i] + [es[i]];
    FilesAppend(root, es[..i], [es[i]]);
    assert [es[i]][1..] == [];
  }

  /** The subdirectory listings of the first `i + 1` entries: those of the first `i`,
      then entry `i`'s, if it is a directory that is not pruned. */
  lemma DescendStep(root: string, es: seq<Entry>, i: nat)
    requires i < |es|
    ensures Descend(root, es[..i + 1])
         == Descend(root, es[..i])
            + if es[i].Dir? && !Pruned(es[i].name)
              then Listing(PathJoin(root, es[i].name), es[i].entries) else []
  {
    assert es[..i + 1] == es[..i] + [es[i]];
    DescendAppend(root, es[..i], [es[i]]);
    assert [es[i]][1..] == [];
  }

  /** `_list_files`: the walk appends every file path it meets to `fileList`. */
  method ListFiles(startPath: string, es: seq<Entry>) returns (fileList: seq<string>)
    ensures fileList == Listing(startPath, es)
  {
    fileList := Walk(startPath, es, []);
  }

  /** One step of `os.walk` at `root`, and the steps below it: the files are appended,
      the pruned directories removed, and the other directories walked in order. */
  method Walk(root: string, es: seq<Entry>, acc: seq<string>) returns (fileList: seq<string>)
    ensures fileList == acc + Listing(root, es)
    decreases Size(es)
  {
    fileList := acc;
    for i := 0 to |es|
      invariant fileList == acc + Files(root, es[..i])
    {
      if es[i].File? {
        fileList := fileList + [PathJoin(root, es[i].name)];
        AppendAssoc(acc, Files(root, es[..i]), [PathJoin(root, es[i].name)]);
      } else {
        AppendAssoc(acc, Files(root, es[..i]), []);
      }
      FilesStep(root, es, i);
    }
    assert es[..|es|] == es;
    var dirs := seq(|es|, i requires 0 <= i < |es| => es[i].Dir? && !Pruned(es[i].name));
    for i := 0 to |es|
      invariant fileList == acc + Files(root, es) + Descend(root, es[..i])
    {
      ghost var before := Descend(root, es[..i]);
      if dirs[i] {
        SizeOfEntry(es, i);
        var sub := PathJoin(root, es[i].name);
        fileList := Walk(sub, es[i].entries, fileList);
        AppendAssoc(acc + Files(root, es), before, Listing(sub, es[i].entries));
      } else {
        AppendAssoc(acc + Files(root, es), before, []);
      }
      DescendStep(root, es, i);
    }
  }

  /** A pruned directory's contents never matter: replacing them changes nothing. */
  lemma PrunedContentsIgnored(root: string, es: seq<Entry>, i: nat, other: seq<Entry>)
    requires i < |es| && es[i].Dir? && Pruned(es[i].name)
    ensures Listing(root, es[i := Dir(es[i].name, other)]) == Listing(root, es)
  {
    var es' := es[i := Dir(es[i].name, other)];
    assert es == es[..i] + [es[i]] + es[i + 1..];
    assert es' == es[..i] + [es'[i]] + es[i + 1..];
    FilesAppend(root, es[..i] + [es[i]], es[i + 1..]);
    FilesAppend(root, es[..i], [es[i]]);
    FilesAppend(root, es[..i] + [es'[i]], es[i + 1..]);
    FilesAppend(root, es[..i], [es'[i]]);
    DescendAppend(root, es[..i] + [es[i]], es[i + 1..]);
    DescendAppend(root, es[..i], [es[i]]);
    DescendAppend(root, es[..i] + [es'[i]], es[i + 1..]);
    DescendAppend(root, es[..i], [es'[i]]);
  }

  /** Every file of the directory is listed. */
  lemma FileListed(root: string, es: seq<Entry>, i: nat)
    requires i < |es| && es[i].File?
    ensures PathJoin(root, es[i].name) in Listing(root, es)
  {
    assert es == es[..i] + [es[i]] + es[i + 1..];
    FilesAppend(root, es[..i] + [es[i]], es[i + 1..]);
    FilesAppend(root, es[..i], [es[i]]);
  }

  /** Everything listed below a subdirectory that is not pruned is listed. */
  lemma KeptDirectoryListed(root: string, es: seq<Entry>, i: nat, p: string)
    requires i < |es| && es[i].Dir? && !Pruned(es[i].name)
    requires p in Listing(PathJoin(root, es[i].name), es[i].entries)
    ensures p in Listing(root, es)
  {
    assert es == es[..i] + [es[i]] + es[i + 1..];
    DescendAppend(root, es[..i] + [es[i]], es[i + 1..]);
    DescendAppend(root, es[..i], [es[i]]);
    assert Descend(root, [es[i]]) == Listing(PathJoin(root, es[i].name), es[i].entries) + Descend(root, []);
  }

  /** The fields of `datetime.now()` the report uses, within `datetime`'s own ranges. */
  datatype DateTime = DateTime(year: nat, month: nat, day: nat, hour: nat, minute: nat, second: nat)
  {
    predicate Valid() {
      1 <= year <= 9999 && 1 <= month <= 12 && 1 <= day <= 31
      && hour < 24 && minute < 60 && second < 60
    }
  }

  function Pow10(w: nat): (p: nat)
    ensures p >= 1
  {
    if w == 0 then 1 else 10 * Pow10(w - 1)
  }

  /** `n` in decimal, zero-padded to `w` digits (`%Y` with `w = 4`, `%m` and the others
      with `w = 2`). */
  function Digits(n: nat, w: nat): (s: string)
    requires n < Pow10(w)
    ensures |s| == w
    ensures forall i :: 0 <= i < |s| ==> '0' <= s[i] <= '9'
  {
    if w == 0 then "" else Digits(n / 10, w - 1) + [('0' as int + n % 10) as char]
  }

  /** The value of a string of decimal digits. */
  function Value(s: string): nat
  {
    if s == [] then 0
    else
      var d := s[|s| - 1] as int - '0' as int;
      Value(s[..|s| - 1]) * 10 + (if 0 <= d then d else 0)
  }

  /** Reading the padded digits back gives the number. */
  lemma {:induction false} DigitsValue(n: nat, w: nat)
    requires n < Pow10(w)
    ensures Value(Digits(n, w)) == n
  {
    if w > 0 {
      var s := Digits(n, w);
      DigitsValue(n / 10, w - 1);
      assert s[..|s| - 1] == Digits(n / 10, w - 1);
    }
  }

  /** `now.strftime("%Y%m%d_%H%M%S")` */
  function Stamp(t: DateTime): (s: string)
    requires t.Valid()
    ensures |s| == 15 && s[8] == '_'
  {
    (Digits(t.year, 4) + Digits(t.month, 2) + Digits(t.day, 2)) + "_"
      + (Digits(t.hour, 2) + Digits(t.minute, 2) + Digits(t.second, 2))
  }

  /** `now.strftime('%Y-%m-%d %H:%M:%S')` */
  function Readable(t: DateTime): (s: string)
    requires t.Valid()
    ensures |s| == 19
  {
    Digits(t.year, 4) + "-" + Digits(t.month, 2) + "-" + Digits(t.day, 2) + " "
      + Digits(t.hour, 2) + ":" + Digits(t.minute, 2) + ":" + Digits(t.second, 2)
  }

  /** Each field of the title stamp reads back as the corresponding part of the time,
      with `-`, ` ` and `:` between them. */
  lemma ReadableFields(t: DateTime)
    requires t.Valid()
    ensures var s := Readable(t);
      && Value(s[0..4]) == t.year && s[4] == '-' && Value(s[5..7]) == t.month
      && s[7] == '-' && Value(s[8..10]) == t.day && s[10] == ' '
      && Value(s[11..13]) == t.hour && s[13] == ':' && Value(s[14..16]) == t.minute
      && s[16] == ':' && Value(s[17..19]) == t.second
  {
    var y, mo, d := Digits(t.year, 4), Digits(t.month, 2), Digits(t.day, 2);
    var h, mi, se := Digits(t.hour, 2), Digits(t.minute, 2), Digits(t.second, 2);
    DigitsValue(t.year, 4);
    DigitsValue(t.month, 2);
    DigitsValue(t.day, 2);
    DigitsValue(t.hour, 2);
    DigitsValue(t.minute, 2);
    DigitsValue(t.second, 2);
    SlicesOfReadable(y, mo, d, h, mi, se);
  }

  /** The six fields of the title stamp sit at fixed places between the separators. */
  lemma SlicesOfReadable(y: string, mo: string, d: string, h: string, mi: string, se: string)
    requires |y| == 4 && |mo| == 2 && |d| == 2 && |h| == 2 && |mi| == 2 && |se| == 2
    ensures var s := y + "-" + mo + "-" + d + " " + h + ":" + mi + ":" + se;
      && s[0..4] == y && s[4] == '-' && s[5..7] == mo && s[7] == '-' && s[8..10] == d
      && s[10] == ' ' && s[11..13] == h && s[13] == ':' && s[14..16] == mi
      && s[16] == ':' && s[17..19] == se
  {
  }

  /** `os.path.join('logs', f"audit_log_{timestamp_str}.txt")` */
  function ReportPath(t: DateTime): (p: string)
    requires t.Valid()
    ensures StartsWith(p, "logs/audit_log_") && EndsWith(p, ".txt") && |p| == 34
    ensures p[15..30] == Stamp(t)
  {
    var p := "logs/audit_log_" + Stamp(t) + ".txt";
    assert p[..15] == "logs/audit_log_";
    assert p[30..] == ".txt";
    assert p[15..30] == Stamp(t);
    p
  }

  /** Three padded numbers written side by side can each be read back from their place. */
  lemma ThreeFields(a: nat, w: nat, b: nat, c: nat)
    requires a < Pow10(w) && b < 100 && c < 100
    ensures var s := Digits(a, w) + Digits(b, 2) + Digits(c, 2);
      Value(s[..w]) == a && Value(s[w..w + 2]) == b && Value(s[w + 2..]) == c
  {
    var s := Digits(a, w) + Digits(b, 2) + Digits(c, 2);
    assert s[..w] == Digits(a, w);
    assert s[w..w + 2] == Digits(b, 2);
    assert s[w + 2..] == Digits(c, 2);
    DigitsValue(a, w);
    DigitsValue(b, 2);
    DigitsValue(c, 2);
  }

  lemma SlicesOfJoined(date: string, time: string)
    requires |date| == 8 && |time| == 6
    ensures var s := date + "_" + time;
      && s[0..4] == date[..4] && s[4..6] == date[4..6] && s[6..8] == date[6..]
      && s[9..11] == time[..2] && s[11..13] == time[2..4] && s[13..15] == time[4..]
  {
  }

  /** Each field can be read back from its place in the stamp. */
  lemma StampFields(t: DateTime)
    requires t.Valid()
    ensures var s := Stamp(t);
      && Value(s[0..4]) == t.year && Value(s[4..6]) == t.month && Value(s[6..8]) == t.day
      && Value(s[9..11]) == t.hour && Value(s[11..13]) == t.minute && Value(s[13..15]) == t.second
  {
    var s := Stamp(t);
    var date := Digits(t.year, 4) + Digits(t.month, 2) + Digits(t.day, 2);
    var time := Digits(t.hour, 2) + Digits(t.minute, 2) + Digits(t.second, 2);
    ThreeFields(t.year, 4, t.month, t.day);
    ThreeFields(t.hour, 2, t.minute, t.second);
    SlicesOfJoined(date, time);
  }

  /** Two audits a second or more apart write to different files. */
  lemma ReportPathInjective(t1: DateTime, t2: DateTime)
    requires t1.Valid() && t2.Valid() && ReportPath(t1) == ReportPath(t2)
    ensures t1 == t2
  {
    assert Stamp(t1) == ReportPath(t1)[15..30] == Stamp(t2);
    StampFields(t1);
    StampFields(t2);
  }

  /** `c * n` */
  function Repeat(c: char, n: nat): (s: string)
    ensures |s| == n && forall i :: 0 <= i < n ==> s[i] == c
  {
    seq(n, _ => c)
  }

  const ReportTitle := "Relatório de Auditoria - "
  const AgentsTitle := "Arquivos de Agentes (src/agents):\n"
  const WorkspaceTitle := "\n\nArquivos do Workspace (workspace):\n"
  const NoFiles := "Nenhum arquivo encontrado.\n"

  /** `"- " + f` for each file, in order. */
  function Dashed(files: seq<string>): (ls: seq<string>)
    ensures |ls| == |files|
    ensures forall i :: 0 <= i < |ls| ==> ls[i] == "- " + files[i]
  {
    seq(|files|, i requires 0 <= i < |files| => "- " + files[i])
  }

  /** One section's body: the dashed file lines joined by newlines, or the empty-list
      message. */
  function Bullets(files: seq<string>): (b: string)
    ensures files == [] <==> b == NoFiles
  {
    if files == [] then NoFiles
    else
      var b := Join("\n", Dashed(files));
      assert b[0] == '-' by { JoinStarts(Dashed(files)); }
      b
  }

  lemma {:induction false} JoinStarts(parts: seq<string>)
    requires |parts| >= 1
    ensures StartsWith(Join("\n", parts), parts[0])
    decreases |parts|
  {
    if |parts| > 1 {
      var j := Join("\n", parts);
      assert j == parts[0] + "\n" + Join("\n", parts[1..]);
      assert j[..|parts[0]|] == parts[0];
    }
  }

  /** With file names free of newlines, a non-empty list renders as exactly one
      `- <path>` line per file, in order. */
  lemma BulletsOneLinePerFile(files: seq<string>)
    requires files != []
    requires forall i :: 0 <= i < |files| ==> '\n' !in files[i]
    ensures Split(Bullets(files), "\n") == Dashed(files)
  {
    var ls := Dashed(files);
    forall i | 0 <= i < |ls| ensures '\n' !in ls[i] {
      assert ls[i] == "- " + files[i];
    }
    SplitJoinChar(ls, '\n');
  }

  /** The report text, as `run` builds it with `+=`. */
  function Report(now: DateTime, agentsFiles: seq<string>, workspaceFiles: seq<string>): string
    requires now.Valid()
  {
    ReportTitle + Readable(now) + "\n" + Repeat('=', 40) + "\n\n"
      + AgentsTitle + Repeat('-', 33) + "\n" + Bullets(agentsFiles)
      + WorkspaceTitle + Repeat('-', 35) + "\n" + Bullets(workspaceFiles)
  }

  /** The report content built in `run`, one `+=` at a time. */
  method AuditReport(now: DateTime, agentsFiles: seq<string>, workspaceFiles: seq<string>)
    returns (reportContent: string)
    requires now.Valid()
    ensures reportContent == Report(now, agentsFiles, workspaceFiles)
  {
    reportContent := ReportTitle + Readable(now) + "\n";
    reportContent := reportContent + Repeat('=', 40) + "\n\n";
    reportContent := reportContent + AgentsTitle;
    reportContent := reportContent + Repeat('-', 33) + "\n";
    if |agentsFiles| > 0 {
      reportContent := reportContent + Join("\n", Dashed(agentsFiles));
    } else {
      reportContent := reportContent + NoFiles;
    }
    reportContent := reportContent + WorkspaceTitle;
    reportContent := reportContent + Repeat('-', 35) + "\n";
    if |workspaceFiles| > 0 {
      reportContent := reportContent + Join("\n", Dashed(workspaceFiles));
    } else {
      reportContent := reportContent + NoFiles;
    }
  }

  /** The report opens with its timestamped title and a rule of 40 `=`; the agents'
      section comes first, the workspace's last. */
  lemma ReportLayout(now: DateTime, agentsFiles: seq<string>, workspaceFiles: seq<string>)
    requires now.Valid()
    ensures var r := Report(now, agentsFiles, workspaceFiles);
      var title := ReportTitle + Readable(now) + "\n";
      var head := title + Repeat('=', 40) + "\n\n" + AgentsTitle + Repeat('-', 33) + "\n";
      var b := Bullets(agentsFiles);
      && StartsWith(r, title)
      && (forall i :: |title| <= i < |title| + 40 ==> r[i] == '=')
      && OccursAt(r, b, |head|)
      && OccursAt(r, WorkspaceTitle, |head| + |b|)
      && EndsWith(r, Bullets(workspaceFiles))
  {
    var r := Report(now, agentsFiles, workspaceFiles);
    var title := ReportTitle + Readable(now) + "\n";
    var rule := Repeat('=', 40);
    var head := title + rule + "\n\n" + AgentsTitle + Repeat('-', 33) + "\n";
    var b := Bullets(agentsFiles);
    var front := head + b + WorkspaceTitle + Repeat('-', 35) + "\n";
    assert r == front + Bullets(workspaceFiles);
    AppendParts(front, Bullets(workspaceFiles));
    PrefixParts(r, head + b + WorkspaceTitle + Repeat('-', 35), "\n");
    PrefixParts(r, head + b + WorkspaceTitle, Repeat('-', 35));
    PrefixParts(r, head + b, WorkspaceTitle);
    PrefixParts(r, head, b);
    PrefixParts(r, title + rule + "\n\n" + AgentsTitle + Repeat('-', 33), "\n");
    PrefixParts(r, title + rule + "\n\n" + AgentsTitle, Repeat('-', 33));
    PrefixParts(r, title + rule + "\n\n", AgentsTitle);
    PrefixParts(r, title + rule, "\n\n");
    PrefixParts(r, title, rule);
    forall i | |title| <= i < |title| + 40 ensures r[i] == '=' {
      assert r[i] == r[|title|..|title| + 40][i - |title|];
    }
  }

  /** One pass of the monitoring loop: the report file it writes and what it writes
      there, given the clock reading and the two directory trees. */
  method AuditOnce(now: DateTime, agentsTree: seq<Entry>, workspaceTree: seq<Entry>)
    returns (reportFilepath: string, reportContent: string)
    requires now.Valid()
    ensures reportFilepath == ReportPath(now)
    ensures reportContent
         == Report(now, Listing("src/agents", agentsTree), Listing("workspace", workspaceTree))
  {
    reportFilepath := "logs/audit_log_" + Stamp(now) + ".txt";
    var agentsFiles := ListFiles("src/agents", agentsTree);
    var workspaceFiles := ListFiles("workspace", workspaceTree);
    reportContent := AuditReport(now, agentsFiles, workspaceFiles);
  }
}
