/**
 * `CompilerAgent.run(script_path)`: package a Python script with PyInstaller. The name
 * of the executable comes from the script's file name; the executor is handed one
 * command, and the outcome is read from whether the executable exists afterwards.
 */
module CompilerAgent {
  import opened Text

  /** What `run` does, in order: a line printed for the user, or a command handed to
      the execution agent. */
  datatype Effect = Say(text: string) | Execute(command: string)

  const DistPath := "workspace/dist"
  const WorkPath := "workspace/build"

  /** Index of the last `c` in `s`, or -1 (`s.rfind(c)`). */
  function LastIndex(s: string, c: char): (i: int)
    ensures -1 <= i < |s|
    ensures i >= 0 ==> s[i] == c
    ensures forall j :: i < j < |s| ==> s[j] != c
  {
    if s == [] then -1
    else if s[|s| - 1] == c then |s| - 1
    else LastIndex(s[..|s| - 1], c)
  }

  /** `os.path.basename(path)`: what follows the last `/`. */
  function BaseName(path: string): (b: string)
    ensures '/' !in b && EndsWith(path, b)
    ensures |b| < |path| ==> path[|path| - |b| - 1] == '/'
  {
    var b := path[LastIndex(path, '/') + 1..];
    assert path[|path| - |b|..] == b;
    b
  }

  predicate OnlyDots(s: string) {
    forall i :: 0 <= i < |s| ==> s[i] == '.'
  }

  /** `os.path.splitext(name)[0]` for a name without `/`: the text before the last dot,
      unless only dots precede that dot (a leading-dot name has no extension). */
  function Stem(name: string): (r: string)
  {
    var d := LastIndex(name, '.');
    if d >= 0 && !OnlyDots(name[..d]) then name[..d] else name
  }

  /** The stem removes exactly the last extension, if there is one: a prefix of the
      name ending where its last dot starts, with something other than dots before it;
      or the whole name when every dot in it has only dots before it. */
  lemma StemRemovesLastExtension(name: string)
    ensures var r := Stem(name);
      && StartsWith(name, r)
      && (|r| < |name| ==>
            && name[|r|] == '.' && !OnlyDots(r)
            && forall j :: |r| < j < |name| ==> name[j] != '.')
      && (r == name <==> forall j :: 0 <= j < |name| && name[j] == '.' ==> OnlyDots(name[..j]))
  {
    var d := LastIndex(name, '.');
    var r := Stem(name);
    if d >= 0 && !OnlyDots(name[..d]) {
      assert r == name[..d] && |r| < |name|;
      assert !(forall j :: 0 <= j < |name| && name[j] == '.' ==> OnlyDots(name[..j])) by {
        assert name[d] == '.';
      }
    } else {
      forall j | 0 <= j < |name| && name[j] == '.' ensures OnlyDots(name[..j]) {
        assert j <= d;
        forall i | 0 <= i < j ensures name[..j][i] == '.' {
          assert name[..d][i] == name[i];
        }
      }
    }
  }

  /** `f"{script_name}_app"` where `script_name` is the stem of the script's base name. */
  function OutputName(scriptPath: string): (n: string)
    ensures EndsWith(n, "_app") && '/' !in n
  {
    var n := Stem(BaseName(scriptPath)) + "_app";
    StemRemovesLastExtension(BaseName(scriptPath));
    assert n[|n| - 4..] == "_app";
    assert n[..|n| - 4] == Stem(BaseName(scriptPath));
    n
  }

  const CommandHead := "pyinstaller --onefile --noconsole --name \""
  const CommandMiddle := "\" --distpath \"" + DistPath + "\" --workpath \"" + WorkPath + "\" \""
  const CommandTail := "\""

  /** The PyInstaller command line: the output name and the script path, each quoted,
      at fixed places between the fixed options. */
  function CompileCommand(scriptPath: string): (c: string)
    ensures var m := |CommandHead| + |OutputName(scriptPath)| + |CommandMiddle|;
      && StartsWith(c, CommandHead) && EndsWith(c, CommandTail)
      && |c| == m + |scriptPath| + |CommandTail|
      && OccursAt(c, OutputName(scriptPath), |CommandHead|)
      && OccursAt(c, scriptPath, m)
  {
    SplicedAt2(CommandHead, OutputName(scriptPath), CommandMiddle, scriptPath, CommandTail);
    CommandHead + OutputName(scriptPath) + CommandMiddle + scriptPath + CommandTail
  }

  /** Where the executable is expected: the output name inside the dist path the command
      passes to PyInstaller. */
  function FinalPath(scriptPath: string): (p: string)
    ensures StartsWith(p, DistPath + "/") && p[|DistPath| + 1..] == OutputName(scriptPath)
  {
    var p := DistPath + "/" + OutputName(scriptPath);
    assert p[..|DistPath| + 1] == DistPath + "/";
    p
  }

  /** Every line printed for the user starts with this tag. */
  const UserTag := "[USER] "

  function NotFound(scriptPath: string): string {
    UserTag + "❌ Erro de Compilação: Arquivo não encontrado em '" + scriptPath + "'"
  }

  function Compiling(scriptPath: string): string {
    UserTag + "Compilando '" + scriptPath + "'... Isso pode levar alguns minutos."
  }

  const SucceededText := "✅ Compilação concluída! " + "Executável disponível em: "

  function Succeeded(finalPath: string): string {
    UserTag + SucceededText + finalPath
  }

  const FailedText := "❌ Compilação falhou. " + "Verifique os logs."
  const Failed := UserTag + FailedText

  /** `run(script_path)` given whether the script exists before the build and which
      paths exist after it. */
  function Run(scriptPath: string, existsBefore: bool, existsAfter: string -> bool): (effects: seq<Effect>)
    ensures !existsBefore ==> effects == [Say(NotFound(scriptPath))]
  {
    if !existsBefore then [Say(NotFound(scriptPath))]
    else
      var finalPath := FinalPath(scriptPath);
      [Say(Compiling(scriptPath)), Execute(CompileCommand(scriptPath)),
       Say(if existsAfter(finalPath) then Succeeded(finalPath) else Failed)]
  }

  /** The commands handed to the executor, in order. */
  function Executed(effects: seq<Effect>): (cs: seq<string>)
    ensures |cs| <= |effects|
  {
    if effects == [] then []
    else (if effects[0].Execute? then [effects[0].command] else []) + Executed(effects[1..])
  }

  /** The executor runs exactly one command, the compile command, when the script exists,
      and none otherwise. */
  lemma ExecutorCalledOnce(scriptPath: string, existsBefore: bool, existsAfter: string -> bool)
    ensures Executed(Run(scriptPath, existsBefore, existsAfter))
         == if existsBefore then [CompileCommand(scriptPath)] else []
  {
    if existsBefore {
      var finalPath := FinalPath(scriptPath);
      var last := Say(if existsAfter(finalPath) then Succeeded(finalPath) else Failed);
      var c := CompileCommand(scriptPath);
      assert Executed([last]) == [] by {
        assert [last][1..] == [];
      }
      assert Executed([Execute(c), last]) == [c] by {
        assert [Execute(c), last][1..] == [last];
      }
      assert Executed([Say(Compiling(scriptPath)), Execute(c), last]) == [c] by {
        assert [Say(Compiling(scriptPath)), Execute(c), last][1..] == [Execute(c), last];
      }
    }
  }

  /** The success line differs from every line of a failed build. */
  lemma SuccessMessageApart(scriptPath: string, finalPath: string, command: string)
    ensures Say(Succeeded(finalPath)) !in [Say(Compiling(scriptPath)), Execute(command), Say(Failed)]
  {
    assert Succeeded(finalPath)[|UserTag|] == SucceededText[0] == '✅';
    assert Failed[|UserTag|] == FailedText[0] == '❌';
    assert Compiling(scriptPath)[|UserTag|] == 'C';
  }

  /** Success is reported exactly when the expected executable exists after the build. */
  lemma SuccessExactlyWhenBuilt(scriptPath: string, existsAfter: string -> bool)
    ensures Say(Succeeded(FinalPath(scriptPath))) in Run(scriptPath, true, existsAfter)
        <==> existsAfter(FinalPath(scriptPath))
  {
    var finalPath := FinalPath(scriptPath);
    var effects := Run(scriptPath, true, existsAfter);
    if existsAfter(finalPath) {
      assert effects[2] == Say(Succeeded(finalPath));
    } else {
      SuccessMessageApart(scriptPath, finalPath, CompileCommand(scriptPath));
      assert effects == [Say(Compiling(scriptPath)), Execute(CompileCommand(scriptPath)), Say(Failed)];
    }
  }
}
