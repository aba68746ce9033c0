/**
 * `LibrarianAgent.generate_project_map`: write `workspace/project_map.md`, a Markdown
 * page with one section per known directory, saying whether it exists and what it is for.
 */
module LibrarianAgent {
  import opened Text

  const ProjectMapPath := "workspace/project_map.md"
  const ProjectRoot := "."

  /** `dir_map`: each directory with its description, in insertion order. */
  const DirMap: seq<(string, string)> := [
    ("src/core", "Contém os componentes centrais e a lógica de arquitetura do sistema "
      + "de agentes (Orchestrator, BaseAgent, etc.). Regra: Apenas código de "
      + "infraestrutura crítica deve ser adicionado aqui."),
    ("src/agents", "Contém a implementação de cada agente individual. Regra: Cada novo "
      + "agente deve ter seu próprio arquivo aqui, herdando de BaseAgent ou "
      + "FunctionalAgent."),
    ("workspace", "Diretório de trabalho para operações. Contém subpastas para "
      + "artefatos gerados."),
    ("workspace/bugs", "Usado pelo AuditorAgent para criar tickets de bug. Regra: "
      + "Arquivos aqui são priorizados pelo ArchitectAgent."),
    ("workspace/output", "Diretório padrão para a saída de projetos gerados (ex: "
      + "frontend, executáveis)."),
    ("logs", "Contém todos os logs do sistema, incluindo logs de debug detalhados.")
  ]

  const Title := "# Mapa do Projeto e Regras de Arquitetura\n\n"
  const Intro := "Este documento é a fonte da verdade sobre a estrutura do projeto. "
    + "Ele é mantido pelo LibrarianAgent.\n\n"

  const Found := "✅ Encontrado"
  const NotFound := "❌ Não Encontrado"

  /** `os.path.join(".", path)` */
  function FullPath(path: string): string {
    ProjectRoot + "/" + path
  }

  /** The section written for one directory. */
  function Section(entry: (string, string), isDir: string -> bool): string {
    Heading(entry.0, if isDir(FullPath(entry.0)) then Found else NotFound)
      + Purpose(entry.1)
  }

  function Heading(path: string, status: string): string {
    "### Diretório: `" + path + "` (" + status + ")\n"
  }

  function Purpose(description: string): string {
    "- **Função:** " + description + "\n\n"
  }

  /** The sections of the first entries, in order. */
  function Sections(entries: seq<(string, string)>, isDir: string -> bool): string
  {
    if entries == [] then ""
    else Sections(entries[..|entries| - 1], isDir) + Section(entries[|entries| - 1], isDir)
  }

  /** The whole page: the title line, the introduction, and the sections. */
  function ProjectMap(entries: seq<(string, string)>, isDir: string -> bool): string {
    Title + Intro + Sections(entries, isDir)
  }

  /** `generate_project_map`, given `os.path.isdir` and whether the map file can be
      opened for writing. A failure is caught and logged; it never reaches the caller.
      Returns the file written to and the text it ends up holding, if it was opened. */
  method GenerateProjectMap(isDir: string -> bool, canOpen: bool)
    returns (path: string, written: Option<string>)
    ensures path == ProjectMapPath
    ensures canOpen ==> written == Some(ProjectMap(DirMap, isDir))
    ensures !canOpen ==> written == None
  {
    path := ProjectMapPath;
    if !canOpen {
      return path, None;
    }
    var f := WriteMap(DirMap, isDir);
    written := Some(f);
  }

  /** The successive `f.write` calls, for the entries of a directory map. */
  method WriteMap(dirMap: seq<(string, string)>, isDir: string -> bool) returns (f: string)
    ensures f == ProjectMap(dirMap, isDir)
  {
    f := Title;
    f := f + Intro;
    for i := 0 to |dirMap|
      invariant f == Title + Intro + Sections(dirMap[..i], isDir)
    {
      var (dirPath, description) := dirMap[i];
      var fullPath := FullPath(dirPath);
      var status := if isDir(fullPath) then Found else NotFound;
      var heading := "### Diretório: `" + dirPath + "` (" + status + ")\n";
      var purpose := "- **Função:** " + description + "\n\n";
      assert heading + purpose == Section(dirMap[i], isDir);
      SectionsStep(dirMap, isDir, i);
      AppendAssoc(f, heading, purpose);
      AppendAssoc(Title + Intro, Sections(dirMap[..i], isDir), heading + purpose);
      f := f + heading;
      f := f + purpose;
    }
    assert dirMap[..|dirMap|] == dirMap;
  }

  lemma SectionsStep(entries: seq<(string, string)>, isDir: string -> bool, i: nat)
    requires i < |entries|
    ensures Sections(entries[..i + 1], isDir) == Sections(entries[..i], isDir) + Section(entries[i], isDir)
  {
    assert entries[..i + 1][..i] == entries[..i];
  }

  /** Where the section of entry `i` starts in the page. */
  function Offset(entries: seq<(string, string)>, isDir: string -> bool, i: nat): nat
    requires i <= |entries|
  {
    |Title + Intro| + |Sections(entries[..i], isDir)|
  }

  lemma {:induction false} SectionsPrefix(entries: seq<(string, string)>, isDir: string -> bool, i: nat)
    requires i <= |entries|
    ensures StartsWith(Sections(entries, isDir), Sections(entries[..i], isDir))
    decreases |entries|
  {
    if i < |entries| {
      var init := entries[..|entries| - 1];
      SectionsPrefix(init, isDir, i);
      assert init[..i] == entries[..i];
      var s := Sections(entries, isDir);
      assert s == Sections(init, isDir) + Section(entries[|entries| - 1], isDir);
      assert s[..|Sections(init, isDir)|] == Sections(init, isDir);
    } else {
      assert entries[..i] == entries;
    }
  }

  /** The page opens with the title line and the introduction, then holds one section
      per entry, in order, each right after the previous one, and nothing after the last. */
  lemma ProjectMapLayout(entries: seq<(string, string)>, isDir: string -> bool, i: nat)
    requires i < |entries|
    ensures var m := ProjectMap(entries, isDir);
      && StartsWith(m, Title + Intro)
      && Offset(entries, isDir, i + 1) == Offset(entries, isDir, i) + |Section(entries[i], isDir)|
      && Offset(entries, isDir, |entries|) == |m|
      && OccursAt(m, Section(entries[i], isDir), Offset(entries, isDir, i))
  {
    var m := ProjectMap(entries, isDir);
    var head := Title + Intro;
    var all := Sections(entries, isDir);
    var before := Sections(entries[..i], isDir);
    var sec := Section(entries[i], isDir);
    assert entries[..|entries|] == entries;
    SectionsStep(entries, isDir, i);
    SectionsPrefix(entries, isDir, i + 1);
    assert StartsWith(all, before + sec);
    AppendParts(head, all);
    PrefixExtend(head, all, before + sec);
    AppendAssoc(head, before, sec);
    PrefixParts(m, head + before, sec);
    assert Offset(entries, isDir, i) == |head + before|;
  }

  /** A section reports the directory as found exactly when `isdir` holds for it. */
  lemma SectionStatus(entry: (string, string), isDir: string -> bool)
    ensures Section(entry, isDir) == Heading(entry.0, Found) + Purpose(entry.1)
        <==> isDir(FullPath(entry.0))
  {
    if !isDir(FullPath(entry.0)) {
      var k := |"### Diretório: `" + entry.0 + "` ("|;
      assert Heading(entry.0, Found)[k] == Found[0] == '✅';
      assert Heading(entry.0, NotFound)[k] == NotFound[0] == '❌';
      assert (Heading(entry.0, NotFound) + Purpose(entry.1))[k] == '❌';
      assert (Heading(entry.0, Found) + Purpose(entry.1))[k] == '✅';
    }
  }
}
