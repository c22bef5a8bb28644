/**
 * The static task wiring of the dev plugin (DevBasePlugin.applyPlugin) and
 * the part of DevBasePlugin.afterEvaluate that changes the task graph:
 * the Launch4J wiring and the natives fan-out driven by the version
 * manifest's library list.
 */
module DevBasePlugin {
  import opened Optional
  import opened JavaStrings
  import opened JavaFiles
  import opened Tasks
  import opened Natives

  const META_INF: seq<string> := ["META-INF", "META-INF/**", "META-INF/*"]

  const INSTALLER_TASKS: set<string> := {"downloadBaseInstaller", "downloadL4J", "extractL4J"}
  const BACKBONE_TASKS: set<string> :=
    {"extractWorkspace", "updateJson", "compressDeobfData", "mergeJars", "copyAssets", "genSrgs"}

  /** The names applyPlugin registers. */
  function AppliedNames(hasInstaller: bool): set<string>
  {
    BACKBONE_TASKS + (if hasInstaller then INSTALLER_TASKS else {})
  }

  function DevFile(constant: string): Delayed
  {
    DelayedFile(DevConstant(constant))
  }

  function CommonFile(constant: string): Delayed
  {
    DelayedFile(CommonConstant(constant))
  }

  function ExtractWorkspace(): Task
  {
    NewTask(ExtractTask).(
      upToDateWhen := [DirectoryExists("eclipse")],
      sources := [DevFile("WORKSPACE_ZIP")],
      settings := map["into" := DevFile("WORKSPACE")])
  }

  function DownloadBaseInstaller(): Task
  {
    NewTask(DownloadTask).(settings := map[
      "output" := DevFile("INSTALLER_BASE"),
      "url" := DelayedString(DevConstant("INSTALLER_URL"))])
  }

  function DownloadL4J(): Task
  {
    NewTask(DownloadTask).(settings := map[
      "output" := DevFile("LAUNCH4J"),
      "url" := DelayedString(DevConstant("LAUNCH4J_URL"))])
  }

  function ExtractL4J(): Task
  {
    NewTask(ExtractTask).(
      deps := {"downloadL4J"},
      sources := [DevFile("LAUNCH4J")],
      settings := map["into" := DevFile("LAUNCH4J_DIR")])
  }

  function UpdateJson(): Task
  {
    NewTask(DownloadTask).(
      upToDateWhen := [CallFalse],
      settings := map[
        "url" := DelayedString(CommonConstant("MC_JSON_URL")),
        "output" := DevFile("JSON_BASE")])
  }

  function CompressDeobfData(): Task
  {
    NewTask(CompressLZMA).(
      deps := {"genSrgs"},
      settings := map[
        "inputFile" := DevFile("NOTCH_2_SRG_SRG"),
        "outputFile" := DevFile("DEOBF_DATA")])
  }

  function MergeJars(): Task
  {
    NewTask(MergeJarsTask).(
      deps := {"downloadClient", "downloadServer", "updateJson"},
      settings := map[
        "client" := CommonFile("JAR_CLIENT_FRESH"),
        "server" := CommonFile("JAR_SERVER_FRESH"),
        "outJar" := CommonFile("JAR_MERGED"),
        "mergeCfg" := DevFile("MERGE_CFG"),
        "mcVersion" := DelayedString(Text("{MC_VERSION}"))])
  }

  function CopyAssets(): Task
  {
    NewTask(CopyAssetsTask).(
      deps := {"getAssets", "extractWorkspace"},
      settings := map[
        "assetsDir" := CommonFile("ASSETS"),
        "outputDir" := DevFile("ECLIPSE_ASSETS")])
  }

  function GenSrgs(): Task
  {
    NewTask(GenSrgTask).(
      deps := {"extractMcpData"},
      settings := map[
        "inSrg" := DevFile("JOINED_SRG"),
        "inExc" := DevFile("JOINED_EXC"),
        "methodsCsv" := DevFile("METHODS_CSV"),
        "fieldsCsv" := DevFile("FIELDS_CSV"),
        "notchToSrg" := DevFile("NOTCH_2_SRG_SRG"),
        "notchToMcp" := DevFile("NOTCH_2_MCP_SRG"),
        "srgToMcp" := DevFile("SRG_2_MCP_SRG"),
        "mcpToSrg" := DevFile("MCP_2_SRG_SRG"),
        "mcpToNotch" := DevFile("MCP_2_NOTCH_SRG"),
        "srgExc" := DevFile("SRG_EXC"),
        "mcpExc" := DevFile("MCP_EXC")])
  }

  /** The installer tasks applyPlugin registers when there is an installer. */
  function InstallerTasks(hasInstaller: bool): (m: map<string, Task>)
    ensures m.Keys == if hasInstaller then INSTALLER_TASKS else {}
  {
    if hasInstaller then
      map[
        "downloadBaseInstaller" := DownloadBaseInstaller(),
        "downloadL4J" := DownloadL4J(),
        "extractL4J" := ExtractL4J()]
    else map[]
  }

  /** The tasks applyPlugin registers, as it leaves them. */
  function AppliedTasks(hasInstaller: bool): (m: map<string, Task>)
    ensures m.Keys == AppliedNames(hasInstaller)
  {
    BackboneTasks() + InstallerTasks(hasInstaller)
  }

  /** The tasks applyPlugin always registers. */
  function BackboneTasks(): (m: map<string, Task>)
    ensures m.Keys == BACKBONE_TASKS
  {
    map[
      "extractWorkspace" := ExtractWorkspace(),
      "updateJson" := UpdateJson(),
      "compressDeobfData" := CompressDeobfData(),
      "mergeJars" := MergeJars(),
      "copyAssets" := CopyAssets(),
      "genSrgs" := GenSrgs()]
  }

  /** With an installer, an existing uploadArchives task gains an edge to launch4j. */
  function WithUploadEdge(tasks: map<string, Task>, hasInstaller: bool): map<string, Task>
  {
    if hasInstaller && "uploadArchives" in tasks then
      tasks["uploadArchives" := tasks["uploadArchives"].(deps := tasks["uploadArchives"].deps + {"launch4j"})]
    else tasks
  }

  /**
   * applyPlugin: registers the backbone tasks and, with an installer, the
   * installer tasks; nothing else changes but uploadArchives' edge.
   */
  method ApplyPlugin(project: Project, hasInstaller: bool)
    requires project.tasks.Keys !! AppliedNames(hasInstaller)
    modifies project
    ensures project.tasks == WithUploadEdge(old(project.tasks), hasInstaller) + AppliedTasks(hasInstaller)
  {
    ghost var start := WithUploadEdge(project.tasks, hasInstaller);
    AddWorkspaceAndInstaller(project, hasInstaller);
    BuildNamesFree(old(project.tasks), hasInstaller);
    AddBuildTasks(project);
    RegistrationOrder(start, hasInstaller);
  }

  /** The part of applyPlugin before updateJson: extractWorkspace, then the installer block. */
  method AddWorkspaceAndInstaller(project: Project, hasInstaller: bool)
    requires project.tasks.Keys !! AppliedNames(hasInstaller)
    modifies project
    ensures project.tasks
      == WithUploadEdge(old(project.tasks), hasInstaller)["extractWorkspace" := ExtractWorkspace()]
         + InstallerTasks(hasInstaller)
  {
    ghost var start := WithUploadEdge(project.tasks, hasInstaller);
    AddExtractWorkspace(project);
    if hasInstaller {
      if "uploadArchives" in project.tasks {
        ghost var before := project.tasks;
        project.DependsOn("uploadArchives", {"launch4j"});
        SwapUpdates(old(project.tasks), "extractWorkspace", "uploadArchives",
          ExtractWorkspace(), before["uploadArchives"].(deps := before["uploadArchives"].deps + {"launch4j"}));
      }
      assert project.tasks == start["extractWorkspace" := ExtractWorkspace()];
      AddInstallerTasks(project);
      FreshInstallers(start["extractWorkspace" := ExtractWorkspace()], DownloadBaseInstaller(), DownloadL4J(), ExtractL4J());
    } else {
      assert project.tasks + map[] == project.tasks;
    }
  }

  /** After extractWorkspace and the installer tasks, the names the rest of applyPlugin registers are still free. */
  lemma BuildNamesFree(tasks: map<string, Task>, hasInstaller: bool)
    requires tasks.Keys !! AppliedNames(hasInstaller)
    ensures (WithUploadEdge(tasks, hasInstaller)["extractWorkspace" := ExtractWorkspace()] + InstallerTasks(hasInstaller)).Keys
         !! {"updateJson", "compressDeobfData", "mergeJars", "copyAssets", "genSrgs"}
  {
    InstallerNotBackbone();
    assert WithUploadEdge(tasks, hasInstaller).Keys == tasks.Keys;
  }

  /** The part of applyPlugin from updateJson on. */
  method AddBuildTasks(project: Project)
    requires project.tasks.Keys !! {"updateJson", "compressDeobfData", "mergeJars", "copyAssets", "genSrgs"}
    modifies project
    ensures project.tasks == old(project.tasks)["updateJson" := UpdateJson()]["compressDeobfData" := CompressDeobfData()]
      ["mergeJars" := MergeJars()]["copyAssets" := CopyAssets()]["genSrgs" := GenSrgs()]
  {
    AddUpdateJson(project);
    AddCompressDeobfData(project);
    AddMergeJars(project);
    AddCopyAssets(project);
    AddGenSrgs(project);
  }

  /** Registering the tasks one by one, in applyPlugin's order, adds exactly AppliedTasks. */
  lemma RegistrationOrder(start: map<string, Task>, hasInstaller: bool)
    ensures (start["extractWorkspace" := ExtractWorkspace()] + InstallerTasks(hasInstaller))
      ["updateJson" := UpdateJson()]["compressDeobfData" := CompressDeobfData()]
      ["mergeJars" := MergeJars()]["copyAssets" := CopyAssets()]["genSrgs" := GenSrgs()]
      == start + AppliedTasks(hasInstaller)
  {
    FreshUpdates(start, InstallerTasks(hasInstaller), ExtractWorkspace(), UpdateJson(),
      CompressDeobfData(), MergeJars(), CopyAssets(), GenSrgs());
  }

  /** Writes to two different names can be done in either order. */
  lemma SwapUpdates(m: map<string, Task>, a: string, b: string, va: Task, vb: Task)
    requires a != b
    ensures m[a := va][b := vb] == m[b := vb][a := va]
  {
  }

  /** Registering the installer tasks one by one adds their map. */
  lemma FreshInstallers(m: map<string, Task>, base: Task, download: Task, extract: Task)
    ensures m["downloadBaseInstaller" := base]["downloadL4J" := download]["extractL4J" := extract]
      == m + map["downloadBaseInstaller" := base, "downloadL4J" := download, "extractL4J" := extract]
  {
  }

  lemma FreshUpdates(start: map<string, Task>, installer: map<string, Task>,
                     ew: Task, uj: Task, cd: Task, mj: Task, ca: Task, gs: Task)
    requires installer.Keys <= INSTALLER_TASKS
    ensures (start["extractWorkspace" := ew] + installer)
      ["updateJson" := uj]["compressDeobfData" := cd]["mergeJars" := mj]["copyAssets" := ca]["genSrgs" := gs]
      == start + (map["extractWorkspace" := ew, "updateJson" := uj, "compressDeobfData" := cd,
                      "mergeJars" := mj, "copyAssets" := ca, "genSrgs" := gs] + installer)
  {
    var core := map["extractWorkspace" := ew] + installer;
    UpdateThenUnion(start, installer, "extractWorkspace", ew);
    UnionUpdate(start, core, "updateJson", uj);
    UnionUpdate(start, core["updateJson" := uj], "compressDeobfData", cd);
    UnionUpdate(start, core["updateJson" := uj]["compressDeobfData" := cd], "mergeJars", mj);
    UnionUpdate(start, core["updateJson" := uj]["compressDeobfData" := cd]["mergeJars" := mj], "copyAssets", ca);
    UnionUpdate(start, core["updateJson" := uj]["compressDeobfData" := cd]["mergeJars" := mj]["copyAssets" := ca],
      "genSrgs", gs);
    BackboneBeforeInstallers(installer, ew, uj, cd, mj, ca, gs);
  }

  /** Writing to a union writes to its right-hand side. */
  lemma UnionUpdate(a: map<string, Task>, b: map<string, Task>, k: string, v: Task)
    ensures (a + b)[k := v] == a + b[k := v]
  {
  }

  /** A write followed by a union is a union with the written pair in front of the right-hand side. */
  lemma UpdateThenUnion(a: map<string, Task>, b: map<string, Task>, k: string, v: Task)
    ensures a[k := v] + b == a + (map[k := v] + b)
  {
  }

  /** Backbone names never clash with installer names, so their writes can come after the installers. */
  lemma BackboneBeforeInstallers(installer: map<string, Task>, ew: Task, uj: Task, cd: Task, mj: Task, ca: Task, gs: Task)
    requires installer.Keys <= INSTALLER_TASKS
    ensures (map["extractWorkspace" := ew] + installer)
      ["updateJson" := uj]["compressDeobfData" := cd]["mergeJars" := mj]["copyAssets" := ca]["genSrgs" := gs]
      == map["extractWorkspace" := ew, "updateJson" := uj, "compressDeobfData" := cd,
             "mergeJars" := mj, "copyAssets" := ca, "genSrgs" := gs] + installer
  {
    InstallerNotBackbone();
    var lhs := (map["extractWorkspace" := ew] + installer)
      ["updateJson" := uj]["compressDeobfData" := cd]["mergeJars" := mj]["copyAssets" := ca]["genSrgs" := gs];
    var rhs := map["extractWorkspace" := ew, "updateJson" := uj, "compressDeobfData" := cd,
                   "mergeJars" := mj, "copyAssets" := ca, "genSrgs" := gs] + installer;
    assert lhs.Keys == rhs.Keys;
  }

  method AddExtractWorkspace(project: Project)
    requires "extractWorkspace" !in project.tasks
    modifies project
    ensures project.tasks == old(project.tasks)["extractWorkspace" := ExtractWorkspace()]
  {
    project.MakeTask("extractWorkspace", ExtractTask);
    project.UpToDateWhen("extractWorkspace", DirectoryExists("eclipse"));
    project.From("extractWorkspace", DevFile("WORKSPACE_ZIP"));
    project.Set("extractWorkspace", "into", DevFile("WORKSPACE"));
    assert [] + [DirectoryExists("eclipse")] == [DirectoryExists("eclipse")];
    assert [] + [DevFile("WORKSPACE_ZIP")] == [DevFile("WORKSPACE_ZIP")];
  }

  method AddInstallerTasks(project: Project)
    requires project.tasks.Keys !! INSTALLER_TASKS
    modifies project
    ensures project.tasks == old(project.tasks)["downloadBaseInstaller" := DownloadBaseInstaller()]
      ["downloadL4J" := DownloadL4J()]["extractL4J" := ExtractL4J()]
  {
    AddDownloadBaseInstaller(project);
    AddDownloadL4J(project);
    AddExtractL4J(project);
  }

  method AddDownloadBaseInstaller(project: Project)
    requires "downloadBaseInstaller" !in project.tasks
    modifies project
    ensures project.tasks == old(project.tasks)["downloadBaseInstaller" := DownloadBaseInstaller()]
  {
    project.MakeTask("downloadBaseInstaller", DownloadTask);
    project.Set("downloadBaseInstaller", "output", DevFile("INSTALLER_BASE"));
    project.Set("downloadBaseInstaller", "url", DelayedString(DevConstant("INSTALLER_URL")));
  }

  method AddDownloadL4J(project: Project)
    requires "downloadL4J" !in project.tasks
    modifies project
    ensures project.tasks == old(project.tasks)["downloadL4J" := DownloadL4J()]
  {
    project.MakeTask("downloadL4J", DownloadTask);
    project.Set("downloadL4J", "output", DevFile("LAUNCH4J"));
    project.Set("downloadL4J", "url", DelayedString(DevConstant("LAUNCH4J_URL")));
  }

  method AddExtractL4J(project: Project)
    requires "extractL4J" !in project.tasks
    modifies project
    ensures project.tasks == old(project.tasks)["extractL4J" := ExtractL4J()]
  {
    project.MakeTask("extractL4J", ExtractTask);
    project.DependsOn("extractL4J", {"downloadL4J"});
    assert {} + {"downloadL4J"} == {"downloadL4J"};
    project.From("extractL4J", DevFile("LAUNCH4J"));
    project.Set("extractL4J", "into", DevFile("LAUNCH4J_DIR"));
    assert [] + [DevFile("LAUNCH4J")] == [DevFile("LAUNCH4J")];
  }

  method AddUpdateJson(project: Project)
    requires "updateJson" !in project.tasks
    modifies project
    ensures project.tasks == old(project.tasks)["updateJson" := UpdateJson()]
  {
    project.MakeTask("updateJson", DownloadTask);
    project.UpToDateWhen("updateJson", CallFalse);
    project.Set("updateJson", "url", DelayedString(CommonConstant("MC_JSON_URL")));
    project.Set("updateJson", "output", DevFile("JSON_BASE"));
    assert [] + [CallFalse] == [CallFalse];
  }

  method AddCompressDeobfData(project: Project)
    requires "compressDeobfData" !in project.tasks
    modifies project
    ensures project.tasks == old(project.tasks)["compressDeobfData" := CompressDeobfData()]
  {
    project.MakeTask("compressDeobfData", CompressLZMA);
    project.Set("compressDeobfData", "inputFile", DevFile("NOTCH_2_SRG_SRG"));
    project.Set("compressDeobfData", "outputFile", DevFile("DEOBF_DATA"));
    project.DependsOn("compressDeobfData", {"genSrgs"});
    assert {} + {"genSrgs"} == {"genSrgs"};
  }

  method AddMergeJars(project: Project)
    requires "mergeJars" !in project.tasks
    modifies project
    ensures project.tasks == old(project.tasks)["mergeJars" := MergeJars()]
  {
    project.MakeTask("mergeJars", MergeJarsTask);
    ghost var settings: map<string, Delayed> := map[];
    project.Set("mergeJars", "client", CommonFile("JAR_CLIENT_FRESH"));
    SettingWritten(old(project.tasks), "mergeJars", MergeJarsTask, settings, "client", CommonFile("JAR_CLIENT_FRESH"));
    settings := settings["client" := CommonFile("JAR_CLIENT_FRESH")];
    project.Set("mergeJars", "server", CommonFile("JAR_SERVER_FRESH"));
    SettingWritten(old(project.tasks), "mergeJars", MergeJarsTask, settings, "server", CommonFile("JAR_SERVER_FRESH"));
    settings := settings["server" := CommonFile("JAR_SERVER_FRESH")];
    project.Set("mergeJars", "outJar", CommonFile("JAR_MERGED"));
    SettingWritten(old(project.tasks), "mergeJars", MergeJarsTask, settings, "outJar", CommonFile("JAR_MERGED"));
    settings := settings["outJar" := CommonFile("JAR_MERGED")];
    project.Set("mergeJars", "mergeCfg", DevFile("MERGE_CFG"));
    SettingWritten(old(project.tasks), "mergeJars", MergeJarsTask, settings, "mergeCfg", DevFile("MERGE_CFG"));
    settings := settings["mergeCfg" := DevFile("MERGE_CFG")];
    project.Set("mergeJars", "mcVersion", DelayedString(Text("{MC_VERSION}")));
    SettingWritten(old(project.tasks), "mergeJars", MergeJarsTask, settings, "mcVersion", DelayedString(Text("{MC_VERSION}")));
    settings := settings["mcVersion" := DelayedString(Text("{MC_VERSION}"))];
    project.DependsOn("mergeJars", {"downloadClient", "downloadServer", "updateJson"});
    DepsWritten(old(project.tasks), "mergeJars", MergeJarsTask, settings, {"downloadClient", "downloadServer", "updateJson"});
    assert settings == MergeJars().settings;
  }

  method AddCopyAssets(project: Project)
    requires "copyAssets" !in project.tasks
    modifies project
    ensures project.tasks == old(project.tasks)["copyAssets" := CopyAssets()]
  {
    project.MakeTask("copyAssets", CopyAssetsTask);
    project.Set("copyAssets", "assetsDir", CommonFile("ASSETS"));
    project.Set("copyAssets", "outputDir", DevFile("ECLIPSE_ASSETS"));
    project.DependsOn("copyAssets", {"getAssets", "extractWorkspace"});
    assert {} + {"getAssets", "extractWorkspace"} == {"getAssets", "extractWorkspace"};
  }

  method AddGenSrgs(project: Project)
    requires "genSrgs" !in project.tasks
    modifies project
    ensures project.tasks == old(project.tasks)["genSrgs" := GenSrgs()]
  {
    project.MakeTask("genSrgs", GenSrgTask);
    ghost var settings: map<string, Delayed> := map[];
    project.Set("genSrgs", "inSrg", DevFile("JOINED_SRG"));
    SettingWritten(old(project.tasks), "genSrgs", GenSrgTask, settings, "inSrg", DevFile("JOINED_SRG"));
    settings := settings["inSrg" := DevFile("JOINED_SRG")];
    project.Set("genSrgs", "inExc", DevFile("JOINED_EXC"));
    SettingWritten(old(project.tasks), "genSrgs", GenSrgTask, settings, "inExc", DevFile("JOINED_EXC"));
    settings := settings["inExc" := DevFile("JOINED_EXC")];
    project.Set("genSrgs", "methodsCsv", DevFile("METHODS_CSV"));
    SettingWritten(old(project.tasks), "genSrgs", GenSrgTask, settings, "methodsCsv", DevFile("METHODS_CSV"));
    settings := settings["methodsCsv" := DevFile("METHODS_CSV")];
    project.Set("genSrgs", "fieldsCsv", DevFile("FIELDS_CSV"));
    SettingWritten(old(project.tasks), "genSrgs", GenSrgTask, settings, "fieldsCsv", DevFile("FIELDS_CSV"));
    settings := settings["fieldsCsv" := DevFile("FIELDS_CSV")];
    project.Set("genSrgs", "notchToSrg", DevFile("NOTCH_2_SRG_SRG"));
    SettingWritten(old(project.tasks), "genSrgs", GenSrgTask, settings, "notchToSrg", DevFile("NOTCH_2_SRG_SRG"));
    settings := settings["notchToSrg" := DevFile("NOTCH_2_SRG_SRG")];
    project.Set("genSrgs", "notchToMcp", DevFile("NOTCH_2_MCP_SRG"));
    SettingWritten(old(project.tasks), "genSrgs", GenSrgTask, settings, "notchToMcp", DevFile("NOTCH_2_MCP_SRG"));
    settings := settings["notchToMcp" := DevFile("NOTCH_2_MCP_SRG")];
    project.Set("genSrgs", "srgToMcp", DevFile("SRG_2_MCP_SRG"));
    SettingWritten(old(project.tasks), "genSrgs", GenSrgTask, settings, "srgToMcp", DevFile("SRG_2_MCP_SRG"));
    settings := settings["srgToMcp" := DevFile("SRG_2_MCP_SRG")];
    project.Set("genSrgs", "mcpToSrg", DevFile("MCP_2_SRG_SRG"));
    SettingWritten(old(project.tasks), "genSrgs", GenSrgTask, settings, "mcpToSrg", DevFile("MCP_2_SRG_SRG"));
    settings := settings["mcpToSrg" := DevFile("MCP_2_SRG_SRG")];
    project.Set("genSrgs", "mcpToNotch", DevFile("MCP_2_NOTCH_SRG"));
    SettingWritten(old(project.tasks), "genSrgs", GenSrgTask, settings, "mcpToNotch", DevFile("MCP_2_NOTCH_SRG"));
    settings := settings["mcpToNotch" := DevFile("MCP_2_NOTCH_SRG")];
    project.Set("genSrgs", "srgExc", DevFile("SRG_EXC"));
    SettingWritten(old(project.tasks), "genSrgs", GenSrgTask, settings, "srgExc", DevFile("SRG_EXC"));
    settings := settings["srgExc" := DevFile("SRG_EXC")];
    project.Set("genSrgs", "mcpExc", DevFile("MCP_EXC"));
    SettingWritten(old(project.tasks), "genSrgs", GenSrgTask, settings, "mcpExc", DevFile("MCP_EXC"));
    settings := settings["mcpExc" := DevFile("MCP_EXC")];
    project.DependsOn("genSrgs", {"extractMcpData"});
    DepsWritten(old(project.tasks), "genSrgs", GenSrgTask, settings, {"extractMcpData"});
    assert settings == GenSrgs().settings;
  }

  /** dependsOn on a task that so far only has settings: the task is replaced by one with those edges. */
  lemma DepsWritten(m: map<string, Task>, name: string, kind: Kind, settings: map<string, Delayed>, deps: set<string>)
    ensures var t := NewTask(kind).(settings := settings);
            m[name := t][name := t.(deps := t.deps + deps)]
              == m[name := NewTask(kind).(deps := deps, settings := settings)]
  {
    assert {} + deps == deps;
  }

  /**
   * A setter on a task that so far only has settings: the task is
   * replaced by one with the setting added.
   */
  lemma SettingWritten(m: map<string, Task>, name: string, kind: Kind, settings: map<string, Delayed>,
                       property: string, value: Delayed)
    ensures var t := NewTask(kind).(settings := settings);
            m[name := t][name := t.(settings := t.settings[property := value])]
              == m[name := NewTask(kind).(settings := settings[property := value])]
  {
  }

  /** The download task registered for one natives download. */
  function NativesDownloadTask(d: NativeDownload): Task
  {
    NewTask(DownloadTask).(settings := map[
      "output" := DelayedFile(Text(d.file)),
      "url" := DelayedString(Text(d.url))])
  }

  /** The set of the plan's task names. */
  function NameSet(plan: seq<NativeDownload>): set<string>
  {
    set i | 0 <= i < |plan| :: plan[i].taskName
  }

  /** The download tasks of a plan, by name. */
  function DownloadTasks(plan: seq<NativeDownload>): (m: map<string, Task>)
    ensures m.Keys == NameSet(plan)
  {
    if plan == [] then map[]
    else
      var front := plan[..|plan| - 1];
      var last := plan[|plan| - 1];
      assert NameSet(plan) == NameSet(front) + {last.taskName} by {
        assert forall i :: 0 <= i < |front| ==> front[i] == plan[i];
      }
      DownloadTasks(front)[last.taskName := NativesDownloadTask(last)]
  }

  /** The sources extractNativesNew gains from a plan: each download's output file, in order. */
  function NativesSources(plan: seq<NativeDownload>): (sources: seq<Delayed>)
    ensures |sources| == |plan|
    ensures forall i :: 0 <= i < |plan| ==> sources[i] == DelayedFile(Text(Files(plan)[i]))
  {
    if plan == [] then [] else NativesSources(plan[..|plan| - 1]) + [DelayedFile(Text(plan[|plan| - 1].file))]
  }

  /** The plan's names are new: pairwise distinct and not registered yet. */
  predicate NativesFresh(tasks: map<string, Task>, plan: seq<NativeDownload>)
  {
    DistinctNames(plan) && forall i :: 0 <= i < |plan| ==> plan[i].taskName !in tasks
  }

  /**
   * The task graph after the natives loop has handled `plan`: the download
   * tasks registered, and extractNativesNew reading their files and
   * depending on them.
   */
  function WithNativesWired(tasks: map<string, Task>, plan: seq<NativeDownload>): map<string, Task>
    requires "extractNativesNew" in tasks
  {
    var e := tasks["extractNativesNew"];
    (tasks + DownloadTasks(plan))["extractNativesNew" := e.(
      sources := e.sources + NativesSources(plan),
      deps := e.deps + NameSet(plan))]
  }

  /** One more download: its task is registered, then wired into extractNativesNew. */
  lemma {:induction false} WiredStep(tasks: map<string, Task>, plan: seq<NativeDownload>, d: NativeDownload)
    requires "extractNativesNew" in tasks
    requires d.taskName !in tasks && d.taskName !in NameSet(plan)
    ensures var before := WithNativesWired(tasks, plan);
            var registered := before[d.taskName := NativesDownloadTask(d)];
            var e := registered["extractNativesNew"];
            WithNativesWired(tasks, plan + [d])
              == registered["extractNativesNew" := e.(sources := e.sources + [DelayedFile(Text(d.file))])
                                                     .(deps := e.deps + {d.taskName})]
  {
    var plan' := plan + [d];
    var n, t := d.taskName, NativesDownloadTask(d);
    assert plan'[..|plan'| - 1] == plan;
    assert NameSet(plan') == NameSet(plan) + {n} by {
      assert forall i :: 0 <= i < |plan| ==> plan'[i] == plan[i];
    }
    assert NativesSources(plan') == NativesSources(plan) + [DelayedFile(Text(d.file))];
    var e0 := tasks["extractNativesNew"];
    var e1 := e0.(sources := e0.sources + NativesSources(plan), deps := e0.deps + NameSet(plan));
    var e2 := e0.(sources := e0.sources + NativesSources(plan'), deps := e0.deps + NameSet(plan'));
    assert e1.(sources := e1.sources + [DelayedFile(Text(d.file))]).(deps := e1.deps + {n}) == e2;
    var union := tasks + DownloadTasks(plan);
    UnionUpdate(tasks, DownloadTasks(plan), n, t);
    SwapUpdates(union, "extractNativesNew", n, e1, t);
    Overwrite(union[n := t], "extractNativesNew", e1, e2);
  }

  /**
   * The natives loop: for each library with natives, registers its
   * download task and wires it into extractNativesNew.
   */
  method CreateNativesTasks(project: Project, libs: seq<Library>, info: LibraryInfo)
    requires NamesUsable(libs)
    requires "extractNativesNew" in project.tasks
    requires NativesFresh(project.tasks, Plan(libs, info))
    modifies project
    ensures project.tasks == WithNativesWired(old(project.tasks), Plan(libs, info))
  {
    var i := 0;
    assert libs[..0] == [];
    ghost var e := project.tasks["extractNativesNew"];
    assert NameSet([]) == {};
    assert e.(sources := e.sources + [], deps := e.deps + {}) == e;
    assert (project.tasks + map[])["extractNativesNew" := e] == project.tasks;
    while i < |libs|
      invariant 0 <= i <= |libs|
      invariant NamesUsable(libs[..i])
      invariant "extractNativesNew" in old(project.tasks)
      invariant project.tasks == WithNativesWired(old(project.tasks), Plan(libs[..i], info))
    {
      var lib := libs[i];
      NextLibrary(project.tasks, old(project.tasks), libs, i, info);
      if lib.natives.Some? {
        WireNativesDownload(project, lib, info, old(project.tasks), Plan(libs[..i], info));
      }
      i := i + 1;
    }
    assert libs[..i] == libs;
  }

  /**
   * The plan of the first i + 1 libraries extends that of the first i by
   * library i's download, if it has natives; that download's name is new.
   */
  lemma NextLibrary(tasks: map<string, Task>, original: map<string, Task>, libs: seq<Library>, i: nat, info: LibraryInfo)
    requires i < |libs| && NamesUsable(libs)
    requires NativesFresh(original, Plan(libs, info))
    requires "extractNativesNew" in original
    requires tasks == WithNativesWired(original, Plan(libs[..i], info))
    ensures NamesUsable(libs[..i]) && NamesUsable(libs[..i + 1])
    ensures libs[i].natives.None? ==> Plan(libs[..i + 1], info) == Plan(libs[..i], info)
    ensures libs[i].natives.Some? ==>
              HasArtifactField(libs[i])
              && Plan(libs[..i + 1], info) == Plan(libs[..i], info) + [DownloadFor(libs[i], info)]
              && TaskName(libs[i]) !in original
              && TaskName(libs[i]) !in NameSet(Plan(libs[..i], info))
              && TaskName(libs[i]) !in tasks
  {
    PlanStep(libs, i, info);
    if libs[i].natives.Some? {
      NextNameFresh(original, Plan(libs[..i], info), DownloadFor(libs[i], info), Plan(libs[i + 1..], info));
    }
  }

  /** A download of a fresh plan has a name neither registered before nor used by the downloads ahead of it. */
  lemma NextNameFresh(original: map<string, Task>, done: seq<NativeDownload>, d: NativeDownload, rest: seq<NativeDownload>)
    requires "extractNativesNew" in original
    requires NativesFresh(original, done + [d] + rest)
    ensures d.taskName !in original && d.taskName !in NameSet(done)
    ensures d.taskName !in WithNativesWired(original, done)
  {
    var plan := done + [d] + rest;
    assert plan[|done|] == d;
    forall k | 0 <= k < |done|
      ensures done[k].taskName != d.taskName
    {
      assert plan[k] == done[k];
    }
    assert WithNativesWired(original, done).Keys == original.Keys + NameSet(done);
  }

  /** One pass of the natives loop for a library with natives, seen as a step of WithNativesWired. */
  method WireNativesDownload(project: Project, lib: Library, info: LibraryInfo,
                             ghost original: map<string, Task>, ghost done: seq<NativeDownload>)
    requires HasArtifactField(lib)
    requires "extractNativesNew" in original
    requires TaskName(lib) !in original && TaskName(lib) !in NameSet(done)
    requires project.tasks == WithNativesWired(original, done)
    modifies project
    ensures project.tasks == WithNativesWired(original, done + [DownloadFor(lib, info)])
  {
    assert project.tasks.Keys == original.Keys + NameSet(done);
    RegisterNativesDownload(project, lib, info);
    WiredStep(original, done, DownloadFor(lib, info));
  }

  /** One pass of the natives loop for a library with natives. */
  method RegisterNativesDownload(project: Project, lib: Library, info: LibraryInfo)
    requires HasArtifactField(lib)
    requires "extractNativesNew" in project.tasks && TaskName(lib) !in project.tasks
    modifies project
    ensures var d := DownloadFor(lib, info);
            var registered := old(project.tasks)[d.taskName := NativesDownloadTask(d)];
            var e := registered["extractNativesNew"];
            project.tasks == registered["extractNativesNew" := e.(sources := e.sources + [DelayedFile(Text(d.file))])
                                                                .(deps := e.deps + {d.taskName})]
  {
    var path := info.pathNatives(lib);
    var taskName := "downloadNatives-" + Split(lib.artifactName, ':')[1];
    project.MakeTask(taskName, DownloadTask);
    project.Set(taskName, "output", DelayedFile(Text("{CACHE_DIR}/minecraft/" + path)));
    project.Set(taskName, "url", DelayedString(Text(info.url(lib) + path)));
    project.From("extractNativesNew", DelayedFile(Text("{CACHE_DIR}/minecraft/" + path)));
    project.DependsOn("extractNativesNew", {taskName});
  }

  /** extractNativesNew as afterEvaluate registers it, before the natives loop. */
  function ExtractNativesNew(): Task
  {
    NewTask(ExtractTask).(
      excludes := META_INF,
      settings := map["into" := CommonFile("NATIVES_DIR")])
  }

  /** extractNatives: copies the natives into the Eclipse workspace. */
  function ExtractNatives(): Task
  {
    NewTask(CopyTask).(
      sources := [CommonFile("NATIVES_DIR")],
      excludes := META_INF,
      settings := map["into" := DevFile("ECLIPSE_NATIVES")],
      deps := {"extractWorkspace", "extractNativesNew"})
  }

  /**
   * The graph part of configureLaunch4J: with an installer,
   * generateXmlConfig depends on packageInstaller and extractL4J and reads
   * the installer file.
   */
  function WithLaunch4JEdges(tasks: map<string, Task>, hasInstaller: bool, installer: string): map<string, Task>
    requires hasInstaller ==> "generateXmlConfig" in tasks
  {
    if !hasInstaller then tasks
    else
      var g := tasks["generateXmlConfig"];
      tasks["generateXmlConfig" := g.(deps := g.deps + {"packageInstaller", "extractL4J"}, inputFiles := g.inputFiles + [installer])]
  }

  /** The task graph after afterEvaluate. */
  function AfterEvaluated(tasks: map<string, Task>, hasInstaller: bool, installer: string,
                          devJsonSet: bool, libs: seq<Library>, info: LibraryInfo): map<string, Task>
    requires hasInstaller ==> "generateXmlConfig" in tasks
    requires devJsonSet ==> NamesUsable(libs)
  {
    var natives := WithLaunch4JEdges(tasks, hasInstaller, installer)
      ["extractNativesNew" := ExtractNativesNew()]["extractNatives" := ExtractNatives()];
    if devJsonSet then WithNativesWired(natives, Plan(libs, info)) else natives
  }

  /**
   * configureLaunch4J's changes to the task graph. `installer` is the file
   * the source takes as the installer (`Launch4J.InstallerFileAsWritten`);
   * `onWindows` decides whether extractL4J is looked up.
   */
  method ConfigureLaunch4JTasks(project: Project, hasInstaller: bool, installer: string, onWindows: bool)
    requires hasInstaller ==> "packageInstaller" in project.tasks && "generateXmlConfig" in project.tasks
    requires hasInstaller && !onWindows ==> "extractL4J" in project.tasks
    modifies project
    ensures project.tasks == WithLaunch4JEdges(old(project.tasks), hasInstaller, installer)
  {
    if !hasInstaller {
      return;
    }
    project.DependsOn("generateXmlConfig", {"packageInstaller", "extractL4J"});
    project.InputFile("generateXmlConfig", installer);
  }

  /**
   * The task graph changes of afterEvaluate: the Launch4J edges, the two
   * natives tasks and, when the dev json is set, the natives loop over the
   * manifest's libraries.
   */
  method AfterEvaluate(project: Project, hasInstaller: bool, installer: string, onWindows: bool,
                       devJsonSet: bool, libs: seq<Library>, info: LibraryInfo)
    requires hasInstaller ==> "packageInstaller" in project.tasks && "generateXmlConfig" in project.tasks
    requires hasInstaller && !onWindows ==> "extractL4J" in project.tasks
    requires "obfuscateJar" in project.tasks
    requires "extractNativesNew" !in project.tasks && "extractNatives" !in project.tasks
    requires devJsonSet ==> NamesUsable(libs) && NativesFresh(project.tasks, Plan(libs, info))
    modifies project
    ensures project.tasks == AfterEvaluated(old(project.tasks), hasInstaller, installer, devJsonSet, libs, info)
  {
    ConfigureLaunch4JTasks(project, hasInstaller, installer, onWindows);
    AddNativesTasks(project);
    if !devJsonSet {
      return;
    }
    PlanNamesPrefixed(libs, info);
    NativesStillFresh(old(project.tasks), project.tasks, Plan(libs, info));
    CreateNativesTasks(project, libs, info);
  }

  /** Registers extractNativesNew and extractNatives. */
  method AddNativesTasks(project: Project)
    requires "extractNativesNew" !in project.tasks && "extractNatives" !in project.tasks
    modifies project
    ensures project.tasks == old(project.tasks)["extractNativesNew" := ExtractNativesNew()]["extractNatives" := ExtractNatives()]
  {
    AddExtractNativesNew(project);
    AddExtractNatives(project);
  }

  method AddExtractNativesNew(project: Project)
    requires "extractNativesNew" !in project.tasks
    modifies project
    ensures project.tasks == old(project.tasks)["extractNativesNew" := ExtractNativesNew()]
  {
    project.MakeTask("extractNativesNew", ExtractTask);
    project.Exclude("extractNativesNew", META_INF);
    project.Set("extractNativesNew", "into", CommonFile("NATIVES_DIR"));
    assert [] + META_INF == META_INF;
  }

  method AddExtractNatives(project: Project)
    requires "extractNatives" !in project.tasks
    modifies project
    ensures project.tasks == old(project.tasks)["extractNatives" := ExtractNatives()]
  {
    project.MakeTask("extractNatives", CopyTask);
    project.From("extractNatives", CommonFile("NATIVES_DIR"));
    project.Exclude("extractNatives", META_INF);
    project.Set("extractNatives", "into", DevFile("ECLIPSE_NATIVES"));
    project.DependsOn("extractNatives", {"extractWorkspace", "extractNativesNew"});
    assert [] + [CommonFile("NATIVES_DIR")] == [CommonFile("NATIVES_DIR")];
    assert [] + META_INF == META_INF;
    assert {} + {"extractWorkspace", "extractNativesNew"} == {"extractWorkspace", "extractNativesNew"};
  }

  /**
   * Names fresh before afterEvaluate stay fresh after the natives tasks are
   * added: a natives task name starts with "downloadNatives-", so it is
   * neither extractNativesNew nor extractNatives.
   */
  lemma NativesStillFresh(before: map<string, Task>, after: map<string, Task>, plan: seq<NativeDownload>)
    requires NativesFresh(before, plan)
    requires after.Keys == before.Keys + {"extractNativesNew", "extractNatives"}
    requires forall i :: 0 <= i < |plan| ==> StartsWith(plan[i].taskName, TASK_PREFIX)
    ensures NativesFresh(after, plan)
  {
    forall i | 0 <= i < |plan|
      ensures plan[i].taskName !in after
    {
      var name := plan[i].taskName;
      assert name[0] == 'd';
    }
  }

  /** After applyPlugin, each task it registers is as AppliedTasks describes it, whatever was there before. */
  lemma RegisteredAsApplied(tasks: map<string, Task>, hasInstaller: bool, name: string)
    requires name in AppliedNames(hasInstaller)
    ensures name in WithUploadEdge(tasks, hasInstaller) + AppliedTasks(hasInstaller)
    ensures (WithUploadEdge(tasks, hasInstaller) + AppliedTasks(hasInstaller))[name] == AppliedTasks(hasInstaller)[name]
  {
  }

  /** Looking a backbone task up in the registered map, whatever its values. */
  lemma BackboneLookup(installer: map<string, Task>, ew: Task, uj: Task, cd: Task, mj: Task, ca: Task, gs: Task)
    requires installer.Keys <= INSTALLER_TASKS
    ensures var m := map["extractWorkspace" := ew, "updateJson" := uj, "compressDeobfData" := cd,
                         "mergeJars" := mj, "copyAssets" := ca, "genSrgs" := gs] + installer;
            m["extractWorkspace"] == ew && m["updateJson"] == uj && m["compressDeobfData"] == cd
            && m["mergeJars"] == mj && m["copyAssets"] == ca && m["genSrgs"] == gs
  {
  }

  /** Each backbone task is registered as its own description says. */
  lemma AppliedBackbone(hasInstaller: bool)
    ensures var applied := AppliedTasks(hasInstaller);
            && applied["extractWorkspace"] == ExtractWorkspace()
            && applied["updateJson"] == UpdateJson()
            && applied["compressDeobfData"] == CompressDeobfData()
            && applied["mergeJars"] == MergeJars()
            && applied["copyAssets"] == CopyAssets()
            && applied["genSrgs"] == GenSrgs()
  {
    BackboneLookup(InstallerTasks(hasInstaller), ExtractWorkspace(), UpdateJson(), CompressDeobfData(),
      MergeJars(), CopyAssets(), GenSrgs());
  }

  /** The static edges of applyPlugin are exactly those the source lists. */
  lemma StaticEdges(hasInstaller: bool)
    ensures var applied := AppliedTasks(hasInstaller);
            && applied["mergeJars"].deps == {"downloadClient", "downloadServer", "updateJson"}
            && applied["compressDeobfData"].deps == {"genSrgs"}
            && applied["copyAssets"].deps == {"getAssets", "extractWorkspace"}
            && applied["genSrgs"].deps == {"extractMcpData"}
            && applied["extractWorkspace"].deps == {}
            && applied["updateJson"].deps == {}
  {
    AppliedBackbone(hasInstaller);
  }

  /**
   * On a project without them, the installer tasks exist after applyPlugin
   * exactly when there is an installer, and extractL4J then depends on
   * downloadL4J alone.
   */
  lemma InstallerTasksIffInstaller(tasks: map<string, Task>, hasInstaller: bool)
    requires tasks.Keys !! AppliedNames(true)
    ensures var applied := WithUploadEdge(tasks, hasInstaller) + AppliedTasks(hasInstaller);
            && (forall name :: name in INSTALLER_TASKS ==> (name in applied <==> hasInstaller))
            && (hasInstaller ==> applied["extractL4J"].deps == {"downloadL4J"})
  {
    var applied := WithUploadEdge(tasks, hasInstaller) + AppliedTasks(hasInstaller);
    AppliedKeys(tasks, hasInstaller);
    InstallerNotBackbone();
    if hasInstaller {
      AppliedInstaller();
    }
  }

  /** applyPlugin adds exactly the applied names to those already registered. */
  lemma AppliedKeys(tasks: map<string, Task>, hasInstaller: bool)
    ensures (WithUploadEdge(tasks, hasInstaller) + AppliedTasks(hasInstaller)).Keys
         == tasks.Keys + AppliedNames(hasInstaller)
  {
    assert WithUploadEdge(tasks, hasInstaller).Keys == tasks.Keys;
  }

  lemma InstallerNotBackbone()
    ensures INSTALLER_TASKS !! BACKBONE_TASKS
  {
  }

  /** Each installer task is registered as its own description says. */
  lemma AppliedInstaller()
    ensures var applied := AppliedTasks(true);
            && applied["downloadBaseInstaller"] == DownloadBaseInstaller()
            && applied["downloadL4J"] == DownloadL4J()
            && applied["extractL4J"] == ExtractL4J()
  {
    InstallerLookup(BackboneTasks(), DownloadBaseInstaller(), DownloadL4J(), ExtractL4J());
  }

  /** Looking an installer task up in the registered map, whatever its values. */
  lemma InstallerLookup(backbone: map<string, Task>, base: Task, download: Task, extract: Task)
    ensures var m := backbone + map["downloadBaseInstaller" := base, "downloadL4J" := download, "extractL4J" := extract];
            m["downloadBaseInstaller"] == base && m["downloadL4J"] == download && m["extractL4J"] == extract
  {
  }

  /** uploadArchives, when present, gains the edge to launch4j exactly when there is an installer. */
  lemma UploadEdge(tasks: map<string, Task>, hasInstaller: bool)
    requires tasks.Keys !! AppliedNames(hasInstaller)
    requires "uploadArchives" in tasks
    ensures var applied := WithUploadEdge(tasks, hasInstaller) + AppliedTasks(hasInstaller);
            applied["uploadArchives"].deps
              == tasks["uploadArchives"].deps + (if hasInstaller then {"launch4j"} else {})
  {
    assert "uploadArchives" !in AppliedNames(hasInstaller);
  }

  /** updateJson is never up to date: its only predicate is Constants.CALL_FALSE. */
  lemma UpdateJsonNeverUpToDate(hasInstaller: bool, projectDir: string, fs: FileSystem)
    ensures !PredicatesAllowUpToDate(AppliedTasks(hasInstaller)["updateJson"], projectDir, fs)
  {
    AppliedBackbone(hasInstaller);
    assert UpdateJson().upToDateWhen[0] == CallFalse;
  }

  /** extractWorkspace may be up to date exactly when the project's eclipse directory exists. */
  lemma ExtractWorkspaceUpToDate(hasInstaller: bool, projectDir: string, fs: FileSystem)
    ensures PredicatesAllowUpToDate(AppliedTasks(hasInstaller)["extractWorkspace"], projectDir, fs)
        <==> IsExistingDirectory(fs, Child(projectDir, "eclipse"))
  {
    AppliedBackbone(hasInstaller);
    var task := ExtractWorkspace();
    assert task.upToDateWhen == [DirectoryExists("eclipse")];
    assert CheckHolds(task.upToDateWhen[0], projectDir, fs) <==> IsExistingDirectory(fs, Child(projectDir, "eclipse"));
  }

  /** A plan with distinct names has as many names as downloads. */
  lemma {:induction false} DistinctNameCount(plan: seq<NativeDownload>)
    requires DistinctNames(plan)
    ensures |NameSet(plan)| == |plan|
    decreases |plan|
  {
    if plan != [] {
      var front := plan[..|plan| - 1];
      var last := plan[|plan| - 1];
      assert DistinctNames(front);
      DistinctNameCount(front);
      assert NameSet(plan) == NameSet(front) + {last.taskName} by {
        assert forall i :: 0 <= i < |front| ==> front[i] == plan[i];
      }
      assert last.taskName !in NameSet(front);
    }
  }

  /** Each download of a plan with distinct names is registered under its own name. */
  lemma {:induction false} DownloadTasksLookup(plan: seq<NativeDownload>, k: nat)
    requires DistinctNames(plan) && k < |plan|
    ensures plan[k].taskName in DownloadTasks(plan)
    ensures DownloadTasks(plan)[plan[k].taskName] == NativesDownloadTask(plan[k])
    decreases |plan|
  {
    if k < |plan| - 1 {
      var front := plan[..|plan| - 1];
      assert DistinctNames(front);
      DownloadTasksLookup(front, k);
      assert front[k] == plan[k];
    }
  }

  /**
   * The natives loop registers exactly one download task per planned
   * download, with its output and URL; extractNativesNew gains exactly
   * the planned files as sources and the planned tasks as dependencies;
   * every other task is unchanged.
   */
  lemma NativesWiring(tasks: map<string, Task>, plan: seq<NativeDownload>)
    requires "extractNativesNew" in tasks && NativesFresh(tasks, plan)
    ensures var wired := WithNativesWired(tasks, plan);
            && wired.Keys == tasks.Keys + NameSet(plan)
            && |NameSet(plan)| == |plan|
            && (forall i :: 0 <= i < |plan| ==> wired[plan[i].taskName] == NativesDownloadTask(plan[i]))
            && wired["extractNativesNew"].sources == tasks["extractNativesNew"].sources + NativesSources(plan)
            && wired["extractNativesNew"].deps == tasks["extractNativesNew"].deps + NameSet(plan)
            && (forall name :: name in tasks && name != "extractNativesNew" ==> wired[name] == tasks[name])
  {
    DistinctNameCount(plan);
    WiredDownloads(tasks, plan);
    WiredOthers(tasks, plan);
  }

  /** Each planned download is registered under its name. */
  lemma WiredDownloads(tasks: map<string, Task>, plan: seq<NativeDownload>)
    requires "extractNativesNew" in tasks && NativesFresh(tasks, plan)
    ensures var wired := WithNativesWired(tasks, plan);
            forall i :: 0 <= i < |plan| ==> plan[i].taskName in wired && wired[plan[i].taskName] == NativesDownloadTask(plan[i])
  {
    var wired := WithNativesWired(tasks, plan);
    forall i | 0 <= i < |plan|
      ensures plan[i].taskName in wired && wired[plan[i].taskName] == NativesDownloadTask(plan[i])
    {
      DownloadTasksLookup(plan, i);
      assert plan[i].taskName != "extractNativesNew";
    }
  }

  /** The names are those before plus the planned ones, and tasks other than extractNativesNew keep their value. */
  lemma WiredOthers(tasks: map<string, Task>, plan: seq<NativeDownload>)
    requires "extractNativesNew" in tasks && NativesFresh(tasks, plan)
    ensures var wired := WithNativesWired(tasks, plan);
            && wired.Keys == tasks.Keys + NameSet(plan)
            && (forall name :: name in tasks && name != "extractNativesNew" ==> wired[name] == tasks[name])
  {
    forall name | name in NameSet(plan)
      ensures name !in tasks
    {
      var i :| 0 <= i < |plan| && plan[i].taskName == name;
    }
  }

  /**
   * After afterEvaluate, extractNatives depends on exactly extractWorkspace
   * and extractNativesNew, and both natives tasks exclude the META-INF
   * patterns.
   */
  lemma NativesTasksShape(tasks: map<string, Task>, hasInstaller: bool, installer: string,
                          devJsonSet: bool, libs: seq<Library>, info: LibraryInfo)
    requires hasInstaller ==> "generateXmlConfig" in tasks
    requires devJsonSet ==> NamesUsable(libs) && NativesFresh(tasks, Plan(libs, info))
    ensures var after := AfterEvaluated(tasks, hasInstaller, installer, devJsonSet, libs, info);
            && "extractNatives" in after && "extractNativesNew" in after
            && after["extractNatives"].deps == {"extractWorkspace", "extractNativesNew"}
            && after["extractNatives"].excludes == META_INF
            && after["extractNativesNew"].excludes == META_INF
  {
    if devJsonSet {
      var natives := WithLaunch4JEdges(tasks, hasInstaller, installer)
        ["extractNativesNew" := ExtractNativesNew()]["extractNatives" := ExtractNatives()];
      var plan := Plan(libs, info);
      PlanNamesPrefixed(libs, info);
      forall i | 0 <= i < |plan|
        ensures plan[i].taskName != "extractNatives"
      {
        assert plan[i].taskName[0] == 'd';
      }
      assert "extractNatives" !in NameSet(plan);
    }
  }
}
