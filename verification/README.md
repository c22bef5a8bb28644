# DevBasePlugin, modelled in Dafny

A model of the core of ForgeGradle's dev plugin (`DevBasePlugin`), with proofs of what it does:

- **the placeholder resolver** (`resolve`): the inherited resolver runs first. Then nine all-occurrence
  `String.replace` calls run in a fixed order. `{MCP_DATA_DIR}` is rewritten to `{FML_CONF_DIR}`, which the last
  replacement expands. `{VERSION}` is the project version without its `<mcVersion with '-'→'_'>-` prefix;
- **the task graph built by `applyPlugin`**: extractWorkspace, and with an installer the uploadArchives edge and
  the three installer tasks; then updateJson, compressDeobfData, mergeJars, copyAssets and genSrgs. Each has its
  sources, settings, dependency edges and up-to-date predicates;
- **the task graph changes of `afterEvaluate`**: the Launch4J edges of generateXmlConfig, the two natives
  tasks, and the natives fan-out. For every library of the version manifest that has natives, a download task
  is registered and wired into extractNativesNew;
- **the server class path** (`getServerClassPath`): one `libraries/...jar ` entry per library the server
  needs, in manifest order, then the resolved server jar name;
- **the Launch4J name derivations**: the executable beside the installer, the Launch4J command, and the icon.

## Layout

| file | module | what |
|---|---|---|
| `optional.dfy` | `Optional` | `Option` |
| `java_strings.dfy` | `JavaStrings` | `String.replace` (both forms), `startsWith`, `split` on one character |
| `java_files.dfy` | `JavaFiles` | `java.io.File` paths with the Unix separator, and a file-system snapshot |
| `resolver.dfy` | `Resolver` | `resolve`, and a reference reading of it as a substitution table on segmented patterns |
| `tasks.dfy` | `Tasks` | task records and the `Project` class, the task container the plugin mutates |
| `plugin.dfy` | `DevBasePlugin` | `applyPlugin` and the graph part of `afterEvaluate` and `configureLaunch4J`, as methods on a `Project` |
| `natives.dfy` | `Natives` | the natives fan-out as data: which download each library asks for |
| `classpath.dfy` | `ServerClassPath` | `getServerClassPath`'s loop and what it builds |
| `launch4j.dfy` | `Launch4J` | the executable, command and icon derivations |

Code that changes the task container becomes methods of the `Project` class, `Tasks.Project`, which holds the
map of tasks by name. Each method of `DevBasePlugin` makes the same task-container calls the source makes, in the
same order, and its `ensures` gives the whole new task map as a function of the old one (`AppliedTasks`,
`WithNativesWired`, `AfterEvaluated`). The properties the source promises are then lemmas about those
functions. The tasks that the launch4j plugin registers when line 57 applies it are not in the modelled map
(see "## Left out"). The two loops (`CreateNativesTasks` and `GetServerClassPath`) carry invariants that tie each
iteration to a specification function on the libraries seen so far.

Inputs the code reads from outside become parameters:

- the inherited resolver (`Resolver.Context.baseResolve`);
- `Library.getPathNatives()` and `Library.getUrl()` (`Natives.LibraryInfo`);
- `hasInstaller()`, whether a dev json is set, and whether the operating system is Windows (booleans);
- the file taken as the installer (line 159 builds it from the packageInstaller task's path, see "## Findings"), the unpacked Launch4J directory, the demo icon and the working directory (strings);
- the file system, as a snapshot map from path to kind.

`delayedFile`/`delayedString` values are kept unresolved, as the constant or text they were given.

The source raises no error for an unresolved placeholder, detects no dependency cycles and runs no tasks;
the model has none of these either.

## Model

| member | source | states |
|---|---|---|
| Resolver.Resolve | src/main/java/net/minecraftforge/gradle/dev/DevBasePlugin.java:321-343 | the resolver: the inherited resolver's result, then `ResolveLayer`; no contract of its own, its properties are the lemmas below |
| Resolver.ResolveLayer | src/main/java/net/minecraftforge/gradle/dev/DevBasePlugin.java:326-341 | the nine replacements in source order (`{MCP_DATA_DIR}`→`{FML_CONF_DIR}`, `{VERSION}`, `{MAIN_CLASS}`, `{FML_TWEAK_CLASS}`, `{INSTALLER_VERSION}`, `{FML_DIR}`, `{FORGE_DIR}`, `{BUKKIT_DIR}`, `{FML_CONF_DIR}`); no contract of its own, characterised by `LayerMatchesTable`, `LayerIdentity`, `McpDataDirIsConfDir` and the value-scanning lemmas |
| Resolver.McSafe | src/main/java/net/minecraftforge/gradle/dev/DevBasePlugin.java:329 | the Minecraft version with every '-' turned into '_': same length, no '-' left, every other character kept |
| Resolver.DisplayVersion | src/main/java/net/minecraftforge/gradle/dev/DevBasePlugin.java:328-334 | `{VERSION}`'s value: when the project version starts with `McSafe(mcVersion) + "-"` it is what follows that prefix (prefix + result == project version), otherwise the whole project version; either way a suffix of the project version |
| Resolver.SegmentThroughLayer | src/main/java/net/minecraftforge/gradle/dev/DevBasePlugin.java:326-341 | followed through the nine replacements, a literal piece stays, each handled token becomes its table value and any other token stays |
| Resolver.ConfDirThroughLayer | src/main/java/net/minecraftforge/gradle/dev/DevBasePlugin.java:326-341 | both `{MCP_DATA_DIR}` and `{FML_CONF_DIR}` come out as the FML directory + "/conf" |
| Resolver.ValueTokenThroughLayer | src/main/java/net/minecraftforge/gradle/dev/DevBasePlugin.java:334-340 | each of the other seven handled tokens is replaced exactly once, by its plain value |
| Resolver.LayerMatchesTable | src/main/java/net/minecraftforge/gradle/dev/DevBasePlugin.java:323-342 | for any pattern made of text without '{' and brace-free `{NAME}` tokens, with values that hold no '{', the layer replaces every occurrence of every handled token by its table value and leaves all other text alone |
| Resolver.LayerIdempotent | src/main/java/net/minecraftforge/gradle/dev/DevBasePlugin.java:323-342 | for a pattern made of text without '{' and brace-free `{NAME}` tokens, with values that hold no '{', running the layer again on its own output changes nothing |
| Resolver.LayerIdentity | src/main/java/net/minecraftforge/gradle/dev/DevBasePlugin.java:326-341 | a pattern holding none of the nine tokens passes through the layer unchanged |
| Resolver.McpDataDirIsConfDir | src/main/java/net/minecraftforge/gradle/dev/DevBasePlugin.java:326-341 | `{MCP_DATA_DIR}` always ends up as the FML directory + "/conf", whatever the other values are |
| Resolver.EarlierTokensInValueKept | src/main/java/net/minecraftforge/gradle/dev/DevBasePlugin.java:334-341 | a value is not rescanned by replacements that already ran: the FML directory comes out verbatim even if it holds `{VERSION}` |
| Resolver.LaterTokensInValueExpanded | src/main/java/net/minecraftforge/gradle/dev/DevBasePlugin.java:335-341 | a value is scanned by the replacements that run after it: a main class written as `{FML_DIR}` comes out as the FML directory |
| Resolver.ExpectedIsFixed | src/main/java/net/minecraftforge/gradle/dev/DevBasePlugin.java:323-342 | a piece already resolved by the table resolves to itself |
| Resolver.ReplaceSegments | src/main/java/net/minecraftforge/gradle/dev/DevBasePlugin.java:326-341 | one `String.replace` of a token on a segmented pattern replaces exactly that token's segments |
| JavaStrings.Replace | src/main/java/net/minecraftforge/gradle/dev/DevBasePlugin.java:326-341 | `String.replace(CharSequence, CharSequence)`: scans left to right and replaces each non-overlapping match, without rescanning inserted text; its contract says only that a replacement by the target itself is the identity, the lemmas below pin the rest |
| JavaStrings.ReplaceAbsent | src/main/java/net/minecraftforge/gradle/dev/DevBasePlugin.java:326-341 | `String.replace` of a target that does not occur returns the string unchanged |
| JavaStrings.ReplaceAfterUnmatched | src/main/java/net/minecraftforge/gradle/dev/DevBasePlugin.java:326-341 | `String.replace` copies text in which no match starts and carries on after it |
| JavaStrings.ReplaceAvoidsChar | src/main/java/net/minecraftforge/gradle/dev/DevBasePlugin.java:161 | `String.replace` brings in no character that neither the string nor the replacement holds |
| JavaStrings.ReplaceChar | src/main/java/net/minecraftforge/gradle/dev/DevBasePlugin.java:308 | `replace(char, char)` keeps the length and changes exactly the `from` characters |
| JavaStrings.Split | src/main/java/net/minecraftforge/gradle/dev/DevBasePlugin.java:262 | `split` on one character yields a prefix of the separator-delimited fields |
| JavaStrings.DropTrailingEmpty | src/main/java/net/minecraftforge/gradle/dev/DevBasePlugin.java:262 | `split` drops exactly the trailing empty fields |
| JavaStrings.JoinFields | src/main/java/net/minecraftforge/gradle/dev/DevBasePlugin.java:262 | joining the fields with the separator gives the string back |
| JavaStrings.SplitCoordinates | src/main/java/net/minecraftforge/gradle/dev/DevBasePlugin.java:262 | `split(":")` of `group:artifact:version` (no ':' in the parts, version non-empty) is `[group, artifact, version]` |
| JavaStrings.FieldsAfterReplaceChar | src/main/java/net/minecraftforge/gradle/dev/DevBasePlugin.java:308 | after `replace('.', '/')` the '/'-separated parts of the group are its former '.'-separated parts |
| JavaFiles.LastSlash | src/main/java/net/minecraftforge/gradle/dev/DevBasePlugin.java:161 | the last '/' of a path, when there is one, with no '/' after it |
| JavaFiles.Parent | src/main/java/net/minecraftforge/gradle/dev/DevBasePlugin.java:161 | `getParentFile()`: the text before the last '/', "/" when that '/' is the first character, none for a bare name or the root; no contract of its own, characterised by `NameInDirectory` and `ChildKeepsParent` |
| JavaFiles.Child | src/main/java/net/minecraftforge/gradle/dev/DevBasePlugin.java:161 | `new File(parent, child)` for a parent directory: the two joined with one '/', no separator doubled after the root; no contract of its own, characterised by `NameInDirectory` |
| JavaFiles.ChildOf | src/main/java/net/minecraftforge/gradle/dev/DevBasePlugin.java:161 | `new File(parent, child)` for a parent that may be null: the bare child when it is null; no contract of its own, characterised by `ChildKeepsParent` |
| JavaFiles.Name | src/main/java/net/minecraftforge/gradle/dev/DevBasePlugin.java:161 | `File.getName()` holds no '/' |
| JavaFiles.ChildKeepsParent | src/main/java/net/minecraftforge/gradle/dev/DevBasePlugin.java:161 | `new File(f.getParentFile(), name)` for a plain name has f's parent and that name |
| JavaFiles.NameInDirectory | src/main/java/net/minecraftforge/gradle/dev/DevBasePlugin.java:161 | a name placed in a directory has that directory as parent and itself as name |
| JavaFiles.AbsolutePath | src/main/java/net/minecraftforge/gradle/dev/DevBasePlugin.java:199 | `getAbsolutePath()` gives an absolute path: an absolute path unchanged, the empty path as the working directory, and a relative name as that name inside the working directory |
| JavaFiles.AbsolutePathIdempotent | src/main/java/net/minecraftforge/gradle/dev/DevBasePlugin.java:199 | making a path absolute twice is making it absolute once |
| Launch4J.ExePath | src/main/java/net/minecraftforge/gradle/dev/DevBasePlugin.java:161 | `new File(installer.getParentFile(), installer.getName().replace(".jar", "-win.exe"))`; no contract of its own, characterised by `ExeBesideInstaller`, `ExeForInstallerArchive` and `AsWrittenExeIsInstaller` |
| Launch4J.ExeBesideInstaller | src/main/java/net/minecraftforge/gradle/dev/DevBasePlugin.java:161 | the executable lies in the installer's directory, named as the installer with ".jar" replaced by "-win.exe" |
| Launch4J.ExeNameOfJar | src/main/java/net/minecraftforge/gradle/dev/DevBasePlugin.java:161 | a name whose only ".jar" is its end becomes the same name ending in "-win.exe" |
| Launch4J.ExeForInstallerArchive | src/main/java/net/minecraftforge/gradle/dev/DevBasePlugin.java:161 | for an installer archive named `base.jar`, the executable is `base-win.exe` in the same directory, a different file |
| Launch4J.InstallerFileAsWritten | src/main/java/net/minecraftforge/gradle/dev/DevBasePlugin.java:159 | the installer `File` as written: the packageInstaller task's path, not the archive it writes; no contract of its own, used by `AsWrittenExeIsInstaller` and `AsWrittenOutfileIsJar` |
| Launch4J.AsWrittenExeIsInstaller | src/main/java/net/minecraftforge/gradle/dev/DevBasePlugin.java:159-161 | as written (the installer File built from a task path without ".jar" and '/', such as ":packageInstaller" or ":forge:packageInstaller"), the executable path is the installer path itself |
| Launch4J.PackageInstallerPathPlain | src/main/java/net/minecraftforge/gradle/dev/DevBasePlugin.java:159 | the task path ":packageInstaller" holds no ".jar" and no '/' |
| Launch4J.Launch4JCommand | src/main/java/net/minecraftforge/gradle/dev/DevBasePlugin.java:168-172 | the command is exactly `<L4J dir>/launch4jc.exe` on Windows and `<L4J dir>/launch4j` elsewhere, so it ends in "c.exe" exactly on Windows |
| Launch4J.IconPath | src/main/java/net/minecraftforge/gradle/dev/DevBasePlugin.java:194-199 | the demo icon is used exactly when the configured icon is missing or empty, and the result is absolute |
| Launch4J.IconStable | src/main/java/net/minecraftforge/gradle/dev/DevBasePlugin.java:194-200 | writing the derived icon back and deriving it again changes nothing |
| Launch4J.Launch4JSettingsFor | src/main/java/net/minecraftforge/gradle/dev/DevBasePlugin.java:155-201 | settings exist exactly when there is an installer; then the outfile is the absolute `ExePath` of the installer file, the jar the absolute installer file, the command `Launch4JCommand`, the icon `IconPath`, the main class the resolved `{MAIN_CLASS}`, and outfile, jar and icon are absolute |
| Launch4J.AsWrittenOutfileIsJar | src/main/java/net/minecraftforge/gradle/dev/DevBasePlugin.java:159-166 | as written (installer file built from a task path without ".jar" and '/'), the outfile and the jar given to Launch4J are the same path |
| Launch4J.ArchiveSettings | src/main/java/net/minecraftforge/gradle/dev/DevBasePlugin.java:159-166 | with the absolute installer archive `<dir>/<base>.jar` as the installer, the jar is that archive and the outfile is a different file `<base>-win.exe` in the same directory |

| Tasks.Project.MakeTask | src/main/java/net/minecraftforge/gradle/dev/DevBasePlugin.java:44 | `makeTask` on a new name registers a fresh task under it and changes nothing else |
| Tasks.Project.DependsOn | src/main/java/net/minecraftforge/gradle/dev/DevBasePlugin.java:61 | `dependsOn` adds the edges to the named task and changes nothing else |
| Tasks.Project.From | src/main/java/net/minecraftforge/gradle/dev/DevBasePlugin.java:52 | `from` appends one source to the named task and changes nothing else |
| Tasks.Project.Exclude | src/main/java/net/minecraftforge/gradle/dev/DevBasePlugin.java:227 | `exclude` appends the patterns to the named task and changes nothing else |
| Tasks.Project.Set | src/main/java/net/minecraftforge/gradle/dev/DevBasePlugin.java:66 | a setter records one property of the named task and changes nothing else |
| Tasks.Project.InputFile | src/main/java/net/minecraftforge/gradle/dev/DevBasePlugin.java:192 | `getInputs().file` appends one input file to the named task and changes nothing else |
| Tasks.Project.UpToDateWhen | src/main/java/net/minecraftforge/gradle/dev/DevBasePlugin.java:45-51 | `upToDateWhen` appends one predicate to the named task and changes nothing else |
| DevBasePlugin.ApplyPlugin | src/main/java/net/minecraftforge/gradle/dev/DevBasePlugin.java:43-139 | on a project without the applied names, the task map afterwards is the old one (with uploadArchives' launch4j edge when there is an installer) plus exactly this plugin's own tasks, `AppliedTasks`; the tasks the launch4j plugin registers at line 57 are not modelled |
| DevBasePlugin.AddWorkspaceAndInstaller | src/main/java/net/minecraftforge/gradle/dev/DevBasePlugin.java:44-79 | extractWorkspace, then with an installer the uploadArchives edge and the three installer tasks |
| DevBasePlugin.AddBuildTasks | src/main/java/net/minecraftforge/gradle/dev/DevBasePlugin.java:81-138 | updateJson, compressDeobfData, mergeJars, copyAssets and genSrgs are registered, in that order, as described |
| DevBasePlugin.AddExtractWorkspace | src/main/java/net/minecraftforge/gradle/dev/DevBasePlugin.java:44-53 | extractWorkspace: the eclipse-directory predicate, the workspace zip as source, the workspace as target |
| DevBasePlugin.AddInstallerTasks | src/main/java/net/minecraftforge/gradle/dev/DevBasePlugin.java:64-78 | the three installer tasks are registered in order |
| DevBasePlugin.AddDownloadBaseInstaller | src/main/java/net/minecraftforge/gradle/dev/DevBasePlugin.java:65-67 | downloadBaseInstaller with its output and URL |
| DevBasePlugin.AddDownloadL4J | src/main/java/net/minecraftforge/gradle/dev/DevBasePlugin.java:70-72 | downloadL4J with its output and URL |
| DevBasePlugin.AddExtractL4J | src/main/java/net/minecraftforge/gradle/dev/DevBasePlugin.java:75-78 | extractL4J depends on downloadL4J, reads the Launch4J archive, extracts into the Launch4J directory |
| DevBasePlugin.AddUpdateJson | src/main/java/net/minecraftforge/gradle/dev/DevBasePlugin.java:82-85 | updateJson with the CALL_FALSE predicate, its URL and its output |
| DevBasePlugin.AddCompressDeobfData | src/main/java/net/minecraftforge/gradle/dev/DevBasePlugin.java:104-107 | compressDeobfData with its input, output and edge to genSrgs |
| DevBasePlugin.AddMergeJars | src/main/java/net/minecraftforge/gradle/dev/DevBasePlugin.java:110-116 | mergeJars with its five settings and its three edges |
| DevBasePlugin.AddCopyAssets | src/main/java/net/minecraftforge/gradle/dev/DevBasePlugin.java:119-123 | copyAssets with its directories and its two edges |
| DevBasePlugin.AddGenSrgs | src/main/java/net/minecraftforge/gradle/dev/DevBasePlugin.java:126-138 | genSrgs with its eleven file settings and its edge to extractMcpData |
| DevBasePlugin.InstallerTasks | src/main/java/net/minecraftforge/gradle/dev/DevBasePlugin.java:55-79 | the installer tasks are exactly downloadBaseInstaller, downloadL4J and extractL4J with an installer, none without |
| DevBasePlugin.BackboneTasks | src/main/java/net/minecraftforge/gradle/dev/DevBasePlugin.java:44-138 | the tasks registered whatever the installer are exactly the six backbone names |
| DevBasePlugin.AppliedTasks | src/main/java/net/minecraftforge/gradle/dev/DevBasePlugin.java:43-139 | applyPlugin registers exactly the backbone names plus, with an installer, the installer names |
| DevBasePlugin.RegistrationOrder | src/main/java/net/minecraftforge/gradle/dev/DevBasePlugin.java:43-139 | registering this plugin's own tasks one by one in the source's order yields the old map plus exactly `AppliedTasks` (the launch4j plugin's tasks are not modelled) |
| DevBasePlugin.RegisteredAsApplied | src/main/java/net/minecraftforge/gradle/dev/DevBasePlugin.java:43-139 | each applied name maps, after applyPlugin, to its description whatever was registered before |
| DevBasePlugin.AppliedBackbone | src/main/java/net/minecraftforge/gradle/dev/DevBasePlugin.java:44-138 | each backbone task is registered as its own description says |
| DevBasePlugin.AppliedInstaller | src/main/java/net/minecraftforge/gradle/dev/DevBasePlugin.java:64-78 | each installer task is registered as its own description says |
| DevBasePlugin.AppliedKeys | src/main/java/net/minecraftforge/gradle/dev/DevBasePlugin.java:43-139 | the names after applyPlugin are those before plus the applied names |
| DevBasePlugin.StaticEdges | src/main/java/net/minecraftforge/gradle/dev/DevBasePlugin.java:104-138 | the edges are exact: mergeJars → {downloadClient, downloadServer, updateJson}, compressDeobfData → {genSrgs}, copyAssets → {getAssets, extractWorkspace}, genSrgs → {extractMcpData}, none for extractWorkspace and updateJson |
| DevBasePlugin.InstallerTasksIffInstaller | src/main/java/net/minecraftforge/gradle/dev/DevBasePlugin.java:55-79 | downloadBaseInstaller, downloadL4J and extractL4J exist after applyPlugin if and only if there is an installer, and extractL4J then depends on exactly downloadL4J |
| DevBasePlugin.WithUploadEdge | src/main/java/net/minecraftforge/gradle/dev/DevBasePlugin.java:59-62 | the task map after the uploadArchives check: with an installer and an existing uploadArchives, that task gains the launch4j dependency; otherwise unchanged; no contract of its own, characterised by `UploadEdge` |
| DevBasePlugin.UploadEdge | src/main/java/net/minecraftforge/gradle/dev/DevBasePlugin.java:59-62 | an existing uploadArchives gains exactly the launch4j edge, and only with an installer |
| DevBasePlugin.UpdateJsonNeverUpToDate | src/main/java/net/minecraftforge/gradle/dev/DevBasePlugin.java:82-83 | updateJson's predicates never allow it to be up to date |
| DevBasePlugin.ExtractWorkspaceUpToDate | src/main/java/net/minecraftforge/gradle/dev/DevBasePlugin.java:45-50 | extractWorkspace's predicates allow it to be up to date exactly when `<projectDir>/eclipse` exists and is a directory |
| DevBasePlugin.WithLaunch4JEdges | src/main/java/net/minecraftforge/gradle/dev/DevBasePlugin.java:190-192 | the task map after configureLaunch4J: without an installer unchanged, with one generateXmlConfig gains packageInstaller and extractL4J as dependencies and the installer file as input; no contract of its own, `ConfigureLaunch4JTasks` is proved against it |
| DevBasePlugin.AfterEvaluated | src/main/java/net/minecraftforge/gradle/dev/DevBasePlugin.java:211-278 | the task map after afterEvaluate: `WithLaunch4JEdges`, then extractNativesNew and extractNatives, then, when the dev json is set, `WithNativesWired` of the natives plan; no contract of its own, `AfterEvaluate` is proved against it |
| DevBasePlugin.ConfigureLaunch4JTasks | src/main/java/net/minecraftforge/gradle/dev/DevBasePlugin.java:154-192 | with an installer, generateXmlConfig gains the edges to packageInstaller and extractL4J and the installer as input file; without one nothing changes |
| DevBasePlugin.AfterEvaluate | src/main/java/net/minecraftforge/gradle/dev/DevBasePlugin.java:211-278 | the task map afterwards is the Launch4J edges, then extractNativesNew and extractNatives, then (dev json set) the natives loop wired by `WithNativesWired` |
| DevBasePlugin.AddNativesTasks | src/main/java/net/minecraftforge/gradle/dev/DevBasePlugin.java:226-234 | extractNativesNew and extractNatives are registered as described |
| DevBasePlugin.AddExtractNativesNew | src/main/java/net/minecraftforge/gradle/dev/DevBasePlugin.java:226-228 | extractNativesNew excludes the META-INF patterns and extracts into the natives directory |
| DevBasePlugin.AddExtractNatives | src/main/java/net/minecraftforge/gradle/dev/DevBasePlugin.java:230-234 | extractNatives copies the natives directory without META-INF into the Eclipse natives directory, after extractWorkspace and extractNativesNew |
| DevBasePlugin.NativesTasksShape | src/main/java/net/minecraftforge/gradle/dev/DevBasePlugin.java:226-234 | after afterEvaluate, extractNatives depends on exactly extractWorkspace and extractNativesNew, and both natives tasks exclude exactly the three META-INF patterns |
| DevBasePlugin.NativesStillFresh | src/main/java/net/minecraftforge/gradle/dev/DevBasePlugin.java:226-264 | natives task names, all starting with "downloadNatives-", stay unregistered after the two natives tasks are added |
| DevBasePlugin.WithNativesWired | src/main/java/net/minecraftforge/gradle/dev/DevBasePlugin.java:257-271 | the task map after the natives loop: one download task per planned download, extractNativesNew gaining their outputs as sources and their names as dependencies, in plan order; no contract of its own, characterised by `NativesWiring` |
| DevBasePlugin.CreateNativesTasks | src/main/java/net/minecraftforge/gradle/dev/DevBasePlugin.java:257-271 | the loop leaves the task map as `WithNativesWired` of the old map and the plan of all libraries |
| DevBasePlugin.NativesDownloadTask | src/main/java/net/minecraftforge/gradle/dev/DevBasePlugin.java:262-266 | the download task made for one library with natives: a DownloadTask whose output is the cached natives file and whose URL is the library URL plus the natives path; no contract of its own, characterised by `DownloadTasksLookup` and `RegisterNativesDownload` |
| DevBasePlugin.RegisterNativesDownload | src/main/java/net/minecraftforge/gradle/dev/DevBasePlugin.java:259-270 | one library with natives: its download task is registered with its output and URL, and extractNativesNew gains that file as a source and that task as a dependency |
| DevBasePlugin.WireNativesDownload | src/main/java/net/minecraftforge/gradle/dev/DevBasePlugin.java:259-270 | one pass of the loop extends the wired plan by that library's download |
| DevBasePlugin.WiredStep | src/main/java/net/minecraftforge/gradle/dev/DevBasePlugin.java:264-269 | wiring one more download is registering its task, then adding its file and name to extractNativesNew |
| DevBasePlugin.NextLibrary | src/main/java/net/minecraftforge/gradle/dev/DevBasePlugin.java:257-271 | the plan of the first i + 1 libraries adds library i's download when it has natives, under a name not yet used |
| DevBasePlugin.NativesWiring | src/main/java/net/minecraftforge/gradle/dev/DevBasePlugin.java:257-271 | after the loop: one task per planned download with its output and URL, extractNativesNew gains exactly the planned files and names, every other task is unchanged |
| DevBasePlugin.DownloadTasks | src/main/java/net/minecraftforge/gradle/dev/DevBasePlugin.java:264-266 | the download tasks are registered under exactly the plan's names |
| DevBasePlugin.NativesSources | src/main/java/net/minecraftforge/gradle/dev/DevBasePlugin.java:268 | extractNativesNew's new sources are the planned output files, in order |
| DevBasePlugin.DistinctNameCount | src/main/java/net/minecraftforge/gradle/dev/DevBasePlugin.java:262-264 | distinct names: as many download tasks as downloads |
| DevBasePlugin.DownloadTasksLookup | src/main/java/net/minecraftforge/gradle/dev/DevBasePlugin.java:264-266 | each download of the plan is registered under its own name |
| Natives.TaskName | src/main/java/net/minecraftforge/gradle/dev/DevBasePlugin.java:262 | the task name is "downloadNatives-" followed by the second ':' field of the artifact name |
| Natives.DownloadFor | src/main/java/net/minecraftforge/gradle/dev/DevBasePlugin.java:261-266 | the download's name, output `{CACHE_DIR}/minecraft/<path>` and URL `getUrl() + path` |
| Natives.WithNatives | src/main/java/net/minecraftforge/gradle/dev/DevBasePlugin.java:257-259 | the libraries with natives, drawn from the manifest |
| Natives.Plan | src/main/java/net/minecraftforge/gradle/dev/DevBasePlugin.java:257-271 | one download per library with natives |
| Natives.PlanFollowsManifest | src/main/java/net/minecraftforge/gradle/dev/DevBasePlugin.java:257-271 | the plan's i-th download is that of the i-th library with natives |
| Natives.PlanAppend | src/main/java/net/minecraftforge/gradle/dev/DevBasePlugin.java:257-271 | the plan of two manifests back to back is the plan of each, in order |
| Natives.PlanStep | src/main/java/net/minecraftforge/gradle/dev/DevBasePlugin.java:257-271 | the plan splits at any library into before, its own download if it has natives, after |
| Natives.NoNativesNoDownloads | src/main/java/net/minecraftforge/gradle/dev/DevBasePlugin.java:259 | libraries without natives add nothing |
| Natives.OneLibrary | src/main/java/net/minecraftforge/gradle/dev/DevBasePlugin.java:259-270 | one library asks for exactly one download when it has natives and none otherwise |
| Natives.EveryNativeLibraryPlanned | src/main/java/net/minecraftforge/gradle/dev/DevBasePlugin.java:257-271 | every library with natives has its download in the plan |
| Natives.PlanNamesPrefixed | src/main/java/net/minecraftforge/gradle/dev/DevBasePlugin.java:262 | every planned task name starts with "downloadNatives-" |
| Natives.TaskNameOfCoordinates | src/main/java/net/minecraftforge/gradle/dev/DevBasePlugin.java:262 | for `group:artifact:version` the task name is "downloadNatives-" + artifact |
| Natives.SameArtifactSameTaskName | src/main/java/net/minecraftforge/gradle/dev/DevBasePlugin.java:262-264 | two libraries with the same artifact get the same task name whatever their group and version |
| ServerClassPath.LibraryJar | src/main/java/net/minecraftforge/gradle/dev/DevBasePlugin.java:307-308 | a library's entry starts with "libraries/" and ends with ".jar " |
| ServerClassPath.Entries | src/main/java/net/minecraftforge/gradle/dev/DevBasePlugin.java:301-310 | the entries of the libraries whose `serverreq` is true, in manifest order; no contract of its own, characterised by `EntriesAppend`, `OneLibrary`, `UnflaggedLibraryIgnored` and `EntryOfCoordinates` |
| ServerClassPath.ClassPath | src/main/java/net/minecraftforge/gradle/dev/DevBasePlugin.java:299-312 | `Entries`, then the resolved server jar name; no contract of its own, characterised by `EndsWithServerJar` |
| ServerClassPath.GetServerClassPath | src/main/java/net/minecraftforge/gradle/dev/DevBasePlugin.java:299-312 | the loop returns `ClassPath`: the needed libraries' entries in manifest order, then the resolved server jar name |
| ServerClassPath.EntriesStep | src/main/java/net/minecraftforge/gradle/dev/DevBasePlugin.java:301-310 | each pass appends library i's entry exactly when the server needs it |
| ServerClassPath.EntriesAppend | src/main/java/net/minecraftforge/gradle/dev/DevBasePlugin.java:301-310 | the entries of two manifests back to back are the entries of each, in order |
| ServerClassPath.OneLibrary | src/main/java/net/minecraftforge/gradle/dev/DevBasePlugin.java:305-309 | one library contributes its entry when `serverreq` is true and nothing otherwise |
| ServerClassPath.UnflaggedContributeNothing | src/main/java/net/minecraftforge/gradle/dev/DevBasePlugin.java:305 | libraries without the flag, or with it false, contribute nothing |
| ServerClassPath.UnflaggedLibraryIgnored | src/main/java/net/minecraftforge/gradle/dev/DevBasePlugin.java:301-311 | inserting a library the server does not need anywhere leaves the class path unchanged |
| ServerClassPath.EndsWithServerJar | src/main/java/net/minecraftforge/gradle/dev/DevBasePlugin.java:311 | the class path always ends with the resolved `minecraft_server.{MC_VERSION}.jar` |
| ServerClassPath.EntryOfCoordinates | src/main/java/net/minecraftforge/gradle/dev/DevBasePlugin.java:307-308 | the entry of `group:artifact:version` is `libraries/<group with '.'→'/'>/<artifact>/<version>/<artifact>-<version>.jar `; for a group without '/', the group's dotted parts become exactly the directories |
| ServerClassPath.ParseInputAsWritten | src/main/java/net/minecraftforge/gradle/dev/DevBasePlugin.java:296 | the text line 296 gives the JSON parser: the json file's absolute path; no contract of its own, used by `AsWrittenParseInputIsNoObject` |
| ServerClassPath.AsWrittenParseInputIsNoObject | src/main/java/net/minecraftforge/gradle/dev/DevBasePlugin.java:296 | as written, the text given to the JSON parser is the json file's absolute path, whose first non-blank character is '/', never the '{' that opens a JSON object |


## Left out

- `runGit` (lines 345-363): it starts an external process.
- Loading the version json (lines 243-255) and the json parsing in `getServerClassPath` (line 296): the library lists are typed inputs. Line 296 parses the path string itself, not the file's contents, so as written every call throws (see "## Findings"); `ServerClassPath.GetServerClassPath` models the method as evidently intended, reading the library list of the file's contents.
- The `updateJson` `doLast` rewrite of the json file (lines 86-101), and the `extractL4J` `doLast` that makes the Launch4J launcher executable (lines 175-185): file-system side effects when tasks run.
- Applying the launch4j plugin (line 57): it registers that plugin's own tasks in the same task container, among them launch4j, which line 61's edge names, and generateXmlConfig, which line 190 looks up. The modelled task map does not contain them; this is why `DevBasePlugin.ConfigureLaunch4JTasks` and `DevBasePlugin.AfterEvaluate` require generateXmlConfig to be registered already.
- The Launch4J extension setters, `project.getArtifacts()` and logging (lines 162-166, 188, 200-201, 239, 252): Gradle API side effects. `Launch4J.Launch4JSettingsFor` computes the values the setters receive.
- The obfuscateJar settings (lines 218-222): only the task's existence is required.
- `setAssetIndex` on copyAssets (line 122): its closure is not part of this model.
- `super.afterEvaluate()` (line 213) and `BasePlugin.resolve`: not part of this model; the latter is a parameter.
- `hasInstaller()` (lines 365-367) returns true here but can be overridden: it is a parameter.
- Gradle's own up-to-date check of inputs and outputs: only the predicates added with `upToDateWhen` are modelled.
- `getAsBoolean` on a `serverreq` value that is not a boolean: the flag is modelled as an optional boolean.
- Exceptions: `makeTask` on a name already registered, `split` results too short to index (lines 262, 307), and `getByName` of a task that is not registered (packageInstaller at line 159, extractL4J at line 177 off Windows, generateXmlConfig at line 190, obfuscateJar at line 216), which throws UnknownTaskException, are preconditions of `DevBasePlugin.ConfigureLaunch4JTasks` and `DevBasePlugin.AfterEvaluate`, not error paths. Their outcome depends on code that is not part of this model. The catch block at lines 274-277 is therefore unreachable in the model; the one at lines 314-317 is discussed under "## Findings".
- `getDevJson()` returning null (lines 236-241) is the `devJsonSet` parameter of `DevBasePlugin.AfterEvaluate`.
- Windows path separators and `File` normalisation (`.`/`..`, repeated '/'): paths use '/' and are not normalised.
- DevBasePlugin.CreateNativesTasks: requires the derived task names to be new and pairwise distinct. Two libraries with the same artifact in different groups would ask `makeTask` for the same name twice (`Natives.SameArtifactSameTaskName`), and what `makeTask` then does is not part of this model.
- Resolver.LayerMatchesTable, Resolver.LayerIdempotent: stated only for values without '{', and only for patterns in which every '{' opens a brace-free `{NAME}` token. A pattern such as "{{VERSION}}" is outside them, though `String.replace` still turns it into "{" + version + "}". With such a value, a later replacement may expand what an earlier value brought in; `Resolver.LaterTokensInValueExpanded` shows one case.

## Findings

| source | as written | input that shows it | evidently intended | confidence | as-written member | corrected member |
|---|---|---|---|---|---|---|
| src/main/java/net/minecraftforge/gradle/dev/DevBasePlugin.java:159-161 | the installer `File` is built from `getPath()` of the packageInstaller task, which is the task's project path (":packageInstaller"), not the archive it writes | any project with an installer: ":packageInstaller" (":forge:packageInstaller" in a subproject) holds no ".jar" and no '/', so the executable path equals the installer path, and the Launch4J outfile and jar name the same file | the installer archive (`base.jar`), so that the executable is `base-win.exe` beside it | medium, not executed | Launch4J.AsWrittenExeIsInstaller | Launch4J.ExeForInstallerArchive |
| src/main/java/net/minecraftforge/gradle/dev/DevBasePlugin.java:296 | `JsonParser.parseString(json.getAbsolutePath())` parses the path string as JSON text instead of reading the file | any json file, e.g. `/home/dev/fml.json`: the text begins with '/', which opens no JSON object (only a path beginning with "/*" could hide a '{' behind a comment), so no JsonObject results; the parse or `getAsJsonObject()` throws and the catch at lines 314-317 rethrows it, so the method never returns a class path | parse the contents of the file, whose `versionInfo.libraries` the loop at lines 301-311 reads | high, not executed | ServerClassPath.AsWrittenParseInputIsNoObject | ServerClassPath.GetServerClassPath |
