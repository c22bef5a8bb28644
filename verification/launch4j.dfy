/**
 * The name derivations of DevBasePlugin.configureLaunch4J: where the
 * Windows executable goes, which Launch4J command runs, and which icon is
 * used.
 */
module Launch4J {
  import opened JavaStrings
  import opened JavaFiles
  import opened Optional
  import Resolver

  /** The executable for an installer: the installer's name with ".jar" changed to "-win.exe", in the same directory. */
  function ExePath(installer: string): string
  {
    ChildOf(Parent(installer), Replace(Name(installer), ".jar", "-win.exe"))
  }

  /** The executable lies in the installer's directory, under the rewritten name. */
  lemma ExeBesideInstaller(installer: string)
    requires Name(installer) != ""
    ensures Parent(ExePath(installer)) == Parent(installer)
    ensures Name(ExePath(installer)) == Replace(Name(installer), ".jar", "-win.exe")
  {
    var name := Replace(Name(installer), ".jar", "-win.exe");
    ReplaceNonEmpty(Name(installer), ".jar", "-win.exe");
    ReplaceAvoidsChar(Name(installer), ".jar", "-win.exe", '/');
    ChildKeepsParent(installer, name);
  }

  /** No occurrence of ".jar" can straddle the end of a text that has none. */
  lemma NoJarBeforeSuffix(base: string, rest: string)
    requires !Occurs(base, ".jar")
    ensures NoMatchBefore(base + ".jar" + rest, ".jar", |base|)
  {
    var s := base + ".jar" + rest;
    forall i: nat | i < |base|
      ensures !MatchAt(s, ".jar", i)
    {
      if i + 4 <= |s| {
        if i + 4 <= |base| {
          assert s[i..i + 4] == base[i..i + 4];
          assert !MatchAt(base, ".jar", i);
        } else {
          var k := |base| - i;
          assert s[i..i + 4][k] == '.';
          assert ".jar"[k] != '.';
        }
      }
    }
  }

  /** A name ending in the only ".jar" it contains gets "-win.exe" in its place. */
  lemma ExeNameOfJar(base: string)
    requires !Occurs(base, ".jar")
    ensures Replace(base + ".jar", ".jar", "-win.exe") == base + "-win.exe"
  {
    NoJarBeforeSuffix(base, "");
    assert base + ".jar" + "" == base + ".jar";
    ReplaceAfterUnmatched(base, ".jar", ".jar", "-win.exe");
    ReplaceWhole(".jar", "-win.exe");
  }

  /** A text without '.' has no ".jar" in it. */
  lemma NoDotNoJar(s: string)
    requires '.' !in s
    ensures !Occurs(s, ".jar")
  {
    forall i: nat | i <= |s|
      ensures !MatchAt(s, ".jar", i)
    {
      if i + 4 <= |s| {
        assert s[i..i + 4][0] == s[i];
      }
    }
  }

  /**
   * The file the source takes as the installer: `new File(task.getPath())`
   * on the packageInstaller task, whose path is the task's path in the
   * project (":packageInstaller"), not the archive it writes.
   */
  function InstallerFileAsWritten(packageInstallerTaskPath: string): string
  {
    packageInstallerTaskPath
  }

  /**
   * As written, the executable coincides with the installer file: a task
   * path such as ":packageInstaller" or ":forge:packageInstaller" holds no
   * ".jar" and no '/', so the rewritten name is the same name.
   */
  lemma AsWrittenExeIsInstaller(taskPath: string)
    requires !Occurs(taskPath, ".jar") && '/' !in taskPath
    ensures ExePath(InstallerFileAsWritten(taskPath)) == InstallerFileAsWritten(taskPath)
  {
    ReplaceAbsent(taskPath, ".jar", "-win.exe");
  }

  /** The packageInstaller task's path in the root project is such a path. */
  lemma PackageInstallerPathPlain()
    ensures !Occurs(":packageInstaller", ".jar") && '/' !in ":packageInstaller"
  {
    NoDotNoJar(":packageInstaller");
  }

  /**
   * With the installer archive itself (a name ending in ".jar"), the
   * executable is a different file in the same directory, named with
   * "-win.exe" in place of ".jar".
   */
  lemma ExeForInstallerArchive(archive: string, base: string)
    requires Name(archive) == base + ".jar" && !Occurs(base, ".jar")
    ensures Parent(ExePath(archive)) == Parent(archive)
    ensures Name(ExePath(archive)) == base + "-win.exe"
    ensures ExePath(archive) != archive
  {
    ExeBesideInstaller(archive);
    ExeNameOfJar(base);
    assert (base + "-win.exe")[|base|] == '-';
    assert (base + ".jar")[|base|] == '.';
  }

  /** The Launch4J command: the `launch4j` launcher in the unpacked Launch4J directory, `launch4jc.exe` on Windows. */
  function Launch4JCommand(l4jDir: string, onWindows: bool): (cmd: string)
    ensures StartsWith(cmd, l4jDir + "/launch4j")
    ensures EndsWith(cmd, "c.exe") <==> onWindows
    ensures onWindows ==> cmd == l4jDir + "/launch4jc.exe"
    ensures !onWindows ==> cmd == l4jDir + "/launch4j"
  {
    var command := l4jDir + "/launch4j";
    assert command[|command| - 1] == 'j';
    if onWindows then command + "c.exe" else command
  }

  /** The icon: the configured one unless it is missing or empty, then the Launch4J demo icon; made absolute. */
  function IconPath(configured: Option<string>, defaultIcon: string, cwd: string): (icon: string)
    requires IsAbsolute(cwd)
    ensures configured.None? || configured == Some("") ==> icon == AbsolutePath(cwd, defaultIcon)
    ensures configured.Some? && configured.value != "" ==> icon == AbsolutePath(cwd, configured.value)
  {
    var chosen := if configured.None? || configured.value == "" then defaultIcon else configured.value;
    AbsolutePath(cwd, chosen)
  }

  /** Once the icon is written back to the extension, deriving it again keeps it. */
  lemma IconStable(configured: Option<string>, defaultIcon: string, cwd: string)
    requires IsAbsolute(cwd)
    ensures IconPath(Some(IconPath(configured, defaultIcon, cwd)), defaultIcon, cwd) == IconPath(configured, defaultIcon, cwd)
  {
    var icon := IconPath(configured, defaultIcon, cwd);
    assert icon != "";
  }

  /** What configureLaunch4J writes to the Launch4J extension. */
  datatype Launch4JSettings = Launch4JSettings(
    outfile: string,
    jar: string,
    launch4jCmd: string,
    icon: string,
    mainClassName: string)

  /**
   * The settings, when the plugin has an installer. `installer` is the file
   * the source takes as the installer (line 159 builds it from the
   * packageInstaller task's path, see `InstallerFileAsWritten`), `l4jDir`
   * the absolute Launch4J directory, `defaultIcon` the absolute path of the
   * Launch4J demo icon, and `cwd` the working directory.
   */
  function Launch4JSettingsFor(hasInstaller: bool, installer: string, l4jDir: string, onWindows: bool,
                               configuredIcon: Option<string>, defaultIcon: string, cwd: string,
                               ctx: Resolver.Context): (r: Option<Launch4JSettings>)
    requires IsAbsolute(cwd)
    ensures r.Some? <==> hasInstaller
    ensures r.Some? ==> IsAbsolute(r.value.outfile) && IsAbsolute(r.value.jar) && IsAbsolute(r.value.icon)
    ensures r.Some? ==> r.value.outfile == AbsolutePath(cwd, ExePath(installer))
    ensures r.Some? ==> r.value.jar == AbsolutePath(cwd, installer)
    ensures r.Some? ==> r.value.launch4jCmd == Launch4JCommand(l4jDir, onWindows)
    ensures r.Some? ==> r.value.icon == IconPath(configuredIcon, defaultIcon, cwd)
    ensures r.Some? ==> r.value.mainClassName == Resolver.Resolve(Resolver.MAIN_CLASS, ctx)
  {
    if !hasInstaller then None
    else Some(Launch4JSettings(
      AbsolutePath(cwd, ExePath(installer)),
      AbsolutePath(cwd, installer),
      Launch4JCommand(l4jDir, onWindows),
      IconPath(configuredIcon, defaultIcon, cwd),
      Resolver.Resolve(Resolver.MAIN_CLASS, ctx)))
  }

  /** As written, the outfile and the jar handed to Launch4J are the same file. */
  lemma AsWrittenOutfileIsJar(taskPath: string, l4jDir: string, onWindows: bool, configuredIcon: Option<string>,
                              defaultIcon: string, cwd: string, ctx: Resolver.Context)
    requires IsAbsolute(cwd)
    requires !Occurs(taskPath, ".jar") && '/' !in taskPath
    ensures var r := Launch4JSettingsFor(true, InstallerFileAsWritten(taskPath), l4jDir, onWindows,
                                         configuredIcon, defaultIcon, cwd, ctx);
            r.Some? && r.value.outfile == r.value.jar
  {
    AsWrittenExeIsInstaller(taskPath);
  }

  /** The executable of an absolute installer path is absolute too. */
  lemma ExeOfAbsolute(installer: string)
    requires IsAbsolute(installer) && Name(installer) != ""
    ensures IsAbsolute(ExePath(installer))
  {
    var name := Replace(Name(installer), ".jar", "-win.exe");
    assert installer[0] == '/';
    assert LastSlash(installer).Some?;
    match Parent(installer)
    case None =>
      assert false;
    case Some(d) =>
      assert d[0] == '/';
      assert Child(d, name)[0] == '/';
  }

  /**
   * Given the absolute installer archive `<dir>/<base>.jar`, Launch4J writes
   * `<dir>/<base>-win.exe` from that jar: a different file in the same
   * directory.
   */
  lemma ArchiveSettings(archive: string, base: string, l4jDir: string, onWindows: bool,
                        configuredIcon: Option<string>, defaultIcon: string, cwd: string, ctx: Resolver.Context)
    requires IsAbsolute(cwd) && IsAbsolute(archive)
    requires Name(archive) == base + ".jar" && !Occurs(base, ".jar")
    ensures var r := Launch4JSettingsFor(true, archive, l4jDir, onWindows, configuredIcon, defaultIcon, cwd, ctx);
            r.Some? && r.value.jar == archive &&
            Parent(r.value.outfile) == Parent(archive) && Name(r.value.outfile) == base + "-win.exe" &&
            r.value.outfile != r.value.jar
  {
    ExeForInstallerArchive(archive, base);
    ExeOfAbsolute(archive);
  }
}
