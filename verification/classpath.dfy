/**
 * DevBasePlugin.getServerClassPath: the server's class path, one jar per
 * library the server needs, followed by the server jar itself.
 */
module ServerClassPath {
  import opened Optional
  import opened JavaStrings
  import Resolver
  import JavaFiles

  /**
   * A library entry of the dev json's version info: its
   * `group:artifact:version` name and its `serverreq` flag, if present.
   */
  datatype ServerLibrary = ServerLibrary(name: string, serverreq: Option<bool>)

  const SERVER_JAR: string := "minecraft_server.{MC_VERSION}.jar"

  /** `lib.has("serverreq") && lib.get("serverreq").getAsBoolean()`. */
  predicate ServerRequired(lib: ServerLibrary)
  {
    lib.serverreq == Some(true)
  }

  /** The name has group, artifact and version fields, so `pts[2]` exists. */
  predicate HasCoordinates(lib: ServerLibrary)
  {
    |Split(lib.name, ':')| >= 3
  }

  /** Every library the server needs has a usable name. */
  predicate NamesUsable(libs: seq<ServerLibrary>)
  {
    forall i :: 0 <= i < |libs| && ServerRequired(libs[i]) ==> HasCoordinates(libs[i])
  }

  /** `libraries/<group with '.' as '/'>/<artifact>/<version>/<artifact>-<version>.jar ` */
  function LibraryJar(lib: ServerLibrary): (entry: string)
    requires HasCoordinates(lib)
    ensures StartsWith(entry, "libraries/")
    ensures EndsWith(entry, ".jar ")
  {
    var pts := Split(lib.name, ':');
    var entry := "libraries/" + ReplaceChar(pts[0], '.', '/') + "/" + pts[1] + "/" + pts[2] + "/" + pts[1] + "-" + pts[2] + ".jar ";
    assert entry[..10] == "libraries/";
    assert entry[|entry| - 5..] == ".jar ";
    entry
  }

  /** The class path entries of the libraries the server needs, in manifest order. */
  function Entries(libs: seq<ServerLibrary>): string
    requires NamesUsable(libs)
    decreases |libs|
  {
    if libs == [] then ""
    else
      var last := libs[|libs| - 1];
      var front := libs[..|libs| - 1];
      assert NamesUsable(front) by {
        forall i | 0 <= i < |front| && ServerRequired(front[i])
          ensures HasCoordinates(front[i])
        {
          assert front[i] == libs[i];
        }
      }
      Entries(front) + (if ServerRequired(last) then LibraryJar(last) else "")
  }

  /** The whole class path: the entries, then the resolved server jar name. */
  function ClassPath(libs: seq<ServerLibrary>, ctx: Resolver.Context): string
    requires NamesUsable(libs)
  {
    Entries(libs) + Resolver.Resolve(SERVER_JAR, ctx)
  }

  /**
   * getServerClassPath over the dev json's libraries: appends each needed
   * library's entry to a buffer, then the resolved server jar name.
   */
  method GetServerClassPath(libs: seq<ServerLibrary>, ctx: Resolver.Context) returns (cp: string)
    requires NamesUsable(libs)
    ensures cp == ClassPath(libs, ctx)
  {
    var buf := "";
    var i := 0;
    while i < |libs|
      invariant 0 <= i <= |libs|
      invariant NamesUsable(libs[..i])
      invariant buf == Entries(libs[..i])
    {
      var lib := libs[i];
      EntriesStep(libs, i);
      if lib.serverreq.Some? && lib.serverreq.value {
        var pts := Split(lib.name, ':');
        var entry := "libraries/" + ReplaceChar(pts[0], '.', '/') + "/" + pts[1] + "/" + pts[2] + "/" + pts[1] + "-" + pts[2] + ".jar ";
        assert entry == LibraryJar(lib);
        buf := buf + entry;
      }
      i := i + 1;
    }
    assert libs[..i] == libs;
    buf := buf + Resolver.Resolve(SERVER_JAR, ctx);
    cp := buf;
  }

  /** The entries of the first i + 1 libraries extend those of the first i by library i's entry, if needed. */
  lemma EntriesStep(libs: seq<ServerLibrary>, i: nat)
    requires i < |libs| && NamesUsable(libs)
    ensures NamesUsable(libs[..i]) && NamesUsable(libs[..i + 1])
    ensures Entries(libs[..i + 1]) == Entries(libs[..i]) + (if ServerRequired(libs[i]) then LibraryJar(libs[i]) else "")
  {
    var upto := libs[..i + 1];
    assert upto[..i] == libs[..i];
    assert upto[i] == libs[i];
    assert NamesUsable(upto) by {
      forall k | 0 <= k < |upto| && ServerRequired(upto[k])
        ensures HasCoordinates(upto[k])
      {
        assert upto[k] == libs[k];
      }
    }
  }

  /** A manifest whose names are usable splits into two such manifests. */
  lemma NamesUsableSplit(a: seq<ServerLibrary>, b: seq<ServerLibrary>)
    requires NamesUsable(a + b)
    ensures NamesUsable(a) && NamesUsable(b)
  {
    forall i | 0 <= i < |a| && ServerRequired(a[i])
      ensures HasCoordinates(a[i])
    {
      assert a[i] == (a + b)[i];
    }
    forall i | 0 <= i < |b| && ServerRequired(b[i])
      ensures HasCoordinates(b[i])
    {
      assert b[i] == (a + b)[|a| + i];
    }
  }

  /** The entries of two manifests back to back are the entries of each, in order. */
  lemma {:induction false} EntriesAppend(a: seq<ServerLibrary>, b: seq<ServerLibrary>)
    requires NamesUsable(a + b)
    ensures NamesUsable(a) && NamesUsable(b)
    ensures Entries(a + b) == Entries(a) + Entries(b)
    decreases |b|
  {
    NamesUsableSplit(a, b);
    if b == [] {
      assert a + b == a;
    } else {
      var front := b[..|b| - 1];
      assert (a + b)[..|a + b| - 1] == a + front;
      assert (a + b)[|a + b| - 1] == b[|b| - 1];
      EntriesAppend(a, front);
    }
  }

  /** A single library contributes its entry when the server needs it, and nothing otherwise. */
  lemma OneLibrary(lib: ServerLibrary)
    requires ServerRequired(lib) ==> HasCoordinates(lib)
    ensures NamesUsable([lib])
    ensures ServerRequired(lib) ==> Entries([lib]) == LibraryJar(lib)
    ensures !ServerRequired(lib) ==> Entries([lib]) == ""
  {
    assert [lib][..0] == [];
  }

  /** Libraries without the flag, or with it false, contribute nothing. */
  lemma {:induction false} UnflaggedContributeNothing(libs: seq<ServerLibrary>)
    requires forall i :: 0 <= i < |libs| ==> !ServerRequired(libs[i])
    ensures NamesUsable(libs)
    ensures Entries(libs) == ""
    decreases |libs|
  {
    if libs != [] {
      UnflaggedContributeNothing(libs[..|libs| - 1]);
    }
  }

  /** Adding a library the server does not need leaves the class path as it was. */
  lemma UnflaggedLibraryIgnored(before: seq<ServerLibrary>, lib: ServerLibrary, after: seq<ServerLibrary>, ctx: Resolver.Context)
    requires NamesUsable(before + after) && !ServerRequired(lib)
    ensures NamesUsable(before + [lib] + after)
    ensures ClassPath(before + [lib] + after, ctx) == ClassPath(before + after, ctx)
  {
    EntriesAppend(before, after);
    OneLibrary(lib);
    assert NamesUsable(before + [lib] + after) by {
      var all := before + [lib] + after;
      forall i | 0 <= i < |all| && ServerRequired(all[i])
        ensures HasCoordinates(all[i])
      {
        if i < |before| {
          assert all[i] == (before + after)[i];
        } else {
          assert i > |before|;
          assert all[i] == (before + after)[i - 1];
        }
      }
    }
    EntriesAppend(before + [lib], after);
    EntriesAppend(before, [lib]);
    assert Entries(before + [lib]) == Entries(before);
  }

  /** The class path always ends with the resolved server jar name. */
  lemma EndsWithServerJar(libs: seq<ServerLibrary>, ctx: Resolver.Context)
    requires NamesUsable(libs)
    ensures EndsWith(ClassPath(libs, ctx), Resolver.Resolve(SERVER_JAR, ctx))
  {
    var cp := ClassPath(libs, ctx);
    assert cp[|cp| - |Resolver.Resolve(SERVER_JAR, ctx)|..] == Resolver.Resolve(SERVER_JAR, ctx);
  }

  /**
   * The entry of `group:artifact:version`: under "libraries/", the group's
   * dotted parts as directories, then the artifact and version
   * directories, then `artifact-version.jar` and a space.
   */
  lemma EntryOfCoordinates(group: string, artifact: string, version: string, serverreq: Option<bool>)
    requires ':' !in group && ':' !in artifact && ':' !in version && version != ""
    ensures HasCoordinates(ServerLibrary(group + ":" + artifact + ":" + version, serverreq))
    ensures var entry := LibraryJar(ServerLibrary(group + ":" + artifact + ":" + version, serverreq));
            var groupPath := ReplaceChar(group, '.', '/');
            && entry == "libraries/" + groupPath + "/" + artifact + "/" + version + "/" + artifact + "-" + version + ".jar "
            && ('/' !in group ==> Fields(groupPath, '/') == Fields(group, '.'))
  {
    SplitCoordinates(group, artifact, version);
    if '/' !in group {
      FieldsAfterReplaceChar(group, '.', '/');
    }
  }

  // ---------------------------------------------------------------------
  // The json text that line 296 parses

  /** JSON whitespace: space, tab, line feed and carriage return. */
  predicate IsJsonBlank(c: char)
  {
    c == ' ' || c == '\t' || c == '\n' || c == '\r'
  }

  /** The first character of `text` that is not JSON whitespace, if any. */
  function FirstNonBlank(text: string): (r: Option<char>)
    ensures r.None? ==> forall i :: 0 <= i < |text| ==> IsJsonBlank(text[i])
    ensures r.Some? ==> r.value in text && !IsJsonBlank(r.value)
  {
    if text == [] then None
    else if IsJsonBlank(text[0]) then FirstNonBlank(text[1..])
    else Some(text[0])
  }

  /**
   * The text line 296 hands to the JSON parser: the json file's absolute
   * path, not the contents of the file.
   */
  function ParseInputAsWritten(cwd: string, json: string): string
    requires JavaFiles.IsAbsolute(cwd)
  {
    JavaFiles.AbsolutePath(cwd, json)
  }

  /**
   * As written, the parsed text opens with '/', never with the '{' of a
   * JSON object, so `getAsJsonObject` has no object to return.
   */
  lemma AsWrittenParseInputIsNoObject(cwd: string, json: string)
    requires JavaFiles.IsAbsolute(cwd)
    ensures FirstNonBlank(ParseInputAsWritten(cwd, json)) == Some('/')
  {
    var text := ParseInputAsWritten(cwd, json);
    assert text[0] == '/';
  }
}
