/**
 * The natives fan-out of DevBasePlugin.afterEvaluate, as plain data: which
 * download each library of the version manifest asks for. The task graph
 * changes that follow from it are in module DevBasePlugin.
 */
module Natives {
  import opened Optional
  import opened JavaStrings

  /** A library of the version manifest: its `group:artifact:version` name and its natives table, if any. */
  datatype Library = Library(artifactName: string, natives: Option<map<string, string>>)

  /**
   * `Library.getPathNatives()` and `Library.getUrl()`: their bodies are not
   * part of this model, so they are passed in as functions of the library.
   */
  datatype LibraryInfo = LibraryInfo(pathNatives: Library -> string, url: Library -> string)

  const TASK_PREFIX: string := "downloadNatives-"
  const CACHE_PREFIX: string := "{CACHE_DIR}/minecraft/"

  /** The artifact name has a second ':'-separated field, so `split(":")[1]` exists. */
  predicate HasArtifactField(lib: Library)
  {
    |Split(lib.artifactName, ':')| >= 2
  }

  /** Every library with natives has a usable artifact name. */
  predicate NamesUsable(libs: seq<Library>)
  {
    forall i :: 0 <= i < |libs| && libs[i].natives.Some? ==> HasArtifactField(libs[i])
  }

  /** `"downloadNatives-" + artifactName.split(":")[1]`. */
  function TaskName(lib: Library): (name: string)
    requires HasArtifactField(lib)
    ensures StartsWith(name, TASK_PREFIX)
    ensures name[|TASK_PREFIX|..] == Split(lib.artifactName, ':')[1]
  {
    var name := TASK_PREFIX + Split(lib.artifactName, ':')[1];
    assert name[..|TASK_PREFIX|] == TASK_PREFIX;
    name
  }

  /** One natives download: the task name, the output pattern and the URL text. */
  datatype NativeDownload = NativeDownload(taskName: string, file: string, url: string)

  /** The download a library with natives asks for. */
  function DownloadFor(lib: Library, info: LibraryInfo): (d: NativeDownload)
    requires HasArtifactField(lib)
    ensures d.taskName == TaskName(lib)
    ensures d.file == CACHE_PREFIX + info.pathNatives(lib)
    ensures d.url == info.url(lib) + info.pathNatives(lib)
  {
    var path := info.pathNatives(lib);
    NativeDownload(TaskName(lib), CACHE_PREFIX + path, info.url(lib) + path)
  }

  /** The libraries that have natives, in manifest order. */
  function WithNatives(libs: seq<Library>): (r: seq<Library>)
    ensures |r| <= |libs|
    ensures forall i :: 0 <= i < |r| ==> r[i] in libs && r[i].natives.Some?
    decreases |libs|
  {
    if libs == [] then []
    else
      var last := libs[|libs| - 1];
      WithNatives(libs[..|libs| - 1]) + (if last.natives.Some? then [last] else [])
  }

  /** The downloads the loop registers, in manifest order: one per library with natives. */
  function Plan(libs: seq<Library>, info: LibraryInfo): (plan: seq<NativeDownload>)
    requires NamesUsable(libs)
    ensures |plan| == |WithNatives(libs)|
    decreases |libs|
  {
    if libs == [] then []
    else
      var last := libs[|libs| - 1];
      var front := libs[..|libs| - 1];
      assert NamesUsable(front) by {
        forall i | 0 <= i < |front| && front[i].natives.Some?
          ensures HasArtifactField(front[i])
        {
          assert front[i] == libs[i];
        }
      }
      Plan(front, info) + (if last.natives.Some? then [DownloadFor(last, info)] else [])
  }

  /** The plan is the download of each library with natives, in manifest order. */
  lemma {:induction false} PlanFollowsManifest(libs: seq<Library>, info: LibraryInfo)
    requires NamesUsable(libs)
    ensures forall i :: 0 <= i < |WithNatives(libs)| ==> HasArtifactField(WithNatives(libs)[i])
    ensures forall i :: 0 <= i < |WithNatives(libs)| ==> Plan(libs, info)[i] == DownloadFor(WithNatives(libs)[i], info)
    decreases |libs|
  {
    if libs != [] {
      var front := libs[..|libs| - 1];
      assert NamesUsable(front) by {
        forall i | 0 <= i < |front| && front[i].natives.Some?
          ensures HasArtifactField(front[i])
        {
          assert front[i] == libs[i];
        }
      }
      PlanFollowsManifest(front, info);
    }
  }

  /** Every planned task name starts with "downloadNatives-". */
  lemma PlanNamesPrefixed(libs: seq<Library>, info: LibraryInfo)
    requires NamesUsable(libs)
    ensures forall i :: 0 <= i < |Plan(libs, info)| ==> StartsWith(Plan(libs, info)[i].taskName, TASK_PREFIX)
  {
    PlanFollowsManifest(libs, info);
  }

  /** The output patterns of a plan, in order. */
  function Files(plan: seq<NativeDownload>): (files: seq<string>)
    ensures |files| == |plan|
    ensures forall i :: 0 <= i < |plan| ==> files[i] == plan[i].file
  {
    if plan == [] then [] else Files(plan[..|plan| - 1]) + [plan[|plan| - 1].file]
  }

  /** No two downloads of the plan share a task name. */
  predicate DistinctNames(plan: seq<NativeDownload>)
  {
    forall i, j :: 0 <= i < j < |plan| ==> plan[i].taskName != plan[j].taskName
  }

  /** The plan of a longer manifest extends the plan of its prefix by the added libraries' downloads. */
  lemma {:induction false} PlanAppend(a: seq<Library>, b: seq<Library>, info: LibraryInfo)
    requires NamesUsable(a + b)
    ensures NamesUsable(a) && NamesUsable(b)
    ensures Plan(a + b, info) == Plan(a, info) + Plan(b, info)
    decreases |b|
  {
    assert NamesUsable(a) by {
      forall i | 0 <= i < |a| && a[i].natives.Some?
        ensures HasArtifactField(a[i])
      {
        assert a[i] == (a + b)[i];
      }
    }
    assert NamesUsable(b) by {
      forall i | 0 <= i < |b| && b[i].natives.Some?
        ensures HasArtifactField(b[i])
      {
        assert b[i] == (a + b)[|a| + i];
      }
    }
    if b == [] {
      assert a + b == a;
    } else {
      var last := b[|b| - 1];
      var front := b[..|b| - 1];
      assert (a + b)[..|a + b| - 1] == a + front;
      assert (a + b)[|a + b| - 1] == last;
      PlanAppend(a, front, info);
    }
  }

  /** The plan splits at library i: the plan before it, its own download if it has natives, the plan after it. */
  lemma PlanStep(libs: seq<Library>, i: nat, info: LibraryInfo)
    requires i < |libs| && NamesUsable(libs)
    ensures NamesUsable(libs[..i]) && NamesUsable(libs[..i + 1]) && NamesUsable(libs[i + 1..])
    ensures libs[i].natives.None? ==> Plan(libs[..i + 1], info) == Plan(libs[..i], info)
    ensures libs[i].natives.Some? ==>
              HasArtifactField(libs[i])
              && Plan(libs[..i + 1], info) == Plan(libs[..i], info) + [DownloadFor(libs[i], info)]
              && Plan(libs, info) == Plan(libs[..i], info) + [DownloadFor(libs[i], info)] + Plan(libs[i + 1..], info)
  {
    var lib := libs[i];
    assert libs[..i + 1] == libs[..i] + [lib];
    assert libs == libs[..i + 1] + libs[i + 1..];
    PlanAppend(libs[..i + 1], libs[i + 1..], info);
    PlanAppend(libs[..i], [lib], info);
    OneLibrary(lib, info);
  }

  /** Libraries without natives add nothing to the plan. */
  lemma {:induction false} NoNativesNoDownloads(libs: seq<Library>, info: LibraryInfo)
    requires forall i :: 0 <= i < |libs| ==> libs[i].natives.None?
    ensures NamesUsable(libs)
    ensures Plan(libs, info) == []
    decreases |libs|
  {
    if libs != [] {
      NoNativesNoDownloads(libs[..|libs| - 1], info);
    }
  }

  /** A single library asks for exactly one download when it has natives, and for none otherwise. */
  lemma OneLibrary(lib: Library, info: LibraryInfo)
    requires lib.natives.Some? ==> HasArtifactField(lib)
    ensures NamesUsable([lib])
    ensures lib.natives.Some? ==> Plan([lib], info) == [DownloadFor(lib, info)]
    ensures lib.natives.None? ==> Plan([lib], info) == []
  {
    assert [lib][..0] == [];
  }

  /** Every library with natives has its download in the plan. */
  lemma {:induction false} EveryNativeLibraryPlanned(libs: seq<Library>, info: LibraryInfo, k: nat)
    requires NamesUsable(libs)
    requires k < |libs| && libs[k].natives.Some?
    ensures HasArtifactField(libs[k]) && DownloadFor(libs[k], info) in Plan(libs, info)
    decreases |libs|
  {
    var front := libs[..|libs| - 1];
    if k == |libs| - 1 {
    } else {
      assert libs[k] == front[k];
      EveryNativeLibraryPlanned(front, info, k);
    }
  }

  /** The task name of `group:artifact:version` is "downloadNatives-" followed by the artifact. */
  lemma TaskNameOfCoordinates(group: string, artifact: string, version: string, natives: Option<map<string, string>>)
    requires ':' !in group && ':' !in artifact && ':' !in version && version != ""
    ensures HasArtifactField(Library(group + ":" + artifact + ":" + version, natives))
    ensures TaskName(Library(group + ":" + artifact + ":" + version, natives)) == TASK_PREFIX + artifact
  {
    SplitCoordinates(group, artifact, version);
  }

  /**
   * The task name ignores group and version: two libraries with the same
   * artifact get the same task name, which is why distinct names are a
   * precondition of the loop.
   */
  lemma SameArtifactSameTaskName(group1: string, group2: string, artifact: string, version1: string, version2: string,
                                 natives1: Option<map<string, string>>, natives2: Option<map<string, string>>)
    requires ':' !in group1 && ':' !in group2 && ':' !in artifact
    requires ':' !in version1 && ':' !in version2 && version1 != "" && version2 != ""
    ensures HasArtifactField(Library(group1 + ":" + artifact + ":" + version1, natives1))
    ensures HasArtifactField(Library(group2 + ":" + artifact + ":" + version2, natives2))
    ensures TaskName(Library(group1 + ":" + artifact + ":" + version1, natives1))
         == TaskName(Library(group2 + ":" + artifact + ":" + version2, natives2))
  {
    TaskNameOfCoordinates(group1, artifact, version1, natives1);
    TaskNameOfCoordinates(group2, artifact, version2, natives2);
  }
}
