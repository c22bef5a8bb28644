/**
 * The project's task container as the dev plugin uses it: tasks registered
 * by name, dependency edges added with dependsOn, sources added with from,
 * exclusions, named settings and up-to-date predicates.
 */
module Tasks {
  import opened JavaFiles

  /** The task classes the plugin instantiates. */
  datatype Kind = ExtractTask | DownloadTask | CompressLZMA | MergeJarsTask | CopyAssetsTask | GenSrgTask | CopyTask

  /**
   * A pattern handed to a task and resolved only when the task runs: a
   * named constant of DevConstants or of Constants (those classes are not
   * part of this model, so only the name is kept) or a pattern text.
   */
  datatype Pattern = DevConstant(name: string) | CommonConstant(name: string) | Text(text: string)

  /** `delayedFile(pattern)` or `delayedString(pattern)`. */
  datatype Delayed = DelayedFile(pattern: Pattern) | DelayedString(pattern: Pattern)

  /** A predicate added with `getOutputs().upToDateWhen`. */
  datatype UpToDateCheck =
    | CallFalse                      // Constants.CALL_FALSE: never holds
    | DirectoryExists(child: string) // the project directory's `child` exists and is a directory

  /**
   * A registered task. `settings` maps a setter's property name (`into`,
   * `output`, `url`, `inSrg`, ...) to the value it was given.
   */
  datatype Task = Task(
    kind: Kind,
    deps: set<string>,
    sources: seq<Delayed>,
    excludes: seq<string>,
    inputFiles: seq<string>,
    settings: map<string, Delayed>,
    upToDateWhen: seq<UpToDateCheck>)

  /** A task as `makeTask` registers it: nothing set yet. */
  function NewTask(kind: Kind): Task
  {
    Task(kind, {}, [], [], [], map[], [])
  }

  predicate CheckHolds(c: UpToDateCheck, projectDir: string, fs: FileSystem)
  {
    match c
    case CallFalse => false
    case DirectoryExists(child) => IsExistingDirectory(fs, Child(projectDir, child))
  }

  /**
   * Gradle counts a task as up to date only when every predicate added with
   * upToDateWhen holds (and its own check of inputs and outputs passes,
   * which is not part of this model).
   */
  predicate PredicatesAllowUpToDate(t: Task, projectDir: string, fs: FileSystem)
  {
    forall i :: 0 <= i < |t.upToDateWhen| ==> CheckHolds(t.upToDateWhen[i], projectDir, fs)
  }

  /** Writing the same name twice keeps only the second value. */
  lemma Overwrite(m: map<string, Task>, name: string, first: Task, second: Task)
    ensures m[name := first][name := second] == m[name := second]
  {
  }

  /** The project's task container. */
  class Project {
    var tasks: map<string, Task>

    constructor(existing: map<string, Task>)
      ensures tasks == existing
    {
      tasks := existing;
    }

    /** `makeTask(name, type)`: registers a fresh task under a new name. */
    method MakeTask(name: string, kind: Kind)
      requires name !in tasks
      modifies this
      ensures tasks == old(tasks)[name := NewTask(kind)]
    {
      tasks := tasks[name := NewTask(kind)];
    }

    /** `task.dependsOn(upstream...)`: adds edges to the named tasks, registered or not. */
    method DependsOn(name: string, upstream: set<string>)
      requires name in tasks
      modifies this
      ensures tasks == old(tasks)[name := old(tasks)[name].(deps := old(tasks)[name].deps + upstream)]
    {
      var t := tasks[name];
      tasks := tasks[name := t.(deps := t.deps + upstream)];
    }

    /** `task.from(source)`. */
    method From(name: string, source: Delayed)
      requires name in tasks
      modifies this
      ensures tasks == old(tasks)[name := old(tasks)[name].(sources := old(tasks)[name].sources + [source])]
    {
      var t := tasks[name];
      tasks := tasks[name := t.(sources := t.sources + [source])];
    }

    /** `task.exclude(patterns...)`. */
    method Exclude(name: string, patterns: seq<string>)
      requires name in tasks
      modifies this
      ensures tasks == old(tasks)[name := old(tasks)[name].(excludes := old(tasks)[name].excludes + patterns)]
    {
      var t := tasks[name];
      tasks := tasks[name := t.(excludes := t.excludes + patterns)];
    }

    /** A property setter such as `setOutput`, `setUrl` or `into`. */
    method Set(name: string, property: string, value: Delayed)
      requires name in tasks
      modifies this
      ensures tasks == old(tasks)[name := old(tasks)[name].(settings := old(tasks)[name].settings[property := value])]
    {
      var t := tasks[name];
      tasks := tasks[name := t.(settings := t.settings[property := value])];
    }

    /** `task.getInputs().file(path)`. */
    method InputFile(name: string, path: string)
      requires name in tasks
      modifies this
      ensures tasks == old(tasks)[name := old(tasks)[name].(inputFiles := old(tasks)[name].inputFiles + [path])]
    {
      var t := tasks[name];
      tasks := tasks[name := t.(inputFiles := t.inputFiles + [path])];
    }

    /** `task.getOutputs().upToDateWhen(check)`. */
    method UpToDateWhen(name: string, check: UpToDateCheck)
      requires name in tasks
      modifies this
      ensures tasks == old(tasks)[name := old(tasks)[name].(upToDateWhen := old(tasks)[name].upToDateWhen + [check])]
    {
      var t := tasks[name];
      tasks := tasks[name := t.(upToDateWhen := t.upToDateWhen + [check])];
    }
  }
}
