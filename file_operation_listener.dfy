/**
 * File events: creation, deletion and save. Each handler does nothing unless
 * the session records, the file has a path relative to the project and that
 * path is not ignored; a save then becomes a diff entry or a full-content
 * entry. The diff provider's answer and the document text are inputs, and
 * its callback is taken to run at once.
 */
module FileOperations {
  import opened Wrappers
  import opened Text
  import opened LogModel
  import Recorder
  import GitIgnore

  // ---------------------------------------------------------------------
  // Relative paths (`getRelativePath`)

  /** `URI.relativize(...).path` on two URI paths: equal paths give `""`; a
      path under the base (the base with a `/` appended if it lacks one)
      gives the rest; any other path is returned whole. */
  function Relativize(base: string, target: string): string {
    if base == target then ""
    else
      var dir := if EndsWith(base, "/") then base else base + "/";
      if StartsWith(target, dir) then target[|dir|..] else target
  }

  /** One trailing `/` (a directory's URI) is dropped; no base path, no result. */
  function RelativePath(basePath: Option<string>, target: string): (r: Option<string>)
    ensures r.Some? <==> basePath.Some?
  {
    match basePath
    case None => None
    case Some(base) =>
      var rel := Relativize(base, target);
      Some(if EndsWith(rel, "/") then rel[..|rel| - 1] else rel)
  }

  /** A file below the base comes back as the path it was joined from, with a
      directory's trailing `/` removed. */
  lemma RelativePathOfJoin(base: string, rel: string, isDir: bool)
    requires rel != [] && !EndsWith(rel, "/") && !EndsWith(base, "/")
    ensures RelativePath(Some(base), base + "/" + rel + (if isDir then "/" else "")) == Some(rel)
  {
    var target := base + "/" + rel + (if isDir then "/" else "");
    assert |target| > |base|;
    assert StartsWith(target, base + "/") by {
      assert target[..|base| + 1] == base + "/";
    }
    var tail := target[|base| + 1..];
    assert tail == rel + (if isDir then "/" else "");
    if !isDir {
      assert tail == rel;
    } else {
      assert tail[..|tail| - 1] == rel;
    }
  }

  /** Only a single trailing slash is removed. */
  lemma RelativePathDropsOneSlash(base: string, rel: string)
    requires !EndsWith(base, "/") && rel != []
    ensures RelativePath(Some(base), base + "/" + rel + "//") == Some(rel + "/")
  {
    var target := base + "/" + rel + "//";
    assert target[..|base| + 1] == base + "/";
    var tail := target[|base| + 1..];
    assert tail == rel + "//";
    assert tail[..|tail| - 1] == rel + "/";
  }

  /** The path to record for a file event, if any: relative and not ignored. */
  function RecordablePath(basePath: Option<string>, rules: seq<GitIgnore.Rule>, target: string): (r: Option<string>)
    ensures r.Some? <==> basePath.Some? && !GitIgnore.IsIgnored(rules, RelativePath(basePath, target).value)
    ensures r.Some? ==> r == RelativePath(basePath, target)
  {
    match RelativePath(basePath, target)
    case None => None
    case Some(rel) => if GitIgnore.IsIgnored(rules, rel) then None else Some(rel)
  }

  // ---------------------------------------------------------------------
  // Diff or content (`handleFileContentChange`)

  /** The diff provider's answer: `git diff` output counts only with exit
      code 0 and non-blank output. */
  function ProviderDiff(exitCode: int, output: string): (r: Option<string>)
    ensures r.Some? <==> exitCode == 0 && !IsBlank(output)
    ensures r.Some? ==> r.value == output
  {
    if exitCode == 0 && !IsBlank(output) then Some(output) else None
  }

  /** The entry a save becomes: the diff when there is a non-blank one,
      otherwise the document's full text; always exactly one entry. */
  function SaveEntry(now: int, path: string, text: string, diff: Option<string>): (e: LogEntry)
    ensures e.logType == FileDiff <==> diff.Some? && !IsBlank(diff.value)
    ensures e.logType == FileDiff || e.logType == FileContent
    ensures e.logType == FileDiff ==> e.data == diff
    ensures e.logType == FileContent ==> e.data == Some(text)
    ensures e.path == Some(path) && WellShaped(e)
  {
    if diff.Some? && !IsBlank(diff.value) then Recorder.FileDiffEntry(now, path, diff.value)
    else Recorder.FileContentEntry(now, path, text)
  }

  /** With the git provider, a save is a diff exactly when `git diff`
      succeeded with some output; the listener's own blank check never
      rejects what the provider passes on. */
  lemma SaveWithGitProvider(now: int, path: string, text: string, exitCode: int, output: string)
    ensures SaveEntry(now, path, text, ProviderDiff(exitCode, output)).logType == FileDiff
            <==> exitCode == 0 && !IsBlank(output)
    ensures exitCode == 0 && !IsBlank(output)
            ==> SaveEntry(now, path, text, ProviderDiff(exitCode, output)).data == Some(output)
  {
  }

  // ---------------------------------------------------------------------
  // The listener

  class FileOperationListener {
    const recorder: Recorder.RecorderService
    const ignoreManager: GitIgnore.GitIgnoreManager
    const basePath: Option<string>

    constructor (recorder: Recorder.RecorderService, ignoreManager: GitIgnore.GitIgnoreManager, basePath: Option<string>)
      ensures this.recorder == recorder && this.ignoreManager == ignoreManager && this.basePath == basePath
    {
      this.recorder := recorder;
      this.ignoreManager := ignoreManager;
      this.basePath := basePath;
    }

    /** The path to record for `target` under the current rules. */
    function Target(target: string): Option<string>
      reads ignoreManager
    {
      RecordablePath(basePath, ignoreManager.ignorePatterns, target)
    }

    /** `fileCreated`: one `FILE_CREATE` for a recordable path, else nothing. */
    method FileCreated(target: string, now: int)
      modifies recorder
      ensures recorder.isRecording == old(recorder.isRecording)
      ensures recorder.operationLog ==
        if old(recorder.isRecording) && Target(target).Some?
        then old(recorder.operationLog) + [Recorder.FileCreateEntry(now, Target(target).value)]
        else old(recorder.operationLog)
    {
      if !recorder.isRecording {
        return;
      }
      var relativePath := RelativePath(basePath, target);
      if relativePath.None? {
        return;
      }
      if ignoreManager.Ignores(relativePath.value) {
        return;
      }
      recorder.AddFileCreateEntry(now, relativePath.value);
    }

    /** `fileDeleted`: one `FILE_DELETE` for a recordable path, else nothing. */
    method FileDeleted(target: string, now: int)
      modifies recorder
      ensures recorder.isRecording == old(recorder.isRecording)
      ensures recorder.operationLog ==
        if old(recorder.isRecording) && Target(target).Some?
        then old(recorder.operationLog) + [Recorder.FileDeleteEntry(now, Target(target).value)]
        else old(recorder.operationLog)
    {
      if !recorder.isRecording {
        return;
      }
      var relativePath := RelativePath(basePath, target);
      if relativePath.None? {
        return;
      }
      if ignoreManager.Ignores(relativePath.value) {
        return;
      }
      recorder.AddFileDeleteEntry(now, relativePath.value);
    }

    /** `beforeDocumentSaving`: the document may have no file; otherwise one
        diff or content entry for a recordable path. `diff` is what the diff
        provider hands its callback. */
    method BeforeDocumentSaving(file: Option<string>, text: string, diff: Option<string>, now: int)
      modifies recorder
      ensures recorder.isRecording == old(recorder.isRecording)
      ensures recorder.operationLog ==
        if old(recorder.isRecording) && file.Some? && Target(file.value).Some?
        then old(recorder.operationLog) + [SaveEntry(now, Target(file.value).value, text, diff)]
        else old(recorder.operationLog)
    {
      if !recorder.isRecording {
        return;
      }
      if file.None? {
        return;
      }
      var relativePath := RelativePath(basePath, file.value);
      if relativePath.None? {
        return;
      }
      if ignoreManager.Ignores(relativePath.value) {
        return;
      }
      HandleFileContentChange(relativePath.value, text, diff, now);
    }

    method HandleFileContentChange(relativePath: string, text: string, diff: Option<string>, now: int)
      modifies recorder
      ensures recorder.isRecording == old(recorder.isRecording)
      ensures recorder.operationLog ==
        if old(recorder.isRecording) then old(recorder.operationLog) + [SaveEntry(now, relativePath, text, diff)]
        else old(recorder.operationLog)
    {
      if diff.Some? && !IsBlank(diff.value) {
        recorder.AddFileDiffEntry(now, relativePath, diff.value);
      } else {
        recorder.AddFileContentEntry(now, relativePath, text);
      }
    }

    /** `refreshGitIgnore`: reloads the rules the later events are checked against. */
    method RefreshGitIgnore(file: GitIgnore.IgnoreFile)
      modifies ignoreManager
      ensures ignoreManager.ignorePatterns == GitIgnore.GitIgnoreManager.Reloaded(old(ignoreManager.ignorePatterns), basePath, file)
    {
      ignoreManager.LoadGitIgnore(basePath, file);
    }
  }

  /** A `.git` file is never recorded, whatever the rules. */
  lemma GitFilesNeverRecorded(base: string, rules: seq<GitIgnore.Rule>, rest: string)
    requires !EndsWith(base, "/")
    ensures RecordablePath(Some(base), rules, base + "/.git/" + rest) == None
  {
    var target := base + "/.git/" + rest;
    assert target[..|base| + 1] == base + "/";
    var tail := target[|base| + 1..];
    assert tail == ".git/" + rest;
    var rel := RelativePath(Some(base), target).value;
    if EndsWith(tail, "/") {
      if rest == [] {
        assert rel == ".git";
      } else {
        assert rel == ".git/" + rest[..|rest| - 1];
        assert rel[..5] == ".git/";
      }
    } else {
      assert rel[..5] == ".git/";
    }
  }
}
