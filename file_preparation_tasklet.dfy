/**
 * The first step of the billing job: it copies the input file named by the
 * `input.file` parameter into the `staging` directory, replacing any earlier
 * copy, so that a re-run converges to the same files.
 */
module Staging {
  import opened Wrappers
  import opened Paths
  import opened Files
  import Validation

  const StagingDirectory: string := "staging"

  /** The tasklet's answer to the step: FINISHED means it is not called again. */
  datatype RepeatStatus = Continuable | Finished

  /** The exception `execute` throws: `Paths.get(null)` or a failed copy. */
  datatype TaskletError = NullInputFile | CopyFailed(cause: IOError)

  /** `Paths.get("staging", source.toFile().getName())`. */
  function TargetPath(source: Path): Path
  {
    GetChild(StagingDirectory, FileName(source))
  }

  /**
   * The target is `staging/<name>` for the last name of the source, or
   * `staging` itself when the source has no name (a root path).
   */
  lemma TargetPathShape(source: Path)
    requires ValidPath(source)
    ensures FileName(source) != "" ==>
      TargetPath(source) == Path(false, [StagingDirectory, FileName(source)])
      && Render(TargetPath(source)) == StagingDirectory + "/" + FileName(source)
    ensures FileName(source) == "" ==> TargetPath(source) == Path(false, [StagingDirectory])
  {
    var name := FileName(source);
    if name != "" {
      var target := Path(false, [StagingDirectory, name]);
      assert IsName(name);
      assert target.names[1..] == [name];
      assert Join(target.names) == StagingDirectory + [Separator] + Join([name]);
      assert Render(target) == StagingDirectory + "/" + name;
      GetOfRender(target);
    } else {
      GetOfRender(Path(false, [StagingDirectory]));
    }
  }

  /** The staged copy keeps the source's file name, so staging it again lands on itself. */
  lemma TargetKeepsFileName(source: Path)
    requires ValidPath(source) && FileName(source) != ""
    ensures FileName(TargetPath(source)) == FileName(source)
    ensures TargetPath(TargetPath(source)) == TargetPath(source)
  {
    TargetPathShape(source);
    TargetPathShape(TargetPath(source));
  }

  /**
   * A file `<prefix>/name` is staged as `staging/name` whatever the prefix
   * (relative, absolute, several directories deep, or with a trailing
   * separator), as the end-to-end run does with `input/billing-2023-01.csv`.
   */
  lemma StagesByFileName(prefix: string, name: string)
    requires IsName(name)
    ensures TargetPath(Get(prefix + "/" + name)) == Get(StagingDirectory + "/" + name)
    ensures TargetPath(Get(prefix + "/" + name + "/")) == Get(StagingDirectory + "/" + name)
  {
    FileNameAfterSeparator(prefix, name);
    TargetPathShape(Get(prefix + "/" + name));
    TargetPathShape(Get(prefix + "/" + name + "/"));
    var target := Path(false, [StagingDirectory, name]);
    assert Render(target) == StagingDirectory + "/" + name by {
      assert target.names[1..] == [name];
      assert Join(target.names) == StagingDirectory + [Separator] + Join([name]);
    }
    GetOfRender(target);
  }

  /** The files after a successful run of the step on `source`. */
  function Staged(files: map<Path, string>, source: Path): map<Path, string>
  {
    Copied(files, source, TargetPath(source))
  }

  /**
   * Staging keeps the source readable and leaves only the target changed,
   * holding the source's content; staging again changes nothing more.
   */
  lemma StagingIsIdempotent(files: map<Path, string>, source: Path)
    requires source in files
    ensures source in Staged(files, source)
    ensures Staged(files, source)[TargetPath(source)] == files[source]
    ensures Staged(Staged(files, source), source) == Staged(files, source)
  {
  }

  /**
   * `execute`: reads `input.file`, derives the target and copies the source
   * over it. Returns FINISHED on success. A missing parameter, a missing source
   * or a fault before the target is touched throws and leaves the files as they
   * were; a fault after REPLACE_EXISTING removed the old target throws and
   * leaves no target.
   */
  method Execute(fs: FileSystem, jobParameters: Validation.JobParameters, fault: CopyFault)
    returns (r: Result<RepeatStatus, TaskletError>)
    modifies fs
    ensures Validation.InputFileKey !in jobParameters ==> r == Err(NullInputFile) && fs.files == old(fs.files)
    ensures Validation.InputFileKey in jobParameters ==>
      var source := Get(jobParameters[Validation.InputFileKey]);
      var target := TargetPath(source);
      && r == (if source !in old(fs.files) then Err(CopyFailed(NoSuchFile(source)))
               else if source == target || fault.NoFault? then Ok(Finished)
               else Err(CopyFailed(WriteFailed(target))))
      && fs.files == (if r.Ok? then Staged(old(fs.files), source)
                      else if r == Err(CopyFailed(WriteFailed(target))) && fault.AfterTargetRemoved?
                      then old(fs.files) - {target}
                      else old(fs.files))
  {
    if Validation.InputFileKey !in jobParameters {
      return Err(NullInputFile);
    }
    var inputFile := jobParameters[Validation.InputFileKey];
    var source := Get(inputFile);
    var target := GetChild(StagingDirectory, FileName(source));
    var copied := fs.Copy(source, target, fault);
    if copied.Fail? {
      return Err(CopyFailed(copied.error));
    }
    return Ok(Finished);
  }
}
