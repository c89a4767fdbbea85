/**
 * An abstract file system: the content of each regular file, by path. Only the
 * two operations the job uses are modelled, `Files.copy` with REPLACE_EXISTING
 * and `Files.writeString` with APPEND and CREATE. Whether the underlying device
 * fails is an input of each operation.
 */
module Files {
  import opened Wrappers
  import opened Paths

  /** The IOException a file operation throws. */
  datatype IOError = NoSuchFile(path: Path) | WriteFailed(path: Path)

  /** The content of `p`, or "" when no such file exists. */
  function ContentOf(files: map<Path, string>, p: Path): string
  {
    if p in files then files[p] else ""
  }

  /** The files after `text` is appended to `path`, which is created when absent. */
  function Appended(files: map<Path, string>, path: Path, text: string): (r: map<Path, string>)
    ensures r.Keys == files.Keys + {path}
    ensures r[path] == ContentOf(files, path) + text
    ensures forall p :: p in files && p != path ==> r[p] == files[p]
  {
    files[path := ContentOf(files, path) + text]
  }

  /** The files after a copy of `source` over `target`; nothing happens when `source` is missing. */
  function Copied(files: map<Path, string>, source: Path, target: Path): (r: map<Path, string>)
    ensures source in files ==> r.Keys == files.Keys + {target} && r[target] == files[source]
    ensures forall p :: p in files && p != target ==> p in r && r[p] == files[p]
    ensures source !in files ==> r == files
  {
    if source in files then files[target := files[source]] else files
  }

  /** Where a failing device interrupts a copy. */
  datatype CopyFault =
    | NoFault
      /** before the target is touched: a missing or read-only target directory */
    | BeforeTarget
      /**
       * after REPLACE_EXISTING deleted the old target: an unreadable source or a
       * transfer that breaks off, whose partial target is deleted in turn
       */
    | AfterTargetRemoved

  class FileSystem {
    var files: map<Path, string>

    constructor (files: map<Path, string>)
      ensures this.files == files
    {
      this.files := files;
    }

    /**
     * `Files.copy(source, target, REPLACE_EXISTING)`: a missing source throws
     * first; a source that is the target itself is left alone; otherwise a
     * fault throws, after removing the old target when it strikes late, and
     * without one the target takes the source's content.
     */
    method Copy(source: Path, target: Path, fault: CopyFault) returns (r: Outcome<IOError>)
      modifies this
      ensures r == (if source !in old(files) then Fail(NoSuchFile(source))
                    else if source == target || fault.NoFault? then Pass
                    else Fail(WriteFailed(target)))
      ensures files == (if r.Pass? then Copied(old(files), source, target)
                        else if r == Fail(WriteFailed(target)) && fault.AfterTargetRemoved?
                        then old(files) - {target}
                        else old(files))
    {
      if source !in files {
        return Fail(NoSuchFile(source));
      }
      if source == target {
        return Pass;
      }
      match fault
      case NoFault =>
        files := files[target := files[source]];
        return Pass;
      case BeforeTarget =>
        return Fail(WriteFailed(target));
      case AfterTargetRemoved =>
        files := files - {target};
        return Fail(WriteFailed(target));
    }

    /**
     * `Files.writeString(path, text, APPEND, CREATE)`: appends `text`, creating
     * the file when absent; a failing device throws and changes nothing.
     */
    method AppendString(path: Path, text: string, deviceFails: bool) returns (r: Outcome<IOError>)
      modifies this
      ensures r == if deviceFails then Fail(WriteFailed(path)) else Pass
      ensures files == if r.Pass? then Appended(old(files), path, text) else old(files)
    {
      if deviceFails {
        return Fail(WriteFailed(path));
      }
      files := files[path := ContentOf(files, path) + text];
      return Pass;
    }
  }
}
