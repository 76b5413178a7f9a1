/** The part of the file system the cache reaper sees: the cache base directory,
    its immediate child folders, and the append-only log file. */
module CacheFs {

  datatype Option<+T> = None | Some(value: T)

  /** What opening a file with FileMode.Open, FileAccess.ReadWrite and
      FileShare.None would do at the moment it is probed: succeed, fail with an
      IOException (a sharing violation, or a file or directory that vanished,
      since those exceptions derive from IOException), or fail with any other
      exception (access denied, an UnauthorizedAccessException). */
  datatype ProbeOutcome = Free | Locked | OtherError

  datatype CacheFile = CacheFile(name: string, probe: ProbeOutcome)

  /** A folder under the cache base. `files` are its immediate files, in the
      order the listing returns them; `subdirs` is its nested content, which a
      recursive delete removes with it; `listingFails` says that listing its
      files throws; `deleteFails` says that deleting it recursively throws. */
  datatype Dir = Dir(files: seq<CacheFile>, subdirs: map<string, Dir>,
                     listingFails: bool, deleteFails: bool)

  /** One line of log.txt, reduced to its kind and the folder it names. */
  datatype LogEntry = Skipped(dir: string) | Deleted(dir: string) | Error(dir: string)

  /** A snapshot of the file-system state the cleanup reads and changes. */
  datatype CacheState = CacheState(baseExists: bool, baseListingFails: bool,
                                   children: map<string, Dir>, log: seq<LogEntry>)

  /** The file-system state shared by every process that uses the cache root. */
  class FileSystem {
    var baseExists: bool
    /** Listing the subdirectories of the base throws. */
    var baseListingFails: bool
    /** The immediate subdirectories of the base, by name. */
    var children: map<string, Dir>
    /** The lines appended to log.txt so far. */
    var log: seq<LogEntry>

    function State(): CacheState
      reads this
    {
      CacheState(baseExists, baseListingFails, children, log)
    }

    constructor (baseExists: bool, baseListingFails: bool, children: map<string, Dir>, log: seq<LogEntry>)
      ensures this.baseExists == baseExists && this.baseListingFails == baseListingFails
      ensures this.children == children && this.log == log
    {
      this.baseExists := baseExists;
      this.baseListingFails := baseListingFails;
      this.children := children;
      this.log := log;
    }

    /** Directory.Delete(path, true) on the child `name`: either the whole
        subtree is gone, or the call throws and the child stays. */
    method DeleteRecursive(name: string) returns (ok: bool)
      requires name in children
      modifies this
      ensures ok == !old(children[name].deleteFails)
      ensures children == if ok then old(children) - {name} else old(children)
      ensures log == old(log)
      ensures baseExists == old(baseExists) && baseListingFails == old(baseListingFails)
    {
      ok := !children[name].deleteFails;
      if ok {
        children := children - {name};
      }
    }

    /** File.AppendAllText on log.txt, which is taken never to fail. */
    method AppendLog(e: LogEntry)
      modifies this
      ensures log == old(log) + [e]
      ensures children == old(children)
      ensures baseExists == old(baseExists) && baseListingFails == old(baseListingFails)
    {
      log := log + [e];
    }
  }
}
