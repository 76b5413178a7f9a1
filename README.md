# Stale cache-folder reaper of a multi-instance CefSharp host

A WinForms window that embeds Chromium gives every running instance its own
cache folder `…\Cefsharp\ChromiumCacheRoot\Cef_Cache_<guid>`. Before it picks
its own, each instance reaps the folders that earlier instances left behind.
It goes through the immediate subfolders of the cache base and probes each
one's immediate files by opening them exclusively. A folder with a locked
file, or one it cannot inspect, is kept and logged as skipped. Any other
folder, an empty one included, is deleted recursively and logged as deleted.
A folder whose delete throws is logged as an error, and the scan goes on.
Only after that is the session path computed. This project models that
component in Dafny and proves what it promises.

Modules:

- `CacheFs` (`cache_fs.dfy`) holds the data model. There is a probe outcome
  per file (`Free | Locked | OtherError`). A folder `Dir` holds its immediate
  files, its nested content, and two flags: listing its files throws, and
  deleting it throws. A log entry has the kind `Skipped | Deleted | Error`.
  The class `FileSystem` is the shared state: whether the base exists,
  whether listing the base throws, the children `map<string, Dir>`, and the
  append-only log. It also models `Directory.Delete(dir, true)` and
  `File.AppendAllText`.
- `LockProbe` (`lock_probe.dfy`) holds `IsFileLocked` as an oracle lookup and
  the probing loop as the recursive function `ScanFiles`. `IsCacheFolderInUse`
  is proved equal to "listing fails, or some file is not free".
- `Reaper` (`reaper.dfy`) holds the meaning of one cleanup run as pure
  functions: `ScanLog` (the lines written), `Survivors` (the children left)
  and `Cleanup` (the whole new state). It also holds the lemmas about them.
- `CachePaths` (`cache_paths.dfy`) holds `Path.Combine` for relative second
  arguments (an empty one included), the cache base path and the session path.
- `Startup` (`startup.dfy`) holds the class `Form1`. Its loop method
  `CleanupOldCacheFolders` mutates the `FileSystem` and is proved to reach
  exactly `Cleanup(old state, listing)`. `InitializeChromium` runs the
  cleanup first and computes the session path afterwards.

The order in which `Directory.GetDirectories` returns the children is a
parameter, `listing`, which must name every child exactly once. The
temporary directory and the GUID are parameters too.

Notes on the code's behaviour:

- The code never creates the cache base or the session folder (Form1.cs:25-29).
- A state whose base does not exist is treated as "base missing" whatever
  children or listing flag it records: a run reads neither of them.
- An exception other than `IOException` is not turned into "locked" inside
  `IsFileLocked`. It escapes, and the catch-all of `IsCacheFolderInUse` turns
  it into "in use". The verdict for the folder is the same.
- Classification never throws, because of that catch-all. So an "error" line
  comes only from a failed delete.
- If listing the subdirectories of an existing base throws, nothing catches
  it. The exception leaves `CleanupOldCacheFolders` and `InitializeChromium`
  before any folder is touched, and no session path is computed. The model
  returns this as `escaped`.

## Model

| member | source | states |
|---|---|---|
| `LockProbe.IsFileLocked` | Form1.cs:140-153 | an exclusive open that succeeds means not locked; an IOException means locked; any other exception escapes the probe |
| `LockProbe.ScanFiles` | Form1.cs:122-131 | the probing loop finds no locked file iff every file probes free; it reports "locked" iff the first file that is not free is locked, and "threw" iff that file's probe throws |
| `LockProbe.IsCacheFolderInUse` | Form1.cs:115-137 | a folder is in use iff listing its files throws or some immediate file is not free; an empty, listable folder is not in use |
| `LockProbe.ScanStopsAtFirstUncertain` | Form1.cs:122-128 | files after the first locked (or throwing) file are never probed: the outcome is fixed by the files up to it |
| `LockProbe.NestedContentIgnored` | Form1.cs:119 | only immediate files are inspected: nested folders never change the verdict |
| `LockProbe.InUseIgnoresFileOrder` | Form1.cs:119-131 | the order in which the files are listed does not change the verdict |
| `CacheFs.FileSystem.DeleteRecursive` | Form1.cs:103 | a recursive delete either removes the child with its whole subtree or throws and leaves everything as it was |
| `CacheFs.FileSystem.AppendLog` | Form1.cs:98-109 | a log write appends exactly one line and changes nothing else |
| `Reaper.ListingLength` | Form1.cs:91 | a directory listing that names every child once has one entry per child |
| `Reaper.ScanLog` | Form1.cs:91-111 | a run writes one line per listed folder, in listing order, each naming its folder |
| `Reaper.ScanLogAt` | Form1.cs:93-110 | the k-th line is the decision for the k-th folder, made from that folder alone |
| `Reaper.Survivors` | Form1.cs:95-105 | a run only removes children, and leaves every kept child exactly as it was |
| `Reaper.Cleanup` | Form1.cs:87-112 | a run never creates or deletes the base, removes only immediate children, keeps the old log as a prefix, and appends one line per child (none when the base is missing or cannot be listed) |
| `Reaper.FolderEntry` | Form1.cs:95-110 | a folder's line names it; it is "skipped" iff its listing throws or some immediate file is not free; "error" iff it is not skipped and its delete throws; an empty listable folder is never skipped |
| `Reaper.Reclaimed` | Form1.cs:95-103 | a folder is deleted iff its files can be listed, every one opens exclusively, and its delete succeeds |
| `Reaper.FolderStep` | Form1.cs:93-110 | one iteration appends the folder's line, removes the folder exactly when it is not in use and its delete succeeds, and leaves every other folder unchanged |
| `Reaper.CleanupAfterStep` | Form1.cs:91-111 | processing the next listed folder is one iteration on the state reached so far, and that folder is still present unchanged |
| `Reaper.CleanupAfterEnds` | Form1.cs:91-111 | before the loop nothing has changed; after the last listed folder the state is the one `Cleanup` describes |
| `Reaper.OneEntryPerFolder` | Form1.cs:91-111 | every child gets exactly one log line, and no two lines name the same folder |
| `Reaper.EmptyFolderDeleted` | Form1.cs:119-120 | a folder with no immediate files that can be listed and deleted is deleted and logged as deleted |
| `Reaper.LockedFolderKept` | Form1.cs:122-128 | a folder with a locked immediate file is kept unchanged and logged as skipped |
| `Reaper.UncertainFolderKept` | Form1.cs:133-136 | a folder whose listing throws, or one of whose probes throws a non-IOException, is kept unchanged and logged as skipped |
| `Reaper.LogMatchesOutcome` | Form1.cs:95-110 | "deleted" is logged iff the folder is gone; "error" iff it was not in use and its delete threw; "skipped" iff it was in use |
| `Reaper.OtherFoldersUnaffected` | Form1.cs:91-111 | any change to one folder (a failing delete, a failing listing, a newly locked file) changes neither the line nor the fate of any other folder |
| `Reaper.CleanupIdempotent` | Form1.cs:91-111 | every folder a run leaves is in use or undeletable, so reaping what is left, when every probe and delete behaves as in the first run, leaves the same folders |
| `Reaper.CleanupTwice` | Form1.cs:87-112 | a second run straight after the first, when every probe and delete behaves as in the first run, deletes nothing and logs no "deleted" line |
| `Reaper.MissingBaseNoOp` | Form1.cs:89 | when the base does not exist, a run changes nothing and logs nothing |
| `Reaper.EmptyBaseNoOp` | Form1.cs:91 | a base without children: a run logs nothing and deletes nothing |
| `Reaper.LoggedFoldersWereChildren` | Form1.cs:91-111 | every line a run appends names a child that existed when the run began |
| `Reaper.ThreeFolderScenario` | Form1.cs:87-137 | with A empty, B holding a locked file and C holding a free file, A and C are deleted, B stays, and the log reads deleted, skipped, deleted |
| `CachePaths.Combine` | Form1.cs:25-29 | the joined path is the second part when the first is empty and the first part when the second is empty; otherwise it starts with the first part, ends with the second, and has exactly one separator between them unless the first already ends with one, in which case nothing lies between them |
| `CachePaths.CacheBasePath` | Form1.cs:25 | the cache base is exactly the temp path, a separator unless the temp path already ends in one, "Cefsharp", a separator and "ChromiumCacheRoot" |
| `CachePaths.SessionFolderName` | Form1.cs:29 | the session folder's name is "Cef_Cache_" followed by the token |
| `CachePaths.SessionPath` | Form1.cs:29 | the session path starts with the base, ends with "Cef_Cache_" and the token, and has exactly one separator between them, or nothing when the base is empty or already ends with one |
| `CachePaths.CombineInjective` | Form1.cs:29 | joining one base with two different names gives two different paths |
| `CachePaths.SessionPathShape` | Form1.cs:29 | the session path starts with the base and ends with "Cef_Cache_" and the token; different tokens give different session paths |
| `Startup.Form1.CleanupFolder` | Form1.cs:93-110 | one loop iteration with its catch: the new file-system state is exactly one `FolderStep` |
| `Startup.Form1.CleanupOldCacheFolders` | Form1.cs:87-112 | the loop leaves the file system exactly in the state `Cleanup` describes; it escapes iff the base exists and cannot be listed |
| `Startup.Form1.InitializeChromium` | Form1.cs:23-29 | the base is computed from the temp path; the cleanup runs to completion first; only then is the session path set to base plus "Cef_Cache_" and the token (not set if the cleanup threw); a session folder absent before the cleanup is neither created nor logged |

## Left out

- The mechanics of `FileStream` exclusive opening and real OS lock semantics are not modelled. Each file carries the outcome its probe would have, because these are foreign calls.
- `Guid.NewGuid()` is modelled as an opaque `token` parameter. Its randomness and the low collision probability are probabilistic, not provable. The model proves only that different tokens give different paths.
- `Path.GetTempPath()` is a parameter. `Path.Combine` is modelled only for relative second arguments, which every call here passes. Its invalid-character checks are not modelled.
- The particular order in which the operating system returns `Directory.GetDirectories` and `Directory.GetFiles` results is not modelled. The model allows any order: the first is the `listing` parameter and the second is the order of `Dir.files`, and a folder's verdict is proved not to depend on the second.
- A log line's text, its full path and its `DateTime.Now` timestamp are not modelled. An entry records only its kind and the folder name.
- `File.AppendAllText` is taken never to fail. A failure inside the catch block would escape the loop.
- When `Directory.Delete(dir, true)` throws part-way, it may already have removed some of the contents. The model keeps the folder unchanged.
- Cef is left out because it is a thin wrapper over an external library and the UI. This covers `Cef.Initialize`, `Cef.Shutdown` in `Form1_FormClosing`, the subprocess-executable check, the `ChromiumWebBrowser` control, `NavigateToUrl`, `InitializeComponent` and every `MessageBox`. So is the propagation of an escaped exception out of the form's constructor.
- Races with other processes on the shared cache root are not modelled, because the model is sequential. That includes a folder that becomes locked between its check and its delete, or an empty folder that another instance has just created.
