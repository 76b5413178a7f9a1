/** The window's start-up steps that concern the cache: reap stale session
    folders under the cache base, then compute this session's cache path. */
module Startup {
  import opened CacheFs
  import opened LockProbe
  import opened Reaper
  import opened CachePaths

  class Form1 {
    const fs: FileSystem
    var baseCachePath: string
    /** The session cache path; None until it has been computed. */
    var rootCachePath: Option<string>

    constructor (fs: FileSystem)
      ensures this.fs == fs && baseCachePath == "" && rootCachePath == None
    {
      this.fs := fs;
      baseCachePath := "";
      rootCachePath := None;
    }

    /** Deletes every child of the base that is not in use, keeps the others,
        and logs one line per child. `listing` is the order in which the
        directory listing returns the children. When listing the base throws,
        the exception escapes (`escaped`) before anything changes. */
    method CleanupOldCacheFolders(listing: seq<string>) returns (escaped: bool)
      requires IsListing(listing, fs.children)
      modifies fs
      ensures escaped == CleanupEscapes(old(fs.State()))
      ensures fs.State() == Cleanup(old(fs.State()), listing)
    {
      // Directory.Exists is false: nothing to do. Listing the base throws:
      // the exception leaves the method before any folder is looked at.
      escaped := fs.baseExists && fs.baseListingFails;
      if !fs.baseExists || escaped {
        return;
      }
      ghost var start := fs.State();
      CleanupAfterEnds(start, listing);
      var i := 0;
      while i < |listing|
        invariant 0 <= i <= |listing|
        invariant AllChildren(listing[..i], start.children)
        invariant fs.State() == CleanupAfter(start, listing[..i])
      {
        CleanupAfterStep(start, listing, i);
        CleanupFolder(listing[i]);
        i := i + 1;
      }
      assert listing[..i] == listing;
    }

    /** One iteration of the cleanup loop, with its own catch: log "skipped"
        for a folder in use; otherwise delete it recursively and log "deleted",
        or log "error" when the delete throws. */
    method CleanupFolder(name: string)
      requires name in fs.children
      modifies fs
      ensures fs.State() == FolderStep(old(fs.State()), name)
    {
      var d := fs.children[name];
      if IsCacheFolderInUse(d) {
        fs.AppendLog(Skipped(name));
      } else {
        var deleted := fs.DeleteRecursive(name);
        if deleted {
          fs.AppendLog(Deleted(name));
        } else {
          fs.AppendLog(Error(name));
        }
      }
    }

    /** Computes the cache base under the temporary directory, reaps it, and
        only then computes the session path from the base and `token` (the
        fresh GUID). Neither the base nor the session folder is created; when
        the cleanup throws, no session path is computed. */
    method InitializeChromium(tempPath: string, listing: seq<string>, token: string)
      returns (escaped: bool)
      requires IsListing(listing, fs.children)
      modifies this, fs
      ensures baseCachePath == CacheBasePath(tempPath)
      ensures fs.State() == Cleanup(old(fs.State()), listing)
      ensures escaped == CleanupEscapes(old(fs.State()))
      ensures rootCachePath == if escaped then old(rootCachePath) else Some(SessionPath(baseCachePath, token))
      ensures SessionFolderName(token) !in old(fs.children) ==>
        && SessionFolderName(token) !in fs.children
        && forall k | |old(fs.log)| <= k < |fs.log| :: fs.log[k].dir != SessionFolderName(token)
    {
      baseCachePath := CacheBasePath(tempPath);
      escaped := CleanupOldCacheFolders(listing);
      if escaped {
        return;
      }
      rootCachePath := Some(SessionPath(baseCachePath, token));
    }
  }
}
