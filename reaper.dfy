/** What one run of the stale cache-folder cleanup decides, as functions of
    the folders found under the base and the order they are listed in. */
module Reaper {
  import opened CacheFs
  import opened LockProbe

  // Listings

  /** Every name in `names` is a child. */
  ghost predicate AllChildren(names: seq<string>, dirs: map<string, Dir>) {
    forall i | 0 <= i < |names| :: names[i] in dirs
  }

  /** `listing` names every child exactly once, as a directory listing does. */
  ghost predicate IsListing(listing: seq<string>, dirs: map<string, Dir>) {
    && (forall i, j | 0 <= i < j < |listing| :: listing[i] != listing[j])
    && AllChildren(listing, dirs)
    && (forall n | n in dirs :: n in listing)
  }

  /** The i-th listed name is a child that was not listed before it. */
  lemma ListedOnce(listing: seq<string>, dirs: map<string, Dir>, i: nat)
    requires IsListing(listing, dirs) && i < |listing|
    ensures AllChildren(listing[..i], dirs) && listing[i] in dirs && listing[i] !in listing[..i]
  {
  }

  /** A listing has as many entries as there are children. */
  lemma {:induction false} ListingLength(listing: seq<string>, dirs: map<string, Dir>)
    requires IsListing(listing, dirs)
    ensures |listing| == |dirs|
  {
    if listing != [] {
      var n := listing[0];
      var rest := dirs - {n};
      forall m ensures m in listing[1..] <==> m in rest {
        if m in listing[1..] {
          var j :| 1 <= j < |listing| && listing[j] == m;
        }
      }
      ListingLength(listing[1..], rest);
    }
  }

  // The decision for one folder

  /** The log line one iteration of the cleanup loop writes for a folder. */
  function FolderEntry(name: string, d: Dir): (e: LogEntry)
    ensures e.dir == name
    ensures e.Skipped? <==> d.listingFails || exists i :: 0 <= i < |d.files| && d.files[i].probe != Free
    ensures e.Error? <==> !e.Skipped? && d.deleteFails
    ensures d.files == [] && !d.listingFails ==> !e.Skipped?
  {
    if IsCacheFolderInUse(d) then Skipped(name)
    else if d.deleteFails then Error(name)
    else Deleted(name)
  }

  /** The folder is deleted: its files can be listed, every one of them
      opens exclusively, and deleting it succeeds. */
  predicate Reclaimed(d: Dir): (r: bool)
    ensures r <==> !d.listingFails && !d.deleteFails && forall i :: 0 <= i < |d.files| ==> d.files[i].probe == Free
  {
    !IsCacheFolderInUse(d) && !d.deleteFails
  }

  // The lines a run logs

  /** The log lines a run writes when the folders are listed in `names`. */
  function ScanLog(names: seq<string>, dirs: map<string, Dir>): (log: seq<LogEntry>)
    requires AllChildren(names, dirs)
    ensures |log| == |names|
    ensures forall k | 0 <= k < |names| :: log[k].dir == names[k]
  {
    if names == [] then []
    else ScanLog(names[..|names| - 1], dirs) + [FolderEntry(names[|names| - 1], dirs[names[|names| - 1]])]
  }

  /** The k-th log line is the decision for the k-th listed folder, made on
      that folder alone. */
  lemma {:induction false} ScanLogAt(names: seq<string>, dirs: map<string, Dir>, k: nat)
    requires AllChildren(names, dirs)
    requires k < |names|
    ensures ScanLog(names, dirs)[k] == FolderEntry(names[k], dirs[names[k]])
  {
    if k < |names| - 1 {
      ScanLogAt(names[..|names| - 1], dirs, k);
    }
  }

  /** Processing one more folder appends its one line to the log. */
  lemma ScanLogSnoc(names: seq<string>, name: string, dirs: map<string, Dir>)
    requires AllChildren(names, dirs)
    requires name in dirs
    ensures AllChildren(names + [name], dirs)
    ensures ScanLog(names + [name], dirs) == ScanLog(names, dirs) + [FolderEntry(name, dirs[name])]
  {
    assert (names + [name])[..|names|] == names;
  }

  // The folders a run leaves

  /** The children left after a whole run: cleanup only removes folders, and
      leaves the ones it keeps exactly as they were. */
  function Survivors(dirs: map<string, Dir>): (s: map<string, Dir>)
    ensures s.Keys <= dirs.Keys
    ensures forall n | n in s :: s[n] == dirs[n]
  {
    map n | n in dirs && !Reclaimed(dirs[n]) :: dirs[n]
  }

  /** The children left once the folders listed in `done` have been processed. */
  ghost function SurvivorsAfter(dirs: map<string, Dir>, done: seq<string>): map<string, Dir> {
    map n | n in dirs && !(n in done && Reclaimed(dirs[n])) :: dirs[n]
  }

  /** Processing one more folder removes it exactly when it is reclaimed. */
  lemma SurvivorsAfterStep(dirs: map<string, Dir>, done: seq<string>, name: string)
    requires name in dirs && name !in done
    ensures name in SurvivorsAfter(dirs, done) && SurvivorsAfter(dirs, done)[name] == dirs[name]
    ensures SurvivorsAfter(dirs, done + [name]) ==
      if Reclaimed(dirs[name]) then SurvivorsAfter(dirs, done) - {name} else SurvivorsAfter(dirs, done)
  {
    var next := if Reclaimed(dirs[name]) then SurvivorsAfter(dirs, done) - {name} else SurvivorsAfter(dirs, done);
    assert SurvivorsAfter(dirs, done + [name]).Keys == next.Keys;
  }

  // One whole run, and the loop that performs it step by step

  /** Listing the subdirectories of an existing base throws, and the
      exception leaves the cleanup before any folder is looked at. */
  predicate CleanupEscapes(st: CacheState) {
    st.baseExists && st.baseListingFails
  }

  /** The state after one cleanup run over the children listed in `listing`. */
  function Cleanup(st: CacheState, listing: seq<string>): (r: CacheState)
    requires IsListing(listing, st.children)
    ensures r.baseExists == st.baseExists && r.baseListingFails == st.baseListingFails
    ensures r.children.Keys <= st.children.Keys
    ensures forall n | n in r.children :: r.children[n] == st.children[n]
    ensures |st.log| <= |r.log| && r.log[..|st.log|] == st.log
    ensures |r.log| == |st.log| + if !st.baseExists || CleanupEscapes(st) then 0 else |st.children|
  {
    if !st.baseExists || CleanupEscapes(st) then st
    else
      ListingLength(listing, st.children);
      st.(children := Survivors(st.children), log := st.log + ScanLog(listing, st.children))
  }

  /** One iteration of the cleanup loop on the state: log the folder's line
      and remove it when it is reclaimed. */
  function FolderStep(st: CacheState, name: string): (r: CacheState)
    requires name in st.children
    ensures r.baseExists == st.baseExists && r.baseListingFails == st.baseListingFails
    ensures r.log == st.log + [FolderEntry(name, st.children[name])]
    ensures r.children.Keys == st.children.Keys - (if Reclaimed(st.children[name]) then {name} else {})
    ensures forall n | n in r.children :: r.children[n] == st.children[n]
  {
    var d := st.children[name];
    st.(children := if Reclaimed(d) then st.children - {name} else st.children,
        log := st.log + [FolderEntry(name, d)])
  }

  /** The state once the folders in `done` have been processed. */
  ghost function CleanupAfter(st: CacheState, done: seq<string>): CacheState
    requires AllChildren(done, st.children)
  {
    st.(children := SurvivorsAfter(st.children, done), log := st.log + ScanLog(done, st.children))
  }

  /** Processing the next listed folder is one FolderStep on the state
      reached so far. */
  lemma CleanupAfterStep(st: CacheState, listing: seq<string>, i: nat)
    requires IsListing(listing, st.children) && i < |listing|
    ensures AllChildren(listing[..i], st.children) && AllChildren(listing[..i + 1], st.children)
    ensures listing[i] in CleanupAfter(st, listing[..i]).children
    ensures CleanupAfter(st, listing[..i + 1]) == FolderStep(CleanupAfter(st, listing[..i]), listing[i])
  {
    var done, name := listing[..i], listing[i];
    ListedOnce(listing, st.children, i);
    assert listing[..i + 1] == done + [name];
    SurvivorsAfterStep(st.children, done, name);
    ScanLogSnoc(done, name, st.children);
    assert (st.log + ScanLog(done, st.children)) + [FolderEntry(name, st.children[name])]
        == st.log + (ScanLog(done, st.children) + [FolderEntry(name, st.children[name])]);
  }

  /** Nothing processed: the state is unchanged. Everything listed: the state
      is the one Cleanup describes. */
  lemma CleanupAfterEnds(st: CacheState, listing: seq<string>)
    requires IsListing(listing, st.children) && st.baseExists && !CleanupEscapes(st)
    ensures CleanupAfter(st, []) == st
    ensures CleanupAfter(st, listing) == Cleanup(st, listing)
  {
    assert SurvivorsAfter(st.children, listing).Keys == Survivors(st.children).Keys;
    assert SurvivorsAfter(st.children, []).Keys == st.children.Keys;
  }

  // Properties of a run

  /** Every folder gets exactly one log line, and it names that folder. */
  lemma OneEntryPerFolder(listing: seq<string>, dirs: map<string, Dir>, name: string)
    requires IsListing(listing, dirs) && name in dirs
    ensures |ScanLog(listing, dirs)| == |dirs|
    ensures exists k | 0 <= k < |listing| :: ScanLog(listing, dirs)[k].dir == name
    ensures forall k, j | 0 <= k < j < |listing| :: ScanLog(listing, dirs)[k].dir != ScanLog(listing, dirs)[j].dir
  {
    ListingLength(listing, dirs);
    var k :| 0 <= k < |listing| && listing[k] == name;
    assert ScanLog(listing, dirs)[k].dir == name;
  }

  /** An empty folder whose listing and deletion succeed is deleted and
      logged as deleted. */
  lemma EmptyFolderDeleted(listing: seq<string>, dirs: map<string, Dir>, k: nat)
    requires AllChildren(listing, dirs) && k < |listing|
    requires var d := dirs[listing[k]]; d.files == [] && !d.listingFails && !d.deleteFails
    ensures ScanLog(listing, dirs)[k] == Deleted(listing[k])
    ensures listing[k] !in Survivors(dirs)
  {
    ScanLogAt(listing, dirs, k);
  }

  /** A folder holding a locked file is kept unchanged and logged as skipped. */
  lemma LockedFolderKept(listing: seq<string>, dirs: map<string, Dir>, k: nat, i: nat)
    requires AllChildren(listing, dirs) && k < |listing|
    requires i < |dirs[listing[k]].files| && dirs[listing[k]].files[i].probe == Locked
    ensures ScanLog(listing, dirs)[k] == Skipped(listing[k])
    ensures listing[k] in Survivors(dirs) && Survivors(dirs)[listing[k]] == dirs[listing[k]]
  {
    ScanLogAt(listing, dirs, k);
  }

  /** A folder whose listing throws, or one of whose files cannot be probed,
      is kept unchanged and logged as skipped: nothing is deleted on
      uncertainty. */
  lemma UncertainFolderKept(listing: seq<string>, dirs: map<string, Dir>, k: nat)
    requires AllChildren(listing, dirs) && k < |listing|
    requires var d := dirs[listing[k]];
      d.listingFails || exists i | 0 <= i < |d.files| :: d.files[i].probe == OtherError
    ensures ScanLog(listing, dirs)[k] == Skipped(listing[k])
    ensures listing[k] in Survivors(dirs) && Survivors(dirs)[listing[k]] == dirs[listing[k]]
  {
    ScanLogAt(listing, dirs, k);
  }

  /** A "deleted" line is written exactly for the folders that are gone, an
      "error" line only for a folder that was not in use and whose delete
      threw, and a "skipped" line only for a folder in use. */
  lemma LogMatchesOutcome(listing: seq<string>, dirs: map<string, Dir>, k: nat)
    requires AllChildren(listing, dirs) && k < |listing|
    ensures ScanLog(listing, dirs)[k].Deleted? <==> listing[k] !in Survivors(dirs)
    ensures ScanLog(listing, dirs)[k].Error? <==>
      !IsCacheFolderInUse(dirs[listing[k]]) && dirs[listing[k]].deleteFails
    ensures ScanLog(listing, dirs)[k].Skipped? <==> IsCacheFolderInUse(dirs[listing[k]])
  {
    ScanLogAt(listing, dirs, k);
  }

  /** Whatever happens to one folder (its listing or its delete throwing, a
      file becoming locked) changes neither the log line nor the fate of any
      other folder. */
  lemma {:induction false} OtherFoldersUnaffected(listing: seq<string>, dirs: map<string, Dir>,
                                                  name: string, d: Dir)
    requires IsListing(listing, dirs) && name in dirs
    ensures IsListing(listing, dirs[name := d])
    ensures forall k | 0 <= k < |listing| && listing[k] != name ::
      ScanLog(listing, dirs[name := d])[k] == ScanLog(listing, dirs)[k]
    ensures forall n | n in dirs && n != name ::
      (n in Survivors(dirs[name := d]) <==> n in Survivors(dirs))
  {
    var changed := dirs[name := d];
    assert changed.Keys == dirs.Keys;
    forall k | 0 <= k < |listing| && listing[k] != name
      ensures ScanLog(listing, changed)[k] == ScanLog(listing, dirs)[k]
    {
      ScanLogAt(listing, changed, k);
      ScanLogAt(listing, dirs, k);
    }
    forall n | n in dirs && n != name
      ensures n in Survivors(changed) <==> n in Survivors(dirs)
    {
      assert changed[n] == dirs[n];
    }
  }

  /** A second run over what the first left deletes nothing more. */
  lemma {:induction false} CleanupIdempotent(dirs: map<string, Dir>)
    ensures Survivors(Survivors(dirs)) == Survivors(dirs)
    ensures forall n | n in Survivors(dirs) :: !Reclaimed(Survivors(dirs)[n])
  {
    var s := Survivors(dirs);
    forall n | n in s ensures !Reclaimed(s[n]) {
      assert s[n] == dirs[n];
    }
    assert Survivors(s).Keys == s.Keys;
  }

  /** A second cleanup right after the first deletes nothing and writes no
      "deleted" line: what the first left is all in use or undeletable. */
  lemma {:induction false} CleanupTwice(st: CacheState, listing: seq<string>, again: seq<string>)
    requires IsListing(listing, st.children)
    requires IsListing(again, Cleanup(st, listing).children)
    ensures var once := Cleanup(st, listing);
      var twice := Cleanup(once, again);
      && twice.children == once.children
      && forall k | |once.log| <= k < |twice.log| :: !twice.log[k].Deleted?
  {
    var once := Cleanup(st, listing);
    if st.baseExists && !CleanupEscapes(st) {
      CleanupIdempotent(st.children);
      forall k | 0 <= k < |again| ensures !ScanLog(again, once.children)[k].Deleted? {
        ScanLogAt(again, once.children, k);
      }
    }
  }

  /** Without a base directory the cleanup changes nothing and logs nothing. */
  lemma MissingBaseNoOp(st: CacheState, listing: seq<string>)
    requires IsListing(listing, st.children) && !st.baseExists
    ensures Cleanup(st, listing) == st
  {
  }

  /** A base with no children: the run writes nothing and deletes nothing. */
  lemma EmptyBaseNoOp(listing: seq<string>)
    requires IsListing(listing, map[])
    ensures ScanLog(listing, map[]) == [] && Survivors(map[]) == map[]
  {
    ListingLength(listing, map[]);
  }

  /** Every line a cleanup appends names a child that existed when it began,
      so a folder created afterwards (the new session's) is never logged. */
  lemma LoggedFoldersWereChildren(st: CacheState, listing: seq<string>)
    requires IsListing(listing, st.children)
    ensures forall k | |st.log| <= k < |Cleanup(st, listing).log| ::
      Cleanup(st, listing).log[k].dir in st.children
  {
    if st.baseExists && !CleanupEscapes(st) {
      var r := Cleanup(st, listing);
      forall k | |st.log| <= k < |r.log| ensures r.log[k].dir in st.children {
        assert r.log[k] == ScanLog(listing, st.children)[k - |st.log|];
      }
    }
  }

  /** Folders A (empty), B (one locked file) and C (one free file): A and C
      are deleted, B stays, and the log reads deleted, skipped, deleted. */
  lemma ThreeFolderScenario()
    ensures var a := Dir([], map[], false, false);
      var b := Dir([CacheFile("f", Locked)], map[], false, false);
      var c := Dir([CacheFile("g", Free)], map[], false, false);
      var dirs := map["A" := a, "B" := b, "C" := c];
      && IsListing(["A", "B", "C"], dirs)
      && Survivors(dirs) == map["B" := b]
      && ScanLog(["A", "B", "C"], dirs) == [Deleted("A"), Skipped("B"), Deleted("C")]
  {
    var a := Dir([], map[], false, false);
    var b := Dir([CacheFile("f", Locked)], map[], false, false);
    var c := Dir([CacheFile("g", Free)], map[], false, false);
    var dirs := map["A" := a, "B" := b, "C" := c];
    assert !IsCacheFolderInUse(c) by {
      assert c.files[0].probe == Free;
    }
    assert IsCacheFolderInUse(b) by {
      assert b.files[0].probe == Locked;
    }
    assert Survivors(dirs).Keys == {"B"};
  }
}
