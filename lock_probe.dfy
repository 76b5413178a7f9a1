/** The lock probe and the folder-in-use classifier. */
module LockProbe {
  import opened CacheFs

  /** How a call of IsFileLocked ends: it returns a value, or an exception
      other than IOException escapes it. */
  datatype ProbeResult = Returned(locked: bool) | Escaped

  /** Opening succeeds: not locked; IOException: locked; anything else escapes. */
  function IsFileLocked(f: CacheFile): (r: ProbeResult)
    ensures r == Returned(false) <==> f.probe == Free
    ensures r == Returned(true) <==> f.probe == Locked
    ensures r.Escaped? <==> f.probe == OtherError
  {
    match f.probe
    case Free => Returned(false)
    case Locked => Returned(true)
    case OtherError => Escaped
  }

  /** How the probing loop over a folder's files ends. */
  datatype ScanResult = FoundLocked | ProbeThrew | NoneLocked

  /** The first `k` files all probe free. */
  ghost predicate FreePrefix(files: seq<CacheFile>, k: int)
    requires 0 <= k <= |files|
  {
    forall j | 0 <= j < k :: files[j].probe == Free
  }

  /** The loop that probes the files one by one and returns at the first
      locked file; an escaping exception ends it too. */
  function ScanFiles(files: seq<CacheFile>): (r: ScanResult)
    ensures r == NoneLocked <==> FreePrefix(files, |files|)
    ensures r == FoundLocked <==>
      exists k | 0 <= k < |files| :: files[k].probe == Locked && FreePrefix(files, k)
    ensures r == ProbeThrew <==>
      exists k | 0 <= k < |files| :: files[k].probe == OtherError && FreePrefix(files, k)
  {
    if files == [] then NoneLocked
    else
      match IsFileLocked(files[0])
      case Returned(locked) =>
        if locked then FoundLocked
        else
          var r := ScanFiles(files[1..]);
          assert forall k | 0 <= k < |files| - 1 ::
            FreePrefix(files[1..], k) <==> FreePrefix(files, k + 1);
          r
      case Escaped => ProbeThrew
  }

  /** A folder is in use when listing its files throws, when probing one of
      them throws, or when one of them is locked; an empty folder is not. */
  function IsCacheFolderInUse(d: Dir): (inUse: bool)
    ensures d.listingFails ==> inUse
    ensures !d.listingFails && d.files == [] ==> !inUse
    ensures inUse <==> d.listingFails || exists i | 0 <= i < |d.files| :: d.files[i].probe != Free
  {
    if d.listingFails then true
    else if |d.files| == 0 then false
    else ScanFiles(d.files) != NoneLocked
  }

  /** Files after the first one that is not free are never probed: the loop's
      outcome is that of the files up to and including it. */
  lemma {:induction false} ScanStopsAtFirstUncertain(files: seq<CacheFile>, k: nat)
    requires k < |files| && files[k].probe != Free && FreePrefix(files, k)
    ensures ScanFiles(files) == ScanFiles(files[..k + 1])
    ensures ScanFiles(files) == if files[k].probe == Locked then FoundLocked else ProbeThrew
  {
    if k > 0 {
      assert FreePrefix(files[1..], k - 1);
      ScanStopsAtFirstUncertain(files[1..], k - 1);
      assert files[1..][..k] == files[..k + 1][1..];
    }
  }

  /** Only the folder's immediate files decide: its nested content does not. */
  lemma NestedContentIgnored(d: Dir, nested: map<string, Dir>)
    ensures IsCacheFolderInUse(d.(subdirs := nested)) == IsCacheFolderInUse(d)
  {
  }

  /** The order in which the files are listed does not change the verdict. */
  lemma InUseIgnoresFileOrder(d: Dir, files: seq<CacheFile>)
    requires multiset(files) == multiset(d.files)
    ensures IsCacheFolderInUse(d.(files := files)) == IsCacheFolderInUse(d)
  {
    forall i | 0 <= i < |d.files| && d.files[i].probe != Free
      ensures exists j | 0 <= j < |files| :: files[j].probe != Free
    {
      assert d.files[i] in multiset(files);
      var j :| 0 <= j < |files| && files[j] == d.files[i];
    }
    forall j | 0 <= j < |files| && files[j].probe != Free
      ensures exists i | 0 <= i < |d.files| :: d.files[i].probe != Free
    {
      assert files[j] in multiset(d.files);
      var i :| 0 <= i < |d.files| && d.files[i] == files[j];
    }
  }
}
