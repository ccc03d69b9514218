/** The durable result store: one file per request id under a base directory,
    holding the serialised cached entry. The directory is a map from file name
    to the file's modification time and its parsed content; JSON encoding is
    abstract, and a file whose bytes do not parse has no content. Times are
    milliseconds on one clock. */
module ProofDisk {
  import opened Wrappers
  import opened Errors
  import opened ProofTypes
  import Text

  /** One file of the store: when it was last written, and what it parses to
      (`None` when its bytes are not a valid entry). */
  datatype StoredFile = StoredFile(modTime: int, content: Option<FileProof>)

  type Directory = map<string, StoredFile>

  /** How one write of an entry ends. The file is opened with truncation and
      then written, so a failure can come before anything changed, or after
      the file was emptied; a file cut short does not parse. */
  datatype WriteOutcome = Written | OpenFailed | WriteFailed

  const Second: int := 1000
  const Minute: int := 60 * Second
  const Hour: int := 60 * Minute
  const Day: int := 24 * Hour

  /** How long a successful entry is kept. */
  const Retention: int := 7 * Day
  /** How often the background sweep runs. */
  const SweepInterval: int := 10 * Minute

  /** The base directory with a trailing '/' appended when it lacks one. */
  function NormalizeBaseDir(dir: string): (r: string)
    ensures Text.HasSuffix(r, "/")
    ensures Text.HasSuffix(dir, "/") ==> r == dir
    ensures !Text.HasSuffix(dir, "/") ==> r == dir + "/"
  {
    if Text.HasSuffix(dir, "/") then dir else dir + "/"
  }

  lemma NormalizeBaseDirIdempotent(dir: string)
    ensures NormalizeBaseDir(NormalizeBaseDir(dir)) == NormalizeBaseDir(dir)
  {
  }

  // ---------------------------------------------------------------- the meaning of the operations

  /** What Find returns for `id` in `dir`: nothing for a missing or unparsable file. */
  function FindIn(dir: Directory, id: string): Option<FileProof>
  {
    if id in dir then dir[id].content else None
  }

  /** A file the sweep wants gone: written strictly before the cutoff, or
      holding an entry that records an error. Unparsable files go only by age. */
  predicate Expired(f: StoredFile, cutoff: int)
  {
    f.modTime < cutoff || (f.content.Some? && HasError(f.content.value))
  }

  /** The files one sweep deletes: the expired ones whose removal succeeds. */
  function Removed(dir: Directory, cutoff: int, failing: set<string>): (gone: set<string>)
    ensures gone <= dir.Keys
  {
    set n | n in dir && Expired(dir[n], cutoff) && n !in failing
  }

  /** The directory after one sweep. */
  function Swept(dir: Directory, cutoff: int, failing: set<string>): Directory
  {
    dir - Removed(dir, cutoff, failing)
  }

  /** One file of the sweep: it is deleted exactly when it is in `Removed`,
      and the deleted set and its count grow accordingly. */
  lemma SweepStep(dir: Directory, cutoff: int, failing: set<string>, visited: set<string>, name: string)
    requires name in dir && name !in visited
    ensures
      var gone := Removed(dir, cutoff, failing);
      && (name in gone <==> Expired(dir[name], cutoff) && name !in failing)
      && (name in gone ==> gone * (visited + {name}) == gone * visited + {name})
      && (name in gone ==> |gone * (visited + {name})| == |gone * visited| + 1)
      && (name in gone ==> dir - gone * (visited + {name}) == (dir - gone * visited) - {name})
      && (name !in gone ==> gone * (visited + {name}) == gone * visited)
  {
    var gone := Removed(dir, cutoff, failing);
    if name in gone {
      assert gone * (visited + {name}) == gone * visited + {name};
    } else {
      assert gone * (visited + {name}) == gone * visited;
    }
  }

  // ---------------------------------------------------------------- the store

  class DiskRepository {
    const baseDir: string
    /** The age after which the sweep deletes an entry. */
    const deleteBefore: int
    /** The period of the background sweep. */
    const sweepInterval: int
    /** The directory's files by name. */
    var files: Directory

    /** The store is configured as Open leaves it. It reads only constants,
        so it holds for the store's whole life. */
    ghost predicate Valid()
    {
      Text.HasSuffix(baseDir, "/") && deleteBefore == Retention && sweepInterval == SweepInterval
    }

    constructor Open(baseDir: string, files: Directory)
      ensures this.baseDir == NormalizeBaseDir(baseDir)
      ensures deleteBefore == Retention && sweepInterval == SweepInterval
      ensures this.files == files
      ensures Valid()
    {
      this.baseDir := NormalizeBaseDir(baseDir);
      deleteBefore := Retention;
      sweepInterval := SweepInterval;
      this.files := files;
    }

    /** Find: the parsed entry for `id`, or nothing when the file is absent or
        does not parse. */
    function Find(id: string): (p: Option<FileProof>)
      reads this
      ensures p.Some? <==> id in files && files[id].content.Some?
      ensures p.Some? ==> p.value == files[id].content.value
    {
      FindIn(files, id)
    }

    /** Save: write the entry for `id`, replacing any earlier one, stamped with
        the current time. A failed write is only logged: when the file could
        not be opened nothing changed, and when the write failed after the
        open the file is left truncated, freshly stamped and unparsable. */
    method Save(id: string, proof: FileProof, now: int, write: WriteOutcome)
      modifies this`files
      ensures write.Written? ==> files == old(files)[id := StoredFile(now, Some(proof))]
      ensures write.WriteFailed? ==> files == old(files)[id := StoredFile(now, None)]
      ensures write.OpenFailed? ==> files == old(files)
    {
      match write
      case Written => files := files[id := StoredFile(now, Some(proof))];
      case WriteFailed => files := files[id := StoredFile(now, None)];
      case OpenFailed =>
    }

    /** deleteOldProof: one pass over the listing that removes every file
        written before `cutoff` or holding an error, counting the removals that
        succeed; a failing removal (named in `failing`) is skipped. */
    method DeleteOldProof(cutoff: int, failing: set<string>) returns (deletedCount: nat)
      modifies this`files
      ensures files == Swept(old(files), cutoff, failing)
      ensures deletedCount == |Removed(old(files), cutoff, failing)|
    {
      ghost var original := files;
      ghost var gone := Removed(original, cutoff, failing);
      var pending := files.Keys;
      ghost var visited: set<string> := {};
      deletedCount := 0;
      while pending != {}
        invariant visited <= original.Keys && pending == original.Keys - visited
        invariant files == original - (gone * visited)
        invariant deletedCount == |gone * visited|
        decreases pending
      {
        var name :| name in pending;
        var info := files[name];
        var hasError := match Find(name) case None => false case Some(p) => |p.error| != 0;
        SweepStep(original, cutoff, failing, visited, name);
        if info.modTime < cutoff || hasError {
          if name !in failing {
            files := files - {name};
            deletedCount := deletedCount + 1;
          }
        }
        assert pending - {name} == original.Keys - (visited + {name});
        pending := pending - {name};
        visited := visited + {name};
      }
      assert gone * visited == gone;
    }

    /** One tick of the background sweep: delete what is older than the
        retention window. */
    method SweepTick(now: int, failing: set<string>) returns (deletedCount: nat)
      requires Valid()
      modifies this`files
      ensures files == Swept(old(files), now - Retention, failing)
      ensures deletedCount == |Removed(old(files), now - Retention, failing)|
    {
      deletedCount := DeleteOldProof(now - deleteBefore, failing);
    }
  }

  /** NewDiskRepository: create the base directory when it does not exist (a
      failure there is fatal), then open the store over whatever the directory
      already holds, with the default retention and sweep period. */
  method NewDiskRepository(baseDir: string, existing: Option<Directory>, mkdir: Outcome<Error>)
    returns (r: Result<DiskRepository, Error>)
    ensures r.Err? <==> existing.None? && mkdir.Fail?
    ensures r.Err? ==> r.error == Wrapped("os.MkdirAll failed", mkdir.error)
    ensures r.Ok? ==>
      && fresh(r.value)
      && r.value.Valid()
      && r.value.baseDir == NormalizeBaseDir(baseDir)
      && r.value.deleteBefore == 7 * Day
      && r.value.sweepInterval == 10 * Minute
      && r.value.files == (if existing.Some? then existing.value else map[])
  {
    if existing.None? && mkdir.Fail? {
      return Err(Wrapped("os.MkdirAll failed", mkdir.error));
    }
    var repo := new DiskRepository.Open(baseDir, if existing.Some? then existing.value else map[]);
    return Ok(repo);
  }

  // ---------------------------------------------------------------- properties

  /** Saving then finding gives back the saved entry, and no other id changes. */
  lemma SaveThenFind(dir: Directory, id: string, proof: FileProof, now: int, other: string)
    ensures FindIn(dir[id := StoredFile(now, Some(proof))], id) == Some(proof)
    ensures other != id ==> FindIn(dir[id := StoredFile(now, Some(proof))], other) == FindIn(dir, other)
  {
  }

  /** A write that failed after the open hides the id from Find, and the
      truncated file is not swept before the retention window has passed. */
  lemma TruncatedWriteLosesEntry(dir: Directory, id: string, now: int, cutoff: int, other: string)
    ensures FindIn(dir[id := StoredFile(now, None)], id) == None
    ensures other != id ==> FindIn(dir[id := StoredFile(now, None)], other) == FindIn(dir, other)
    ensures cutoff <= now ==> id in Swept(dir[id := StoredFile(now, None)], cutoff, {})
  {
  }

  /** The sweep keeps a file exactly when it is not expired or cannot be
      removed, and keeps it unchanged. */
  lemma SweptExactly(dir: Directory, cutoff: int, failing: set<string>, n: string)
    ensures n in Swept(dir, cutoff, failing) <==> n in dir && (!Expired(dir[n], cutoff) || n in failing)
    ensures n in Swept(dir, cutoff, failing) ==> Swept(dir, cutoff, failing)[n] == dir[n]
  {
  }

  lemma {:induction false} SubsetDifferenceSize<T>(a: set<T>, b: set<T>)
    requires b <= a
    ensures |a - b| == |a| - |b|
    decreases |b|
  {
    if b != {} {
      var x :| x in b;
      assert a - b == (a - {x}) - (b - {x});
      SubsetDifferenceSize(a - {x}, b - {x});
    }
  }

  /** Every file is either kept or counted: the count never overstates. */
  lemma SweepAccounts(dir: Directory, cutoff: int, failing: set<string>)
    ensures |Swept(dir, cutoff, failing)| + |Removed(dir, cutoff, failing)| == |dir|
  {
    var gone := Removed(dir, cutoff, failing);
    assert Swept(dir, cutoff, failing).Keys == dir.Keys - gone;
    SubsetDifferenceSize(dir.Keys, gone);
  }

  /** A cached failure never survives a sweep whose removal succeeds, however
      fresh it is; an unparsable file goes only once it is old. */
  lemma SweepDropsFailures(dir: Directory, cutoff: int, failing: set<string>, n: string)
    requires n in dir && n !in failing
    ensures dir[n].content.Some? && HasError(dir[n].content.value) ==> n !in Swept(dir, cutoff, failing)
    ensures dir[n].content.None? ==> (n in Swept(dir, cutoff, failing) <==> dir[n].modTime >= cutoff)
  {
  }

  /** The entry the store test saves as number `i`. */
  function TestProof(i: Text.Byte): (p: FileProof)
    ensures !HasError(p)
  {
    FileProof([i], [i], "", None)
  }

  /** The directory the store test builds after its first five saves: entry
      `i` saved `i` seconds (plus a lag under a second) after `start`. */
  function FiveSaved(start: int, lag: int): Directory
  {
    map["0" := StoredFile(start + lag, Some(TestProof(0))),
        "1" := StoredFile(start + 1 * Second + lag, Some(TestProof(1))),
        "2" := StoredFile(start + 2 * Second + lag, Some(TestProof(2))),
        "3" := StoredFile(start + 3 * Second + lag, Some(TestProof(3))),
        "4" := StoredFile(start + 4 * Second + lag, Some(TestProof(4)))]
  }

  /** The directory the store test builds: ten entries, saved a second apart. */
  function TenSaved(start: int, lag: int): Directory
  {
    FiveSaved(start, lag)
      ["5" := StoredFile(start + 5 * Second + lag, Some(TestProof(5)))]
      ["6" := StoredFile(start + 6 * Second + lag, Some(TestProof(6)))]
      ["7" := StoredFile(start + 7 * Second + lag, Some(TestProof(7)))]
      ["8" := StoredFile(start + 8 * Second + lag, Some(TestProof(8)))]
      ["9" := StoredFile(start + 9 * Second + lag, Some(TestProof(9)))]
  }

  lemma TenSavedSweep(start: int, lag: nat)
    requires lag < Second
    ensures Removed(TenSaved(start, lag), start + 5 * Second, {}) == {"0", "1", "2", "3", "4"}
    ensures Swept(TenSaved(start, lag), start + 5 * Second, {}).Keys == {"5", "6", "7", "8", "9"}
    ensures |Removed(TenSaved(start, lag), start + 5 * Second, {})| == 5
  {
    var m := TenSaved(start, lag);
    assert m.Keys == {"0", "1", "2", "3", "4", "5", "6", "7", "8", "9"};
    assert Removed(m, start + 5 * Second, {}) == {"0", "1", "2", "3", "4"};
    assert |{"0", "1", "2", "3", "4"}| == 5;
  }

  /** One save of the store test, which always succeeds. */
  method SaveTestProof(disk: DiskRepository, i: Text.Byte, id: string, time: int)
    modifies disk`files
    ensures disk.files == old(disk.files)[id := StoredFile(time, Some(TestProof(i)))]
  {
    disk.Save(id, TestProof(i), time, Written);
  }

  /** The store test's first five saves, one second apart. */
  method SaveFirstFive(disk: DiskRepository, start: int, lag: nat)
    requires disk.files == map[]
    modifies disk`files
    ensures disk.files == FiveSaved(start, lag)
  {
    SaveTestProof(disk, 0, "0", start + lag);
    SaveTestProof(disk, 1, "1", start + 1 * Second + lag);
    SaveTestProof(disk, 2, "2", start + 2 * Second + lag);
    SaveTestProof(disk, 3, "3", start + 3 * Second + lag);
    SaveTestProof(disk, 4, "4", start + 4 * Second + lag);
  }

  /** The store test's last five saves. */
  method SaveLastFive(disk: DiskRepository, start: int, lag: nat)
    requires disk.files == FiveSaved(start, lag)
    modifies disk`files
    ensures disk.files == TenSaved(start, lag)
  {
    SaveTestProof(disk, 5, "5", start + 5 * Second + lag);
    SaveTestProof(disk, 6, "6", start + 6 * Second + lag);
    SaveTestProof(disk, 7, "7", start + 7 * Second + lag);
    SaveTestProof(disk, 8, "8", start + 8 * Second + lag);
    SaveTestProof(disk, 9, "9", start + 9 * Second + lag);
  }

  /** Ten entries saved a second apart and swept with the cutoff five seconds
      after the first save leave exactly five entries (the last five). */
  method DeleteOldProofScenario(start: int, lag: nat) returns (remaining: set<string>, deleted: nat)
    requires lag < Second
    ensures remaining == {"5", "6", "7", "8", "9"}
    ensures deleted == 5
  {
    var disk := new DiskRepository.Open("./TestDeleteOldProof", map[]);
    SaveFirstFive(disk, start, lag);
    SaveLastFive(disk, start, lag);
    TenSavedSweep(start, lag);
    deleted := disk.DeleteOldProof(start + 5 * Second, {});
    remaining := disk.files.Keys;
  }

  /** Retention scenario: an entry eight days old goes, a day-old one stays,
      and a fresh failure goes. */
  lemma RetentionScenario(now: int, ok: FileProof, failed: FileProof)
    requires !HasError(ok) && HasError(failed)
    ensures var dir := map["old" := StoredFile(now - 8 * Day, Some(ok)),
                           "recent" := StoredFile(now - Day, Some(ok)),
                           "failed" := StoredFile(now - 10 * Minute, Some(failed))];
      Swept(dir, now - Retention, {}).Keys == {"recent"}
  {
    var dir := map["old" := StoredFile(now - 8 * Day, Some(ok)),
                   "recent" := StoredFile(now - Day, Some(ok)),
                   "failed" := StoredFile(now - 10 * Minute, Some(failed))];
    assert Removed(dir, now - Retention, {}) == {"old", "failed"};
  }
}
