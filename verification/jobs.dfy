/**
 * Upload jobs and the per-cycle upload queue. A job pairs a local file
 * with the object-store key it is uploaded to; the queue is modelled as
 * the sequence of everything the orchestrator puts into it, in order
 * (workers, capacity and back-pressure are not modelled).
 */
module Jobs {
  import opened PyText
  import opened Manifest

  /** A top-level entry of an extracted archive: its name and whether it is a regular file. */
  datatype ArchiveEntry = ArchiveEntry(name: string, isFile: bool)

  /** The local files uploads are made from. */
  datatype LocalFile =
    | Extracted(scope: string, stem: string, name: string)   // {tmpdir}/{scope}/{stem}/{name}
    | TimestampsFile(timestamps: seq<string>)                 // {tmpdir}/timestamps.json, with its contents
    | ListFile(entries: map<string, Json>)                    // {tmpdir}/list.json, with its contents
    | IndexerCache(path: string)                              // the cache file named on the command line

  /** A queue item: an upload job, or the `None` that tells the workers to stop. */
  datatype Item = Upload(source: LocalFile, key: string) | Sentinel

  const TimestampsKey: string := "api/scores/timestamps.json"
  const ListKey: string := "api/scores/list.json"
  const IndexerKey: string := "api/scores/indexer-scores"

  /** `files/{scope}/{ts0}/{relpath}` */
  function PrimaryKey(scope: string, ts: int, name: string): string {
    "files/" + scope + "/" + ShowInt(ts) + "/" + name
  }

  /** `files/{ts0}/{relpath}`, kept for backward compatibility. */
  function LegacyKey(ts: int, name: string): (k: string)
    ensures forall scope :: k != PrimaryKey(scope, ts, name)
  {
    "files/" + ShowInt(ts) + "/" + name
  }

  /** The two jobs one extracted file gives rise to, primary key first. */
  function PrimaryJob(scope: string, stem: string, ts: int, name: string): Item {
    Upload(Extracted(scope, stem, name), PrimaryKey(scope, ts, name))
  }

  function LegacyJob(scope: string, stem: string, ts: int, name: string): Item {
    Upload(Extracted(scope, stem, name), LegacyKey(ts, name))
  }

  /** The entries `is_file()` holds for, in listing order. */
  function RegularFiles(entries: seq<ArchiveEntry>): (r: seq<ArchiveEntry>)
    ensures |r| <= |entries|
    ensures forall f :: f in r <==> f in entries && f.isFile
  {
    if entries == [] then []
    else
      var last := entries[|entries| - 1];
      RegularFiles(entries[..|entries| - 1]) + (if last.isFile then [last] else [])
  }

  /**
   * The jobs the loop over `zipdir.iterdir()` puts, for a bundle of scope
   * `scope`, file stem `stem` and timestamp `ts`.
   */
  function FileJobs(scope: string, stem: string, ts: int, entries: seq<ArchiveEntry>): seq<Item> {
    if entries == [] then []
    else
      var last := entries[|entries| - 1];
      FileJobs(scope, stem, ts, entries[..|entries| - 1])
        + (if last.isFile then [PrimaryJob(scope, stem, ts, last.name), LegacyJob(scope, stem, ts, last.name)] else [])
  }

  /**
   * Fan-out: each regular file, in listing order, yields exactly its
   * primary job followed by its legacy job, and nothing else is queued.
   */
  lemma {:induction false} FileJobsFanOut(scope: string, stem: string, ts: int, entries: seq<ArchiveEntry>)
    ensures var jobs, files := FileJobs(scope, stem, ts, entries), RegularFiles(entries);
      && |jobs| == 2 * |files|
      && forall k :: 0 <= k < |files| ==>
           jobs[2 * k] == PrimaryJob(scope, stem, ts, files[k].name)
           && jobs[2 * k + 1] == LegacyJob(scope, stem, ts, files[k].name)
  {
    if entries != [] {
      FileJobsFanOut(scope, stem, ts, entries[..|entries| - 1]);
    }
  }

  /** Every queued file job uploads a regular file of the archive under one of its two keys. */
  lemma FileJobsOnlyRegularFiles(scope: string, stem: string, ts: int, entries: seq<ArchiveEntry>, job: Item)
    requires job in FileJobs(scope, stem, ts, entries)
    ensures exists f :: (f in entries && f.isFile
      && (job == PrimaryJob(scope, stem, ts, f.name) || job == LegacyJob(scope, stem, ts, f.name)))
  {
    FileJobsFanOut(scope, stem, ts, entries);
    var jobs, files := FileJobs(scope, stem, ts, entries), RegularFiles(entries);
    var i :| 0 <= i < |jobs| && jobs[i] == job;
    var k := i / 2;
    assert i == 2 * k || i == 2 * k + 1;
    assert files[k] in files;
  }

  /** Every job in `jobs` uploads a file. */
  predicate AllUploads(jobs: seq<Item>) {
    forall i :: 0 <= i < |jobs| ==> jobs[i].Upload?
  }

  lemma AllUploadsConcat(a: seq<Item>, b: seq<Item>)
    requires AllUploads(a) && AllUploads(b)
    ensures AllUploads(a + b)
  {
  }

  /** A bundle's file jobs are all uploads. */
  lemma {:induction false} FileJobsAreUploads(scope: string, stem: string, ts: int, entries: seq<ArchiveEntry>)
    ensures AllUploads(FileJobs(scope, stem, ts, entries))
  {
    if entries != [] {
      var last := entries[|entries| - 1];
      FileJobsAreUploads(scope, stem, ts, entries[..|entries| - 1]);
      var more := if last.isFile then [PrimaryJob(scope, stem, ts, last.name), LegacyJob(scope, stem, ts, last.name)] else [];
      AllUploadsConcat(FileJobs(scope, stem, ts, entries[..|entries| - 1]), more);
    }
  }

  /** The three jobs that publish the index: `timestamps.json`, `list.json` and the indexer cache. */
  function IndexJobs(timestamps: seq<string>, list: map<string, Json>, indexerCache: string): (r: seq<Item>)
    ensures |r| == 3 && AllUploads(r)
  {
    [ Upload(TimestampsFile(timestamps), TimestampsKey),
      Upload(ListFile(list), ListKey),
      Upload(IndexerCache(indexerCache), IndexerKey) ]
  }

  /** A cycle's queue: upload jobs, then the sentinel as the last item. */
  lemma UploadsThenSentinel(jobs: seq<Item>)
    requires AllUploads(jobs)
    ensures var items := jobs + [Sentinel];
      && items[|items| - 1] == Sentinel
      && forall i :: 0 <= i < |items| - 1 ==> items[i].Upload?
  {
    var items := jobs + [Sentinel];
    forall i | 0 <= i < |items| - 1 ensures items[i].Upload? {
      assert items[i] == jobs[i];
    }
  }

  /** The queue of one cycle: everything put so far, in order. */
  class UploadQueue {
    var items: seq<Item>

    constructor ()
      ensures items == []
    {
      items := [];
    }

    /** `await queue.put(item)` */
    method Put(item: Item)
      modifies this
      ensures items == old(items) + [item]
    {
      items := items + [item];
    }
  }
}
