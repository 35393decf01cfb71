/**
 * The orchestrator `run` (run.py:82-191): the two dictionaries it keeps
 * for the life of the process, one cycle of scan, index and publish, and
 * the endless loop of cycles. A cycle's upload queue is the sequence of
 * items put into it; the workers that drain it are not modelled.
 */
module Uploader {
  import opened Wrappers
  import opened PyText
  import opened Timestamps
  import opened Manifest
  import opened Jobs
  import opened Index
  import opened Publish

  /** How a cycle ends: an exception escaped the scan, `max` found no epoch, or the index was published. */
  datatype CycleOutcome = Aborted(cause: AbortReason) | NothingPublished | Published

  /** A cycle's outcome, the dictionaries afterwards and everything it put into its queue. */
  datatype CycleResult = CycleResult(outcome: CycleOutcome, state: IndexState, items: seq<Item>)

  /** Every item a scan queues is an upload job; the sentinel is never among them. */
  lemma {:induction false} ScanJobsAreUploads(st: IndexState, es: seq<DirEntry>, fmt: Formats)
    ensures AllUploads(ScanEntries(st, es, fmt).jobs)
  {
    if es != [] {
      var front, last := es[..|es| - 1], es[|es| - 1];
      ScanJobsAreUploads(st, front, fmt);
      ScanNextUploads(ScanEntries(st, front, fmt), last, fmt);
    }
  }

  /** One more entry queues nothing but uploads. */
  lemma ScanNextUploads(r: ScanResult, e: DirEntry, fmt: Formats)
    requires AllUploads(r.jobs)
    ensures AllUploads(ScanNext(r, e, fmt).jobs)
  {
    if r.aborted.None? {
      var s := Step(r.state, e, fmt);
      assert ScanNext(r, e, fmt).jobs == r.jobs || ScanNext(r, e, fmt).jobs == r.jobs + s.jobs;
      AllUploadsConcat(r.jobs, s.jobs);
    }
  }

  /**
   * Lines 87-190, one cycle: scan the directories in order; after a scan
   * that ran to the end, publish the greatest epoch if there is one; in
   * every case (the `finally` of line 186) put the sentinel last.
   */
  function CycleSpec(st: IndexState, dirs: seq<seq<DirEntry>>, fmt: Formats, cache: string): (r: CycleResult)
    requires Consistent(st, fmt)
    ensures Consistent(r.state, fmt)
  {
    var scan := ScanEntries(st, Flatten(dirs), fmt);
    ScanKeepsConsistent(st, Flatten(dirs), fmt);
    ConsistentIsShaped(scan.state, fmt);
    if scan.aborted.Some? then
      CycleResult(Aborted(scan.aborted.value), scan.state, scan.jobs + [Sentinel])
    else if scan.state.epochs == map[] then
      CycleResult(NothingPublished, scan.state, scan.jobs + [Sentinel])
    else
      CycleResult(Published, scan.state, scan.jobs + PublishJobs(scan.state, cache) + [Sentinel])
  }

  /**
   * What a cycle queues and how it ends: upload jobs, then the sentinel
   * last; it aborts exactly when an exception escaped the scan; it
   * publishes exactly when the scan ran to the end and some epoch is
   * indexed, and then the three index jobs come just before the sentinel.
   * Nothing recorded before the cycle is lost.
   */
  lemma CycleShape(st: IndexState, dirs: seq<seq<DirEntry>>, fmt: Formats, cache: string)
    requires Consistent(st, fmt)
    ensures var r := CycleSpec(st, dirs, fmt, cache);
      && Grows(st, r.state)
      && (r.outcome.Aborted? <==> ScanEntries(st, Flatten(dirs), fmt).aborted.Some?)
      && (r.outcome == Published <==> !r.outcome.Aborted? && r.state.epochs != map[])
      && (r.outcome == Published ==>
            |r.items| >= 4 && r.items[|r.items| - 4..|r.items| - 1] == PublishJobs(r.state, cache))
  {
    var r := CycleSpec(st, dirs, fmt, cache);
    var scan := ScanEntries(st, Flatten(dirs), fmt);
    ScanKeepsConsistent(st, Flatten(dirs), fmt);
    ConsistentIsShaped(scan.state, fmt);
    if r.outcome == Published {
      var items := scan.jobs + PublishJobs(scan.state, cache) + [Sentinel];
      assert r.items == items;
      assert items[|items| - 4..|items| - 1] == PublishJobs(scan.state, cache);
    }
  }

  /** A cycle queues upload jobs only, then the sentinel last (line 187, in the `finally`). */
  lemma CycleEndsWithSentinel(st: IndexState, dirs: seq<seq<DirEntry>>, fmt: Formats, cache: string)
    requires Consistent(st, fmt)
    ensures var r := CycleSpec(st, dirs, fmt, cache);
      && |r.items| > 0 && r.items[|r.items| - 1] == Sentinel
      && (forall i :: 0 <= i < |r.items| - 1 ==> r.items[i].Upload?)
  {
    var r := CycleSpec(st, dirs, fmt, cache);
    var scan := ScanEntries(st, Flatten(dirs), fmt);
    ScanKeepsConsistent(st, Flatten(dirs), fmt);
    ConsistentIsShaped(scan.state, fmt);
    ScanJobsAreUploads(st, Flatten(dirs), fmt);
    var jobs := scan.jobs;
    if r.outcome == Published {
      var publish := PublishJobs(scan.state, cache);
      AllUploadsConcat(scan.jobs, publish);
      jobs := scan.jobs + publish;
    }
    assert r.items == jobs + [Sentinel];
    UploadsThenSentinel(jobs);
  }

  /**
   * Cross-cycle idempotence: when a cycle ran to the end, the next cycle
   * over the same directories changes neither dictionary and re-queues
   * only the index documents (if any) and the sentinel.
   */
  lemma RepeatCycleOnlyRepublishes(st: IndexState, dirs: seq<seq<DirEntry>>, fmt: Formats, cache: string)
    requires Consistent(st, fmt)
    requires !CycleSpec(st, dirs, fmt, cache).outcome.Aborted?
    ensures var r := CycleSpec(st, dirs, fmt, cache);
      var r2 := CycleSpec(r.state, dirs, fmt, cache);
      && r2.state == r.state
      && r2.outcome == r.outcome
      && r2.items == (if r.outcome == Published then PublishJobs(r.state, cache) else []) + [Sentinel]
  {
    var scan := ScanEntries(st, Flatten(dirs), fmt);
    ScanKeepsConsistent(st, Flatten(dirs), fmt);
    ConsistentIsShaped(scan.state, fmt);
    RescanChangesNothing(st, Flatten(dirs), fmt);
    var r := CycleSpec(st, dirs, fmt, cache);
    assert r.state == scan.state;
    var r2 := CycleSpec(r.state, dirs, fmt, cache);
    var tail := if r.outcome == Published then PublishJobs(r.state, cache) else [];
    assert r2.items == [] + tail + [Sentinel];
    assert [] + tail == tail;
  }

  /**
   * Lines 82-191: the endless loop, for the cycles `cycles` lists (the
   * directory listings each cycle sees); it ends with the first cycle an
   * exception escapes from.
   */
  function RunSpec(st: IndexState, cycles: seq<seq<seq<DirEntry>>>, fmt: Formats, cache: string): seq<CycleResult>
    requires Consistent(st, fmt)
    decreases |cycles|
  {
    if cycles == [] then []
    else
      var r := CycleSpec(st, cycles[0], fmt, cache);
      if r.outcome.Aborted? then [r] else [r] + RunSpec(r.state, cycles[1..], fmt, cache)
  }

  /**
   * `rs` has at most `n` cycles, every cycle but the last ran to the end,
   * and fewer than `n` cycles means the last one aborted.
   */
  predicate StopsAtFirstAbort(rs: seq<CycleResult>, n: nat) {
    && |rs| <= n
    && (forall k :: 0 <= k < |rs| - 1 ==> !rs[k].outcome.Aborted?)
    && (|rs| < n ==> |rs| > 0 && rs[|rs| - 1].outcome.Aborted?)
  }

  /** A cycle that ran to the end, followed by a run that stops at its first abort. */
  lemma StopsAfterCompleteCycle(r: CycleResult, rest: seq<CycleResult>, n: nat)
    requires !r.outcome.Aborted? && StopsAtFirstAbort(rest, n)
    ensures StopsAtFirstAbort([r] + rest, n + 1)
  {
    var rs := [r] + rest;
    forall k | 0 <= k < |rs| - 1 ensures !rs[k].outcome.Aborted? {
      if k > 0 {
        assert rs[k] == rest[k - 1];
      }
    }
  }

  /**
   * The loop runs one cycle per listing, and stops exactly after the first
   * cycle an exception escapes from: every earlier cycle ran to the end,
   * and fewer cycles than listings means the last one aborted.
   */
  lemma {:induction false} RunStopsAtFirstAbort(st: IndexState, cycles: seq<seq<seq<DirEntry>>>, fmt: Formats, cache: string)
    requires Consistent(st, fmt)
    ensures StopsAtFirstAbort(RunSpec(st, cycles, fmt, cache), |cycles|)
    decreases |cycles|
  {
    if cycles != [] {
      var r := CycleSpec(st, cycles[0], fmt, cache);
      if !r.outcome.Aborted? {
        RunStopsAtFirstAbort(r.state, cycles[1..], fmt, cache);
        StopsAfterCompleteCycle(r, RunSpec(r.state, cycles[1..], fmt, cache), |cycles| - 1);
      }
    }
  }

  /** `manifest_by_scope_ts` and `timestamps_by_epoch_scope`, kept across cycles. */
  class ArchiveIndex {
    var manifestByScopeTs: map<string, map<int, Json>>
    var timestampsByEpochScope: map<int, ScopeSets>
    /** The two timestamp formats `parse_timestamp` tries. */
    const formats: Formats

    function State(): IndexState
      reads this
    {
      IndexState(manifestByScopeTs, timestampsByEpochScope)
    }

    ghost predicate Valid()
      reads this
    {
      Consistent(State(), formats)
    }

    /** Lines 84-85: both dictionaries start empty. */
    constructor (fmt: Formats)
      ensures State() == EmptyIndex && formats == fmt
      ensures Valid()
    {
      manifestByScopeTs := map[];
      timestampsByEpochScope := map[];
      formats := fmt;
    }

    /**
     * Lines 99-158 for one directory entry: the checks, then for a new
     * bundle the two jobs per extracted regular file and the recording in
     * both dictionaries. An `Abort` decision is the exception that ends
     * the scan; it changes nothing.
     */
    method ProcessEntry(e: DirEntry, queue: UploadQueue) returns (d: Decision)
      requires Valid()
      modifies this, queue
      ensures Valid()
      ensures d == Decide(old(State()), e, formats)
      ensures State() == Step(old(State()), e, formats).state
      ensures queue.items == old(queue.items) + Step(old(State()), e, formats).jobs
    {
      ghost var st := State();
      StepKeepsConsistent(st, e, formats);
      d := Decide(State(), e, formats);
      if d.Accept? {
        var c := d.c;
        QueueArchiveFiles(queue, c.scope, c.stem, c.ts, d.files);
        RecordBundle(c);
      } else {
        AppendNone(queue.items);
      }
    }

    /** Lines 152-158: the manifest under (scope, ts0), and ts0 under (epoch, scope). */
    method RecordBundle(c: Candidate)
      modifies this
      ensures State() == Record(old(State()), c)
    {
      var inner := if c.scope in manifestByScopeTs then manifestByScopeTs[c.scope] else map[];
      manifestByScopeTs := manifestByScopeTs[c.scope := inner[c.ts := c.manifest]];
      var ss := if c.epoch in timestampsByEpochScope then timestampsByEpochScope[c.epoch] else ScopeSets([], map[]);
      timestampsByEpochScope := timestampsByEpochScope[c.epoch := AddTimestamp(ss, c.scope, c.ts)];
    }

    /**
     * One entry of the scan of lines 96-158, which goes on from the entries
     * `done`: the entry is processed, and an exception it raises is reported.
     */
    method ScanEntry(e: DirEntry, queue: UploadQueue, ghost st0: IndexState, ghost done: seq<DirEntry>)
      returns (aborted: Option<AbortReason>)
      requires Valid()
      requires ScanEntries(st0, done, formats) == ScanResult(None, State(), queue.items)
      modifies this, queue
      ensures Valid()
      ensures ScanEntries(st0, done + [e], formats) == ScanResult(aborted, State(), queue.items)
    {
      var d := ProcessEntry(e, queue);
      ScanAppend(st0, done, e, formats);
      aborted := if d.Abort? then Some(d.cause) else None;
    }

    /**
     * Lines 159-184: the greatest epoch (`max` raises ValueError when there
     * is none, and nothing is queued), then the jobs for
     * `timestamps.json`, `list.json` and the indexer cache.
     */
    method PublishIndex(queue: UploadQueue, cache: string) returns (published: bool)
      requires Valid()
      modifies queue
      ensures published <==> State().epochs != map[]
      ensures published ==> queue.items == old(queue.items) + PublishJobs(State(), cache)
      ensures !published ==> queue.items == old(queue.items)
    {
      published := timestampsByEpochScope != map[];
      if published {
        ConsistentIsShaped(State(), formats);
        var timestamps := PublishedTimestamps(State());
        var timestampsJob := Upload(TimestampsFile(timestamps), TimestampsKey);
        ghost var q0 := old(queue.items);
        queue.Put(timestampsJob);
        var e := CurrentEpoch(State());
        ListDocumentBuilt(State());
        var list := BuildList(timestampsByEpochScope[e], manifestByScopeTs);
        var listJob := Upload(ListFile(list), ListKey);
        queue.Put(listJob);
        var cacheJob := Upload(IndexerCache(cache), IndexerKey);
        queue.Put(cacheJob);
        AppendThree(q0, timestampsJob, listJob, cacheJob);
      }
    }

    /**
     * Lines 87-190: one cycle with a fresh queue. The scan walks the
     * directories in order and stops at the first exception; the sentinel
     * goes in last whatever happened.
     */
    method RunCycle(dirs: seq<seq<DirEntry>>, cache: string) returns (outcome: CycleOutcome, queue: UploadQueue)
      requires Valid()
      modifies this
      ensures fresh(queue)
      ensures Valid()
      ensures var r := CycleSpec(old(State()), dirs, formats, cache);
        outcome == r.outcome && State() == r.state && queue.items == r.items
    {
      queue := new UploadQueue();
      ghost var st0 := State();
      ghost var done: seq<DirEntry> := [];
      var aborted: Option<AbortReason> := None;
      var i := 0;
      while i < |dirs| && aborted.None?
        invariant 0 <= i <= |dirs|
        invariant Valid()
        invariant ScanEntries(st0, done, formats) == ScanResult(aborted, State(), queue.items)
        invariant aborted.None? ==> done == Flatten(dirs[..i])
        invariant aborted.Some? ==> ScanEntries(st0, Flatten(dirs), formats) == ScanEntries(st0, done, formats)
      {
        var entries := dirs[i];
        var j := 0;
        while j < |entries| && aborted.None?
          invariant 0 <= j <= |entries|
          invariant Valid()
          invariant ScanEntries(st0, done, formats) == ScanResult(aborted, State(), queue.items)
          invariant aborted.None? ==> done == Flatten(dirs[..i]) + entries[..j]
          invariant aborted.Some? ==> ScanEntries(st0, Flatten(dirs), formats) == ScanEntries(st0, done, formats)
        {
          aborted := ScanEntry(entries[j], queue, st0, done);
          PrefixStep(Flatten(dirs[..i]), entries, j);
          done := done + [entries[j]];
          if aborted.Some? {
            ScanAfterAbort(st0, dirs, i, j, formats);
          }
          j := j + 1;
        }
        if aborted.None? {
          FlattenStep(dirs, i);
          assert entries[..j] == entries;
        }
        i := i + 1;
      }
      if aborted.None? {
        assert dirs[..i] == dirs;
      }
      if aborted.Some? {
        queue.Put(Sentinel);
        outcome := Aborted(aborted.value);
        return;
      }
      var published := PublishIndex(queue, cache);
      queue.Put(Sentinel);
      outcome := if published then Published else NothingPublished;
    }

    /** Lines 86-191 over the listed cycles, stopping at the first one an exception escapes from. */
    method Run(cycles: seq<seq<seq<DirEntry>>>, cache: string) returns (outcomes: seq<CycleOutcome>, uploads: seq<seq<Item>>)
      requires Valid()
      modifies this
      ensures Valid()
      ensures var rs := RunSpec(old(State()), cycles, formats, cache);
        && |outcomes| == |uploads| == |rs|
        && (forall k :: 0 <= k < |rs| ==> outcomes[k] == rs[k].outcome && uploads[k] == rs[k].items)
    {
      ghost var st0 := State();
      ghost var results: seq<CycleResult> := [];
      ghost var rest := RunSpec(st0, cycles, formats, cache);
      assert cycles[0..] == cycles;
      outcomes, uploads := [], [];
      var k := 0;
      var stop := false;
      while k < |cycles| && !stop
        invariant 0 <= k <= |cycles|
        invariant Valid()
        invariant |outcomes| == |uploads| == |results| == k
        invariant forall n :: 0 <= n < k ==> outcomes[n] == results[n].outcome && uploads[n] == results[n].items
        invariant RunSpec(st0, cycles, formats, cache) == results + rest
        invariant !stop ==> rest == RunSpec(State(), cycles[k..], formats, cache)
        invariant stop ==> rest == []
      {
        ghost var before := State();
        var outcome, queue := RunCycle(cycles[k], cache);
        ghost var r := CycleSpec(before, cycles[k], formats, cache);
        RunSpecStep(before, cycles, k, formats, cache);
        ShiftOne(results, rest);
        results := results + [r];
        rest := rest[1..];
        outcomes, uploads := outcomes + [outcome], uploads + [queue.items];
        stop := outcome.Aborted?;
        k := k + 1;
      }
    }
  }

  /**
   * Lines 140-151: for each top-level entry of the extracted archive that
   * is a regular file, in listing order, the primary job then the legacy
   * job.
   */
  method QueueArchiveFiles(queue: UploadQueue, scope: string, stem: string, ts: int, files: seq<ArchiveEntry>)
    modifies queue
    ensures queue.items == old(queue.items) + FileJobs(scope, stem, ts, files)
  {
    var i := 0;
    while i < |files|
      invariant 0 <= i <= |files|
      invariant queue.items == old(queue.items) + FileJobs(scope, stem, ts, files[..i])
    {
      var f := files[i];
      assert files[..i + 1][..i] == files[..i];
      if f.isFile {
        queue.Put(PrimaryJob(scope, stem, ts, f.name));
        queue.Put(LegacyJob(scope, stem, ts, f.name));
      }
      i := i + 1;
    }
    assert files[..i] == files;
  }

  /**
   * Lines 172-177: the nested loop that fills `list_` from one epoch's
   * dictionary, scope by scope in insertion order, keyed by `str(ts)`.
   */
  method BuildList(ss: ScopeSets, manifests: map<string, map<int, Json>>) returns (list: map<string, Json>)
    requires Listed(ss.order, ss)
    requires Covered(ss, manifests)
    ensures list == KeyBySpelling(ByTimestamp(ss.order, ss, manifests))
  {
    list := map[];
    var i := 0;
    NoScopesYet(ss, manifests);
    while i < |ss.order|
      invariant i <= |ss.order|
      invariant Listed(ss.order[..i], ss)
      invariant list == KeyBySpelling(ByTimestamp(ss.order[..i], ss, manifests))
    {
      list := AddScope(list, ss, manifests, i);
      i := i + 1;
    }
    WholePrefix(ss.order);
  }

  /** One pass of the outer loop of lines 173-177: the `i`-th scope of the dictionary. */
  method AddScope(list0: map<string, Json>, ss: ScopeSets, manifests: map<string, map<int, Json>>, i: nat)
    returns (list: map<string, Json>)
    requires Listed(ss.order, ss) && Covered(ss, manifests) && i < |ss.order|
    requires Listed(ss.order[..i], ss)
    requires list0 == KeyBySpelling(ByTimestamp(ss.order[..i], ss, manifests))
    ensures Listed(ss.order[..i + 1], ss)
    ensures list == KeyBySpelling(ByTimestamp(ss.order[..i + 1], ss, manifests))
  {
    var s := ss.order[i];
    ByTimestampStep(ss, manifests, i);
    list := AddScopeEntries(list0, ByTimestamp(ss.order[..i], ss, manifests), manifests, s, ss.sets[s]);
  }

  /** Before the outer loop of lines 173-177 `list_` is empty. */
  lemma NoScopesYet(ss: ScopeSets, manifests: map<string, map<int, Json>>)
    requires Covered(ss, manifests)
    ensures Listed(ss.order[..0], ss)
    ensures KeyBySpelling(ByTimestamp(ss.order[..0], ss, manifests)) == map[]
  {
    assert ss.order[..0] == [];
    assert SpelledKeys(map[]) == {};
  }

  /** One more scope of the outer loop of lines 173-177. */
  lemma ByTimestampStep(ss: ScopeSets, manifests: map<string, map<int, Json>>, i: nat)
    requires i < |ss.order|
    requires Listed(ss.order, ss)
    requires Covered(ss, manifests)
    ensures Listed(ss.order[..i], ss) && Listed(ss.order[..i + 1], ss)
    ensures ByTimestamp(ss.order[..i + 1], ss, manifests)
      == ByTimestamp(ss.order[..i], ss, manifests) + ScopeEntries(manifests, ss.order[i], ss.sets[ss.order[i]])
  {
    assert ss.order[..i + 1][..i] == ss.order[..i];
  }

  lemma WholePrefix(order: seq<string>)
    ensures order[..|order|] == order
  {
  }

  /**
   * Lines 175-177, the inner loop for one scope: `list_[str(ts)] =
   * manifest` for each of its timestamps, in whatever order the set
   * yields them. `base` is what `list_` held before, keyed by timestamp.
   */
  method AddScopeEntries(list0: map<string, Json>, ghost base: map<int, Json>, manifests: map<string, map<int, Json>>,
                         s: string, ts: set<int>) returns (list: map<string, Json>)
    requires list0 == KeyBySpelling(base)
    requires forall t :: t in ts ==> s in manifests && t in manifests[s]
    ensures list == KeyBySpelling(base + ScopeEntries(manifests, s, ts))
  {
    list := list0;
    var rest := ts;
    NoScopeEntriesYet(base, manifests, s, ts);
    while rest != {}
      invariant rest <= ts
      invariant list == KeyBySpelling(base + ScopeEntries(manifests, s, ts - rest))
      decreases rest
    {
      ghost var w := Member(rest);
      var t :| t in rest;
      ScopeEntryTaken(base, manifests, s, ts, rest, t);
      list := list[ShowInt(t) := manifests[s][t]];
      rest := rest - {t};
    }
    NothingLeft(ts, rest);
  }

  /** Before the inner loop of lines 175-177 nothing of the scope is in `list_`. */
  lemma NoScopeEntriesYet(base: map<int, Json>, manifests: map<string, map<int, Json>>, s: string, ts: set<int>)
    ensures ts - ts == {}
    ensures base + ScopeEntries(manifests, s, ts - ts) == base
  {
    assert ts - ts == {};
  }

  /** One more timestamp of the inner loop of lines 175-177. */
  lemma ScopeEntryTaken(base: map<int, Json>, manifests: map<string, map<int, Json>>, s: string, ts: set<int>, rest: set<int>, t: int)
    requires forall u :: u in ts ==> s in manifests && u in manifests[s]
    requires rest <= ts && t in rest
    ensures KeyBySpelling(base + ScopeEntries(manifests, s, ts - rest))[ShowInt(t) := manifests[s][t]]
      == KeyBySpelling(base + ScopeEntries(manifests, s, ts - (rest - {t})))
  {
    assert ts - (rest - {t}) == (ts - rest) + {t};
    var m := base + ScopeEntries(manifests, s, ts - rest);
    assert m[t := manifests[s][t]] == base + ScopeEntries(manifests, s, ts - (rest - {t}));
    KeyBySpellingUpdate(m, t, manifests[s][t]);
  }

  lemma PrefixStep(prefix: seq<DirEntry>, entries: seq<DirEntry>, j: nat)
    requires j < |entries|
    ensures prefix + entries[..j] + [entries[j]] == prefix + entries[..j + 1]
  {
    assert entries[..j + 1] == entries[..j] + [entries[j]];
  }

  lemma NothingLeft(ts: set<int>, rest: set<int>)
    requires rest == {}
    ensures ts - rest == ts
  {
  }

  /** A non-empty set has a member. */
  lemma Member(s: set<int>) returns (x: int)
    requires s != {}
    ensures x in s
  {
    if forall y :: y !in s {
      assert false;
    }
    x :| x in s;
  }

  /** The cycles from the `k`-th on: the `k`-th, then the rest unless it aborted. */
  lemma RunSpecStep(st: IndexState, cycles: seq<seq<seq<DirEntry>>>, k: nat, fmt: Formats, cache: string)
    requires Consistent(st, fmt) && k < |cycles|
    ensures var r := CycleSpec(st, cycles[k], fmt, cache);
      RunSpec(st, cycles[k..], fmt, cache) ==
        if r.outcome.Aborted? then [r] else [r] + RunSpec(r.state, cycles[k + 1..], fmt, cache)
  {
    assert cycles[k..][0] == cycles[k];
    assert cycles[k..][1..] == cycles[k + 1..];
  }

  lemma AppendNone(items: seq<Item>)
    ensures items + [] == items
  {
  }

  lemma ShiftOne(done: seq<CycleResult>, rest: seq<CycleResult>)
    requires rest != []
    ensures done + rest == (done + [rest[0]]) + rest[1..]
  {
    assert rest == [rest[0]] + rest[1..];
  }

  /** Flattening distributes over concatenation of directory lists. */
  lemma {:induction false} FlattenConcat(a: seq<seq<DirEntry>>, b: seq<seq<DirEntry>>)
    ensures Flatten(a + b) == Flatten(a) + Flatten(b)
  {
    if b != [] {
      FlattenConcat(a, b[..|b| - 1]);
      assert (a + b)[..|a + b| - 1] == a + b[..|b| - 1];
    } else {
      assert a + b == a;
    }
  }

  lemma FlattenStep(dirs: seq<seq<DirEntry>>, i: nat)
    requires i < |dirs|
    ensures Flatten(dirs[..i + 1]) == Flatten(dirs[..i]) + dirs[i]
  {
    assert dirs[..i + 1][..i] == dirs[..i];
  }

  /** An exception at entry `j` of directory `i` decides the scan of all directories. */
  lemma ScanAfterAbort(st: IndexState, dirs: seq<seq<DirEntry>>, i: nat, j: nat, fmt: Formats)
    requires i < |dirs| && j < |dirs[i]|
    requires ScanEntries(st, Flatten(dirs[..i]) + dirs[i][..j + 1], fmt).aborted.Some?
    ensures ScanEntries(st, Flatten(dirs), fmt) == ScanEntries(st, Flatten(dirs[..i]) + dirs[i][..j + 1], fmt)
  {
    var done := Flatten(dirs[..i]) + dirs[i][..j + 1];
    var more := dirs[i][j + 1..] + Flatten(dirs[i + 1..]);
    assert dirs == dirs[..i + 1] + dirs[i + 1..];
    FlattenConcat(dirs[..i + 1], dirs[i + 1..]);
    FlattenStep(dirs, i);
    assert dirs[i] == dirs[i][..j + 1] + dirs[i][j + 1..];
    assert Flatten(dirs) == done + more;
    AbortIsFinal(st, done, more, fmt);
  }

  /** Three puts in a row append the three items. */
  lemma AppendThree(q: seq<Item>, a: Item, b: Item, c: Item)
    ensures q + [a] + [b] + [c] == q + [a, b, c]
  {
  }
}
