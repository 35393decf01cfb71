/**
 * The two dictionaries `run` keeps for the life of the process and the
 * per-entry logic of the directory scan: which entries are bundles, which
 * are new, and what accepting one does to the dictionaries and the queue.
 *
 *   manifest_by_scope_ts      scope -> ts -> manifest
 *   timestamps_by_epoch_scope epoch -> scope -> set of ts
 *
 * The inner dictionary of the second keeps its keys in insertion order
 * (`ScopeSets.order`), because `list.json` is built by iterating over it.
 */
module Index {
  import opened Wrappers
  import opened PyText
  import opened Timestamps
  import opened Manifest
  import opened Jobs

  /**
   * What opening the companion `.zip`, extracting it into its own
   * directory and listing that directory give (lines 136-140). Extraction
   * creates the directory only when some member leads to it: an archive
   * without members leaves none, while one whose only member is `./`
   * leaves it empty.
   */
  datatype Archive =
    | Unreadable                          // the `.zip` cannot be opened or extracted
    | NoDirectory                         // extraction created no directory, so `iterdir` raises
    | Listing(entries: seq<ArchiveEntry>)  // the directory's top-level entries, possibly none

  /** A directory entry as the scan sees it: its name, what opening it and `json.load` give, and its archive. */
  datatype DirEntry = DirEntry(name: string, manifest: Load, archive: Archive)

  /** `timestamps_by_epoch_scope[epoch]`: scopes in insertion order and each scope's timestamps. */
  datatype ScopeSets = ScopeSets(order: seq<string>, sets: map<string, set<int>>)

  datatype IndexState = IndexState(manifests: map<string, map<int, Json>>, epochs: map<int, ScopeSets>)

  /** A manifest that passed every check of lines 100-129, with what was read from it. */
  datatype Candidate = Candidate(scope: string, ts: int, epoch: int, stem: string, manifest: Json)

  /** The outcome of lines 100-129: the scan goes on with the candidate, skips the entry, or raises. */
  datatype Validation = Passes(c: Candidate) | Rejected(why: SkipReason) | Raises(cause: AbortReason)

  /** The outcome of lines 100-139 for one entry. */
  datatype Decision = Accept(c: Candidate, files: seq<ArchiveEntry>) | Skip(why: SkipReason) | Abort(cause: AbortReason)

  /** What one entry does: the decision, the dictionaries afterwards and the jobs it queued. */
  datatype StepResult = StepResult(decision: Decision, state: IndexState, jobs: seq<Item>)

  /** A scan of a sequence of entries: the uncaught exception that ended it, if any. */
  datatype ScanResult = ScanResult(aborted: Option<AbortReason>, state: IndexState, jobs: seq<Item>)

  const EmptyIndex: IndexState := IndexState(map[], map[])

  /** `manifest_by_scope_ts[scope][ts]` does not raise KeyError. */
  predicate Seen(st: IndexState, scope: string, ts: int) {
    scope in st.manifests && ts in st.manifests[scope]
  }

  /** `ts in timestamps_by_epoch_scope[epoch][scope]`. */
  predicate Indexed(st: IndexState, epoch: int, scope: string, ts: int) {
    epoch in st.epochs && scope in st.epochs[epoch].sets && ts in st.epochs[epoch].sets[scope]
  }

  /** The manifest is valid and states scope `scope`, epoch `epoch` and an issuance of `ts` milliseconds. */
  predicate Describes(doc: Json, fmt: Formats, scope: string, ts: int, epoch: int) {
    var f := ReadFields(doc, fmt);
    f.Read? && f.scope == scope && f.epoch == epoch && MillisOf(f.issued) == ts
  }

  /** Insertion order lists each scope once, exactly the scopes present, each with a non-empty set. */
  ghost predicate WellFormedScopes(ss: ScopeSets) {
    && ss.order != []
    && (forall i, j :: 0 <= i < j < |ss.order| ==> ss.order[i] != ss.order[j])
    && (forall s :: s in ss.sets <==> s in ss.order)
    && (forall s :: s in ss.sets ==> ss.sets[s] != {})
  }

  /**
   * The invariant the two dictionaries keep: every indexed (epoch, scope,
   * ts) has its manifest, that manifest states that epoch, scope and
   * issuance, and every recorded manifest is indexed under its own epoch.
   */
  ghost predicate Consistent(st: IndexState, fmt: Formats) {
    && (forall e :: e in st.epochs ==> WellFormedScopes(st.epochs[e]))
    && (forall e, s, t :: Indexed(st, e, s, t) ==> Seen(st, s, t) && Describes(st.manifests[s][t], fmt, s, t, e))
    && (forall s, t :: Seen(st, s, t) ==>
          ReadFields(st.manifests[s][t], fmt).Read? && Indexed(st, ReadFields(st.manifests[s][t], fmt).epoch, s, t))
  }

  /** The shape the publishing code relies on; implied by `Consistent`. */
  ghost predicate Shaped(st: IndexState) {
    && (forall e :: e in st.epochs ==> WellFormedScopes(st.epochs[e]))
    && (forall e, s, t :: Indexed(st, e, s, t) ==> Seen(st, s, t))
  }

  lemma ConsistentIsShaped(st: IndexState, fmt: Formats)
    requires Consistent(st, fmt)
    ensures Shaped(st)
  {
  }

  /** Nothing recorded is lost or overwritten, and nothing indexed is unindexed. */
  ghost predicate Grows(st: IndexState, st2: IndexState) {
    && (forall s, t :: Seen(st, s, t) ==> Seen(st2, s, t) && st2.manifests[s][t] == st.manifests[s][t])
    && (forall e, s, t :: Indexed(st, e, s, t) ==> Indexed(st2, e, s, t))
  }

  lemma GrowsReflexive(st: IndexState)
    ensures Grows(st, st)
  {
  }

  lemma GrowsTransitive(a: IndexState, b: IndexState, c: IndexState)
    requires Grows(a, b) && Grows(b, c)
    ensures Grows(a, c)
  {
  }

  // ---------------------------------------------------------------------
  // Recording an accepted bundle

  /** `.setdefault(scope, set()).add(ts0)` on one epoch's dictionary. */
  function AddTimestamp(ss: ScopeSets, scope: string, ts: int): (r: ScopeSets)
    ensures r.sets.Keys == ss.sets.Keys + {scope}
    ensures r.order == if scope in ss.sets then ss.order else ss.order + [scope]
    ensures forall s :: s in r.sets ==> r.sets[s] == (if s in ss.sets then ss.sets[s] else {}) + (if s == scope then {ts} else {})
  {
    if scope in ss.sets then ScopeSets(ss.order, ss.sets[scope := ss.sets[scope] + {ts}])
    else ScopeSets(ss.order + [scope], ss.sets[scope := {ts}])
  }

  /** Insertion into a dictionary whose order and keys agree keeps them in agreement. */
  lemma AddTimestampWellFormed(ss: ScopeSets, scope: string, ts: int)
    requires ss == ScopeSets([], map[]) || WellFormedScopes(ss)
    ensures WellFormedScopes(AddTimestamp(ss, scope, ts))
  {
    var r := AddTimestamp(ss, scope, ts);
    if scope !in ss.sets {
      assert scope !in ss.order;
      forall i, j | 0 <= i < j < |r.order| ensures r.order[i] != r.order[j] {
        if j == |r.order| - 1 {
          assert r.order[i] == ss.order[i];
        }
      }
    }
  }

  /** Lines 152-158: record the manifest under (scope, ts) and ts under (epoch, scope). */
  function Record(st: IndexState, b: Candidate): (r: IndexState)
    ensures Seen(r, b.scope, b.ts) && r.manifests[b.scope][b.ts] == b.manifest
    ensures Indexed(r, b.epoch, b.scope, b.ts)
  {
    var inner := if b.scope in st.manifests then st.manifests[b.scope] else map[];
    var ss := if b.epoch in st.epochs then st.epochs[b.epoch] else ScopeSets([], map[]);
    IndexState(st.manifests[b.scope := inner[b.ts := b.manifest]], st.epochs[b.epoch := AddTimestamp(ss, b.scope, b.ts)])
  }

  /**
   * Recording adds exactly the pair (scope, ts) with its manifest and the
   * triple (epoch, scope, ts), and leaves every other entry as it was.
   */
  lemma RecordEffect(st: IndexState, b: Candidate)
    ensures var r := Record(st, b);
      && (forall s, t :: Seen(r, s, t) <==> Seen(st, s, t) || (s == b.scope && t == b.ts))
      && (Seen(r, b.scope, b.ts) && r.manifests[b.scope][b.ts] == b.manifest)
      && (forall s, t :: Seen(st, s, t) && (s != b.scope || t != b.ts) ==> Seen(r, s, t) && r.manifests[s][t] == st.manifests[s][t])
      && (forall e, s, t :: Indexed(r, e, s, t) <==> Indexed(st, e, s, t) || (e == b.epoch && s == b.scope && t == b.ts))
  {
  }

  /**
   * Recording a bundle that is new and whose manifest states its own
   * scope, epoch and timestamp keeps the two dictionaries consistent.
   */
  lemma RecordKeepsConsistent(st: IndexState, b: Candidate, fmt: Formats)
    requires Consistent(st, fmt)
    requires !Seen(st, b.scope, b.ts)
    requires Describes(b.manifest, fmt, b.scope, b.ts, b.epoch)
    ensures Consistent(Record(st, b), fmt)
    ensures Grows(st, Record(st, b))
  {
    var r := Record(st, b);
    RecordEffect(st, b);
    var ss := if b.epoch in st.epochs then st.epochs[b.epoch] else ScopeSets([], map[]);
    AddTimestampWellFormed(ss, b.scope, b.ts);
    forall e, s, t | Indexed(r, e, s, t) ensures Seen(r, s, t) && Describes(r.manifests[s][t], fmt, s, t, e) {
      if !(e == b.epoch && s == b.scope && t == b.ts) {
        assert Indexed(st, e, s, t);
      }
    }
    forall s, t | Seen(r, s, t)
      ensures ReadFields(r.manifests[s][t], fmt).Read? && Indexed(r, ReadFields(r.manifests[s][t], fmt).epoch, s, t)
    {
      if !(s == b.scope && t == b.ts) {
        assert Seen(st, s, t);
      }
    }
  }

  // ---------------------------------------------------------------------
  // One directory entry

  /** Lines 100-105: the bundle timestamp of a `.json` entry whose stem `int()` accepts. */
  function BundleTimestamp(name: string): (r: Option<int>)
    ensures r.Some? ==> Suffix(name) == ".json" && ParseInt(Stem(name)) == r
    ensures Suffix(name) == ".json" && ParseInt(Stem(name)).Some? ==> r.Some?
  {
    if Suffix(name) == ".json" then ParseInt(Stem(name)) else None
  }

  /**
   * Lines 100-129: the checks that do not depend on the dictionaries. A
   * candidate has a ".json" name with an integer stem, a loaded manifest
   * that states its epoch, issuance and scope, and an issuance that
   * rounds to the stem's value.
   */
  function Validate(e: DirEntry, fmt: Formats): (r: Validation)
    ensures BundleTimestamp(e.name).None? ==> r == Rejected(NotManifest)
    ensures BundleTimestamp(e.name).Some? && e.manifest == LoadError ==> r == Rejected(Unloadable)
    ensures BundleTimestamp(e.name).Some? && e.manifest == NotText ==> r == Raises(Undecodable)
    ensures r.Passes? <==>
      (BundleTimestamp(e.name).Some? && e.manifest.Loaded? && ValidManifest(e.manifest.doc, fmt)
       && MillisOf(ReadFields(e.manifest.doc, fmt).issued) == BundleTimestamp(e.name).value)
    ensures r.Passes? ==>
      && BundleTimestamp(e.name) == Some(r.c.ts)
      && r.c.stem == Stem(e.name)
      && e.manifest == Loaded(r.c.manifest)
      && Describes(r.c.manifest, fmt, r.c.scope, r.c.ts, r.c.epoch)
    ensures r == Raises(IssuanceMismatch) <==>
      (BundleTimestamp(e.name).Some? && e.manifest.Loaded? && ValidManifest(e.manifest.doc, fmt)
       && MillisOf(ReadFields(e.manifest.doc, fmt).issued) != BundleTimestamp(e.name).value)
  {
    match BundleTimestamp(e.name)
    case None => Rejected(NotManifest)
    case Some(ts0) =>
      match e.manifest
      case LoadError => Rejected(Unloadable)
      case NotText => Raises(Undecodable)
      case Loaded(doc) =>
        match ReadFields(doc, fmt)
        case Skipped(why) => Rejected(why)
        case Failed(why) => Raises(why)
        case Read(epoch, issued, scope) =>
          if MillisOf(issued) != ts0 then Raises(IssuanceMismatch)
          else Passes(Candidate(scope, ts0, epoch, Stem(e.name), doc))
  }

  /**
   * Lines 113-128 inside the scan: an invalid manifest of a bundle is
   * skipped, or raises, exactly as reading its fields does.
   */
  lemma ValidateCarries(e: DirEntry, fmt: Formats)
    requires BundleTimestamp(e.name).Some? && e.manifest.Loaded?
    ensures ReadFields(e.manifest.doc, fmt).Skipped? ==> Validate(e, fmt) == Rejected(ReadFields(e.manifest.doc, fmt).skip)
    ensures ReadFields(e.manifest.doc, fmt).Failed? ==> Validate(e, fmt) == Raises(ReadFields(e.manifest.doc, fmt).failure)
  {
  }

  /**
   * Lines 100-141: a candidate whose (scope, ts0) is already recorded is
   * skipped; otherwise its archive is opened and extracted, which raises
   * if it cannot be, and its extraction directory listed, which raises if
   * extraction created none. An empty listing is accepted.
   */
  function Decide(st: IndexState, e: DirEntry, fmt: Formats): (r: Decision)
    ensures r.Accept? ==>
      Validate(e, fmt) == Passes(r.c) && !Seen(st, r.c.scope, r.c.ts) && e.archive == Listing(r.files)
    ensures var v := Validate(e, fmt);
      && (v.Rejected? ==> r == Skip(v.why))
      && (v.Raises? ==> r == Abort(v.cause))
      && (v.Passes? && Seen(st, v.c.scope, v.c.ts) ==> r == Skip(AlreadySeen))
      && (v.Passes? && !Seen(st, v.c.scope, v.c.ts) ==>
            r == (if e.archive.Unreadable? then Abort(ArchiveUnreadable)
                  else if e.archive.NoDirectory? then Abort(NoExtractionDirectory)
                  else Accept(v.c, e.archive.entries)))
  {
    match Validate(e, fmt)
    case Rejected(why) => Skip(why)
    case Raises(cause) => Abort(cause)
    case Passes(c) =>
      if Seen(st, c.scope, c.ts) then Skip(AlreadySeen)
      else match e.archive
        case Unreadable => Abort(ArchiveUnreadable)
        case NoDirectory => Abort(NoExtractionDirectory)
        case Listing(files) => Accept(c, files)
  }

  /** Lines 98-158 for one entry: only an accepted bundle changes the dictionaries or queues jobs. */
  function Step(st: IndexState, e: DirEntry, fmt: Formats): (r: StepResult)
    ensures r.decision == Decide(st, e, fmt)
    ensures !r.decision.Accept? ==> r.state == st && r.jobs == []
    ensures r.decision.Accept? ==>
      var c := r.decision.c;
      r.state == Record(st, c) && r.jobs == FileJobs(c.scope, c.stem, c.ts, r.decision.files)
    ensures AllUploads(r.jobs)
  {
    match Decide(st, e, fmt)
    case Accept(c, files) =>
      FileJobsAreUploads(c.scope, c.stem, c.ts, files);
      StepResult(Accept(c, files), Record(st, c), FileJobs(c.scope, c.stem, c.ts, files))
    case d => StepResult(d, st, [])
  }

  /** No entry overwrites or drops anything the dictionaries hold. */
  lemma StepGrows(st: IndexState, e: DirEntry, fmt: Formats)
    ensures Grows(st, Step(st, e, fmt).state)
  {
    var d := Decide(st, e, fmt);
    if d.Accept? {
      RecordEffect(st, d.c);
    }
  }

  /** Every entry keeps the dictionaries consistent and never overwrites or drops what they hold. */
  lemma StepKeepsConsistent(st: IndexState, e: DirEntry, fmt: Formats)
    requires Consistent(st, fmt)
    ensures Consistent(Step(st, e, fmt).state, fmt)
    ensures Grows(st, Step(st, e, fmt).state)
  {
    var d := Decide(st, e, fmt);
    if d.Accept? {
      RecordKeepsConsistent(st, d.c, fmt);
    }
  }

  /**
   * Dedup: an entry whose (scope, ts0) is already recorded queues nothing
   * and changes nothing; in particular the recorded manifest stays.
   */
  lemma SeenEntryChangesNothing(st: IndexState, e: DirEntry, fmt: Formats)
    requires Validate(e, fmt).Passes?
    requires Seen(st, Validate(e, fmt).c.scope, Validate(e, fmt).c.ts)
    ensures Step(st, e, fmt) == StepResult(Skip(AlreadySeen), st, [])
  {
  }

  /** Lines 100-105: an entry that is not a `.json` file with an integer stem is passed over and changes nothing. */
  lemma NonBundleChangesNothing(st: IndexState, e: DirEntry, fmt: Formats)
    requires BundleTimestamp(e.name).None?
    ensures Step(st, e, fmt) == StepResult(Skip(NotManifest), st, [])
  {
  }

  /**
   * Lines 106-128: a manifest that cannot be loaded or decoded, lacks a
   * field, has a date that is not a string or that neither format accepts,
   * or a scope that is not a string is never recorded and queues nothing.
   */
  lemma InvalidManifestChangesNothing(st: IndexState, e: DirEntry, fmt: Formats)
    requires !e.manifest.Loaded? || !ValidManifest(e.manifest.doc, fmt)
    ensures !Step(st, e, fmt).decision.Accept?
    ensures Step(st, e, fmt).state == st && Step(st, e, fmt).jobs == []
  {
  }

  /**
   * Line 129: a manifest whose issuance does not round to the stem's
   * milliseconds raises AssertionError; nothing is recorded or queued.
   */
  lemma IssuanceMismatchAborts(st: IndexState, e: DirEntry, fmt: Formats)
    requires BundleTimestamp(e.name).Some? && e.manifest.Loaded? && ValidManifest(e.manifest.doc, fmt)
    requires MillisOf(ReadFields(e.manifest.doc, fmt).issued) != BundleTimestamp(e.name).value
    ensures Step(st, e, fmt) == StepResult(Abort(IssuanceMismatch), st, [])
  {
  }

  /**
   * Lines 136-158: a valid manifest of a new (scope, ts0) whose archive
   * extracts to a directory is accepted. Its manifest is then recorded
   * under (scope, ts0), ts0 is indexed under (epoch, scope), and the two
   * uploads of each of its regular files are queued; an empty directory
   * queues nothing but is recorded all the same.
   */
  lemma NewBundleRecorded(st: IndexState, e: DirEntry, fmt: Formats)
    requires BundleTimestamp(e.name).Some? && e.manifest.Loaded? && ValidManifest(e.manifest.doc, fmt)
    requires MillisOf(ReadFields(e.manifest.doc, fmt).issued) == BundleTimestamp(e.name).value
    requires !Seen(st, ReadFields(e.manifest.doc, fmt).scope, BundleTimestamp(e.name).value)
    requires e.archive.Listing?
    ensures var f, ts0, s := ReadFields(e.manifest.doc, fmt), BundleTimestamp(e.name).value, Step(st, e, fmt);
      && s.decision.Accept?
      && Seen(s.state, f.scope, ts0) && s.state.manifests[f.scope][ts0] == e.manifest.doc
      && Indexed(s.state, f.epoch, f.scope, ts0)
      && s.jobs == FileJobs(f.scope, Stem(e.name), ts0, e.archive.entries)
      && (e.archive.entries == [] ==> s.jobs == [])
  {
  }

  /**
   * Lines 136-140: a new, valid bundle whose archive cannot be opened, or
   * whose extraction created no directory, raises; nothing is recorded or
   * queued.
   */
  lemma MissingArchiveAborts(st: IndexState, e: DirEntry, fmt: Formats)
    requires Validate(e, fmt).Passes? && !Seen(st, Validate(e, fmt).c.scope, Validate(e, fmt).c.ts)
    requires !e.archive.Listing?
    ensures Step(st, e, fmt).decision.Abort? && Step(st, e, fmt).state == st && Step(st, e, fmt).jobs == []
  {
  }

  /** A skipped entry stays skipped however much the dictionaries grow. */
  lemma SkipPersists(st: IndexState, st2: IndexState, e: DirEntry, fmt: Formats)
    requires Decide(st, e, fmt).Skip?
    requires Grows(st, st2)
    ensures Decide(st2, e, fmt).Skip?
  {
    SkipWhen(st, e, fmt);
    SkipWhen(st2, e, fmt);
  }

  /** An entry is skipped exactly when it fails a check that skips, or is already recorded. */
  lemma SkipWhen(st: IndexState, e: DirEntry, fmt: Formats)
    ensures Decide(st, e, fmt).Skip? <==>
      Validate(e, fmt).Rejected? || (Validate(e, fmt).Passes? && Seen(st, Validate(e, fmt).c.scope, Validate(e, fmt).c.ts))
  {
    match Validate(e, fmt)
    case Rejected(why) =>
      assert Decide(st, e, fmt) == Skip(why);
    case Raises(cause) =>
      assert Decide(st, e, fmt) == Abort(cause);
    case Passes(c) =>
      if !Seen(st, c.scope, c.ts) {
        match e.archive
        case Unreadable =>
          assert Decide(st, e, fmt) == Abort(ArchiveUnreadable);
        case NoDirectory =>
          assert Decide(st, e, fmt) == Abort(NoExtractionDirectory);
        case Listing(files) =>
          assert Decide(st, e, fmt) == Accept(c, files);
      }
  }

  /** An entry that did not abort is skipped when seen again: accepted ones are then already recorded. */
  lemma SkipAfterStep(st: IndexState, e: DirEntry, fmt: Formats)
    requires !Decide(st, e, fmt).Abort?
    ensures Decide(Step(st, e, fmt).state, e, fmt).Skip?
  {
    var d := Decide(st, e, fmt);
    if d.Accept? {
      RecordEffect(st, d.c);
      assert Seen(Step(st, e, fmt).state, d.c.scope, d.c.ts);
    }
  }

  // ---------------------------------------------------------------------
  // A scan over many entries

  /** The entries of all directories, directory by directory, each in listing order. */
  function Flatten(dirs: seq<seq<DirEntry>>): (r: seq<DirEntry>)
    ensures forall e :: e in r <==> exists i :: 0 <= i < |dirs| && e in dirs[i]
  {
    if dirs == [] then [] else Flatten(dirs[..|dirs| - 1]) + dirs[|dirs| - 1]
  }

  /** One more entry of a scan: nothing happens once an exception has escaped. */
  function ScanNext(r: ScanResult, e: DirEntry, fmt: Formats): ScanResult {
    if r.aborted.Some? then r
    else
      var s := Step(r.state, e, fmt);
      if s.decision.Abort? then ScanResult(Some(s.decision.cause), r.state, r.jobs)
      else ScanResult(None, s.state, r.jobs + s.jobs)
  }

  /**
   * Lines 96-158: entries in order, each through `Step`, until an
   * exception escapes; the entry that raised it changes nothing.
   */
  function ScanEntries(st: IndexState, es: seq<DirEntry>, fmt: Formats): ScanResult {
    if es == [] then ScanResult(None, st, [])
    else ScanNext(ScanEntries(st, es[..|es| - 1], fmt), es[|es| - 1], fmt)
  }

  /** A non-empty sequence is its front followed by its last element. */
  lemma SplitLast<T>(s: seq<T>)
    requires s != []
    ensures s == s[..|s| - 1] + [s[|s| - 1]]
  {
  }

  lemma ScanAppend(st: IndexState, es: seq<DirEntry>, e: DirEntry, fmt: Formats)
    ensures ScanEntries(st, es + [e], fmt) == ScanNext(ScanEntries(st, es, fmt), e, fmt)
  {
    assert (es + [e])[..|es|] == es;
  }

  /** After an exception the next entry is not looked at. */
  lemma ScanNextAfterAbort(r: ScanResult, e: DirEntry, fmt: Formats)
    requires r.aborted.Some?
    ensures ScanNext(r, e, fmt) == r
  {
  }

  /** An uncaught exception ends the scan: the entries after it are never looked at. */
  lemma {:induction false} AbortIsFinal(st: IndexState, es: seq<DirEntry>, more: seq<DirEntry>, fmt: Formats)
    requires ScanEntries(st, es, fmt).aborted.Some?
    ensures ScanEntries(st, es + more, fmt) == ScanEntries(st, es, fmt)
  {
    if more != [] {
      var front, last := more[..|more| - 1], more[|more| - 1];
      AbortIsFinal(st, es, front, fmt);
      assert es + more == (es + front) + [last];
      ScanAppend(st, es + front, last, fmt);
      assert ScanEntries(st, es + more, fmt) == ScanNext(ScanEntries(st, es, fmt), last, fmt);
      ScanNextAfterAbort(ScanEntries(st, es, fmt), last, fmt);
    } else {
      assert es + more == es;
    }
  }

  /** Scanning keeps the dictionaries consistent and only ever adds to them. */
  lemma {:induction false} ScanKeepsConsistent(st: IndexState, es: seq<DirEntry>, fmt: Formats)
    requires Consistent(st, fmt)
    ensures Consistent(ScanEntries(st, es, fmt).state, fmt)
    ensures Grows(st, ScanEntries(st, es, fmt).state)
  {
    if es == [] {
      GrowsReflexive(st);
    } else {
      var front, last := es[..|es| - 1], es[|es| - 1];
      ScanKeepsConsistent(st, front, fmt);
      var r := ScanEntries(st, front, fmt);
      var next := ScanNext(r, last, fmt);
      assert ScanEntries(st, es, fmt) == next;
      if r.aborted.None? && !Decide(r.state, last, fmt).Abort? {
        StepKeepsConsistent(r.state, last, fmt);
        GrowsTransitive(st, r.state, next.state);
      } else {
        assert next.state == r.state;
      }
    }
  }

  /** After a scan that ran to the end, every entry it saw would be skipped if seen again. */
  lemma {:induction false} ScanSettles(st: IndexState, es: seq<DirEntry>, fmt: Formats)
    requires ScanEntries(st, es, fmt).aborted.None?
    ensures forall e :: e in es ==> Decide(ScanEntries(st, es, fmt).state, e, fmt).Skip?
  {
    if es != [] {
      var front, last := es[..|es| - 1], es[|es| - 1];
      var r := ScanEntries(st, front, fmt);
      assert ScanEntries(st, es, fmt) == ScanNext(r, last, fmt);
      assert r.aborted.None?;
      var s := Step(r.state, last, fmt);
      assert !s.decision.Abort? && ScanEntries(st, es, fmt).state == s.state;
      ScanSettles(st, front, fmt);
      StepSettles(r.state, front, last, fmt);
      SplitLast(es);
    }
  }

  /** One more entry that does not abort keeps every earlier entry settled, and settles itself. */
  lemma StepSettles(st: IndexState, seen: seq<DirEntry>, e: DirEntry, fmt: Formats)
    requires forall x :: x in seen ==> Decide(st, x, fmt).Skip?
    requires !Decide(st, e, fmt).Abort?
    ensures forall x :: x in seen + [e] ==> Decide(Step(st, e, fmt).state, x, fmt).Skip?
  {
    var st2 := Step(st, e, fmt).state;
    StepGrows(st, e, fmt);
    SkipAfterStep(st, e, fmt);
    forall x | x in seen + [e] ensures Decide(st2, x, fmt).Skip? {
      if x != e {
        assert x in seen;
        assert Decide(st, x, fmt).Skip?;
        SkipPersists(st, st2, x, fmt);
      }
    }
  }

  /** A scan in which every entry is skipped queues nothing and changes nothing. */
  lemma {:induction false} SkippedScanChangesNothing(st: IndexState, es: seq<DirEntry>, fmt: Formats)
    requires forall e :: e in es ==> Decide(st, e, fmt).Skip?
    ensures ScanEntries(st, es, fmt) == ScanResult(None, st, [])
  {
    if es != [] {
      var front := es[..|es| - 1];
      assert forall e :: e in front ==> e in es;
      SkippedScanChangesNothing(st, front, fmt);
      assert es[|es| - 1] in es;
    }
  }

  /**
   * Idempotence: scanning the same entries again after a scan that ran to
   * the end queues no job and changes neither dictionary.
   */
  lemma RescanChangesNothing(st: IndexState, es: seq<DirEntry>, fmt: Formats)
    requires ScanEntries(st, es, fmt).aborted.None?
    ensures var st2 := ScanEntries(st, es, fmt).state;
      ScanEntries(st2, es, fmt) == ScanResult(None, st2, [])
  {
    ScanSettles(st, es, fmt);
    SkippedScanChangesNothing(ScanEntries(st, es, fmt).state, es, fmt);
  }
}
