# Explorer uploader: scan, dedup, index and publish

A Dafny model of the orchestrator `run` in
`openrank/mmspd/exploreruploader/cmd/run.py`. Each cycle of `run` does four things:

1. It walks the configured output directories.
2. It accepts each new `{ts}.json` manifest whose checks pass, and queues two upload jobs for each top-level regular file of the manifest's `{ts}.zip`.
3. It records the bundle in two dictionaries that live for the whole process:
   - `manifest_by_scope_ts`: scope → ts → manifest;
   - `timestamps_by_epoch_scope`: epoch → scope → set of ts.
4. It publishes the greatest epoch. It writes `timestamps.json` (the sorted union of that epoch's timestamps, spelled by `str`) and `list.json` (`str(ts)` → manifest). It then queues both documents and the indexer cache. Whatever happened, it puts the `None` sentinel last.

Modules, one per concern:

- **`Wrappers`**: `Option`.
- **`PyText`**: the parts of Python's text handling the scan relies on:
  - `int(str)` in base 10, with surrounding white space, a sign and `_` separators;
  - `str(int)`;
  - `PurePath.suffix` and `PurePath.stem`.
- **`Timestamps`**: `parse_timestamp` with its two `strptime` formats as parameters, and the round-half-even millisecond conversion.
- **`Manifest`**: the parsed JSON document and the reading of `epoch`, `issuanceDate` and `scope`, with every way that reading can skip or raise.
- **`Jobs`**: upload jobs and their object keys, the file fan-out, and the cycle's queue (`class UploadQueue`, the log of everything put).
- **`Index`**: the two dictionaries as a value (`IndexState`), the decision taken for one directory entry, and a scan over many entries. It also holds the consistency invariant the dictionaries keep and the idempotence of rescanning.
- **`Publish`**: `max`, `sorted`, the union fold, and the two index documents with their properties.
- **`Uploader`**: `class ArchiveIndex`, whose fields are the two dictionaries that `run` updates in place. Its methods are one entry, one cycle and the loop of cycles. Each is proved against a specification function of the previous modules. The module also holds the nested loops that fill the queue and `list_`.

Four behaviours of `run.py` are easy to misread, and the model follows the code in each:

- **Uncaught exceptions.** Where a per-entry skip might be expected, these failures raise an exception that nothing in `run` catches:
  - a manifest whose bytes do not decode as text (`UnicodeDecodeError` is a `ValueError`, not a `JSONDecodeError`, so line 109 does not catch it);
  - a manifest that is not a JSON object (`TypeError` on `manifest['epoch']`);
  - a date that is present but not a string (`TypeError` in `strptime`);
  - the failed issuance `assert`;
  - a companion `.zip` that cannot be opened or extracted;
  - a `.zip` whose extraction creates no directory (one with no members, say). `iterdir` at line 140 then raises `FileNotFoundError`. A `.zip` whose only member is `./` does leave a directory, an empty one; that bundle is recorded and queues no uploads;
  - a configured directory that cannot be listed (missing, not a directory, or unreadable): `iterdir` at line 98 raises. This one is not modelled (see "Left out").

  The cycle ends there. The `finally` still queues the sentinel, and then `run` itself ends.
- **Indexer cache.** Where an upload every cycle might be expected, its job is queued only when some epoch is known. The `continue` at line 162 skips it, and also skips the 10-second sleep.
- **Archives.** Only the top-level entries of an extracted archive are uploaded, because `iterdir` does not recurse.
- **Shared timestamps.** When two scopes of the published epoch hold the same timestamp, `list.json` carries the manifest of the scope that was inserted later into that epoch's dictionary.

## Model

| member | source | states |
|---|---|---|
| Timestamps.ParseTimestamp | openrank/mmspd/exploreruploader/cmd/run.py:35-39 | succeeds exactly when one of the two formats accepts the text; the fractional-second format wins whenever it accepts, the whole-second one is used only when it fails |
| Timestamps.MillisOf | openrank/mmspd/exploreruploader/cmd/run.py:129 | the result is within half a millisecond of the instant, and an exact tie goes to the even millisecond (Python's `round`) |
| Timestamps.MillisOfUnique | openrank/mmspd/exploreruploader/cmd/run.py:129 | any millisecond count that is nearest with ties to even equals `MillisOf`, so the rounding is fully determined |
| PyText.TrimStart | openrank/mmspd/exploreruploader/cmd/run.py:103 | the result is a suffix of the input not starting with white space, and everything removed is white space |
| PyText.TrimEnd | openrank/mmspd/exploreruploader/cmd/run.py:103 | the result is a prefix of the input not ending with white space, and everything removed is white space |
| PyText.Strip | openrank/mmspd/exploreruploader/cmd/run.py:103 | the stripped text neither starts nor ends with white space |
| PyText.ParseInt | openrank/mmspd/exploreruploader/cmd/run.py:103-105 | `int()` is `Strip` followed by the signed-group reading, and only succeeds on text holding a decimal digit; `ParseIntAccepts` and `ParseIntShape` state exactly which texts it accepts and with what value |
| PyText.ParseSigned | openrank/mmspd/exploreruploader/cmd/run.py:103 | after `strip()`: success only when the text ends in a digit |
| PyText.StripPadded | openrank/mmspd/exploreruploader/cmd/run.py:103 | `Strip` removes exactly the white space around a text that neither starts nor ends with it |
| PyText.StripShape | openrank/mmspd/exploreruploader/cmd/run.py:103 | every text is white space, its `Strip`, then white space |
| PyText.SignedGroup | openrank/mmspd/exploreruploader/cmd/run.py:103 | an optional sign followed by a digit group reads as the group's value, negated after '-' |
| PyText.ParseIntAccepts | openrank/mmspd/exploreruploader/cmd/run.py:103 | `int()` accepts white space, an optional sign, a digit group with single underscores between digits, then white space, and gives the group's value, negated after '-' |
| PyText.ParseIntShape | openrank/mmspd/exploreruploader/cmd/run.py:103-105 | conversely every text `int()` accepts splits that way with that value, so any other stem is not a bundle |
| PyText.GroupValue | openrank/mmspd/exploreruploader/cmd/run.py:103 | the number a digit group denotes, underscores carrying no value; `GroupValueOfShowNat` ties it to `str` |
| PyText.ShowNat | openrank/mmspd/exploreruploader/cmd/run.py:145 | a natural number is spelled by a non-empty run of digits |
| PyText.ShowInt | openrank/mmspd/exploreruploader/cmd/run.py:163 | `str(n)` is non-empty, made of digits and a leading '-' only, and ends with a digit |
| PyText.GroupValueOfShowNat | openrank/mmspd/exploreruploader/cmd/run.py:163 | the digits of a natural number form a digit group whose value is that number |
| PyText.StripUnpadded | openrank/mmspd/exploreruploader/cmd/run.py:103 | text without surrounding white space is its own `Strip` |
| PyText.ParseShowRoundTrip | openrank/mmspd/exploreruploader/cmd/run.py:103 | `int(str(n)) == n` for every integer |
| PyText.SeparatorNotSkipped | openrank/mmspd/exploreruploader/cmd/run.py:103-105 | a leading information separator (U+001C) is not white space to `int()`, so such a name is not a bundle |
| PyText.ShowIntInjective | openrank/mmspd/exploreruploader/cmd/run.py:177 | distinct timestamps have distinct spellings, so `str(ts)` keys never collide |
| PyText.LastDot | openrank/mmspd/exploreruploader/cmd/run.py:100 | the index of the last '.' of the name, or -1 when there is none |
| PyText.Suffix | openrank/mmspd/exploreruploader/cmd/run.py:100 | the suffix is empty (the name is then its own stem) or a dot and at least one character, with name = stem + suffix |
| PyText.Stem | openrank/mmspd/exploreruploader/cmd/run.py:100-103 | the name without its suffix; `Suffix` and `JsonSuffixShape` prove name = stem + suffix |
| PyText.JsonSuffixShape | openrank/mmspd/exploreruploader/cmd/run.py:100-103 | the suffix is ".json" exactly when the name ends in ".json" after at least one other character, and the stem is then the rest |
| PyText.ManifestNameRoundTrip | openrank/mmspd/exploreruploader/cmd/run.py:100-103 | the file `str(ts) + ".json"` is taken as a manifest and its stem reads back as `ts` |
| Manifest.ReadFields | openrank/mmspd/exploreruploader/cmd/run.py:113-128 | it reads all three fields exactly when both dates parse and the scope is a string, and returns what they say; a non-object raises `TypeError`, a missing `epoch` skips silently, and every other outcome is a skip or one of the two `TypeError`s (which one, branch by branch, is `ReadFieldsBranches`) |
| Manifest.ReadFieldsBranches | openrank/mmspd/exploreruploader/cmd/run.py:113-128 | branch by branch in source order: a present but non-string `epoch` or `issuanceDate` raises `TypeError`, an unparseable one skips as a bad date, a missing `issuanceDate` or `scope` skips silently, and a non-string scope skips as such |
| Index.BundleTimestamp | openrank/mmspd/exploreruploader/cmd/run.py:100-105 | a bundle timestamp exists exactly for a ".json" name whose stem `int()` accepts, and it is that integer |
| Index.Validate | openrank/mmspd/exploreruploader/cmd/run.py:100-129 | non-manifests and files that cannot be loaded are skipped, and a manifest that does not decode as text raises; an entry passes exactly when its manifest is valid and the issuance rounds to the stem's value, and the candidate then carries the stem's timestamp and a manifest describing its scope, epoch and timestamp; the issuance check raises exactly when only it fails |
| Index.ValidateCarries | openrank/mmspd/exploreruploader/cmd/run.py:113-128 | inside the scan an invalid manifest is skipped, or raises, exactly as reading its fields does |
| Index.Decide | openrank/mmspd/exploreruploader/cmd/run.py:100-141 | the decision in every case: a skip or exception of validation is passed on, a recorded (scope, ts0) is skipped, and a new valid bundle is accepted with its listing, possibly empty, when extraction leaves a directory, and otherwise raises (unreadable archive, or no directory created) |
| Index.SkipWhen | openrank/mmspd/exploreruploader/cmd/run.py:100-135 | an entry is skipped exactly when it fails a check that skips, or its (scope, ts0) is already recorded |
| Index.NewBundleRecorded | openrank/mmspd/exploreruploader/cmd/run.py:136-158 | a valid manifest of a new (scope, ts0) whose archive extracts to a directory is accepted: the manifest is recorded under (scope, ts0), ts0 is indexed under (epoch, scope), and the two uploads of each regular file are queued; an empty directory queues nothing, and the bundle is recorded all the same |
| Index.MissingArchiveAborts | openrank/mmspd/exploreruploader/cmd/run.py:136-140 | a new valid bundle whose archive cannot be opened, or whose extraction creates no directory, raises, with nothing recorded or queued |
| Index.Step | openrank/mmspd/exploreruploader/cmd/run.py:98-158 | only an accepted entry changes the dictionaries (by `Record`) or queues jobs (its file jobs); every other entry leaves both untouched; an entry queues nothing but uploads |
| Index.AddTimestamp | openrank/mmspd/exploreruploader/cmd/run.py:155-158 | `setdefault(scope, set()).add(ts0)`: the scope is added to the keys and only its set gains `ts0`; a new scope goes to the end of the insertion order and a known one keeps its place |
| Index.AddTimestampWellFormed | openrank/mmspd/exploreruploader/cmd/run.py:155-158 | the insertion order keeps listing each present scope exactly once |
| Index.Record | openrank/mmspd/exploreruploader/cmd/run.py:152-158 | after recording, (scope, ts0) holds its manifest and ts0 is indexed under (epoch, scope); `RecordEffect` says nothing else changes |
| Index.RecordEffect | openrank/mmspd/exploreruploader/cmd/run.py:152-158 | recording adds exactly (scope, ts0) with its manifest and (epoch, scope, ts0), and leaves every other entry as it was |
| Index.RecordKeepsConsistent | openrank/mmspd/exploreruploader/cmd/run.py:152-158 | recording a new bundle whose manifest describes it keeps every indexed timestamp backed by a manifest stating that epoch, and every manifest indexed under its own epoch |
| Index.ConsistentIsShaped | openrank/mmspd/exploreruploader/cmd/run.py:176 | the consistency invariant gives the lookup of line 176 its manifest |
| Index.StepGrows | openrank/mmspd/exploreruploader/cmd/run.py:130-158 | no entry drops or overwrites a recorded manifest or unindexes a timestamp |
| Index.StepKeepsConsistent | openrank/mmspd/exploreruploader/cmd/run.py:98-158 | every entry keeps the dictionaries consistent and only adds to them |
| Index.SeenEntryChangesNothing | openrank/mmspd/exploreruploader/cmd/run.py:130-135 | an entry whose (scope, ts0) is recorded is skipped, queues nothing and changes nothing |
| Index.NonBundleChangesNothing | openrank/mmspd/exploreruploader/cmd/run.py:100-105 | an entry that is not `{int}.json` is skipped and changes nothing |
| Index.InvalidManifestChangesNothing | openrank/mmspd/exploreruploader/cmd/run.py:106-128 | a manifest that cannot be loaded or decoded, or is invalid, is never recorded and queues nothing |
| Index.IssuanceMismatchAborts | openrank/mmspd/exploreruploader/cmd/run.py:129 | an issuance not matching the stem raises, with nothing recorded or queued |
| Index.SkipPersists | openrank/mmspd/exploreruploader/cmd/run.py:130-135 | a skipped entry stays skipped however the dictionaries grow |
| Index.SkipAfterStep | openrank/mmspd/exploreruploader/cmd/run.py:130-158 | an entry that did not raise is skipped when seen again |
| Index.Flatten | openrank/mmspd/exploreruploader/cmd/run.py:96-98 | the scanned entries are exactly the entries of the listed directories |
| Index.ScanNext | openrank/mmspd/exploreruploader/cmd/run.py:98-158 | one more entry of the walk: nothing once an exception has escaped, the exception of an entry that raises, or that entry's `Step`; `ScanAppend` and `AbortIsFinal` are about it |
| Index.ScanEntries | openrank/mmspd/exploreruploader/cmd/run.py:96-158 | the walk over the entries in order; `ScanKeepsConsistent`, `ScanSettles` and `RescanChangesNothing` state what it guarantees |
| Index.AbortIsFinal | openrank/mmspd/exploreruploader/cmd/run.py:95-158 | once an exception escapes, later entries change nothing |
| Index.ScanNextAfterAbort | openrank/mmspd/exploreruploader/cmd/run.py:95-158 | once an exception has escaped, the next entry changes nothing |
| Index.ScanKeepsConsistent | openrank/mmspd/exploreruploader/cmd/run.py:96-158 | a scan keeps the dictionaries consistent and only adds to them |
| Index.ScanSettles | openrank/mmspd/exploreruploader/cmd/run.py:96-158 | after a scan that ran to the end, every entry it saw would be skipped |
| Index.StepSettles | openrank/mmspd/exploreruploader/cmd/run.py:130-158 | one more entry that does not raise keeps earlier entries settled and settles itself |
| Index.SkippedScanChangesNothing | openrank/mmspd/exploreruploader/cmd/run.py:96-135 | a scan in which every entry is skipped queues nothing and changes nothing |
| Index.RescanChangesNothing | openrank/mmspd/exploreruploader/cmd/run.py:96-158 | rescanning the same entries after a complete scan queues nothing and changes neither dictionary |
| Jobs.LegacyKey | openrank/mmspd/exploreruploader/cmd/run.py:148-151 | the legacy key `files/{ts0}/{name}` never equals a primary key `files/{scope}/{ts0}/{name}` |
| Jobs.PrimaryKey | openrank/mmspd/exploreruploader/cmd/run.py:145 | `files/{scope}/{ts0}/{name}`; `LegacyKey` is proved never equal to it |
| Jobs.RegularFiles | openrank/mmspd/exploreruploader/cmd/run.py:140-141 | the files uploaded are exactly the top-level entries that are regular files |
| Jobs.FileJobs | openrank/mmspd/exploreruploader/cmd/run.py:140-151 | the loop over the extracted directory; `FileJobsFanOut`, `FileJobsOnlyRegularFiles` and `FileJobsAreUploads` state what it queues |
| Jobs.FileJobsFanOut | openrank/mmspd/exploreruploader/cmd/run.py:140-151 | two jobs per regular file, in listing order: the primary key, then the legacy key |
| Jobs.FileJobsOnlyRegularFiles | openrank/mmspd/exploreruploader/cmd/run.py:140-151 | every file job uploads a regular file of the archive under one of its two keys |
| Jobs.FileJobsAreUploads | openrank/mmspd/exploreruploader/cmd/run.py:140-151 | file jobs are uploads, never the sentinel |
| Jobs.IndexJobs | openrank/mmspd/exploreruploader/cmd/run.py:170-184 | the index is published by exactly three uploads |
| Jobs.UploadsThenSentinel | openrank/mmspd/exploreruploader/cmd/run.py:186-187 | uploads followed by the sentinel end with the sentinel and hold no other one |
| Jobs.UploadQueue.constructor | openrank/mmspd/exploreruploader/cmd/run.py:88 | a cycle's queue starts empty |
| Jobs.UploadQueue.Put | openrank/mmspd/exploreruploader/cmd/run.py:143-146 | `put` appends the item and keeps everything put before |
| Publish.ExtremesExist | openrank/mmspd/exploreruploader/cmd/run.py:160 | a non-empty set of integers has a least and a greatest element |
| Publish.MinOf | openrank/mmspd/exploreruploader/cmd/run.py:164 | the least element of a non-empty set |
| Publish.MaxEpoch | openrank/mmspd/exploreruploader/cmd/run.py:159-162 | `max` fails exactly on no epochs, and otherwise returns a known epoch no smaller than any other |
| Publish.SortedSeq | openrank/mmspd/exploreruploader/cmd/run.py:164 | `sorted` is strictly ascending and holds exactly the elements of the set, each once |
| Publish.CurrentEpoch | openrank/mmspd/exploreruploader/cmd/run.py:160 | the published epoch is a known epoch no smaller than any other |
| Publish.UnionMember | openrank/mmspd/exploreruploader/cmd/run.py:164-166 | the union fold holds a timestamp exactly when some scope of the epoch holds it |
| Publish.UnionOf | openrank/mmspd/exploreruploader/cmd/run.py:164-166 | the left fold of set union over an epoch's scopes; `UnionMember` gives its members |
| Publish.Spell | openrank/mmspd/exploreruploader/cmd/run.py:163 | the spelled list is `str` applied position by position |
| Publish.PublishedTimestamps | openrank/mmspd/exploreruploader/cmd/run.py:163-166 | the contents of `timestamps.json`; `TimestampsAscending` and `TimestampsExact` state them |
| Publish.ScopeEntries | openrank/mmspd/exploreruploader/cmd/run.py:175-177 | one scope's pass stores an entry for exactly its timestamps |
| Publish.ByTimestamp | openrank/mmspd/exploreruploader/cmd/run.py:172-177 | the nested loop keyed by the timestamp itself; `ByTimestampKeys`, `LastScopeWins` and `ByTimestampSource` state its keys and values |
| Publish.ByTimestampKeys | openrank/mmspd/exploreruploader/cmd/run.py:172-177 | the loop stores a manifest for exactly the timestamps of the union |
| Publish.LastScopeWins | openrank/mmspd/exploreruploader/cmd/run.py:172-177 | each timestamp gets the manifest of the last scope, in dictionary order, that holds it |
| Publish.ByTimestampSource | openrank/mmspd/exploreruploader/cmd/run.py:172-177 | every stored value is the manifest of some scope of the order that holds that timestamp |
| Publish.ShapedCovers | openrank/mmspd/exploreruploader/cmd/run.py:176 | every timestamp of an epoch's dictionary has a manifest, so line 176 never raises |
| Publish.CurrentByTimestamp | openrank/mmspd/exploreruploader/cmd/run.py:172-177 | the published epoch's entries are keyed by exactly the timestamps of its union |
| Publish.SpelledKeysOrigin | openrank/mmspd/exploreruploader/cmd/run.py:177 | every spelled key reads back with `int()` to a key of the map |
| Publish.KeyBySpelling | openrank/mmspd/exploreruploader/cmd/run.py:177 | re-keying by `str(ts)`; `SpelledKey` and `SpelledKeysParse` state its keys and values |
| Publish.SpelledKeyOrigin | openrank/mmspd/exploreruploader/cmd/run.py:177 | every key of `list_` spells a timestamp that has an entry |
| Publish.SpelledKey | openrank/mmspd/exploreruploader/cmd/run.py:177 | `list_` holds `str(t)` exactly when `t` has an entry, and with the same manifest |
| Publish.SpelledKeysParse | openrank/mmspd/exploreruploader/cmd/run.py:177 | every key of `list_` is the canonical spelling of the timestamp `int()` reads from it |
| Publish.SpelledKeysUpdate | openrank/mmspd/exploreruploader/cmd/run.py:177 | storing `t` adds exactly the key `str(t)` |
| Publish.KeyBySpellingUpdateAt | openrank/mmspd/exploreruploader/cmd/run.py:177 | at each key, re-keying after storing `t` agrees with storing under `str(t)` after re-keying |
| Publish.KeyBySpellingUpdate | openrank/mmspd/exploreruploader/cmd/run.py:177 | `list_[str(ts)] = manifest` is the spelled image of storing `ts` |
| Publish.ListDocument | openrank/mmspd/exploreruploader/cmd/run.py:172-177 | the contents of `list.json`; `ListMatchesTimestamps`, `ListValue` and `ListSource` state them |
| Publish.ListDocumentBuilt | openrank/mmspd/exploreruploader/cmd/run.py:172-177 | the published epoch meets what the nested loop needs, and `list.json` is that loop's result |
| Publish.PublishJobs | openrank/mmspd/exploreruploader/cmd/run.py:167-184 | the three uploads queued after the walk when an epoch exists; `CycleShape` places them before the sentinel |
| Publish.CurrentTimestamps | openrank/mmspd/exploreruploader/cmd/run.py:163-166 | a timestamp is in the union exactly when some scope files it under the published epoch |
| Publish.EpochSelection | openrank/mmspd/exploreruploader/cmd/run.py:159-166 | no recorded manifest states a later epoch than the published one; a timestamp is filed under the published epoch exactly when its manifest states that epoch |
| Publish.TimestampsAscending | openrank/mmspd/exploreruploader/cmd/run.py:163-166 | every entry of `timestamps.json` reads back as an integer, strictly ascending in numeric value, so there are no duplicates and "9" comes before "10" |
| Publish.SpelledMember | openrank/mmspd/exploreruploader/cmd/run.py:163-166 | the spelled sorted set holds `str(t)` exactly when the set holds `t` |
| Publish.TimestampsExact | openrank/mmspd/exploreruploader/cmd/run.py:163-166 | `timestamps.json` holds `str(t)` exactly when `t` is filed under the published epoch |
| Publish.CurrentSource | openrank/mmspd/exploreruploader/cmd/run.py:172-177 | each entry is the recorded manifest of a scope that files the timestamp under the published epoch |
| Publish.ListSource | openrank/mmspd/exploreruploader/cmd/run.py:172-177 | each `list.json` value is the recorded manifest of a scope that files its timestamp under the published epoch |
| Publish.ListValue | openrank/mmspd/exploreruploader/cmd/run.py:172-177 | each `list.json` value is a recorded manifest for its timestamp that states the published epoch |
| Publish.ListSingleScope | openrank/mmspd/exploreruploader/cmd/run.py:172-177 | where one scope alone holds a timestamp, `list.json` carries that scope's manifest |
| Publish.ListMatchesTimestamps | openrank/mmspd/exploreruploader/cmd/run.py:163-177 | `list.json` has key `str(t)` exactly for the timestamps `timestamps.json` lists, and every value states the published epoch |
| Uploader.ScanJobsAreUploads | openrank/mmspd/exploreruploader/cmd/run.py:140-151 | a scan queues only upload jobs |
| Uploader.ScanNextUploads | openrank/mmspd/exploreruploader/cmd/run.py:140-151 | one more entry adds only upload jobs to a queue of uploads |
| Uploader.CycleSpec | openrank/mmspd/exploreruploader/cmd/run.py:87-190 | a cycle keeps the dictionaries consistent |
| Uploader.CycleShape | openrank/mmspd/exploreruploader/cmd/run.py:95-190 | nothing recorded is lost; a cycle aborts exactly when an exception escapes the scan; it publishes exactly when the scan ran to the end and an epoch is known, and the three index jobs then come just before the sentinel |
| Uploader.CycleEndsWithSentinel | openrank/mmspd/exploreruploader/cmd/run.py:186-187 | a cycle's queue ends with the sentinel, and every earlier item is an upload |
| Uploader.RepeatCycleOnlyRepublishes | openrank/mmspd/exploreruploader/cmd/run.py:96-184 | after a cycle that ran to the end, the same listings change neither dictionary and re-queue only the index jobs (if any) and the sentinel |
| Uploader.RunSpec | openrank/mmspd/exploreruploader/cmd/run.py:86-191 | the loop of cycles over a list of listings; `RunStopsAtFirstAbort` states where it stops |
| Uploader.RunStopsAtFirstAbort | openrank/mmspd/exploreruploader/cmd/run.py:82-191 | one cycle per listing until the first cycle an exception escapes from, which is the last |
| Uploader.ArchiveIndex.constructor | openrank/mmspd/exploreruploader/cmd/run.py:84-85 | both dictionaries start empty, which is consistent |
| Uploader.ArchiveIndex.ProcessEntry | openrank/mmspd/exploreruploader/cmd/run.py:99-158 | the entry's decision, dictionaries and queued jobs are those of `Step`, and consistency is kept |
| Uploader.ArchiveIndex.RecordBundle | openrank/mmspd/exploreruploader/cmd/run.py:152-158 | the two `setdefault` updates are `Record` |
| Uploader.ArchiveIndex.ScanEntry | openrank/mmspd/exploreruploader/cmd/run.py:98-158 | one more entry extends the scan as `ScanEntries` does, reporting the exception it raises |
| Uploader.ArchiveIndex.PublishIndex | openrank/mmspd/exploreruploader/cmd/run.py:159-184 | it publishes exactly when an epoch is known; it then queues `PublishJobs`, and otherwise nothing |
| Uploader.ArchiveIndex.RunCycle | openrank/mmspd/exploreruploader/cmd/run.py:87-190 | the outcome, dictionaries and queue of a cycle are those of `CycleSpec`, and consistency is kept |
| Uploader.ArchiveIndex.Run | openrank/mmspd/exploreruploader/cmd/run.py:86-191 | the outcomes and queues of the cycles run are those of `RunSpec` |
| Uploader.QueueArchiveFiles | openrank/mmspd/exploreruploader/cmd/run.py:140-151 | the loop queues exactly `FileJobs` after what was queued before |
| Uploader.BuildList | openrank/mmspd/exploreruploader/cmd/run.py:172-177 | the nested loop builds the spelled image of the epoch's timestamp-to-manifest map, the later scope winning |
| Uploader.AddScope | openrank/mmspd/exploreruploader/cmd/run.py:173-177 | one scope of the outer loop extends `list_` by that scope's entries |
| Uploader.AddScopeEntries | openrank/mmspd/exploreruploader/cmd/run.py:175-177 | the inner loop stores every timestamp of the scope, in whatever order the set yields them |

## Left out

- The upload workers, S3 and `aioboto3` (lines 51-79, 89-93, 188) are not modelled. The queue is the log of what the orchestrator puts in it, so worker count, queue capacity and back-pressure are not modelled either.
- File-system I/O is not modelled: the temporary directory, `rm_rf`, zip extraction, `json.load` and `json.dump`.
  - A directory entry carries the result of loading its manifest and what extracting and listing its archive give: unreadable, no directory, or the top-level listing.
  - A written document is the value it holds.
  - Key order in the written JSON and clashes inside the workspace are not modelled.
- The two `strptime` formats are parameters: each is a function from text to an optional instant.
- Dates are integer microseconds. `MillisOf` rounds them exactly. It does not reproduce the floating-point error of `ts.timestamp() * 1000`.
- JSON numbers are integers. Floating-point values in manifests are not modelled.
- `int()` is modelled on ASCII text only. The white space it skips is tab, line feed, vertical tab, form feed, carriage return and space; Unicode digits and non-ASCII white space are not modelled.
- Assertions are taken to be enabled. The model does not cover running under `python -O`.
- Logging is not modelled.
- Index.Flatten: every configured directory is taken to be listable. A missing directory, a path that is not a directory, or one without read permission makes `iterdir` at line 98 raise an exception that nothing catches; the `finally` queues the sentinel and `run` ends. The model has no such outcome.
- Uploader.CycleSpec: for the same reason, a cycle never ends because a configured directory could not be listed.
- The argument parser, `asyncio.sleep` and the endless `while True` are not modelled. `Run` takes a finite list of cycles, one directory listing each.
