/**
 * The epoch index builder (run.py, after the directory walk): the latest
 * epoch, the sorted union of its timestamps for `timestamps.json`, the
 * timestamp-to-manifest map for `list.json`, and the three jobs that
 * upload them and the indexer cache.
 */
module Publish {
  import opened Wrappers
  import opened PyText
  import opened Timestamps
  import opened Manifest
  import opened Jobs
  import opened Index

  // ---------------------------------------------------------------------
  // max() and sorted() on integers

  lemma {:induction false} ExtremesExist(s: set<int>)
    requires s != {}
    ensures exists m :: m in s && forall x :: x in s ==> m <= x
    ensures exists m :: m in s && forall x :: x in s ==> x <= m
    decreases |s|
  {
    if forall x :: x !in s {
      assert false;
    }
    var y :| y in s;
    if s != {y} {
      ExtremesExist(s - {y});
      var lo :| lo in s - {y} && forall x :: x in s - {y} ==> lo <= x;
      var hi :| hi in s - {y} && forall x :: x in s - {y} ==> x <= hi;
      assert forall x :: x in s ==> x == y || x in s - {y};
      if y < lo {
        assert forall x :: x in s ==> y <= x;
      } else {
        assert forall x :: x in s ==> lo <= x;
      }
      if y > hi {
        assert forall x :: x in s ==> x <= y;
      } else {
        assert forall x :: x in s ==> x <= hi;
      }
    } else {
      assert forall x :: x in s ==> x == y;
    }
  }

  function MinOf(s: set<int>): (m: int)
    requires s != {}
    ensures m in s && forall x :: x in s ==> m <= x
  {
    ExtremesExist(s);
    var m :| m in s && forall x :: x in s ==> m <= x;
    m
  }

  /** `max(timestamps_by_epoch_scope.keys())`: `None` where `max` raises ValueError. */
  function MaxEpoch(epochs: set<int>): (r: Option<int>)
    ensures r.None? <==> epochs == {}
    ensures r.Some? ==> r.value in epochs && forall e :: e in epochs ==> e <= r.value
  {
    if epochs == {} then None
    else
      ExtremesExist(epochs);
      var m :| m in epochs && forall x :: x in epochs ==> x <= m;
      Some(m)
  }

  /** `sorted(s)` for a set of integers: ascending, each element once. */
  function SortedSeq(s: set<int>): (r: seq<int>)
    ensures forall i, j :: 0 <= i < j < |r| ==> r[i] < r[j]
    ensures forall x :: x in r <==> x in s
    ensures |r| == |s|
    decreases |s|
  {
    if s == {} then []
    else
      var m := MinOf(s);
      [m] + SortedSeq(s - {m})
  }

  // ---------------------------------------------------------------------
  // The documents

  /** The epoch that is published: the greatest key of `timestamps_by_epoch_scope`. */
  function CurrentEpoch(st: IndexState): (e: int)
    requires st.epochs != map[]
    ensures e in st.epochs && forall x :: x in st.epochs ==> x <= e
  {
    MaxEpoch(st.epochs.Keys).value
  }

  /** Every scope of `order` has its set in the dictionary. */
  ghost predicate Listed(order: seq<string>, ss: ScopeSets) {
    forall i :: 0 <= i < |order| ==> order[i] in ss.sets
  }

  /**
   * `reduce(lambda x, y: x | y, d.values())` over the scopes in the
   * dictionary's order: the left fold of set union.
   */
  function UnionOf(order: seq<string>, ss: ScopeSets): set<int>
    requires Listed(order, ss)
  {
    if order == [] then {}
    else UnionOf(order[..|order| - 1], ss) + ss.sets[order[|order| - 1]]
  }

  /** The fold holds a timestamp exactly when some scope of the order holds it. */
  lemma {:induction false} UnionMember(order: seq<string>, ss: ScopeSets, t: int)
    requires Listed(order, ss)
    ensures t in UnionOf(order, ss) <==> exists i :: 0 <= i < |order| && t in ss.sets[order[i]]
  {
    if order != [] {
      var prefix := order[..|order| - 1];
      UnionMember(prefix, ss, t);
      if t in UnionOf(prefix, ss) {
        var i :| 0 <= i < |prefix| && t in ss.sets[prefix[i]];
        assert prefix[i] == order[i];
      }
      if exists i :: 0 <= i < |order| && t in ss.sets[order[i]] {
        var i :| 0 <= i < |order| && t in ss.sets[order[i]];
        if i < |prefix| {
          assert prefix[i] == order[i];
        }
      }
    }
  }

  /** `str(ts)` for each timestamp. */
  function Spell(ts: seq<int>): (r: seq<string>)
    ensures |r| == |ts| && forall i :: 0 <= i < |ts| ==> r[i] == ShowInt(ts[i])
  {
    seq(|ts|, i requires 0 <= i < |ts| => ShowInt(ts[i]))
  }

  /** Lines 163-166: the contents of `timestamps.json`. */
  function PublishedTimestamps(st: IndexState): seq<string>
    requires Shaped(st) && st.epochs != map[]
  {
    var ss := st.epochs[CurrentEpoch(st)];
    Spell(SortedSeq(UnionOf(ss.order, ss)))
  }

  /** Every timestamp an epoch's dictionary lists has its manifest. */
  ghost predicate Covered(ss: ScopeSets, manifests: map<string, map<int, Json>>) {
    forall s, t :: s in ss.sets && t in ss.sets[s] ==> s in manifests && t in manifests[s]
  }

  /**
   * The nested loop of lines 172-177 keyed by the timestamp itself: scopes
   * in dictionary order, a later scope's manifest replacing an earlier
   * one's for the same timestamp.
   */
  function ByTimestamp(order: seq<string>, ss: ScopeSets, manifests: map<string, map<int, Json>>): (r: map<int, Json>)
    requires Listed(order, ss)
    requires Covered(ss, manifests)
  {
    if order == [] then map[]
    else
      var s := order[|order| - 1];
      ByTimestamp(order[..|order| - 1], ss, manifests) + ScopeEntries(manifests, s, ss.sets[s])
  }

  /** The inner loop of lines 175-177 for one scope: each of `done` with that scope's manifest. */
  function ScopeEntries(manifests: map<string, map<int, Json>>, s: string, done: set<int>): (r: map<int, Json>)
    requires forall t :: t in done ==> s in manifests && t in manifests[s]
    ensures r.Keys == done
  {
    map t | t in done :: manifests[s][t]
  }

  /** The loop stores a manifest for exactly the timestamps of the union. */
  lemma {:induction false} ByTimestampKeys(order: seq<string>, ss: ScopeSets, manifests: map<string, map<int, Json>>)
    requires Listed(order, ss)
    requires Covered(ss, manifests)
    ensures ByTimestamp(order, ss, manifests).Keys == UnionOf(order, ss)
  {
    if order != [] {
      ByTimestampKeys(order[..|order| - 1], ss, manifests);
    }
  }

  /**
   * For each timestamp the loop stores the manifest of the last scope, in
   * dictionary order, that holds it.
   */
  lemma {:induction false} LastScopeWins(order: seq<string>, ss: ScopeSets, manifests: map<string, map<int, Json>>, i: nat, t: int)
    requires Listed(order, ss)
    requires Covered(ss, manifests)
    requires i < |order| && t in ss.sets[order[i]]
    requires forall j :: i < j < |order| ==> t !in ss.sets[order[j]]
    ensures t in ByTimestamp(order, ss, manifests)
    ensures ByTimestamp(order, ss, manifests)[t] == manifests[order[i]][t]
  {
    if i < |order| - 1 {
      LastScopeWins(order[..|order| - 1], ss, manifests, i, t);
    }
  }

  /** Every timestamp of an epoch's dictionary has its manifest. */
  lemma ShapedCovers(st: IndexState, e: int)
    requires Shaped(st) && e in st.epochs
    ensures Covered(st.epochs[e], st.manifests)
  {
    forall s, t | s in st.epochs[e].sets && t in st.epochs[e].sets[s] ensures s in st.manifests && t in st.manifests[s] {
      assert Indexed(st, e, s, t);
    }
  }

  /** The nested loop of lines 172-177 over the published epoch's dictionary. */
  function CurrentByTimestamp(st: IndexState): (r: map<int, Json>)
    requires Shaped(st) && st.epochs != map[]
    ensures var ss := st.epochs[CurrentEpoch(st)]; r.Keys == UnionOf(ss.order, ss)
  {
    var ss := st.epochs[CurrentEpoch(st)];
    ShapedCovers(st, CurrentEpoch(st));
    ByTimestampKeys(ss.order, ss, st.manifests);
    ByTimestamp(ss.order, ss, st.manifests)
  }

  /** The spellings `str(t)` of the keys of `m`. */
  function SpelledKeys(m: map<int, Json>): set<string> {
    set t | t in m :: ShowInt(t)
  }

  /** Every spelled key reads back, with `int()`, to a key of the map. */
  lemma SpelledKeysOrigin(m: map<int, Json>)
    ensures forall k :: k in SpelledKeys(m) ==> ParseInt(k).Some? && ParseInt(k).value in m
  {
    forall k | k in SpelledKeys(m) ensures ParseInt(k).Some? && ParseInt(k).value in m {
      var t :| t in m && k == ShowInt(t);
      ParseShowRoundTrip(t);
    }
  }

  /** Re-keys a map by `str(ts)`: the entry for `t` is found under `str(t)`. */
  function KeyBySpelling(m: map<int, Json>): map<string, Json> {
    SpelledKeysOrigin(m);
    map k | k in SpelledKeys(m) :: m[ParseInt(k).value]
  }

  /** Every key of the re-keyed map spells a key of the map. */
  lemma SpelledKeyOrigin(m: map<int, Json>, k: string) returns (t: int)
    requires k in KeyBySpelling(m)
    ensures t in m && k == ShowInt(t)
  {
    t :| t in m && k == ShowInt(t);
  }

  /** The re-keyed map holds `str(t)` exactly when the map holds `t`, with the same value. */
  lemma SpelledKey(m: map<int, Json>, t: int)
    ensures ShowInt(t) in KeyBySpelling(m) <==> t in m
    ensures t in m ==> KeyBySpelling(m)[ShowInt(t)] == m[t]
  {
    ParseShowRoundTrip(t);
    if ShowInt(t) in KeyBySpelling(m) {
      var u := SpelledKeyOrigin(m, ShowInt(t));
      ParseShowRoundTrip(u);
    }
  }

  /** Every key of the re-keyed map reads back, with `int()`, to the timestamp it spells. */
  lemma SpelledKeysParse(m: map<int, Json>, k: string)
    requires k in KeyBySpelling(m)
    ensures ParseInt(k).Some? && ParseInt(k).value in m && ShowInt(ParseInt(k).value) == k
  {
    var t := SpelledKeyOrigin(m, k);
    ParseShowRoundTrip(t);
  }

  /** Adding an entry for `t` adds the spelling of `t`. */
  lemma SpelledKeysUpdate(m: map<int, Json>, t: int, v: Json)
    ensures SpelledKeys(m[t := v]) == SpelledKeys(m) + {ShowInt(t)}
  {
  }

  /** The re-keyed map after adding an entry for `t`, at one of its keys. */
  lemma KeyBySpellingUpdateAt(m: map<int, Json>, t: int, v: Json, k: string)
    requires k in KeyBySpelling(m[t := v])
    ensures k in KeyBySpelling(m)[ShowInt(t) := v]
    ensures KeyBySpelling(m[t := v])[k] == KeyBySpelling(m)[ShowInt(t) := v][k]
  {
    SpelledKeysParse(m[t := v], k);
    if k == ShowInt(t) {
      ParseShowRoundTrip(t);
    } else {
      SpelledKeysUpdate(m, t, v);
      SpelledKeysParse(m, k);
    }
  }

  /** Re-keying commutes with adding one entry. */
  lemma KeyBySpellingUpdate(m: map<int, Json>, t: int, v: Json)
    ensures KeyBySpelling(m[t := v]) == KeyBySpelling(m)[ShowInt(t) := v]
  {
    var l, r := KeyBySpelling(m[t := v]), KeyBySpelling(m)[ShowInt(t) := v];
    SpelledKeysUpdate(m, t, v);
    forall k | k in l ensures k in r && l[k] == r[k] {
      KeyBySpellingUpdateAt(m, t, v, k);
    }
  }

  /** Lines 172-177: the contents of `list.json`, keyed by `str(ts)`. */
  function ListDocument(st: IndexState): map<string, Json>
    requires Shaped(st) && st.epochs != map[]
  {
    KeyBySpelling(CurrentByTimestamp(st))
  }

  /** What the loop of lines 172-177 needs of the greatest epoch, and what it then builds. */
  lemma ListDocumentBuilt(st: IndexState)
    requires Shaped(st) && st.epochs != map[]
    ensures var ss := st.epochs[CurrentEpoch(st)];
      && Listed(ss.order, ss)
      && Covered(ss, st.manifests)
      && ListDocument(st) == KeyBySpelling(ByTimestamp(ss.order, ss, st.manifests))
  {
    ShapedCovers(st, CurrentEpoch(st));
  }

  /** Lines 167-184: the three jobs queued after the walk when some epoch exists. */
  function PublishJobs(st: IndexState, indexerCache: string): seq<Item>
    requires Shaped(st) && st.epochs != map[]
  {
    IndexJobs(PublishedTimestamps(st), ListDocument(st), indexerCache)
  }


  // ---------------------------------------------------------------------
  // What the documents say

  /** Each `list.json` value comes from some scope of the dictionary that holds its timestamp. */
  lemma {:induction false} ByTimestampSource(order: seq<string>, ss: ScopeSets, manifests: map<string, map<int, Json>>, t: int)
    returns (i: nat)
    requires Listed(order, ss)
    requires Covered(ss, manifests)
    requires t in ByTimestamp(order, ss, manifests)
    ensures i < |order| && t in ss.sets[order[i]]
    ensures ByTimestamp(order, ss, manifests)[t] == manifests[order[i]][t]
  {
    var prefix := order[..|order| - 1];
    var last := order[|order| - 1];
    var added := ScopeEntries(manifests, last, ss.sets[last]);
    assert ByTimestamp(order, ss, manifests) == ByTimestamp(prefix, ss, manifests) + added;
    if t in added {
      i := |order| - 1;
    } else {
      i := ByTimestampSource(prefix, ss, manifests, t);
      assert prefix[i] == order[i];
    }
  }

  /** The timestamps of the published epoch are those of its scopes, every scope being in the order. */
  lemma CurrentTimestamps(st: IndexState, t: int)
    requires Shaped(st) && st.epochs != map[]
    ensures var ss := st.epochs[CurrentEpoch(st)];
      t in UnionOf(ss.order, ss) <==> exists s :: Indexed(st, CurrentEpoch(st), s, t)
  {
    var ss := st.epochs[CurrentEpoch(st)];
    UnionMember(ss.order, ss, t);
    if t in UnionOf(ss.order, ss) {
      var i :| 0 <= i < |ss.order| && t in ss.sets[ss.order[i]];
      assert Indexed(st, CurrentEpoch(st), ss.order[i], t);
    }
    if exists s :: Indexed(st, CurrentEpoch(st), s, t) {
      var s :| Indexed(st, CurrentEpoch(st), s, t);
      assert s in ss.order;
      var i :| 0 <= i < |ss.order| && ss.order[i] == s;
      assert t in ss.sets[ss.order[i]];
    }
  }

  /**
   * Epoch selection: a timestamp is filed under the published epoch
   * exactly when some recorded manifest for it states that epoch, and no
   * recorded manifest states a later one.
   */
  lemma EpochSelection(st: IndexState, fmt: Formats)
    requires Consistent(st, fmt) && st.epochs != map[]
    ensures forall s, t :: Seen(st, s, t) ==> ReadFields(st.manifests[s][t], fmt).epoch <= CurrentEpoch(st)
    ensures forall s, t :: Indexed(st, CurrentEpoch(st), s, t) <==>
      Seen(st, s, t) && ReadFields(st.manifests[s][t], fmt).epoch == CurrentEpoch(st)
  {
    forall s, t | Seen(st, s, t) ensures ReadFields(st.manifests[s][t], fmt).epoch <= CurrentEpoch(st) {
      assert Indexed(st, ReadFields(st.manifests[s][t], fmt).epoch, s, t);
    }
  }

  /** `timestamps.json` spells each timestamp of the published epoch, in ascending numeric order (so "9" before "10"). */
  lemma TimestampsAscending(st: IndexState)
    requires Shaped(st) && st.epochs != map[]
    ensures var ps := PublishedTimestamps(st);
      && (forall i :: 0 <= i < |ps| ==> ParseInt(ps[i]).Some?)
      && (forall i, j :: 0 <= i < j < |ps| ==> ParseInt(ps[i]).value < ParseInt(ps[j]).value)
  {
    var ss := st.epochs[CurrentEpoch(st)];
    var sorted := SortedSeq(UnionOf(ss.order, ss));
    var ps := PublishedTimestamps(st);
    forall i | 0 <= i < |ps| ensures ParseInt(ps[i]) == Some(sorted[i]) {
      ParseShowRoundTrip(sorted[i]);
    }
  }

  /** The spelled, sorted set holds `str(t)` exactly when the set holds `t`. */
  lemma SpelledMember(u: set<int>, t: int)
    ensures ShowInt(t) in Spell(SortedSeq(u)) <==> t in u
  {
    var sorted := SortedSeq(u);
    var ps := Spell(sorted);
    if ShowInt(t) in ps {
      var i :| 0 <= i < |ps| && ps[i] == ShowInt(t);
      ParseShowRoundTrip(t);
      ParseShowRoundTrip(sorted[i]);
      assert sorted[i] == t;
    }
    if t in u {
      var i :| 0 <= i < |sorted| && sorted[i] == t;
      assert ps[i] == ShowInt(t);
    }
  }

  /** `timestamps.json` holds `str(t)` exactly when `t` is filed under the published epoch. */
  lemma TimestampsExact(st: IndexState, t: int)
    requires Shaped(st) && st.epochs != map[]
    ensures ShowInt(t) in PublishedTimestamps(st) <==> exists s :: Indexed(st, CurrentEpoch(st), s, t)
  {
    var ss := st.epochs[CurrentEpoch(st)];
    CurrentTimestamps(st, t);
    SpelledMember(UnionOf(ss.order, ss), t);
  }

  /** Each timestamp of the published epoch maps to the manifest of a scope that files it there. */
  lemma CurrentSource(st: IndexState, t: int) returns (s: string)
    requires Shaped(st) && st.epochs != map[]
    requires t in CurrentByTimestamp(st)
    ensures Indexed(st, CurrentEpoch(st), s, t) && Seen(st, s, t)
    ensures CurrentByTimestamp(st)[t] == st.manifests[s][t]
  {
    var e := CurrentEpoch(st);
    var ss := st.epochs[e];
    ShapedCovers(st, e);
    var byTs := ByTimestamp(ss.order, ss, st.manifests);
    assert CurrentByTimestamp(st) == byTs;
    var i := ByTimestampSource(ss.order, ss, st.manifests, t);
    s := ss.order[i];
    assert s in ss.sets && t in ss.sets[s];
    assert Indexed(st, e, s, t);
  }

  /** Each `list.json` value is the manifest of some scope that files its timestamp under the published epoch. */
  lemma ListSource(st: IndexState, t: int) returns (s: string)
    requires Shaped(st) && st.epochs != map[]
    requires ShowInt(t) in ListDocument(st)
    ensures Indexed(st, CurrentEpoch(st), s, t) && Seen(st, s, t)
    ensures ListDocument(st)[ShowInt(t)] == st.manifests[s][t]
  {
    SpelledKey(CurrentByTimestamp(st), t);
    s := CurrentSource(st, t);
  }

  /** Each `list.json` value is a recorded manifest for its timestamp that states the published epoch. */
  lemma ListValue(st: IndexState, fmt: Formats, t: int)
    requires Consistent(st, fmt) && st.epochs != map[]
    requires ShowInt(t) in ListDocument(st)
    ensures exists s :: (Seen(st, s, t) && ListDocument(st)[ShowInt(t)] == st.manifests[s][t]
      && Describes(ListDocument(st)[ShowInt(t)], fmt, s, t, CurrentEpoch(st)))
  {
    ConsistentIsShaped(st, fmt);
    var s := ListSource(st, t);
    assert Seen(st, s, t) && Describes(st.manifests[s][t], fmt, s, t, CurrentEpoch(st));
  }

  /** Where one scope alone holds a timestamp of the published epoch, `list.json` carries that scope's manifest. */
  lemma ListSingleScope(st: IndexState, s: string, t: int)
    requires Shaped(st) && st.epochs != map[]
    requires Indexed(st, CurrentEpoch(st), s, t)
    requires forall s2 :: Indexed(st, CurrentEpoch(st), s2, t) ==> s2 == s
    ensures ShowInt(t) in ListDocument(st) && ListDocument(st)[ShowInt(t)] == st.manifests[s][t]
  {
    var e := CurrentEpoch(st);
    var ss := st.epochs[e];
    ShapedCovers(st, e);
    assert s in ss.order;
    var i :| 0 <= i < |ss.order| && ss.order[i] == s;
    forall j | i < j < |ss.order| ensures t !in ss.sets[ss.order[j]] {
      if t in ss.sets[ss.order[j]] {
        assert Indexed(st, e, ss.order[j], t);
      }
    }
    LastScopeWins(ss.order, ss, st.manifests, i, t);
    SpelledKey(CurrentByTimestamp(st), t);
  }

  /**
   * `list.json` has a key `str(t)` exactly for the timestamps that
   * `timestamps.json` lists, and each value states the published epoch.
   */
  lemma ListMatchesTimestamps(st: IndexState, fmt: Formats)
    requires Consistent(st, fmt) && st.epochs != map[]
    ensures forall t :: ShowInt(t) in ListDocument(st) <==> ShowInt(t) in PublishedTimestamps(st)
    ensures forall k :: k in ListDocument(st) ==>
      ReadFields(ListDocument(st)[k], fmt).Read? && ReadFields(ListDocument(st)[k], fmt).epoch == CurrentEpoch(st)
  {
    ConsistentIsShaped(st, fmt);
    forall t ensures ShowInt(t) in ListDocument(st) <==> ShowInt(t) in PublishedTimestamps(st) {
      SpelledKey(CurrentByTimestamp(st), t);
      TimestampsExact(st, t);
      CurrentTimestamps(st, t);
    }
    forall k | k in ListDocument(st)
      ensures ReadFields(ListDocument(st)[k], fmt).Read? && ReadFields(ListDocument(st)[k], fmt).epoch == CurrentEpoch(st)
    {
      SpelledKeysParse(CurrentByTimestamp(st), k);
      var t := ParseInt(k).value;
      ListValue(st, fmt, t);
    }
  }
}
