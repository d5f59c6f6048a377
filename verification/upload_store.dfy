/**
 The session upload store `st.session_state.uploads`: a map from storage key to
 the name and size of the uploaded file. It is created empty when the session
 has none (artist_dashboard_1.py:111-112), written by insert-or-overwrite
 (artist_dashboard_1.py:221-225) and emptied by the Reset button
 (artist_dashboard_1.py:297). Its size is the upload count (artist_dashboard_1.py:271).
 */
module UploadStore {
  import opened Options
  import opened Vocabulary
  import opened Versions
  import opened SlotKeys

  /** What the store keeps about one uploaded file; the payload itself is opaque and left out. */
  datatype UploadRecord = UploadRecord(name: string, size: nat)

  type Store = map<string, UploadRecord>

  /** The store at the start of a script run: the session's store if it has one, else a new empty one. */
  function InitUploads(session: Option<Store>): (r: Store)
    ensures session.Some? ==> r == session.value
    ensures session.None? ==> |r| == 0
  {
    match session
    case Some(uploads) => uploads
    case None => map[]
  }

  /** Initialising again on a rerun keeps the store built so far. */
  lemma InitUploadsIdempotent(session: Option<Store>)
    ensures InitUploads(Some(InitUploads(session))) == InitUploads(session)
  {
  }

  /** Insert-or-overwrite of the record at `key`. */
  function Record(store: Store, key: string, rec: UploadRecord): (r: Store)
    ensures r.Keys == store.Keys + {key}
    ensures r[key] == rec
    ensures forall k :: k in store && k != key ==> r[k] == store[k]
    ensures |r| == if key in store then |store| else |store| + 1
  {
    store[key := rec]
  }

  /** A second upload to the same key discards the first one entirely. */
  lemma RecordOverwrites(store: Store, key: string, first: UploadRecord, second: UploadRecord)
    ensures Record(Record(store, key, first), key, second) == Record(store, key, second)
  {
  }

  /** The Reset button replaces the store by an empty one. */
  function Reset(store: Store): (r: Store)
    ensures forall k :: k !in r
  {
    map[]
  }

  lemma ResetIdempotent(store: Store)
    ensures Reset(Reset(store)) == Reset(store)
    ensures |Reset(store)| == 0
  {
  }

  /** Every key of the store is a storage key the page can build. */
  predicate WellFormed(store: Store) {
    forall k :: k in store ==> ParseStorageKey(k).Some?
  }

  /** The storage keys of feature `f` with label `l`, one per section of `ss`. */
  function KeysForLabel(f: Feature, l: string, ss: seq<Section>): (r: seq<string>)
    ensures |r| == |ss|
  {
    seq(|ss|, i requires 0 <= i < |ss| => StorageKey(f, l, ss[i]))
  }

  /** The storage keys of feature `f`, for every label of `ls` and section of `ss`. */
  function KeysForFeature(f: Feature, ls: seq<string>, ss: seq<Section>): (r: seq<string>)
    ensures |r| == |ls| * |ss|
  {
    if |ls| == 0 then []
    else
      assert |ls| * |ss| == |ss| + (|ls| - 1) * |ss|;
      KeysForLabel(f, ls[0], ss) + KeysForFeature(f, ls[1..], ss)
  }

  /** The storage keys for every feature of `fs`, label of `ls` and section of `ss`. */
  function StorageKeysFor(fs: seq<Feature>, ls: seq<string>, ss: seq<Section>): (r: seq<string>)
    ensures |r| == |fs| * (|ls| * |ss|)
  {
    if |fs| == 0 then []
    else
      assert |fs| * (|ls| * |ss|) == |ls| * |ss| + (|fs| - 1) * (|ls| * |ss|);
      KeysForFeature(fs[0], ls, ss) + StorageKeysFor(fs[1..], ls, ss)
  }

  lemma {:induction false} StorageKeysForComplete(fs: seq<Feature>, ls: seq<string>, ss: seq<Section>, f: Feature, l: string, s: Section)
    requires f in fs && l in ls && s in ss
    ensures StorageKey(f, l, s) in StorageKeysFor(fs, ls, ss)
    decreases |fs| + |ls|
  {
    if fs[0] != f {
      StorageKeysForComplete(fs[1..], ls, ss, f, l, s);
    } else if ls[0] != l {
      StorageKeysForComplete([f], ls[1..], ss, f, l, s);
      assert StorageKeysFor([f], ls[1..], ss) == KeysForFeature(f, ls[1..], ss) + [];
    } else {
      var i :| 0 <= i < |ss| && ss[i] == s;
      assert KeysForLabel(f, l, ss)[i] == StorageKey(f, l, s);
    }
  }

  /** All storage keys the page can build: 5 features x 6 labels x 8 sections. */
  function AllStorageKeys(): (r: seq<string>)
    ensures |r| == 240
  {
    StorageKeysFor(AllFeatures, AllLabels, AllSections)
  }

  /** A sequence has no more distinct elements than entries. */
  lemma {:induction false} DistinctElementsBound<T>(s: seq<T>)
    ensures |set x | x in s| <= |s|
  {
    if |s| > 0 {
      var init := s[..|s| - 1];
      DistinctElementsBound(init);
      assert (set x | x in s) == (set x | x in init) + {s[|s| - 1]} by {
        assert s == init + [s[|s| - 1]];
      }
    }
  }

  /** Every storage key the page can build is one of the 240 listed keys. */
  lemma StorageKeyListed(f: Feature, l: string, s: Section)
    requires l in AllLabels
    ensures StorageKey(f, l, s) in AllStorageKeys()
  {
    EveryFeatureListed(f);
    EverySectionListed(s);
    StorageKeysForComplete(AllFeatures, AllLabels, AllSections, f, l, s);
  }

  lemma SubsetBound<T>(a: set<T>, b: set<T>)
    requires a <= b
    ensures |a| <= |b|
  {
    assert b == a + (b - a);
  }

  /** Count bound: a well-formed store holds at most 240 uploads. */
  lemma CountBound(store: Store)
    requires WellFormed(store)
    ensures |store| <= 240
  {
    var all := AllStorageKeys();
    forall k | k in store.Keys
      ensures k in all
    {
      var slot := ParseStorageKey(k).value;
      StorageKeyListed(slot.feature, slot.versionLabel, slot.section);
    }
    var listed := set x | x in all;
    assert store.Keys <= listed;
    SubsetBound(store.Keys, listed);
    DistinctElementsBound(all);
  }

  lemma RecordKeepsWellFormed(store: Store, f: Feature, versionLabel: string, s: Section, rec: UploadRecord)
    requires WellFormed(store) && versionLabel in AllLabels
    ensures WellFormed(Record(store, StorageKey(f, versionLabel, s), rec))
  {
    StorageKeyRoundTrip(f, versionLabel, s);
  }
}
