/**
 One render pass of the feature upload area (artist_dashboard_1.py:182-229).
 For every feature in order, every version in order and every section position
 in order, the page shows one file uploader. When that uploader holds a file, the
 file's name and size are written under the uploader's storage key.

 The files the uploaders hold are a parameter: a map from widget key to the
 uploaded file's record. Uploaders whose key is absent hold no file.
 */
module RenderPass {
  import opened Options
  import opened Vocabulary
  import opened Versions
  import opened SlotKeys
  import opened UploadStore

  const MinSections: nat := 1
  const MaxSections: nat := 10

  /** The form values the pass reads: the section list and each feature's version count. */
  datatype Form = Form(sections: seq<Section>, versions: map<Feature, nat>)

  /** The bounds the page's number inputs enforce (artist_dashboard_1.py:158, 188-194). */
  predicate ValidForm(form: Form) {
    && MinSections <= |form.sections| <= MaxSections
    && forall f: Feature :: f in form.versions && ValidCount(form.versions[f])
  }

  function VersionCount(form: Form, f: Feature): (n: nat)
    requires ValidForm(form)
    ensures ValidCount(n)
  {
    form.versions[f]
  }

  /** One uploader position: feature, version index and label, section name and section index. */
  datatype Slot = Slot(feature: Feature, version: nat, versionLabel: string, section: Section, index: nat)

  function WidgetKeyOf(slot: Slot): string {
    WidgetKey(slot.feature, slot.versionLabel, slot.section, slot.index)
  }

  function StorageKeyOf(slot: Slot): string {
    StorageKey(slot.feature, slot.versionLabel, slot.section)
  }

  /** The slot is an uploader the page renders for this form. */
  predicate InForm(form: Form, slot: Slot)
    requires ValidForm(form)
  {
    && slot.version < VersionCount(form, slot.feature)
    && slot.versionLabel == VersionLabel(VersionCount(form, slot.feature), slot.version)
    && slot.index < |form.sections|
    && slot.section == form.sections[slot.index]
  }

  /** Iteration order of the page: by feature, then version, then section position. */
  predicate Before(a: Slot, b: Slot) {
    || FeatureIndex(a.feature) < FeatureIndex(b.feature)
    || (a.feature == b.feature && a.version < b.version)
    || (a.feature == b.feature && a.version == b.version && a.index < b.index)
  }

  predicate Ordered(slots: seq<Slot>) {
    forall p, q :: 0 <= p < q < |slots| ==> Before(slots[p], slots[q])
  }

  /** The uploaders of version `v` of feature `f`, one per section position. */
  function SectionSlots(form: Form, f: Feature, v: nat): (r: seq<Slot>)
    requires ValidForm(form) && v < VersionCount(form, f)
    ensures |r| == |form.sections|
    ensures forall i :: 0 <= i < |r| ==>
      r[i] == Slot(f, v, VersionLabel(VersionCount(form, f), v), form.sections[i], i)
  {
    var n := VersionCount(form, f);
    seq(|form.sections|, i requires 0 <= i < |form.sections| => Slot(f, v, VersionLabel(n, v), form.sections[i], i))
  }

  /** The uploaders of the first `m` versions of feature `f`. */
  function VersionSlots(form: Form, f: Feature, m: nat): seq<Slot>
    requires ValidForm(form) && m <= VersionCount(form, f)
  {
    if m == 0 then []
    else VersionSlots(form, f, m - 1) + SectionSlots(form, f, m - 1)
  }

  /** The uploaders of the features from position `k` of the rendering order on. */
  function FeatureSlots(form: Form, k: nat): seq<Slot>
    requires ValidForm(form) && k <= |AllFeatures|
    decreases |AllFeatures| - k
  {
    if k == |AllFeatures| then []
    else
      var f := AllFeatures[k];
      VersionSlots(form, f, VersionCount(form, f)) + FeatureSlots(form, k + 1)
  }

  /** Every uploader of the page, in rendering order. */
  function Slots(form: Form): seq<Slot>
    requires ValidForm(form)
  {
    FeatureSlots(form, 0)
  }

  /** Two ordered runs of uploaders, the first wholly before the second, make an ordered run. */
  lemma OrderedAppend(a: seq<Slot>, b: seq<Slot>)
    requires Ordered(a) && Ordered(b)
    requires forall p, q :: 0 <= p < |a| && 0 <= q < |b| ==> Before(a[p], b[q])
    ensures Ordered(a + b)
  {
    var c := a + b;
    forall p, q | 0 <= p < q < |c|
      ensures Before(c[p], c[q])
    {
      if q < |a| {
        assert c[p] == a[p] && c[q] == a[q];
      } else if p < |a| {
        assert c[p] == a[p] && c[q] == b[q - |a|];
      } else {
        assert c[p] == b[p - |a|] && c[q] == b[q - |a|];
      }
    }
  }

  /** The uploaders of feature `f` are rendered uploaders of `f`, by version then section position. */
  lemma {:induction false} VersionSlotsShape(form: Form, f: Feature, m: nat)
    requires ValidForm(form) && m <= VersionCount(form, f)
    ensures forall p :: 0 <= p < |VersionSlots(form, f, m)| ==>
      var a := VersionSlots(form, f, m)[p];
      a.feature == f && a.version < m && InForm(form, a)
    ensures Ordered(VersionSlots(form, f, m))
  {
    if m > 0 {
      var prefix := VersionSlots(form, f, m - 1);
      var block := SectionSlots(form, f, m - 1);
      var all := VersionSlots(form, f, m);
      assert all == prefix + block;
      VersionSlotsShape(form, f, m - 1);
      forall p | 0 <= p < |all|
        ensures all[p].feature == f && all[p].version < m && InForm(form, all[p])
      {
        if p >= |prefix| {
          assert all[p] == block[p - |prefix|];
        }
      }
      OrderedAppend(prefix, block);
    }
  }

  /** The uploaders from feature position `k` on are rendered uploaders, in rendering order. */
  lemma {:induction false} FeatureSlotsShape(form: Form, k: nat)
    requires ValidForm(form) && k <= |AllFeatures|
    ensures forall p :: 0 <= p < |FeatureSlots(form, k)| ==>
      k <= FeatureIndex(FeatureSlots(form, k)[p].feature) && InForm(form, FeatureSlots(form, k)[p])
    ensures Ordered(FeatureSlots(form, k))
    decreases |AllFeatures| - k
  {
    if k < |AllFeatures| {
      var f := AllFeatures[k];
      var here := VersionSlots(form, f, VersionCount(form, f));
      var rest := FeatureSlots(form, k + 1);
      var all := FeatureSlots(form, k);
      assert all == here + rest;
      FeatureIndexListed(k);
      VersionSlotsShape(form, f, VersionCount(form, f));
      FeatureSlotsShape(form, k + 1);
      forall p | 0 <= p < |all|
        ensures k <= FeatureIndex(all[p].feature) && InForm(form, all[p])
      {
        if p >= |here| {
          assert all[p] == rest[p - |here|];
        }
      }
      OrderedAppend(here, rest);
    }
  }

  /** The pass visits only uploaders the form renders, by feature, then version, then section position. */
  lemma SlotsShape(form: Form)
    requires ValidForm(form)
    ensures forall p :: 0 <= p < |Slots(form)| ==> InForm(form, Slots(form)[p])
    ensures Ordered(Slots(form))
  {
    FeatureSlotsShape(form, 0);
  }

  lemma {:induction false} VersionSlotsPosition(form: Form, m: nat, a: Slot) returns (p: nat)
    requires ValidForm(form) && InForm(form, a) && a.version < m <= VersionCount(form, a.feature)
    ensures p < |VersionSlots(form, a.feature, m)| && VersionSlots(form, a.feature, m)[p] == a
  {
    var prefix := VersionSlots(form, a.feature, m - 1);
    var block := SectionSlots(form, a.feature, m - 1);
    assert VersionSlots(form, a.feature, m) == prefix + block;
    if a.version < m - 1 {
      p := VersionSlotsPosition(form, m - 1, a);
    } else {
      p := |prefix| + a.index;
    }
  }

  lemma {:induction false} FeatureSlotsPosition(form: Form, k: nat, a: Slot) returns (p: nat)
    requires ValidForm(form) && InForm(form, a) && k <= FeatureIndex(a.feature)
    ensures p < |FeatureSlots(form, k)| && FeatureSlots(form, k)[p] == a
    decreases |AllFeatures| - k
  {
    var here := VersionSlots(form, AllFeatures[k], VersionCount(form, AllFeatures[k]));
    var rest := FeatureSlots(form, k + 1);
    assert FeatureSlots(form, k) == here + rest;
    if FeatureIndex(a.feature) == k {
      p := VersionSlotsPosition(form, VersionCount(form, a.feature), a);
    } else {
      var q := FeatureSlotsPosition(form, k + 1, a);
      p := |here| + q;
    }
  }

  /** The position in the pass of the uploader of version `v` of `f` at section position `i`. */
  lemma SlotPosition(form: Form, f: Feature, v: nat, i: nat) returns (p: nat)
    requires ValidForm(form) && v < VersionCount(form, f) && i < |form.sections|
    ensures p < |Slots(form)|
    ensures Slots(form)[p] == Slot(f, v, VersionLabel(VersionCount(form, f), v), form.sections[i], i)
  {
    p := FeatureSlotsPosition(form, 0, Slot(f, v, VersionLabel(VersionCount(form, f), v), form.sections[i], i));
  }

  /** Every (feature, version, section position) of the form has an uploader in the pass. */
  lemma SlotsComplete(form: Form, f: Feature, v: nat, i: nat)
    requires ValidForm(form) && v < VersionCount(form, f) && i < |form.sections|
    ensures exists p :: (0 <= p < |Slots(form)| &&
      Slots(form)[p] == Slot(f, v, VersionLabel(VersionCount(form, f), v), form.sections[i], i))
  {
    var p := SlotPosition(form, f, v, i);
  }

  /** What one uploader contributes to a pass: its storage key and the file it holds, if any. */
  datatype Write = Write(key: string, file: Option<UploadRecord>)

  /** The uploader at `slot` reads its file from the widget state under its own widget key. */
  function UploaderWrite(slot: Slot, widgets: map<string, UploadRecord>): (w: Write)
    ensures w.key == StorageKeyOf(slot)
    ensures w.file.Some? <==> WidgetKeyOf(slot) in widgets
    ensures w.file.Some? ==> w.file.value == widgets[WidgetKeyOf(slot)]
  {
    var wk := WidgetKeyOf(slot);
    Write(StorageKeyOf(slot), if wk in widgets then Some(widgets[wk]) else None)
  }

  function Uploads(slots: seq<Slot>, widgets: map<string, UploadRecord>): (r: seq<Write>)
    ensures |r| == |slots|
    ensures forall p :: 0 <= p < |slots| ==> r[p] == UploaderWrite(slots[p], widgets)
  {
    seq(|slots|, p requires 0 <= p < |slots| => UploaderWrite(slots[p], widgets))
  }

  /** The storage keys a sequence of uploaders writes to: those of the uploaders holding a file. */
  function WrittenKeys(writes: seq<Write>): set<string> {
    set p | 0 <= p < |writes| && writes[p].file.Some? :: writes[p].key
  }

  lemma WrittenKeysOfPrefix(writes: seq<Write>)
    requires |writes| > 0
    ensures WrittenKeys(writes) == WrittenKeys(writes[..|writes| - 1]) + StepKeys(writes[|writes| - 1])
  {
    var init := writes[..|writes| - 1];
    forall p | 0 <= p < |init|
      ensures init[p] == writes[p]
    {
    }
  }

  /** The storage keys one uploader writes to: its own, when it holds a file. */
  function StepKeys(w: Write): set<string> {
    if w.file.Some? then {w.key} else {}
  }

  /** One uploader (artist_dashboard_1.py:218-225): a held file is recorded under the storage key. */
  function Step(store: Store, w: Write): (r: Store)
    ensures r.Keys == store.Keys + StepKeys(w)
    ensures forall k :: k in store && k !in StepKeys(w) ==> r[k] == store[k]
    ensures w.file.Some? ==> r[w.key] == w.file.value
  {
    match w.file
    case Some(rec) => Record(store, w.key, rec)
    case None => store
  }

  /**
   The uploaders applied in order (a left fold, written as recursion on the
   prefix). It never deletes: the keys afterwards are the keys before plus the
   keys written, and entries nobody writes keep their record.
   */
  function Apply(store: Store, writes: seq<Write>): (r: Store)
    ensures r.Keys == store.Keys + WrittenKeys(writes)
    ensures forall k :: k in store && k !in WrittenKeys(writes) ==> r[k] == store[k]
    decreases |writes|
  {
    if |writes| == 0 then store
    else
      var init := writes[..|writes| - 1];
      var last := writes[|writes| - 1];
      WrittenKeysOfPrefix(writes);
      assert WrittenKeys(writes) == WrittenKeys(init) + StepKeys(last);
      Step(Apply(store, init), last)
  }

  /**
   Last writer wins: the record at an uploader's storage key is that uploader's
   file when no later uploader holding a file has the same storage key.
   */
  lemma {:induction false} LastWriterWins(store: Store, writes: seq<Write>, p: nat)
    requires p < |writes| && writes[p].file.Some?
    requires forall q :: p < q < |writes| && writes[q].file.Some? ==> writes[q].key != writes[p].key
    ensures writes[p].key in Apply(store, writes)
    ensures Apply(store, writes)[writes[p].key] == writes[p].file.value
    decreases |writes|
  {
    var init := writes[..|writes| - 1];
    if p < |writes| - 1 {
      assert init[p] == writes[p];
      forall q | p < q < |init| && init[q].file.Some?
        ensures init[q].key != init[p].key
      {
        assert init[q] == writes[q];
      }
      LastWriterWins(store, init, p);
      assert writes[p].key !in StepKeys(writes[|writes| - 1]);
    }
  }

  /** A pass in which no uploader holds a file leaves the store as it was. */
  lemma NoFilesNoChange(store: Store, writes: seq<Write>)
    requires forall p :: 0 <= p < |writes| ==> writes[p].file.None?
    ensures Apply(store, writes) == store
  {
    assert WrittenKeys(writes) == {};
  }

  /** The pass over the uploaders at `slots`. */
  function RenderSlots(store: Store, slots: seq<Slot>, widgets: map<string, UploadRecord>): Store {
    Apply(store, Uploads(slots, widgets))
  }

  /** Only the files at the pass's own widget keys matter; other widgets' files cannot change the result. */
  lemma RenderSlotsReadsOwnWidgets(store: Store, slots: seq<Slot>, w1: map<string, UploadRecord>, w2: map<string, UploadRecord>)
    requires forall p :: 0 <= p < |slots| ==>
      (WidgetKeyOf(slots[p]) in w1 <==> WidgetKeyOf(slots[p]) in w2) &&
      (WidgetKeyOf(slots[p]) in w1 ==> w1[WidgetKeyOf(slots[p])] == w2[WidgetKeyOf(slots[p])])
    ensures RenderSlots(store, slots, w1) == RenderSlots(store, slots, w2)
  {
    assert Uploads(slots, w1) == Uploads(slots, w2);
  }

  /** A pass over the page's uploaders keeps every key a storage key. */
  lemma RenderSlotsKeepsWellFormed(form: Form, store: Store, slots: seq<Slot>, widgets: map<string, UploadRecord>)
    requires ValidForm(form)
    requires forall p :: 0 <= p < |slots| ==> InForm(form, slots[p])
    ensures WellFormed(store) ==> WellFormed(RenderSlots(store, slots, widgets))
  {
    var writes := Uploads(slots, widgets);
    forall k | k in WrittenKeys(writes)
      ensures ParseStorageKey(k).Some?
    {
      var p :| 0 <= p < |writes| && writes[p].file.Some? && writes[p].key == k;
      StorageKeyRoundTrip(slots[p].feature, slots[p].versionLabel, slots[p].section);
    }
  }

  /** The feature upload area of one script run. */
  function RenderFeatures(store: Store, form: Form, widgets: map<string, UploadRecord>): (r: Store)
    requires ValidForm(form)
    ensures r.Keys == store.Keys + WrittenKeys(Uploads(Slots(form), widgets))
    ensures WellFormed(store) ==> WellFormed(r)
  {
    SlotsShape(form);
    RenderSlotsKeepsWellFormed(form, store, Slots(form), widgets);
    RenderSlots(store, Slots(form), widgets)
  }

  /** Distinct uploader positions of one pass never share a widget key. */
  lemma UploaderWidgetKeysDistinct(form: Form, p: nat, q: nat)
    requires ValidForm(form) && p < q < |Slots(form)|
    ensures WidgetKeyOf(Slots(form)[p]) != WidgetKeyOf(Slots(form)[q])
  {
    var a, b := Slots(form)[p], Slots(form)[q];
    SlotsShape(form);
    assert Before(a, b) && InForm(form, a) && InForm(form, b);
    WidgetKeyInjective(a.feature, a.versionLabel, a.section, a.index, b.feature, b.versionLabel, b.section, b.index);
    if a.feature == b.feature {
      VersionLabelsDistinct(VersionCount(form, a.feature), a.version, b.version);
    }
  }

  /**
   When only the uploader at position `p` holds a file, a pass over an empty
   store yields exactly that file under its storage key.
   */
  lemma ApplySingleWrite(writes: seq<Write>, p: nat)
    requires p < |writes| && writes[p].file.Some?
    requires forall q :: 0 <= q < |writes| && q != p ==> writes[q].file.None?
    ensures Apply(map[], writes) == map[writes[p].key := writes[p].file.value]
  {
    var key := writes[p].key;
    LastWriterWins(map[], writes, p);
    assert WrittenKeys(writes) == {key} by {
      forall k | k in WrittenKeys(writes)
        ensures k == key
      {
        var q :| 0 <= q < |writes| && writes[q].file.Some? && writes[q].key == k;
        assert q == p;
      }
    }
    SingletonStore(Apply(map[], writes), key, writes[p].file.value);
  }

  lemma SingletonStore(store: Store, key: string, rec: UploadRecord)
    requires store.Keys == {key} && store[key] == rec
    ensures store == map[key := rec]
  {
  }

  /**
   When the uploader at position `p` of the page is the only one holding a file,
   a pass over an empty store yields exactly that file under its storage key.
   */
  lemma OnlyUploader(form: Form, widgets: map<string, UploadRecord>, p: nat)
    requires ValidForm(form) && p < |Slots(form)|
    requires WidgetKeyOf(Slots(form)[p]) in widgets
    requires forall q :: 0 <= q < |Slots(form)| && q != p ==> WidgetKeyOf(Slots(form)[q]) !in widgets
    ensures RenderFeatures(map[], form, widgets) ==
      map[StorageKeyOf(Slots(form)[p]) := widgets[WidgetKeyOf(Slots(form)[p])]]
  {
    var writes := Uploads(Slots(form), widgets);
    ApplySingleWrite(writes, p);
  }

  /**
   Two uploaders of the page share a storage key exactly when they have the
   same feature, the same version and the same section name: the section
   index is not part of the key.
   */
  lemma SharedStorageKey(form: Form, a: Slot, b: Slot)
    requires ValidForm(form) && InForm(form, a) && InForm(form, b)
    ensures StorageKeyOf(a) == StorageKeyOf(b) <==>
      a.feature == b.feature && a.version == b.version && a.section == b.section
  {
    StorageKeyInjective(a.feature, a.versionLabel, a.section, b.feature, b.versionLabel, b.section);
    if a.feature == b.feature {
      VersionLabelsDistinct(VersionCount(form, a.feature), a.version, b.version);
    }
  }

  /**
   The uploader at position `p` of the pass decides the record at its storage
   key when it holds a file and no later uploader of the same feature, version
   and section name does.
   */
  lemma UploaderWins(store: Store, form: Form, widgets: map<string, UploadRecord>, p: nat)
    requires ValidForm(form) && p < |Slots(form)|
    requires WidgetKeyOf(Slots(form)[p]) in widgets
    requires
      var a := Slots(form)[p];
      forall j' :: a.index < j' < |form.sections| && form.sections[j'] == a.section ==>
        WidgetKey(a.feature, a.versionLabel, form.sections[j'], j') !in widgets
    ensures StorageKeyOf(Slots(form)[p]) in RenderFeatures(store, form, widgets)
    ensures
      var a := Slots(form)[p];
      RenderFeatures(store, form, widgets)[StorageKeyOf(a)] == widgets[WidgetKeyOf(a)]
  {
    var slots := Slots(form);
    var writes := Uploads(slots, widgets);
    SlotsShape(form);
    forall q | p < q < |writes| && writes[q].file.Some?
      ensures writes[q].key != writes[p].key
    {
      LaterUploaderOtherKey(form, widgets, slots[p], slots[q]);
    }
    LastWriterWins(store, writes, p);
  }

  /**
   Two positions `i < j` of one feature and version with the same section name
   have distinct widget keys but one storage key; when both uploaders hold a file
   and no later position with that name does, the store keeps the file of `j`.
   */
  lemma RepeatedSectionLaterWins(store: Store, form: Form, widgets: map<string, UploadRecord>, f: Feature, v: nat, i: nat, j: nat)
    requires ValidForm(form) && v < VersionCount(form, f)
    requires i < j < |form.sections| && form.sections[i] == form.sections[j]
    requires
      var l := VersionLabel(VersionCount(form, f), v);
      && WidgetKey(f, l, form.sections[i], i) in widgets
      && WidgetKey(f, l, form.sections[j], j) in widgets
      && forall j' :: j < j' < |form.sections| && form.sections[j'] == form.sections[j] ==>
           WidgetKey(f, l, form.sections[j'], j') !in widgets
    ensures
      var l := VersionLabel(VersionCount(form, f), v);
      WidgetKey(f, l, form.sections[i], i) != WidgetKey(f, l, form.sections[j], j)
    ensures StorageKey(f, VersionLabel(VersionCount(form, f), v), form.sections[i]) in RenderFeatures(store, form, widgets)
    ensures
      var l := VersionLabel(VersionCount(form, f), v);
      RenderFeatures(store, form, widgets)[StorageKey(f, l, form.sections[i])]
        == widgets[WidgetKey(f, l, form.sections[j], j)]
  {
    var l := VersionLabel(VersionCount(form, f), v);
    var s := form.sections[j];
    WidgetKeyInjective(f, l, s, i, f, l, s, j);
    SlotsComplete(form, f, v, j);
    var p :| 0 <= p < |Slots(form)| && Slots(form)[p] == Slot(f, v, l, s, j);
    UploaderWins(store, form, widgets, p);
    assert StorageKeyOf(Slots(form)[p]) == StorageKey(f, l, form.sections[i]);
    assert WidgetKeyOf(Slots(form)[p]) == WidgetKey(f, l, s, j);
  }

  /** The step of UploaderWins for one later uploader. */
  lemma LaterUploaderOtherKey(form: Form, widgets: map<string, UploadRecord>, a: Slot, b: Slot)
    requires ValidForm(form) && InForm(form, a) && InForm(form, b) && Before(a, b)
    requires WidgetKeyOf(b) in widgets
    requires forall j' :: a.index < j' < |form.sections| && form.sections[j'] == a.section ==>
      WidgetKey(a.feature, a.versionLabel, form.sections[j'], j') !in widgets
    ensures StorageKeyOf(b) != StorageKeyOf(a)
  {
    SharedStorageKey(form, a, b);
  }
}
