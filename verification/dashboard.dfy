/**
 One script run of the dashboard, reduced to its effect on the upload store and
 the decisions read from it: initialise the store (artist_dashboard_1.py:111-112),
 render the feature uploaders (artist_dashboard_1.py:182-229), render the
 spatialization and reference uploaders, which store nothing
 (artist_dashboard_1.py:242-266), count the uploads and pick the status badge
 (artist_dashboard_1.py:271-281), then handle the Reset or Publish button
 (artist_dashboard_1.py:295-305).
 */
module Dashboard {
  import opened Options
  import opened Vocabulary
  import opened Versions
  import opened SlotKeys
  import opened UploadStore
  import opened RenderPass

  /** The Upload Summary badge: pending, or complete with the upload count. */
  datatype Badge = Pending | Complete(count: nat)

  /** The button pressed in this run, if any; Save Draft and Preview only show a message. */
  datatype Action = NoAction | ResetPressed | PublishPressed

  /** The message the Publish button shows. */
  datatype Notice = NoNotice | Published | NeedsUpload

  datatype RunResult = RunResult(uploads: Store, total: nat, badge: Badge, notice: Notice, rerun: bool)

  function StatusBadge(total: nat): (b: Badge)
    ensures b.Complete? <==> total > 0
    ensures b.Complete? ==> b.count == total
  {
    if total > 0 then Complete(total) else Pending
  }

  function PublishNotice(total: nat): (n: Notice)
    ensures n != NoNotice
    ensures n == Published <==> total > 0
  {
    if total > 0 then Published else NeedsUpload
  }

  /**
   One run: `session` is the store kept from earlier runs (None on the first),
   `widgets` the files the uploaders hold, keyed by widget key.
   */
  function Run(session: Option<Store>, form: Form, widgets: map<string, UploadRecord>, action: Action): (r: RunResult)
    requires ValidForm(form)
    ensures r.badge.Complete? <==> r.total > 0
    ensures action == PublishPressed ==> (r.notice == Published <==> r.total > 0)
    ensures action != PublishPressed ==> r.notice == NoNotice
    ensures action == ResetPressed ==> |r.uploads| == 0 && r.rerun
    ensures action != ResetPressed ==> InitUploads(session).Keys <= r.uploads.Keys && r.total == |r.uploads|
    ensures (session.None? || WellFormed(session.value)) ==> WellFormed(r.uploads)
  {
    var uploads := RenderFeatures(InitUploads(session), form, widgets);
    var total := |uploads|;
    var badge := StatusBadge(total);
    match action
    case NoAction => RunResult(uploads, total, badge, NoNotice, false)
    case ResetPressed => RunResult(Reset(uploads), total, badge, NoNotice, true)
    case PublishPressed => RunResult(uploads, total, badge, PublishNotice(total), false)
  }

  /** Publishing succeeds exactly when the badge shows complete. */
  lemma PublishAgreesWithBadge(session: Option<Store>, form: Form, widgets: map<string, UploadRecord>)
    requires ValidForm(form)
    ensures
      var r := Run(session, form, widgets, PublishPressed);
      r.notice == Published <==> r.badge.Complete?
  {
  }

  /** Starting from an empty session and staying well formed, the count never exceeds 240. */
  lemma RunCountBound(session: Option<Store>, form: Form, widgets: map<string, UploadRecord>, action: Action)
    requires ValidForm(form)
    requires session.None? || WellFormed(session.value)
    ensures Run(session, form, widgets, action).total <= 240
    ensures |Run(session, form, widgets, action).uploads| <= 240
  {
    var uploads := RenderFeatures(InitUploads(session), form, widgets);
    assert WellFormed(uploads);
    CountBound(uploads);
    CountBound(Run(session, form, widgets, action).uploads);
  }

  /**
   On a new session the count is the number of distinct storage keys of the
   uploaders that hold a file.
   */
  lemma FirstRunCount(form: Form, widgets: map<string, UploadRecord>, action: Action)
    requires ValidForm(form)
    ensures Run(None, form, widgets, action).total == |WrittenKeys(Uploads(Slots(form), widgets))|
  {
    var uploads := RenderFeatures(map[], form, widgets);
    assert Run(None, form, widgets, action).total == |uploads|;
    assert |uploads| == |uploads.Keys|;
  }

  /** On a new session the badge is complete exactly when some feature uploader holds a file. */
  lemma FirstRunBadge(form: Form, widgets: map<string, UploadRecord>, action: Action)
    requires ValidForm(form)
    ensures Run(None, form, widgets, action).badge.Complete? <==>
      exists p :: 0 <= p < |Slots(form)| && WidgetKeyOf(Slots(form)[p]) in widgets
  {
    var writes := Uploads(Slots(form), widgets);
    FirstRunCount(form, widgets, action);
    if exists p :: 0 <= p < |Slots(form)| && WidgetKeyOf(Slots(form)[p]) in widgets {
      var p :| 0 <= p < |Slots(form)| && WidgetKeyOf(Slots(form)[p]) in widgets;
      assert writes[p].key in WrittenKeys(writes);
    } else {
      assert WrittenKeys(writes) == {};
    }
  }

  /** The widget keys of the spatialization and reference uploaders. */
  ghost predicate IsAdditionalFeatureKey(k: string) {
    || k == ReferenceKey
    || (exists s, i :: k == NarrowKey(s, i))
    || (exists s, i :: k == WideKey(s, i))
  }

  /**
   Files held by the spatialization and reference uploaders change nothing:
   not the store, not the count, not the badge, not the publish outcome.
   */
  lemma AdditionalUploadersIgnored(session: Option<Store>, form: Form, widgets: map<string, UploadRecord>, extra: map<string, UploadRecord>, action: Action)
    requires ValidForm(form)
    requires forall k :: k in extra ==> IsAdditionalFeatureKey(k)
    ensures Run(session, form, widgets + extra, action) == Run(session, form, widgets, action)
  {
    var slots := Slots(form);
    SlotsShape(form);
    forall p | 0 <= p < |slots|
      ensures WidgetKeyOf(slots[p]) !in extra
    {
      var slot := slots[p];
      WidgetKeyRoundTrip(slot.feature, slot.versionLabel, slot.section, slot.index);
      if WidgetKeyOf(slot) in extra {
        AdditionalKeyIsNotFeatureKey(WidgetKeyOf(slot));
      }
    }
    RenderSlotsReadsOwnWidgets(InitUploads(session), slots, widgets + extra, widgets);
  }

  lemma AdditionalKeyIsNotFeatureKey(k: string)
    requires IsAdditionalFeatureKey(k)
    ensures !IsFeatureWidgetKey(k)
  {
    if k == ReferenceKey {
      ReferenceKeyIsNotFeatureKey();
    } else if exists s, i :: k == NarrowKey(s, i) {
      var s, i :| k == NarrowKey(s, i);
      NarrowKeyIsNotFeatureKey(s, i);
    } else {
      var s, i :| k == WideKey(s, i);
      WideKeyIsNotFeatureKey(s, i);
    }
  }

  /**
   Reset empties the store, and the rerun it triggers starts from that empty
   store: the next run behaves as on a new session, whatever was stored before.
   */
  lemma ResetThenRerun(session: Option<Store>, form: Form, widgets: map<string, UploadRecord>, next: map<string, UploadRecord>, action: Action)
    requires ValidForm(form)
    ensures
      var r := Run(session, form, widgets, ResetPressed);
      Run(Some(r.uploads), form, next, action) == Run(None, form, next, action)
  {
    var r := Run(session, form, widgets, ResetPressed);
    assert r.uploads == map[];
  }

  /**
   Reset does not clear the uploaders: on the rerun they still hold their
   files, so the files are recorded again into the emptied store.
   */
  lemma ResetThenRerunRecordsHeldFiles(session: Option<Store>, form: Form, widgets: map<string, UploadRecord>, action: Action)
    requires ValidForm(form) && action != ResetPressed
    ensures
      var r := Run(session, form, widgets, ResetPressed);
      Run(Some(r.uploads), form, widgets, action).uploads == RenderFeatures(map[], form, widgets)
  {
    ResetThenRerun(session, form, widgets, widgets, action);
  }

  /** A run in which no feature uploader holds a file leaves a kept store as it was. */
  lemma NoFilesKeepStore(store: Store, form: Form, widgets: map<string, UploadRecord>)
    requires ValidForm(form)
    requires forall p :: 0 <= p < |Slots(form)| ==> WidgetKeyOf(Slots(form)[p]) !in widgets
    ensures Run(Some(store), form, widgets, NoAction).uploads == store
  {
    var writes := Uploads(Slots(form), widgets);
    NoFilesNoChange(store, writes);
  }

  /** When the widget state holds one file, at the uploader of position `p`, no other uploader holds one. */
  lemma OnlyHolder(form: Form, p: nat, rec: UploadRecord)
    requires ValidForm(form) && p < |Slots(form)|
    ensures forall q :: 0 <= q < |Slots(form)| && q != p ==>
      WidgetKeyOf(Slots(form)[q]) !in map[WidgetKeyOf(Slots(form)[p]) := rec]
  {
    forall q | 0 <= q < |Slots(form)| && q != p
      ensures WidgetKeyOf(Slots(form)[q]) != WidgetKeyOf(Slots(form)[p])
    {
      if q < p {
        UploaderWidgetKeysDistinct(form, q, p);
      } else {
        UploaderWidgetKeysDistinct(form, p, q);
      }
    }
  }

  /**
   On a new session, a single file held by the uploader of version `v` of
   feature `f` at section position `i` gives a store with exactly one entry,
   under that uploader's storage key.
   */
  lemma SingleUpload(form: Form, f: Feature, v: nat, i: nat, rec: UploadRecord, action: Action)
    requires ValidForm(form) && v < VersionCount(form, f) && i < |form.sections|
    requires action != ResetPressed
    ensures
      var l := VersionLabel(VersionCount(form, f), v);
      Run(None, form, map[WidgetKey(f, l, form.sections[i], i) := rec], action).uploads
        == map[StorageKey(f, l, form.sections[i]) := rec]
    ensures
      var l := VersionLabel(VersionCount(form, f), v);
      Run(None, form, map[WidgetKey(f, l, form.sections[i], i) := rec], action).total == 1
  {
    var l := VersionLabel(VersionCount(form, f), v);
    var s := form.sections[i];
    var p := SlotPosition(form, f, v, i);
    var slot := Slots(form)[p];
    assert WidgetKeyOf(slot) == WidgetKey(f, l, s, i);
    assert StorageKeyOf(slot) == StorageKey(f, l, s);
    OnlyHolder(form, p, rec);
    OnlyUploader(form, map[WidgetKeyOf(slot) := rec], p);
  }
}
