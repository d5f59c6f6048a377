# FluXTape artist dashboard: upload addressing and session upload store

This Dafny project models the one part of the FluXTape artist dashboard
(`artist_dashboard_1.py`, a Streamlit page) with real behaviour: how uploaded
stems are addressed and kept during a session.

- **Version labels.** Each of the five stem features (vocals, groove, solo,
  instrumental bed, backing vocals) has 1 to 5 versions. A single version is
  labelled "Main". Otherwise version `v` is labelled `chr(65 + v)`, which gives
  "A" to "E".
- **Keys.** Every file uploader gets a widget key
  `{feature_key}_{version_label}_{section}_{s_idx}`. A file it holds is stored
  under the storage key `{feature_key}_{version_label}_{section}`. The storage
  key has no section index, so positions that repeat a section name within one
  feature and version share one storage entry. Keys are modelled as real
  strings, and each key has a decoder that splits at the last `_`. Splitting
  from the right is needed because "backing_vocals" contains `_`. It works
  because the parts to the right of the feature key (labels, section names and
  decimal indices) never contain `_`. The injectivity proofs come from
  `decode(key(x)) == x`.
- **The upload store.** This is a `map<string, UploadRecord>` holding each file's
  name and size. It is created empty only when the session has none. Uploads
  write it by insert-or-overwrite; the page does not check that a file name is
  non-empty. A lookup is plain map indexing. The Reset button empties it.
- **One render pass.** This is a left fold over the uploaders in page order
  (feature, then version, then section position). Only uploaders holding a file
  write. The pass never deletes an entry. When two positions share a section
  name within one feature and version, they share a storage entry, and the later
  position wins.
- **The summary.** The upload count is the size of the store. The status badge is
  complete, and Publish succeeds, exactly when the count is positive. The total
  count is the only summary; there is no per-feature completeness figure. The count
  is at most 240 (5 features × 6 labels × 8 section names). Files held by the
  spatialization and reference uploaders change nothing.

The files the uploaders hold (Streamlit widget state) are a parameter: a map from
widget key to the file's record.

Modules and files: `Options` and `Text` (text.dfy: split at the last separator,
decimal rendering of a number); `Vocabulary` (vocabulary.dfy); `Versions`
(versions.dfy); `SlotKeys` (slot_keys.dfy); `UploadStore` (upload_store.dfy);
`RenderPass` (render_pass.dfy); `Dashboard` (dashboard.dfy, one script run).

## Model

| member | source | states |
|---|---|---|
| Versions.VersionLabel | artist_dashboard_1.py:197-204 | the label is "Main" exactly when the feature has one version; it is one of the six labels Main, A..E and never contains `_` |
| Versions.VersionIndex | artist_dashboard_1.py:198-204 | decoding a label gives back a version index below the count whose label it is |
| Versions.VersionLabelsDistinct | artist_dashboard_1.py:198-204 | within one feature, two versions have the same label exactly when they are the same version |
| Versions.VersionLabelsSpelled | artist_dashboard_1.py:188-204 | a count of 1 gives the labels ["Main"]; a count n in 2..5 gives the first n letters "A".."E" |
| Vocabulary.FeatureKey | artist_dashboard_1.py:174-180 | the five feature keys "vocals", "groove", "solo", "instrumental" and "backing_vocals", in page order; none is empty |
| Vocabulary.FeatureFromKey | artist_dashboard_1.py:174-180 | decodes exactly the five feature keys, each to its own feature |
| Vocabulary.SectionName | artist_dashboard_1.py:166 | the eight section options Intro, Verse, Pre-Chorus, Chorus, Bridge, Solo, Breakdown and Outro; none is empty or contains `_` |
| Vocabulary.SectionFromName | artist_dashboard_1.py:166 | decodes exactly the eight section names, each to its own section; no name contains `_` |
| Text.SplitAtLast | artist_dashboard_1.py:220 | splitting at the last separator gives a left part, the separator and a right part free of it, and fails only when there is no separator |
| Text.SplitAtLastOfJoin | artist_dashboard_1.py:220 | a join `p + "_" + q` whose right part has no `_` splits back into exactly `p` and `q`, even when `p` contains `_` |
| Text.ParseNatToString | artist_dashboard_1.py:215 | reading back the decimal rendering of a section index gives the index |
| SlotKeys.StorageKey | artist_dashboard_1.py:220 | the storage key is feature key, version label and section name joined by `_`; it has no section index |
| SlotKeys.ParseStorageKey | artist_dashboard_1.py:220 | a decoded storage key rebuilds to the same string and carries one of the six labels |
| SlotKeys.StorageKeyRoundTrip | artist_dashboard_1.py:220 | every storage key the page builds decodes to its own feature, label and section |
| SlotKeys.StorageKeyInjective | artist_dashboard_1.py:220 | two storage keys are equal exactly when feature, label and section are equal, although "backing_vocals" contains `_` |
| SlotKeys.WidgetKey | artist_dashboard_1.py:215 | the widget key is feature key, version label, section name and decimal section index joined by `_` |
| SlotKeys.ParseWidgetKey | artist_dashboard_1.py:215 | a decoded widget key rebuilds to the same string and carries one of the six labels |
| SlotKeys.WidgetKeyRoundTrip | artist_dashboard_1.py:215 | every widget key the page builds decodes to its own feature, label, section and index |
| SlotKeys.WidgetKeyInjective | artist_dashboard_1.py:215 | two widget keys are equal exactly when feature, label, section and section index are equal |
| SlotKeys.NarrowKey | artist_dashboard_1.py:246 | the narrow-mix uploader key is "narrow", section name and decimal section index joined by `_` |
| SlotKeys.WideKey | artist_dashboard_1.py:254 | the wide-mix uploader key is "wide", section name and decimal section index joined by `_` |
| SlotKeys.ReferenceKey | artist_dashboard_1.py:265 | the reference-mix uploader key is the constant "reference_mix" |
| SlotKeys.NarrowKeyIsNotFeatureKey | artist_dashboard_1.py:242-247 | a narrow-mix uploader key is never the key of a feature uploader |
| SlotKeys.WideKeyIsNotFeatureKey | artist_dashboard_1.py:250-255 | a wide-mix uploader key is never the key of a feature uploader |
| SlotKeys.ReferenceKeyIsNotFeatureKey | artist_dashboard_1.py:262-266 | the reference-mix uploader key is never the key of a feature uploader |
| UploadStore.InitUploads | artist_dashboard_1.py:111-112 | an existing session store is kept as it is; without one the store starts empty |
| UploadStore.InitUploadsIdempotent | artist_dashboard_1.py:111-112 | initialising again on a rerun keeps the store built so far |
| UploadStore.Record | artist_dashboard_1.py:221-225 | the key holds exactly the new name and size, the key set gains only that key, every other entry is unchanged, and the count grows by one exactly when the key was new |
| UploadStore.RecordOverwrites | artist_dashboard_1.py:221-225 | a second upload to the same key discards the first |
| UploadStore.Reset | artist_dashboard_1.py:297 | after reset no key is present |
| UploadStore.ResetIdempotent | artist_dashboard_1.py:297 | resetting twice is the same as once, and the count after reset is 0 |
| UploadStore.CountBound | artist_dashboard_1.py:271 | a store whose keys are all page-built storage keys holds at most 5 × 6 × 8 = 240 uploads |
| UploadStore.RecordKeepsWellFormed | artist_dashboard_1.py:220-221 | recording under a page-built storage key keeps every key a storage key |
| RenderPass.Slots | artist_dashboard_1.py:182-210 | the uploader positions of one pass: for each feature in page order, each version in order, each section position in order, one uploader with that version's label and that position's section name |
| RenderPass.SlotsShape | artist_dashboard_1.py:182-217 | the pass visits only uploaders the form renders, in the order feature, then version, then section position |
| RenderPass.SlotsComplete | artist_dashboard_1.py:182-217 | every (feature, version, section position) of the form has an uploader in the pass |
| RenderPass.UploaderWidgetKeysDistinct | artist_dashboard_1.py:210-215 | two distinct uploader positions of one pass never share a widget key |
| RenderPass.UploaderWrite | artist_dashboard_1.py:212-220 | an uploader reads its file from the widget state under its own widget key and writes under its storage key; it holds a file exactly when its widget key is present |
| RenderPass.Step | artist_dashboard_1.py:218-225 | an uploader holding a file adds its storage key with that file and changes no other entry; one without a file changes nothing |
| RenderPass.Apply | artist_dashboard_1.py:182-229 | after the fold, the keys are the keys before plus the keys written, and every entry nobody wrote keeps its record: the pass never deletes |
| RenderPass.LastWriterWins | artist_dashboard_1.py:221-225 | an uploader's storage key ends up holding its file when no later uploader holding a file has the same storage key |
| RenderPass.NoFilesNoChange | artist_dashboard_1.py:218 | a pass in which no uploader holds a file leaves the store equal to what it was |
| RenderPass.ApplySingleWrite | artist_dashboard_1.py:218-225 | when only one uploader holds a file, a pass over an empty store gives a store with that single entry |
| RenderPass.OnlyUploader | artist_dashboard_1.py:210-225 | when only the uploader at one page position holds a file, a new session's store holds exactly that file under that uploader's storage key |
| RenderPass.RenderSlotsReadsOwnWidgets | artist_dashboard_1.py:212-218 | the pass depends only on the files at its own uploaders' widget keys |
| RenderPass.RenderFeatures | artist_dashboard_1.py:182-229 | the keys after a render pass are the keys before plus the storage keys of the uploaders holding a file, and the pass keeps every key a storage key |
| RenderPass.SharedStorageKey | artist_dashboard_1.py:210-220 | two uploaders share a storage key exactly when feature, version and section name agree, whatever their section positions |
| RenderPass.UploaderWins | artist_dashboard_1.py:210-225 | an uploader holding a file decides its storage entry when no later position with the same feature, version and section name holds one |
| RenderPass.RepeatedSectionLaterWins | artist_dashboard_1.py:210-221 | positions i < j with one section name have different widget keys, and their shared storage entry holds the file of the later position j |
| Dashboard.StatusBadge | artist_dashboard_1.py:272-281 | the badge is complete exactly when the count is positive, and then it shows the count |
| Dashboard.PublishNotice | artist_dashboard_1.py:302-305 | publishing succeeds exactly when the count is positive; otherwise the page asks for an upload |
| Dashboard.Run | artist_dashboard_1.py:111-305 | in one run the badge is complete iff the count is positive; Publish succeeds iff the count is positive; Reset leaves an empty store and asks for a rerun; without Reset no key is lost; the store keys stay page-built storage keys |
| Dashboard.PublishAgreesWithBadge | artist_dashboard_1.py:272-305 | Publish succeeds exactly when the badge of the same run is complete |
| Dashboard.RunCountBound | artist_dashboard_1.py:271 | starting from a new or well-formed session, the count is at most 240 |
| Dashboard.FirstRunCount | artist_dashboard_1.py:271 | on a new session, the count is the number of distinct storage keys of the uploaders holding a file |
| Dashboard.FirstRunBadge | artist_dashboard_1.py:271-281 | on a new session, the badge is complete exactly when some feature uploader holds a file |
| Dashboard.AdditionalUploadersIgnored | artist_dashboard_1.py:242-266 | files held by the spatialization and reference uploaders change neither the store, the count, the badge nor the publish outcome |
| Dashboard.ResetThenRerun | artist_dashboard_1.py:296-298 | the run after a Reset behaves as the first run of a new session |
| Dashboard.ResetThenRerunRecordsHeldFiles | artist_dashboard_1.py:296-298 | Reset does not clear the uploaders: the rerun with the same uploader state records the held files again into the emptied store |
| Dashboard.NoFilesKeepStore | artist_dashboard_1.py:218 | a run in which no feature uploader holds a file keeps the session store unchanged |
| Dashboard.SingleUpload | artist_dashboard_1.py:218-225 | on a new session, one held file gives a store with exactly one entry, under that uploader's storage key, and a count of 1 |

## Left out

- Page configuration, CSS, HTML markdown, header, guidelines box and footer (artist_dashboard_1.py:4-124, 141-156, 308-318): presentation only.
- Artist metadata widgets (name, title, release date, genre, BPM, contributor days; artist_dashboard_1.py:127-138): they feed no logic.
- Widget bounds: the section count (1 to 10) and the version counts (1 to 5) are enforced by Streamlit number inputs. They appear as the precondition `ValidForm`.
- The uploaded file object, the extraction of its `.name` and `.size`, and the wav/aiff/mp3 type filter all happen inside Streamlit. A record is a name plus a natural-number size; the stored `'file'` payload is not modelled.
- Which files the uploaders hold, and how Streamlit keeps that state across reruns, is foreign library behaviour. It is a parameter of each run.
- The files the spatialization and reference uploaders return are discarded by the page (artist_dashboard_1.py:243-266). Only their widget keys are modelled, to show they cannot affect the store.
- Column, tab and expander layout, the per-upload badge with the truncated file name (artist_dashboard_1.py:226-229), and the Save Draft and Preview messages: UI only.
- `st.rerun()` is modelled only as the `rerun` flag of the run result. The next run is a separate call of `Dashboard.Run`.
- Per-feature completeness ratios, occurrence-indexed storage keys and orphaned-slot handling do not exist in the code. Entries of a version label that is no longer rendered simply stay in the store, as the never-deletes property shows.
