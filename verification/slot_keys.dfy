/**
 Key derivation for the upload page. Two `_`-joined keys are built per uploader:

 - the widget key `{feature_key}_{version_label}_{section}_{s_idx}` that names a
   file-uploader widget (artist_dashboard_1.py:215), and
 - the storage key `{feature_key}_{version_label}_{section}` under which the
   uploaded file is kept (artist_dashboard_1.py:220). It has no section index.

 The feature key "backing_vocals" contains the separator, while version labels,
 section names and decimal indices do not, so each key is decoded by splitting
 at the LAST separator, right to left. The decoders give the injectivity proofs.
 */
module SlotKeys {
  import opened Options
  import opened Text
  import opened Vocabulary
  import opened Versions

  const Sep: char := '_'

  function StorageKey(f: Feature, versionLabel: string, s: Section): string {
    FeatureKey(f) + [Sep] + versionLabel + [Sep] + SectionName(s)
  }

  function WidgetKey(f: Feature, versionLabel: string, s: Section, index: nat): string {
    FeatureKey(f) + [Sep] + versionLabel + [Sep] + SectionName(s) + [Sep] + NatToString(index)
  }

  /** A widget key is the storage key of its uploader followed by `_` and the section index. */
  lemma WidgetKeyExtendsStorageKey(f: Feature, versionLabel: string, s: Section, index: nat)
    ensures WidgetKey(f, versionLabel, s, index) == StorageKey(f, versionLabel, s) + [Sep] + NatToString(index)
  {
  }

  /** The components a storage key was built from. */
  datatype StorageSlot = StorageSlot(feature: Feature, versionLabel: string, section: Section)

  /** The components a widget key was built from. */
  datatype WidgetSlot = WidgetSlot(feature: Feature, versionLabel: string, section: Section, index: nat)

  /**
   Decodes a storage key: section name after the last `_`, version label
   before it, and whatever remains (which may itself hold `_`) as the feature key.
   Only the labels the page can produce are accepted.
   */
  function ParseStorageKey(k: string): (r: Option<StorageSlot>)
    ensures r.Some? ==> r.value.versionLabel in AllLabels
    ensures r.Some? ==> StorageKey(r.value.feature, r.value.versionLabel, r.value.section) == k
  {
    match SplitAtLast(k, Sep)
    case None => None
    case Some((rest, sectionName)) =>
      match SectionFromName(sectionName)
      case None => None
      case Some(s) =>
        match SplitAtLast(rest, Sep)
        case None => None
        case Some((featureKey, versionLabel)) =>
          match FeatureFromKey(featureKey)
          case None => None
          case Some(f) =>
            if versionLabel in AllLabels then Some(StorageSlot(f, versionLabel, s)) else None
  }

  /** Every storage key the page can build decodes to its own components. */
  lemma StorageKeyRoundTrip(f: Feature, versionLabel: string, s: Section)
    requires versionLabel in AllLabels
    ensures ParseStorageKey(StorageKey(f, versionLabel, s)) == Some(StorageSlot(f, versionLabel, s))
  {
    var rest := FeatureKey(f) + [Sep] + versionLabel;
    assert Sep !in versionLabel;
    SplitAtLastOfJoin(rest, Sep, SectionName(s));
    SplitAtLastOfJoin(FeatureKey(f), Sep, versionLabel);
  }

  /** Storage keys are injective in (feature, version label, section). */
  lemma StorageKeyInjective(f: Feature, l: string, s: Section, f': Feature, l': string, s': Section)
    requires l in AllLabels && l' in AllLabels
    ensures StorageKey(f, l, s) == StorageKey(f', l', s') <==> f == f' && l == l' && s == s'
  {
    StorageKeyRoundTrip(f, l, s);
    StorageKeyRoundTrip(f', l', s');
  }

  /**
   Decodes a widget key: the decimal index after the last `_` (it must be the
   canonical rendering of a number), and a storage key before it.
   */
  function ParseWidgetKey(k: string): (r: Option<WidgetSlot>)
    ensures r.Some? ==> r.value.versionLabel in AllLabels
    ensures r.Some? ==> WidgetKey(r.value.feature, r.value.versionLabel, r.value.section, r.value.index) == k
  {
    match SplitAtLast(k, Sep)
    case None => None
    case Some((storageKey, digits)) =>
      if !AllDigits(digits) || NatToString(ParseNat(digits)) != digits then None
      else
        match ParseStorageKey(storageKey)
        case None => None
        case Some(slot) => Some(WidgetSlot(slot.feature, slot.versionLabel, slot.section, ParseNat(digits)))
  }

  /** Every widget key the page can build decodes to its own components. */
  lemma WidgetKeyRoundTrip(f: Feature, versionLabel: string, s: Section, index: nat)
    requires versionLabel in AllLabels
    ensures ParseWidgetKey(WidgetKey(f, versionLabel, s, index)) == Some(WidgetSlot(f, versionLabel, s, index))
  {
    var digits := NatToString(index);
    assert Sep !in digits;
    WidgetKeyExtendsStorageKey(f, versionLabel, s, index);
    SplitAtLastOfJoin(StorageKey(f, versionLabel, s), Sep, digits);
    ParseNatToString(index);
    StorageKeyRoundTrip(f, versionLabel, s);
  }

  /** Widget keys are injective in (feature, version label, section, section index). */
  lemma WidgetKeyInjective(f: Feature, l: string, s: Section, i: nat, f': Feature, l': string, s': Section, i': nat)
    requires l in AllLabels && l' in AllLabels
    ensures WidgetKey(f, l, s, i) == WidgetKey(f', l', s', i') <==> f == f' && l == l' && s == s' && i == i'
  {
    WidgetKeyRoundTrip(f, l, s, i);
    WidgetKeyRoundTrip(f', l', s', i');
  }

  /** Widget keys of the spatialization and reference uploaders (artist_dashboard_1.py:246, 254, 265). */
  function NarrowKey(s: Section, index: nat): string {
    "narrow" + [Sep] + SectionName(s) + [Sep] + NatToString(index)
  }

  function WideKey(s: Section, index: nat): string {
    "wide" + [Sep] + SectionName(s) + [Sep] + NatToString(index)
  }

  const ReferenceKey: string := "reference_mix"

  /** A key is an uploader key of one of the five versioned features. */
  predicate IsFeatureWidgetKey(k: string) {
    ParseWidgetKey(k).Some?
  }

  /** A widget key needs a storage key before its index. */
  lemma NoStorageKeyNoWidgetKey(head: string, index: nat)
    requires ParseStorageKey(head).None?
    ensures !IsFeatureWidgetKey(head + [Sep] + NatToString(index))
  {
    var digits := NatToString(index);
    assert Sep !in digits;
    SplitAtLastOfJoin(head, Sep, digits);
  }

  /** A storage key needs a version label between feature key and section name. */
  lemma NoLabelNoStorageKey(head: string, s: Section)
    requires Sep !in head
    ensures ParseStorageKey(head + [Sep] + SectionName(s)).None?
  {
    SplitAtLastOfJoin(head, Sep, SectionName(s));
    assert SplitAtLast(head, Sep) == None;
  }

  lemma NarrowKeyIsNotFeatureKey(s: Section, index: nat)
    ensures !IsFeatureWidgetKey(NarrowKey(s, index))
  {
    var head := "narrow" + [Sep] + SectionName(s);
    assert NarrowKey(s, index) == head + [Sep] + NatToString(index);
    NoLabelNoStorageKey("narrow", s);
    NoStorageKeyNoWidgetKey(head, index);
  }

  lemma WideKeyIsNotFeatureKey(s: Section, index: nat)
    ensures !IsFeatureWidgetKey(WideKey(s, index))
  {
    var head := "wide" + [Sep] + SectionName(s);
    assert WideKey(s, index) == head + [Sep] + NatToString(index);
    NoLabelNoStorageKey("wide", s);
    NoStorageKeyNoWidgetKey(head, index);
  }

  lemma ReferenceKeyIsNotFeatureKey()
    ensures !IsFeatureWidgetKey(ReferenceKey)
  {
    SplitAtLastOfJoin("reference", Sep, "mix");
    assert ReferenceKey == "reference" + [Sep] + "mix";
    assert !AllDigits("mix") by { assert !IsDigit("mix"[0]); }
  }
}
