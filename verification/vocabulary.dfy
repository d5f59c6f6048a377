/**
 The fixed vocabularies of the upload page: the five versioned stem features
 (artist_dashboard_1.py:174-180) and the eight section names an artist can pick
 for each song section (artist_dashboard_1.py:166).
 */
module Vocabulary {
  import opened Options

  /** The versioned stem categories, in the order the page renders them. */
  datatype Feature = Vocals | Groove | Solo | Instrumental | BackingVocals

  const AllFeatures: seq<Feature> := [Vocals, Groove, Solo, Instrumental, BackingVocals]

  /** The short key each feature contributes to upload keys. */
  function FeatureKey(f: Feature): (k: string)
    ensures |k| > 0
  {
    match f
    case Vocals => "vocals"
    case Groove => "groove"
    case Solo => "solo"
    case Instrumental => "instrumental"
    case BackingVocals => "backing_vocals"
  }

  /** Recognises a feature key; the inverse of FeatureKey. */
  function FeatureFromKey(k: string): (r: Option<Feature>)
    ensures forall f :: FeatureKey(f) == k <==> r == Some(f)
  {
    if k == "vocals" then Some(Vocals)
    else if k == "groove" then Some(Groove)
    else if k == "solo" then Some(Solo)
    else if k == "instrumental" then Some(Instrumental)
    else if k == "backing_vocals" then Some(BackingVocals)
    else None
  }

  /** Position of a feature in the rendering order. */
  function FeatureIndex(f: Feature): (i: nat)
    ensures i < |AllFeatures| && AllFeatures[i] == f
  {
    match f
    case Vocals => 0
    case Groove => 1
    case Solo => 2
    case Instrumental => 3
    case BackingVocals => 4
  }

  /** The position of a feature in the rendering order is its index. */
  lemma FeatureIndexListed(k: nat)
    requires k < |AllFeatures|
    ensures FeatureIndex(AllFeatures[k]) == k
  {
  }

  /** The section names offered by each section selector. */
  datatype Section = Intro | Verse | PreChorus | Chorus | Bridge | SoloSection | Breakdown | Outro

  const AllSections: seq<Section> := [Intro, Verse, PreChorus, Chorus, Bridge, SoloSection, Breakdown, Outro]

  /** The display name of a section, which is also its part of an upload key; it never holds `_`. */
  function SectionName(s: Section): (n: string)
    ensures |n| > 0 && '_' !in n
  {
    match s
    case Intro => "Intro"
    case Verse => "Verse"
    case PreChorus => "Pre-Chorus"
    case Chorus => "Chorus"
    case Bridge => "Bridge"
    case SoloSection => "Solo"
    case Breakdown => "Breakdown"
    case Outro => "Outro"
  }

  /** Recognises a section name; the inverse of SectionName. */
  function SectionFromName(n: string): (r: Option<Section>)
    ensures forall s :: SectionName(s) == n <==> r == Some(s)
  {
    if n == "Intro" then Some(Intro)
    else if n == "Verse" then Some(Verse)
    else if n == "Pre-Chorus" then Some(PreChorus)
    else if n == "Chorus" then Some(Chorus)
    else if n == "Bridge" then Some(Bridge)
    else if n == "Solo" then Some(SoloSection)
    else if n == "Breakdown" then Some(Breakdown)
    else if n == "Outro" then Some(Outro)
    else None
  }

  lemma EveryFeatureListed(f: Feature)
    ensures f in AllFeatures
  {
    assert AllFeatures[FeatureIndex(f)] == f;
  }

  lemma EverySectionListed(s: Section)
    ensures s in AllSections
  {
  }
}
