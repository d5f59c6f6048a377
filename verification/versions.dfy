/**
 Version labelling (artist_dashboard_1.py:188-204). Each feature has an
 artist-chosen version count in [1, 5]; a single version is labelled "Main",
 otherwise version `v` (0-based) is labelled `chr(65 + v)`, i.e. "A".."E".
 */
module Versions {
  import opened Options

  const MinVersions: nat := 1
  const MaxVersions: nat := 5

  /** Every label the page can produce. */
  const AllLabels: seq<string> := ["Main", "A", "B", "C", "D", "E"]

  predicate ValidCount(n: nat) {
    MinVersions <= n <= MaxVersions
  }

  /** The label of version `v` of a feature with `n` versions. */
  function VersionLabel(n: nat, v: nat): (r: string)
    requires ValidCount(n) && v < n
    ensures r in AllLabels
    ensures '_' !in r
    ensures r == "Main" <==> n == 1
  {
    if n > 1 then [(65 + v) as char] else "Main"
  }

  /** Recovers the version index from a label, for a feature with `n` versions. */
  function VersionIndex(n: nat, name: string): (r: Option<nat>)
    requires ValidCount(n)
    ensures r.Some? ==> r.value < n && VersionLabel(n, r.value) == name
  {
    if n == 1 then (if name == "Main" then Some(0) else None)
    else if |name| == 1 && 'A' <= name[0] && (name[0] as int) < 65 + n then Some(name[0] as int - 65)
    else None
  }

  /** Every version label is recognised again as its own index. */
  lemma VersionLabelRoundTrip(n: nat, v: nat)
    requires ValidCount(n) && v < n
    ensures VersionIndex(n, VersionLabel(n, v)) == Some(v)
  {
  }

  /** Within one feature, distinct versions carry distinct labels. */
  lemma VersionLabelsDistinct(n: nat, v: nat, w: nat)
    requires ValidCount(n) && v < n && w < n
    ensures VersionLabel(n, v) == VersionLabel(n, w) <==> v == w
  {
    VersionLabelRoundTrip(n, v);
    VersionLabelRoundTrip(n, w);
  }

  /** The labels of all versions of a feature, in tab order. */
  function VersionLabels(n: nat): (r: seq<string>)
    requires ValidCount(n)
    ensures |r| == n
    ensures forall v :: 0 <= v < n ==> r[v] == VersionLabel(n, v)
  {
    seq(n, v requires 0 <= v < n => VersionLabel(n, v))
  }

  /** One version gives ["Main"]; two to five give the first `n` letters from "A". */
  lemma VersionLabelsSpelled(n: nat)
    requires ValidCount(n)
    ensures n == 1 ==> VersionLabels(n) == ["Main"]
    ensures n > 1 ==> VersionLabels(n) == AllLabels[1..n + 1]
  {
    var r := VersionLabels(n);
    if n > 1 {
      forall v | 0 <= v < n
        ensures r[v] == AllLabels[1..n + 1][v]
      {
        assert r[v] == [(65 + v) as char];
      }
    }
  }
}
