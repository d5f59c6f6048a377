/** The optional-value wrapper used by every parser in the model. */
module Options {

  datatype Option<+T> = None | Some(value: T)
}

/**
 String helpers behind the upload keys: splitting a string at the LAST
 occurrence of a separator, and the decimal rendering of a natural number
 that Python's f-string interpolation of an `int` produces.
 */
module Text {
  import opened Options

  /** Splits `s` at the last occurrence of `c`: the suffix never contains `c`. */
  function SplitAtLast(s: string, c: char): (r: Option<(string, string)>)
    ensures r.Some? ==> s == r.value.0 + [c] + r.value.1 && c !in r.value.1
    ensures r.None? <==> c !in s
    decreases |s|
  {
    if |s| == 0 then None
    else if s[|s| - 1] == c then Some((s[..|s| - 1], []))
    else
      match SplitAtLast(s[..|s| - 1], c)
      case None => None
      case Some((p, q)) => Some((p, q + [s[|s| - 1]]))
  }

  /** In a join `p + [c] + q` with `c` absent from `q`, position `|p|` is the last `c`. */
  lemma LastSeparatorAt(s: string, p: string, c: char, q: string)
    requires s == p + [c] + q && c !in q
    ensures s[|p|] == c
    ensures forall i :: |p| < i < |s| ==> s[i] != c
  {
    forall i | |p| < i < |s|
      ensures s[i] != c
    {
      assert s[i] == q[i - |p| - 1];
    }
  }

  /** Joining with a separator that the right part does not contain is undone by SplitAtLast. */
  lemma SplitAtLastOfJoin(p: string, c: char, q: string)
    requires c !in q
    ensures SplitAtLast(p + [c] + q, c) == Some((p, q))
  {
    var s := p + [c] + q;
    assert c in s by { assert s[|p|] == c; }
    var r := SplitAtLast(s, c);
    var p', q' := r.value.0, r.value.1;
    LastSeparatorAt(s, p, c, q);
    LastSeparatorAt(s, p', c, q');
    assert |p'| == |p|;
    assert p' == s[..|p|] == p;
    assert q' == s[|p| + 1..] == q;
  }

  predicate IsDigit(c: char) {
    '0' <= c <= '9'
  }

  predicate AllDigits(s: string) {
    forall i :: 0 <= i < |s| ==> IsDigit(s[i])
  }

  function DigitChar(d: nat): (c: char)
    requires d < 10
    ensures IsDigit(c)
  {
    "0123456789"[d]
  }

  /** Decimal rendering of `n`, most significant digit first, no leading zeros. */
  function NatToString(n: nat): (r: string)
    ensures |r| >= 1
    ensures AllDigits(r)
    decreases n
  {
    if n < 10 then [DigitChar(n)]
    else NatToString(n / 10) + [DigitChar(n % 10)]
  }

  /** The value of a string of decimal digits (the empty string reads as 0). */
  function ParseNat(s: string): nat
    requires AllDigits(s)
    decreases |s|
  {
    if |s| == 0 then 0
    else ParseNat(s[..|s| - 1]) * 10 + (s[|s| - 1] as int - '0' as int)
  }

  /** Reading back a rendered number gives the number. */
  lemma {:induction false} ParseNatToString(n: nat)
    ensures ParseNat(NatToString(n)) == n
    decreases n
  {
    var s := NatToString(n);
    if n < 10 {
      assert s[..|s| - 1] == [];
      assert "0123456789"[n] as int - '0' as int == n;
    } else {
      ParseNatToString(n / 10);
      assert s[..|s| - 1] == NatToString(n / 10);
      assert "0123456789"[n % 10] as int - '0' as int == n % 10;
    }
  }
}
