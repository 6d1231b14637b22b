/**
 * The string handling tagcli relies on from Python: `int()` on a digit
 * string, `str()` of a natural number, `s.split('/')[0]`, zero padding as
 * in `'{:02}'.format(n)`, and `'\n'.join(...)` together with its inverse.
 */
module Text {
  import opened Wrappers

  predicate IsDigit(c: char) { '0' <= c <= '9' }

  predicate AllDigits(s: string) { forall i :: 0 <= i < |s| ==> IsDigit(s[i]) }

  /** The value of a decimal digit string, most significant digit first. */
  function DigitsValue(s: string): nat
    requires AllDigits(s)
  {
    if s == [] then 0
    else 10 * DigitsValue(s[..|s| - 1]) + (s[|s| - 1] as int - '0' as int)
  }

  /** Python's `int(s)` for a string of plain decimal digits; anything else is a ValueError. */
  function ParseNat(s: string): Option<nat>
  {
    if s != [] && AllDigits(s) then Some(DigitsValue(s)) else None
  }

  function DigitChar(d: nat): (c: char)
    requires d < 10
    ensures IsDigit(c) && c as int - '0' as int == d
  {
    ('0' as int + d) as char
  }

  /** Python's `str(n)`: the shortest decimal numeral, no leading zero. */
  function NatToString(n: nat): (s: string)
    ensures s != [] && AllDigits(s)
    ensures s[0] == '0' ==> s == "0"
    decreases n
  {
    if n < 10 then [DigitChar(n)] else NatToString(n / 10) + [DigitChar(n % 10)]
  }

  lemma {:induction false} DigitsOfNatToString(n: nat)
    ensures DigitsValue(NatToString(n)) == n
    decreases n
  {
    if n >= 10 {
      var s := NatToString(n);
      assert s[..|s| - 1] == NatToString(n / 10);
      DigitsOfNatToString(n / 10);
    }
  }

  /** `int(str(n)) == n`. */
  lemma ParseNatToString(n: nat)
    ensures ParseNat(NatToString(n)) == Some(n)
  {
    DigitsOfNatToString(n);
  }

  /** Distinct numbers print differently. */
  lemma NatToStringInjective(m: nat, n: nat)
    ensures NatToString(m) == NatToString(n) <==> m == n
  {
    ParseNatToString(m);
    ParseNatToString(n);
  }

  function Zeros(k: nat): (z: string)
    ensures |z| == k && forall i :: 0 <= i < k ==> z[i] == '0'
  {
    if k == 0 then "" else Zeros(k - 1) + "0"
  }

  /**
   * `format(s, '0<width>')` on the digits of a non-negative integer: the
   * fill is '0' and the padding goes before the digits.
   */
  function ZeroPad(s: string, width: nat): string
  {
    if |s| < width then Zeros(width - |s|) + s else s
  }

  /** Padding reaches the width, keeps the digits last and fills with '0' before them. */
  lemma ZeroPadSpec(s: string, width: nat)
    ensures var r := ZeroPad(s, width);
      && |r| == (if |s| < width then width else |s|)
      && r[|r| - |s|..] == s
      && forall i :: 0 <= i < |r| - |s| ==> r[i] == '0'
  {
  }

  lemma {:induction false} DigitsValueLeadingZeros(z: string, s: string)
    requires forall i :: 0 <= i < |z| ==> z[i] == '0'
    requires AllDigits(s)
    ensures AllDigits(z + s) && DigitsValue(z + s) == DigitsValue(s)
    decreases |z| + |s|
  {
    if s == [] {
      if z != [] {
        assert (z + s)[..|z + s| - 1] == z[..|z| - 1] + [];
        DigitsValueLeadingZeros(z[..|z| - 1], []);
      }
    } else {
      assert (z + s)[..|z + s| - 1] == z + s[..|s| - 1];
      DigitsValueLeadingZeros(z, s[..|s| - 1]);
    }
  }

  /** A zero-padded track number still reads back as the same number. */
  lemma ParseZeroPadded(n: nat, width: nat)
    ensures ParseNat(ZeroPad(NatToString(n), width)) == Some(n)
  {
    var s := NatToString(n);
    var r := ZeroPad(s, width);
    ZeroPadSpec(s, width);
    var z := r[..|r| - |s|];
    assert r == z + s;
    DigitsValueLeadingZeros(z, s);
    DigitsOfNatToString(n);
  }

  /** `s.split('/')[0]`: the text before the first '/', or all of `s`. */
  function BeforeSlash(s: string): (r: string)
    ensures r <= s && '/' !in r
    ensures r == s || s[|r|] == '/'
  {
    if s == [] || s[0] == '/' then "" else [s[0]] + BeforeSlash(s[1..])
  }

  lemma BeforeSlashOfPair(a: string, b: string)
    requires '/' !in a
    ensures BeforeSlash(a + "/" + b) == a
  {
    var s := a + "/" + b;
    var r := BeforeSlash(s);
    assert s[|a|] == '/';
    assert s[..|a|] == a;
  }

  lemma BeforeSlashNoSlash(a: string)
    requires '/' !in a
    ensures BeforeSlash(a) == a
  {
  }

  /** The index of the first `c` in `s`, or `|s|` when there is none. */
  function FirstIndex(s: string, c: char): (i: nat)
    ensures i <= |s| && (i < |s| ==> s[i] == c)
  {
    if s == [] then 0 else if s[0] == c then 0 else 1 + FirstIndex(s[1..], c)
  }

  /** No `c` comes before the index `FirstIndex` finds. */
  lemma {:induction false} FirstIndexSpec(s: string, c: char)
    ensures forall j :: 0 <= j < FirstIndex(s, c) ==> s[j] != c
  {
    if s != [] && s[0] != c {
      FirstIndexSpec(s[1..], c);
      assert forall j :: 1 <= j < |s| ==> s[j] == s[1..][j - 1];
    }
  }

  /** `'\n'.join(xs)`. */
  function JoinLines(xs: seq<string>): string
  {
    if xs == [] then ""
    else if |xs| == 1 then xs[0]
    else xs[0] + "\n" + JoinLines(xs[1..])
  }

  /** `s.split('\n')`: the lines a printed string shows. */
  function SplitLines(s: string): (lines: seq<string>)
    ensures |lines| >= 1
    decreases |s|
  {
    var i := FirstIndex(s, '\n');
    if i == |s| then [s] else [s[..i]] + SplitLines(s[i + 1..])
  }

  predicate NoNewlines(xs: seq<string>)
  {
    forall k :: 0 <= k < |xs| ==> '\n' !in xs[k]
  }

  /** Printing `'\n'.join(xs)` shows exactly the lines `xs`, one per element. */
  lemma {:induction false} SplitJoinLines(xs: seq<string>)
    requires xs != [] && NoNewlines(xs)
    ensures SplitLines(JoinLines(xs)) == xs
  {
    var s := JoinLines(xs);
    var i := FirstIndex(s, '\n');
    if |xs| == 1 {
    } else {
      var x := xs[0];
      assert s == x + "\n" + JoinLines(xs[1..]);
      assert s[|x|] == '\n';
      FirstIndexSpec(s, '\n');
      assert forall j :: 0 <= j < |x| ==> s[j] == x[j];
      assert i == |x|;
      assert s[..i] == x;
      assert s[i + 1..] == JoinLines(xs[1..]);
      SplitJoinLines(xs[1..]);
    }
  }
}
