/**
 * Names of the files in the checkpoints directory: the two fixed names
 * `latest_model.tar` and `best_model.tar`, and the per-epoch name
 * `"model_" + str(epoch).zfill(4) + ".tar"`, with Python's `str` and
 * `str.zfill` written out.
 */
module FileNames {
  import opened Wrappers

  const LatestName: string := "latest_model.tar"
  const BestName: string := "best_model.tar"
  const EpochPrefix: string := "model_"
  const EpochSuffix: string := ".tar"
  /** The width `zfill` pads the epoch number to. */
  const EpochWidth: nat := 4

  predicate IsDigit(c: char) {
    '0' <= c <= '9'
  }

  predicate AllDigits(s: string) {
    forall i :: 0 <= i < |s| ==> IsDigit(s[i])
  }

  predicate IsSign(c: char) {
    c == '+' || c == '-'
  }

  function DigitValue(c: char): (d: nat)
    requires IsDigit(c)
    ensures d < 10
  {
    c as int - '0' as int
  }

  function DigitChar(d: nat): (c: char)
    requires d < 10
    ensures IsDigit(c) && DigitValue(c) == d
  {
    ('0' as int + d) as char
  }

  /** The value of a string of decimal digits, most significant first. */
  function DigitsValue(s: string): nat
    requires AllDigits(s)
  {
    if s == [] then 0 else 10 * DigitsValue(s[..|s| - 1]) + DigitValue(s[|s| - 1])
  }

  /** `k` copies of the padding character '0'. */
  function Zeros(k: nat): (z: string)
    ensures |z| == k && forall i :: 0 <= i < k ==> z[i] == '0'
  {
    seq(k, _ => '0')
  }

  /**
   * Python's `str(n)` for a non-negative integer: its decimal digits with
   * no leading zero (zero itself is "0"), reading back as `n`.
   */
  function DecimalString(n: nat): (s: string)
    ensures 1 <= |s| && AllDigits(s)
    ensures s[0] == '0' ==> s == "0"
    ensures DigitsValue(s) == n
  {
    if n < 10 then [DigitChar(n)]
    else
      var init := DecimalString(n / 10);
      var s := init + [DigitChar(n % 10)];
      assert s[..|s| - 1] == init;
      s
  }

  /**
   * Python's `str(e)` for any integer: a minus sign before the digits of a
   * negative number. It reads back as `e`, and it starts with '-' exactly
   * when `e` is negative.
   */
  function IntToString(e: int): (s: string)
    ensures ParseInt(s) == Some(e)
    ensures |s| >= 1 && (s[0] == '-' <==> e < 0)
  {
    if e < 0 then
      var s := "-" + DecimalString(-e);
      assert s[1..] == DecimalString(-e);
      s
    else DecimalString(e)
  }

  /**
   * Python's `s.zfill(width)`, as CPython computes it: pad on the left with
   * '0' up to `width`, then, if the character now just after the padding is
   * a sign, swap it to the front.
   */
  function ZFill(s: string, width: nat): (r: string)
    ensures |r| == if |s| >= width then |s| else width
    ensures |s| >= width ==> r == s
    ensures |s| < width && |s| > 0 && IsSign(s[0]) ==>
              r == [s[0]] + Zeros(width - |s|) + s[1..]
    ensures |s| < width && !(|s| > 0 && IsSign(s[0])) ==>
              r == Zeros(width - |s|) + s
  {
    if |s| >= width then s
    else
      var fill := width - |s|;
      var padded := Zeros(fill) + s;
      if fill < |padded| && IsSign(padded[fill]) then
        var r := padded[0 := padded[fill]][fill := '0'];
        assert r == [s[0]] + Zeros(fill) + s[1..] by {
          assert |r| == |[s[0]] + Zeros(fill) + s[1..]|;
          forall i | 0 <= i < |r|
            ensures r[i] == ([s[0]] + Zeros(fill) + s[1..])[i]
          {
          }
        }
        r
      else
        padded
  }

  /**
   * The per-epoch checkpoint name `model_{str(epoch).zfill(4)}.tar`. It has the
   * per-epoch prefix and suffix, and parsing it gives back the epoch, for
   * every integer epoch.
   */
  function EpochFileName(epoch: int): (name: string)
    ensures |name| >= |EpochPrefix| + EpochWidth + |EpochSuffix|
    ensures name[..|EpochPrefix|] == EpochPrefix && name[|name| - |EpochSuffix|..] == EpochSuffix
    ensures ParseEpochFileName(name) == Some(epoch)
  {
    var padded := ZFill(IntToString(epoch), EpochWidth);
    NameParts(padded);
    ParsePadded(epoch);
    EpochPrefix + padded + EpochSuffix
  }

  /** The three parts of a name built from the per-epoch prefix and suffix. */
  lemma NameParts(body: string)
    ensures var name := EpochPrefix + body + EpochSuffix;
      |name| == |EpochPrefix| + |body| + |EpochSuffix| &&
      name[..|EpochPrefix|] == EpochPrefix &&
      name[|name| - |EpochSuffix|..] == EpochSuffix &&
      name[|EpochPrefix|..|name| - |EpochSuffix|] == body
  {
  }

  /** The zero-padded digits of a non-negative epoch. */
  lemma PaddedNonNegative(epoch: nat)
    ensures var digits := DecimalString(epoch);
      var k := if |digits| >= EpochWidth then 0 else EpochWidth - |digits|;
      ZFill(IntToString(epoch), EpochWidth) == Zeros(k) + digits
  {
  }

  /**
   * For a non-negative epoch the per-epoch name carries at least four digits,
   * left-padded with '0' in front of `str(epoch)`.
   */
  lemma EpochFileNameShape(epoch: nat)
    ensures var digits := DecimalString(epoch);
      var k := if |digits| >= EpochWidth then 0 else EpochWidth - |digits|;
      EpochFileName(epoch) == EpochPrefix + (Zeros(k) + digits) + EpochSuffix &&
      |Zeros(k) + digits| >= EpochWidth && AllDigits(Zeros(k) + digits)
  {
    PaddedNonNegative(epoch);
  }

  /** Reads back an optionally negative decimal number; `None` for anything else. */
  function ParseInt(body: string): Option<int> {
    if |body| > 1 && body[0] == '-' && AllDigits(body[1..]) then
      var magnitude: int := DigitsValue(body[1..]);
      Some(-magnitude)
    else if AllDigits(body) && body != [] then Some(DigitsValue(body))
    else None
  }

  /** Reads back the epoch from a per-epoch checkpoint name; `None` for any other name. */
  function ParseEpochFileName(name: string): Option<int> {
    if |name| < |EpochPrefix| + |EpochSuffix| then None
    else if name[..|EpochPrefix|] != EpochPrefix || name[|name| - |EpochSuffix|..] != EpochSuffix then None
    else ParseInt(name[|EpochPrefix|..|name| - |EpochSuffix|])
  }

  /** Leading zeros do not change the value of a digit string. */
  lemma {:induction false} DigitsValueZeros(k: nat, s: string)
    requires AllDigits(s)
    ensures AllDigits(Zeros(k) + s) && DigitsValue(Zeros(k) + s) == DigitsValue(s)
    decreases |s|
  {
    var z := Zeros(k) + s;
    if s == [] {
      assert z == Zeros(k);
      ZerosValue(k);
    } else {
      var init := s[..|s| - 1];
      assert z[..|z| - 1] == Zeros(k) + init;
      DigitsValueZeros(k, init);
    }
  }

  lemma {:induction false} ZerosValue(k: nat)
    ensures AllDigits(Zeros(k)) && DigitsValue(Zeros(k)) == 0
  {
    if k > 0 {
      assert Zeros(k)[..k - 1] == Zeros(k - 1);
      ZerosValue(k - 1);
    }
  }

  /** The zero-padded number reads back as the epoch. */
  lemma ParsePadded(epoch: int)
    ensures ParseInt(ZFill(IntToString(epoch), EpochWidth)) == Some(epoch)
  {
    var padded := ZFill(IntToString(epoch), EpochWidth);
    if epoch >= 0 {
      PaddedNonNegative(epoch);
      var digits := DecimalString(epoch);
      var k := if |digits| >= EpochWidth then 0 else EpochWidth - |digits|;
      DigitsValueZeros(k, digits);
      assert padded[0] != '-' by {
        if k == 0 { assert padded[0] == digits[0]; } else { assert padded[0] == '0'; }
      }
    } else {
      PaddedNegative(epoch);
      var digits := DecimalString(-epoch);
      var k := if |digits| + 1 >= EpochWidth then 0 else EpochWidth - (|digits| + 1);
      DigitsValueZeros(k, digits);
    }
  }

  /** Padding a negative number keeps its sign in front of the zeros. */
  lemma ZFillNegative(digits: string)
    ensures var k := if |digits| + 1 >= EpochWidth then 0 else EpochWidth - (|digits| + 1);
      var padded := ZFill("-" + digits, EpochWidth);
      |padded| > 1 && padded[0] == '-' && padded[1..] == Zeros(k) + digits
  {
    var s := "-" + digits;
    assert s[0] == '-' && s[1..] == digits;
    assert Zeros(0) + digits == digits;
  }

  /** The zero-padded digits of a negative epoch keep the sign in front. */
  lemma PaddedNegative(epoch: int)
    requires epoch < 0
    ensures var digits := DecimalString(-epoch);
      var k := if |digits| + 1 >= EpochWidth then 0 else EpochWidth - (|digits| + 1);
      var padded := ZFill(IntToString(epoch), EpochWidth);
      |padded| > 1 && padded[0] == '-' && padded[1..] == Zeros(k) + digits
  {
    ZFillNegative(DecimalString(-epoch));
  }

  /** Distinct epochs get distinct names, so per-epoch checkpoints never overwrite each other. */
  lemma EpochFileNameInjective(a: int, b: int)
    ensures EpochFileName(a) == EpochFileName(b) <==> a == b
  {
  }

  /** No per-epoch name is one of the two fixed names. */
  lemma EpochFileNameNotFixed(epoch: int)
    ensures EpochFileName(epoch) != LatestName && EpochFileName(epoch) != BestName
  {
    var name := EpochFileName(epoch);
    assert name[0] == 'm';
    assert LatestName[0] == 'l' && BestName[0] == 'b';
  }
}
