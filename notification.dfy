/**
 * The textual notification of the notify-based temperature/humidity sensor,
 * `T=<d+.d+> H=<d+.d+>`, searched for anywhere in the payload the way
 * `/T=(\d+\.\d+) H=(\d+\.\d+)/.exec` does, and the two captured decimals read
 * as exact fixed-point numbers (what `parseFloat` gives for them).
 */
module NotificationText {
  import opened Wrappers
  import opened Codecs

  predicate IsDigit(c: char) {
    '0' <= c <= '9'
  }

  predicate AllDigits(s: string) {
    forall i :: 0 <= i < |s| ==> IsDigit(s[i])
  }

  /** `lit` occurs in s at position i. */
  predicate HasAt(s: string, i: nat, lit: string) {
    i + |lit| <= |s| && s[i..i + |lit|] == lit
  }

  /** The length of the longest run of digits starting at position i. */
  function DigitRun(s: string, i: nat): (n: nat)
    requires i <= |s|
    ensures i + n <= |s|
    decreases |s| - i
  {
    if i < |s| && IsDigit(s[i]) then 1 + DigitRun(s, i + 1) else 0
  }

  /** The run is all digits, and what follows it is not a digit. */
  lemma {:induction false} DigitRunMaximal(s: string, i: nat)
    requires i <= |s|
    ensures AllDigits(s[i..i + DigitRun(s, i)])
    ensures i + DigitRun(s, i) < |s| ==> !IsDigit(s[i + DigitRun(s, i)])
    decreases |s| - i
  {
    if i < |s| && IsDigit(s[i]) {
      DigitRunMaximal(s, i + 1);
      var n := DigitRun(s, i);
      assert s[i..i + n] == [s[i]] + s[i + 1..i + n];
    }
  }

  /** One captured group `\d+\.\d+`: the digits before and after the point. */
  datatype Capture = Capture(whole: string, frac: string)

  predicate WellFormed(c: Capture) {
    |c.whole| > 0 && |c.frac| > 0 && AllDigits(c.whole) && AllDigits(c.frac)
  }

  function CaptureText(c: Capture): string {
    c.whole + "." + c.frac
  }

  /** The text the pattern matches for two captured groups. */
  function Format(t: Capture, h: Capture): string {
    "T=" + CaptureText(t) + " H=" + CaptureText(h)
  }

  /**
   * `\d+\.\d+` at position i, both digit runs taken greedily; with the end
   * position of the match.  Greedy runs are the only ones that can match,
   * since what follows each run in the pattern is not a digit.
   */
  function DecimalAt(s: string, i: nat): (r: Option<(Capture, nat)>)
    requires i <= |s|
    ensures r.Some? ==> WellFormed(r.value.0) && r.value.1 == i + |CaptureText(r.value.0)| <= |s|
  {
    DigitRunMaximal(s, i);
    var a := DigitRun(s, i);
    if a > 0 && i + a < |s| && s[i + a] == '.' then
      DigitRunMaximal(s, i + a + 1);
      var b := DigitRun(s, i + a + 1);
      if b > 0 then Some((Capture(s[i..i + a], s[i + a + 1..i + a + 1 + b]), i + a + 1 + b))
      else None
    else None
  }

  /** The pattern tried at position i of the payload. */
  function MatchAt(s: string, i: nat): (r: Option<(Capture, Capture)>)
    requires i <= |s|
  {
    if !HasAt(s, i, "T=") then None
    else match DecimalAt(s, i + 2)
      case None => None
      case Some((t, j)) =>
        if !HasAt(s, j, " H=") then None
        else match DecimalAt(s, j + 3)
          case None => None
          case Some((h, _)) => Some((t, h))
  }

  /**
   * What it means for the pattern to match at i with captures t and h: the
   * text of the match stands at i, and the last digit run ends there.
   */
  predicate OccursAt(s: string, i: nat, t: Capture, h: Capture) {
    WellFormed(t) && WellFormed(h) && HasAt(s, i, Format(t, h))
    && (i + |Format(t, h)| < |s| ==> !IsDigit(s[i + |Format(t, h)|]))
  }

  /** A literal made of two parts occurs at i exactly when each part occurs in turn. */
  lemma HasAtConcat(s: string, i: nat, a: string, b: string)
    ensures HasAt(s, i, a + b) <==> HasAt(s, i, a) && HasAt(s, i + |a|, b)
  {
    if HasAt(s, i, a + b) {
      assert s[i..i + |a|] == (a + b)[..|a|] == a;
      assert s[i + |a|..i + |a| + |b|] == (a + b)[|a|..] == b;
    }
    if HasAt(s, i, a) && HasAt(s, i + |a|, b) {
      assert s[i..i + |a| + |b|] == s[i..i + |a|] + s[i + |a|..i + |a| + |b|];
    }
  }

  /** A one-character literal occurs at i when that character stands there. */
  lemma HasAtChar(s: string, i: nat, c: char)
    ensures HasAt(s, i, [c]) <==> i < |s| && s[i] == c
  {
    if i < |s| && s[i] == c {
      assert s[i..i + 1] == [c];
    }
  }

  /** The match text occurs at i exactly when its four pieces occur there in turn. */
  lemma FormatParts(s: string, i: nat, t: Capture, h: Capture)
    ensures var tt, ht := CaptureText(t), CaptureText(h);
      HasAt(s, i, Format(t, h)) <==>
        && HasAt(s, i, "T=") && HasAt(s, i + 2, tt)
        && HasAt(s, i + 2 + |tt|, " H=") && HasAt(s, i + 5 + |tt|, ht)
  {
    var tt, ht := CaptureText(t), CaptureText(h);
    assert Format(t, h) == "T=" + tt + " H=" + ht;
    HasAtConcat(s, i, "T=" + tt + " H=", ht);
    HasAtConcat(s, i, "T=" + tt, " H=");
    HasAtConcat(s, i, "T=", tt);
  }

  /** A greedy digit run over a known digit string followed by a non-digit has that length. */
  lemma {:induction false} DigitRunOver(s: string, i: nat, ds: string)
    requires AllDigits(ds) && HasAt(s, i, ds)
    requires i + |ds| < |s| ==> !IsDigit(s[i + |ds|])
    ensures DigitRun(s, i) == |ds|
    decreases |ds|
  {
    if |ds| > 0 {
      assert ds == [ds[0]] + ds[1..];
      HasAtConcat(s, i, [ds[0]], ds[1..]);
      HasAtChar(s, i, ds[0]);
      DigitRunOver(s, i + 1, ds[1..]);
    }
  }

  /** DecimalAt recognises a well-formed capture that is followed by a non-digit. */
  lemma DecimalAtComplete(s: string, i: nat, c: Capture)
    requires WellFormed(c) && HasAt(s, i, CaptureText(c))
    requires i + |CaptureText(c)| < |s| ==> !IsDigit(s[i + |CaptureText(c)|])
    ensures DecimalAt(s, i) == Some((c, i + |CaptureText(c)|))
  {
    var w, f := c.whole, c.frac;
    HasAtConcat(s, i, w + ".", f);
    HasAtConcat(s, i, w, ".");
    HasAtChar(s, i + |w|, '.');
    DigitRunOver(s, i, w);
    DigitRunOver(s, i + |w| + 1, f);
  }

  /** What DecimalAt recognises is a well-formed capture followed by a non-digit. */
  lemma DecimalAtSound(s: string, i: nat)
    requires i <= |s| && DecimalAt(s, i).Some?
    ensures var (c, j) := DecimalAt(s, i).value;
      WellFormed(c) && j == i + |CaptureText(c)| && HasAt(s, i, CaptureText(c))
      && (j < |s| ==> !IsDigit(s[j]))
  {
    var a := DigitRun(s, i);
    var b := DigitRun(s, i + a + 1);
    var j := i + a + 1 + b;
    DigitRunMaximal(s, i);
    DigitRunMaximal(s, i + a + 1);
    assert s[i..j] == s[i..i + a] + s[i + a..i + a + 1] + s[i + a + 1..j];
    assert s[i + a..i + a + 1] == ".";
  }

  /** Where the pattern matches, its captures occur there. */
  lemma MatchAtSound(s: string, i: nat)
    requires i <= |s| && MatchAt(s, i).Some?
    ensures OccursAt(s, i, MatchAt(s, i).value.0, MatchAt(s, i).value.1)
  {
    var (t, h) := MatchAt(s, i).value;
    DecimalAtSound(s, i + 2);
    var j := DecimalAt(s, i + 2).value.1;
    DecimalAtSound(s, j + 3);
    FormatParts(s, i, t, h);
    assert |Format(t, h)| == 5 + |CaptureText(t)| + |CaptureText(h)|;
  }

  /** Where captures occur, the pattern matches with exactly those captures. */
  lemma MatchAtComplete(s: string, i: nat, t: Capture, h: Capture)
    requires OccursAt(s, i, t, h)
    ensures MatchAt(s, i) == Some((t, h))
  {
    var tt, ht := CaptureText(t), CaptureText(h);
    var j := i + 2 + |tt|;
    FormatParts(s, i, t, h);
    assert |Format(t, h)| == 5 + |tt| + |ht|;
    HasAtConcat(s, j, [' '], "H=");
    HasAtChar(s, j, ' ');
    DecimalAtComplete(s, i + 2, t);
    DecimalAtComplete(s, j + 3, h);
  }

  /** The pattern matches at i with captures t and h if and only if they occur there. */
  lemma MatchAtCharacterised(s: string, i: nat, t: Capture, h: Capture)
    requires i <= |s|
    ensures MatchAt(s, i) == Some((t, h)) <==> OccursAt(s, i, t, h)
  {
    if MatchAt(s, i) == Some((t, h)) {
      MatchAtSound(s, i);
    }
    if OccursAt(s, i, t, h) {
      MatchAtComplete(s, i, t, h);
    }
  }

  /** The leftmost position at or after `from` where the pattern matches. */
  function Search(s: string, from: nat): (k: Option<nat>)
    requires from <= |s|
    ensures k.Some? ==> from <= k.value <= |s| && MatchAt(s, k.value).Some?
    decreases |s| - from
  {
    if MatchAt(s, from).Some? then Some(from)
    else if from == |s| then None
    else Search(s, from + 1)
  }

  /** Search finds the leftmost match, and finds none only when there is none. */
  lemma {:induction false} SearchLeftmost(s: string, from: nat)
    requires from <= |s|
    ensures Search(s, from).Some? ==> forall j :: from <= j < Search(s, from).value ==> MatchAt(s, j).None?
    ensures Search(s, from).None? ==> forall j :: from <= j <= |s| ==> MatchAt(s, j).None?
    decreases |s| - from
  {
    if MatchAt(s, from).None? && from < |s| {
      SearchLeftmost(s, from + 1);
    }
  }

  /** `10^k`. */
  function Pow10(k: nat): (p: nat)
    ensures p > 0
  {
    if k == 0 then 1 else 10 * Pow10(k - 1)
  }

  /** The number a digit string spells in decimal. */
  function DigitsValue(ds: string): nat
    requires AllDigits(ds)
  {
    if ds == [] then 0 else 10 * DigitsValue(ds[..|ds| - 1]) + (ds[|ds| - 1] as int - '0' as int)
  }

  /** The step of DigitsValueConcat the solver does not find unaided: ten times a product. */
  lemma MulComm10(a: nat, p: nat)
    ensures 10 * (a * p) == a * (10 * p)
  {
  }

  lemma AllDigitsConcat(w: string, f: string)
    requires AllDigits(w) && AllDigits(f)
    ensures AllDigits(w + f)
  {
    forall i | 0 <= i < |w + f| ensures IsDigit((w + f)[i]) {
      if i < |w| { assert (w + f)[i] == w[i]; } else { assert (w + f)[i] == f[i - |w|]; }
    }
  }

  /** Reading `w` followed by `f` shifts the value of `w` by the digits of `f`. */
  lemma {:induction false} DigitsValueConcat(w: string, f: string)
    requires AllDigits(w) && AllDigits(f)
    ensures AllDigits(w + f)
    ensures DigitsValue(w + f) == DigitsValue(w) * Pow10(|f|) + DigitsValue(f)
    decreases |f|
  {
    AllDigitsConcat(w, f);
    if f == [] {
      assert w + f == w;
    } else {
      var f' := f[..|f| - 1];
      var d := f[|f| - 1] as int - '0' as int;
      assert (w + f)[..|w + f| - 1] == w + f';
      assert (w + f)[|w + f| - 1] == f[|f| - 1];
      DigitsValueConcat(w, f');
      var a, p, b := DigitsValue(w), Pow10(|f'|), DigitsValue(f');
      calc {
        DigitsValue(w + f);
        10 * DigitsValue(w + f') + d;
        10 * (a * p + b) + d;
        { MulComm10(a, p); }
        a * (10 * p) + (10 * b + d);
        a * Pow10(|f|) + DigitsValue(f);
      }
    }
  }

  /**
   * `parseFloat` of one captured group: the digits with the point removed,
   * scaled by the number of digits after the point.
   */
  function CaptureValue(c: Capture): (v: Value)
    requires WellFormed(c)
    ensures v.Num? && v.scale == |c.frac|
    ensures v.mantissa == DigitsValue(c.whole) * Pow10(|c.frac|) + DigitsValue(c.frac)
  {
    DigitsValueConcat(c.whole, c.frac);
    Num(DigitsValue(c.whole + c.frac), |c.frac|)
  }

  /**
   * The notification decode: the temperature and humidity of the leftmost
   * match of the pattern, or None when the payload does not match.
   */
  function ParseNotification(s: string): (r: Option<(Value, Value)>)
    ensures r.None? ==> forall i :: 0 <= i <= |s| ==> MatchAt(s, i).None?
    ensures r.Some? ==> exists i: nat, t, h :: i <= |s| && OccursAt(s, i, t, h) && r.value == (CaptureValue(t), CaptureValue(h))
  {
    SearchLeftmost(s, 0);
    match Search(s, 0)
    case None => None
    case Some(k) =>
      var (t, h) := MatchAt(s, k).value;
      MatchAtCharacterised(s, k, t, h);
      Some((CaptureValue(t), CaptureValue(h)))
  }

  /** A payload that does not contain the pattern anywhere decodes to None, and conversely. */
  lemma ParseNotificationNone(s: string)
    ensures ParseNotification(s).None? <==> forall i, t, h :: 0 <= i <= |s| ==> !OccursAt(s, i, t, h)
  {
    SearchLeftmost(s, 0);
    if ParseNotification(s).None? {
      forall i, t, h | 0 <= i <= |s| ensures !OccursAt(s, i, t, h) {
        MatchAtCharacterised(s, i, t, h);
      }
    } else {
      var k := Search(s, 0).value;
      var (t, h) := MatchAt(s, k).value;
      MatchAtCharacterised(s, k, t, h);
    }
  }

  /** A decoded payload carries the values of the leftmost occurrence of the pattern. */
  lemma ParseNotificationLeftmost(s: string, i: nat, t: Capture, h: Capture)
    requires OccursAt(s, i, t, h)
    requires forall j, t', h' :: 0 <= j < i ==> !OccursAt(s, j, t', h')
    ensures ParseNotification(s) == Some((CaptureValue(t), CaptureValue(h)))
  {
    MatchAtCharacterised(s, i, t, h);
    forall j | 0 <= j < i ensures MatchAt(s, j).None? {
      if MatchAt(s, j).Some? {
        var (t', h') := MatchAt(s, j).value;
        MatchAtCharacterised(s, j, t', h');
        assert false;
      }
    }
    SearchFindsFirstMatch(s, i);
  }

  /** The search from the start stops at the first position with a match. */
  lemma SearchFindsFirstMatch(s: string, i: nat)
    requires i <= |s| && MatchAt(s, i).Some?
    requires forall j :: 0 <= j < i ==> MatchAt(s, j).None?
    ensures Search(s, 0) == Some(i)
  {
    SearchLeftmost(s, 0);
    var r := Search(s, 0);
    if r.None? {
      assert false;
    } else if r.value < i {
      assert false;
    } else if r.value > i {
      assert false;
    }
  }

  /** The text of a reading, on its own, decodes to that reading. */
  lemma ParseFormatRoundTrip(t: Capture, h: Capture)
    requires WellFormed(t) && WellFormed(h)
    ensures ParseNotification(Format(t, h)) == Some((CaptureValue(t), CaptureValue(h)))
  {
    ParseNotificationLeftmost(Format(t, h), 0, t, h);
  }

  /** The two captures of `T=24.5 H=55.0` read 24.5 and 55.0. */
  lemma ExampleCaptureValues()
    ensures CaptureValue(Capture("24", "5")) == Num(245, 1)
    ensures CaptureValue(Capture("55", "0")) == Num(550, 1)
  {
    assert "24"[..1] == "2" && "55"[..1] == "5";
    assert DigitsValue("24") == 24 && DigitsValue("55") == 55;
    assert Pow10(1) == 10;
  }

  /** `T=24.5 H=55.0` reads 24.5 degrees and 55.0 %. */
  lemma ParseNotificationExample()
    ensures ParseNotification("T=24.5 H=55.0") == Some((Num(245, 1), Num(550, 1)))
  {
    var t, h := Capture("24", "5"), Capture("55", "0");
    assert Format(t, h) == "T=24.5 H=55.0";
    ParseFormatRoundTrip(t, h);
    ExampleCaptureValues();
  }
}
