/** client/src/components/PasswordStrengthIndicator.tsx: the strength score
    of a password, its label and colour, and the width of the bar. Each
    regular-expression test there is a search for one character of an ASCII
    class; on UTF-16 code units and on characters the outcome is the same,
    since a surrogate is never in such a class. */
module PasswordStrength {
  import opened Common

  /** `/[A-Z]/.test(s)` */
  predicate HasUpper(s: string) { exists i :: 0 <= i < |s| && IsUpper(s[i]) }
  /** `/[a-z]/.test(s)` */
  predicate HasLower(s: string) { exists i :: 0 <= i < |s| && IsLower(s[i]) }
  /** `/[0-9]/.test(s)` */
  predicate HasDigit(s: string) { exists i :: 0 <= i < |s| && IsDigit(s[i]) }
  /** `/[^A-Za-z0-9]/.test(s)` */
  predicate HasSymbol(s: string) { exists i :: 0 <= i < |s| && !IsAlnum(s[i]) }
  /** `s.length >= 8`, in UTF-16 code units. */
  predicate LongEnough(s: string) { Utf16Length(s) >= 8 }

  /** The five criteria, in the order the indicator checks them. */
  function Criteria(s: string): seq<bool>
  {
    [LongEnough(s), HasUpper(s), HasLower(s), HasDigit(s), HasSymbol(s)]
  }

  function CountTrue(bs: seq<bool>): nat
  {
    if bs == [] then 0 else (if bs[0] then 1 else 0) + CountTrue(bs[1..])
  }

  /** The number of criteria the password satisfies. */
  function Score(s: string): nat
  {
    CountTrue(Criteria(s))
  }

  /** The entries of `strengthMap`, indexed by score. */
  const Messages: seq<string> := ["Very Weak", "Weak", "Fair", "Good", "Strong", "Very Strong"]
  const Colors: seq<string> := ["bg-red-500", "bg-orange-500", "bg-yellow-500", "bg-blue-500", "bg-green-500", "bg-green-700"]

  lemma {:induction false} CountTrueBound(bs: seq<bool>)
    ensures CountTrue(bs) <= |bs|
    ensures CountTrue(bs) == |bs| <==> forall i :: 0 <= i < |bs| ==> bs[i]
    ensures CountTrue(bs) == 0 <==> forall i :: 0 <= i < |bs| ==> !bs[i]
    decreases |bs|
  {
    if bs != [] {
      CountTrueBound(bs[1..]);
      forall i | 0 < i < |bs| ensures bs[i] == bs[1..][i - 1] { }
    }
  }

  /** The score adds one per satisfied criterion. */
  lemma ScoreIsSum(s: string)
    ensures Score(s) == (if LongEnough(s) then 1 else 0) + (if HasUpper(s) then 1 else 0)
      + (if HasLower(s) then 1 else 0) + (if HasDigit(s) then 1 else 0) + (if HasSymbol(s) then 1 else 0)
  {
    var c := Criteria(s);
    var c1, c2, c3, c4 := c[1..], c[2..], c[3..], c[4..];
    assert c1[1..] == c2 && c2[1..] == c3 && c3[1..] == c4 && c4[1..] == [];
    assert CountTrue(c4) == (if c[4] then 1 else 0);
    assert CountTrue(c3) == (if c[3] then 1 else 0) + CountTrue(c4);
    assert CountTrue(c2) == (if c[2] then 1 else 0) + CountTrue(c3);
    assert CountTrue(c1) == (if c[1] then 1 else 0) + CountTrue(c2);
  }

  /** `calculateStrength()`: one increment per satisfied criterion, then
      the table entry of the score. */
  method CalculateStrength(password: string) returns (score: nat, message: string, color: string)
    ensures score == Score(password) && score <= 5
    ensures message == Messages[score] && color == Colors[score]
  {
    score := 0;
    if Utf16Length(password) >= 8 { score := score + 1; }
    if exists i :: 0 <= i < |password| && IsUpper(password[i]) { score := score + 1; }
    if exists i :: 0 <= i < |password| && IsLower(password[i]) { score := score + 1; }
    if exists i :: 0 <= i < |password| && IsDigit(password[i]) { score := score + 1; }
    if exists i :: 0 <= i < |password| && !IsAlnum(password[i]) { score := score + 1; }
    ScoreIsSum(password);
    message := Messages[score];
    color := Colors[score];
  }

  /** The score lies in 0..5; it is 0 for the empty password and 5 exactly
      when all five criteria hold. */
  lemma ScoreBounds(s: string)
    ensures 0 <= Score(s) <= 5
    ensures s == [] ==> Score(s) == 0
    ensures Score(s) == 5 <==> LongEnough(s) && HasUpper(s) && HasLower(s) && HasDigit(s) && HasSymbol(s)
  {
    var c := Criteria(s);
    CountTrueBound(c);
    assert c[0] == LongEnough(s) && c[1] == HasUpper(s) && c[2] == HasLower(s) && c[3] == HasDigit(s) && c[4] == HasSymbol(s);
  }

  /** The six labels, from "Very Weak" at 0 to "Very Strong" at 5. */
  lemma LabelTable()
    ensures |Messages| == 6 && |Colors| == 6
    ensures Messages[0] == "Very Weak" && Messages[1] == "Weak" && Messages[2] == "Fair"
    ensures Messages[3] == "Good" && Messages[4] == "Strong" && Messages[5] == "Very Strong"
    ensures forall i, j :: 0 <= i < j < 6 ==> Messages[i] != Messages[j]
  {
  }

  /** Appending characters never lowers the score: every criterion is a
      length floor or the presence of a character. */
  lemma AppendNeverLowers(s: string, t: string)
    ensures Score(s) <= Score(s + t)
  {
    Utf16LengthAppend(s, t);
    ScoreIsSum(s);
    ScoreIsSum(s + t);
    if HasUpper(s) { var i :| 0 <= i < |s| && IsUpper(s[i]); assert (s + t)[i] == s[i]; }
    if HasLower(s) { var i :| 0 <= i < |s| && IsLower(s[i]); assert (s + t)[i] == s[i]; }
    if HasDigit(s) { var i :| 0 <= i < |s| && IsDigit(s[i]); assert (s + t)[i] == s[i]; }
    if HasSymbol(s) { var i :| 0 <= i < |s| && !IsAlnum(s[i]); assert (s + t)[i] == s[i]; }
  }

  /** `${(score / 5) * 100}%`. For a score in 0..5 the quotient times 100
      is the integer `score * 20` (0, 20, 40, 60, 80, 100), printed without
      a fraction. */
  function Width(score: nat): (w: string)
    requires score <= 5
  {
    IntToString(score * 20) + "%"
  }

  /** The bar is empty at 0 and full at 5, and the number before the "%"
      reads back as `score * 20`. */
  lemma WidthSteps(score: nat)
    requires score <= 5
    ensures Width(0) == "0%" && Width(5) == "100%"
    ensures var w := Width(score);
      && EndsWith(w, "%") && AllDigits(w[..|w| - 1]) && DecimalValue(w[..|w| - 1]) == score * 20
  {
    assert NatToString(100) == NatToString(10) + [DigitChar(0)];
    assert NatToString(10) == NatToString(1) + [DigitChar(0)];
    var w := Width(score);
    assert w[..|w| - 1] == NatToString(score * 20);
    DecimalValueOfNatToString(score * 20);
  }
}
