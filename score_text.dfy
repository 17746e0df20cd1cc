/** The texts the session writes to the UI: "Height: " + score while playing and
    "Final Height: " + score on the game-over panel. C# renders the int score in
    decimal without leading zeros; the score is never negative. */
module ScoreText {

  predicate IsDigits(s: string) {
    forall i :: 0 <= i < |s| ==> '0' <= s[i] <= '9'
  }

  function DigitChar(d: nat): (c: char)
    requires d < 10
    ensures '0' <= c <= '9' && (c as int) - ('0' as int) == d
  {
    (('0' as int) + d) as char
  }

  function DigitValue(c: char): (d: nat)
    requires '0' <= c <= '9'
    ensures d < 10
  {
    (c as int) - ('0' as int)
  }

  /** Decimal rendering of a non-negative number, most significant digit first. */
  function NatToString(n: nat): (r: string)
    ensures |r| >= 1 && IsDigits(r)
    ensures r[0] == '0' ==> n == 0
    ensures |r| > 1 ==> r[0] != '0'
    decreases n
  {
    if n < 10 then [DigitChar(n)] else NatToString(n / 10) + [DigitChar(n % 10)]
  }

  /** Reads a string of decimal digits back as a number. */
  function ParseDecimal(s: string): nat
    requires IsDigits(s)
    decreases |s|
  {
    if s == [] then 0 else 10 * ParseDecimal(s[..|s| - 1]) + DigitValue(s[|s| - 1])
  }

  /** Rendering and reading back are inverse: the displayed number is the score. */
  lemma {:induction false} ParseNatToString(n: nat)
    ensures ParseDecimal(NatToString(n)) == n
    decreases n
  {
    if n >= 10 {
      var r := NatToString(n / 10);
      var c := DigitChar(n % 10);
      assert NatToString(n) == r + [c];
      assert (r + [c])[..|r|] == r;
      ParseNatToString(n / 10);
    }
  }

  const ScorePrefix: string := "Height: "
  const FinalPrefix: string := "Final Height: "

  /** The running score text written by UpdateScoreText. */
  function ScoreLabel(score: nat): (t: string)
    ensures |t| > |ScorePrefix| && t[..|ScorePrefix|] == ScorePrefix
    ensures IsDigits(t[|ScorePrefix|..]) && ParseDecimal(t[|ScorePrefix|..]) == score
    ensures t[|ScorePrefix|..] == NatToString(score)
  {
    ParseNatToString(score);
    assert (ScorePrefix + NatToString(score))[|ScorePrefix|..] == NatToString(score);
    ScorePrefix + NatToString(score)
  }

  /** The text shown on the game-over panel. */
  function FinalLabel(score: nat): (t: string)
    ensures |t| > |FinalPrefix| && t[..|FinalPrefix|] == FinalPrefix
    ensures IsDigits(t[|FinalPrefix|..]) && ParseDecimal(t[|FinalPrefix|..]) == score
    ensures t[|FinalPrefix|..] == NatToString(score)
  {
    ParseNatToString(score);
    assert (FinalPrefix + NatToString(score))[|FinalPrefix|..] == NatToString(score);
    FinalPrefix + NatToString(score)
  }
}
