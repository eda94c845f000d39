/** The speaker label the recognizer puts in front of a finalized sentence,
    `[说话者_<id>] <text>`, and its inverse, which shows the label is unambiguous. */
module SpeakerTag {
  import opened Common

  /** Text before the speaker number ("speaker_" in Chinese, inside a bracket). */
  const TagOpen: string := "[说话者_"

  /** Text between the speaker number and the sentence. */
  const TagClose: string := "] "

  predicate IsDigit(c: char) {
    '0' <= c <= '9'
  }

  predicate AllDigits(s: string) {
    forall i :: 0 <= i < |s| ==> IsDigit(s[i])
  }

  function Digit(n: nat): (c: char)
    requires n < 10
    ensures IsDigit(c)
  {
    ('0' as int + n) as char
  }

  function DigitValue(c: char): nat
    requires IsDigit(c)
  {
    c as int - '0' as int
  }

  /** The number a non-empty run of decimal digits denotes. */
  function ParseDigits(s: string): nat
    requires AllDigits(s)
  {
    if |s| == 0 then 0 else ParseDigits(s[..|s| - 1]) * 10 + DigitValue(s[|s| - 1])
  }

  /** Decimal rendering of a non-negative speaker number, as string interpolation writes it:
      the digits of `n` with no leading zero. */
  function NatToString(n: nat): (s: string)
    ensures |s| > 0 && AllDigits(s)
    ensures ParseDigits(s) == n
    ensures s[0] == '0' <==> n == 0
    ensures |s| > 1 ==> s[0] != '0'
    decreases n
  {
    if n < 10 then [Digit(n)]
    else
      var p := NatToString(n / 10);
      var s := p + [Digit(n % 10)];
      assert s[..|s| - 1] == p;
      s
  }

  /** Length of the run of digits at the start of `s`. */
  function DigitRun(s: string): (k: nat)
    ensures k <= |s|
    ensures AllDigits(s[..k])
    ensures k < |s| ==> !IsDigit(s[k])
  {
    if |s| == 0 || !IsDigit(s[0]) then 0
    else
      var k := 1 + DigitRun(s[1..]);
      assert s[..k] == [s[0]] + s[1..][..k - 1];
      k
  }

  /** A finalized sentence attributed to `speaker`. */
  function Tagged(speaker: nat, text: string): string {
    TagOpen + NatToString(speaker) + TagClose + text
  }

  /** Recovers the speaker number and the sentence from a tagged sentence;
      `None` when the text does not start with a well-formed label. */
  function Untag(s: string): Option<(nat, string)> {
    if |s| < |TagOpen| || s[..|TagOpen|] != TagOpen then None
    else
      var rest := s[|TagOpen|..];
      var k := DigitRun(rest);
      if k == 0 || |rest| < k + |TagClose| || rest[k..k + |TagClose|] != TagClose then None
      else Some((ParseDigits(rest[..k]), rest[k + |TagClose|..]))
  }

  lemma {:induction false} DigitRunAppend(d: string, t: string)
    requires AllDigits(d)
    ensures DigitRun(d + t) == |d| + DigitRun(t)
    decreases |d|
  {
    if |d| > 0 {
      assert (d + t)[1..] == d[1..] + t;
      DigitRunAppend(d[1..], t);
    } else {
      assert d + t == t;
    }
  }

  /** Reading the label back yields the speaker and the sentence it was put on. */
  lemma UntagTagged(speaker: nat, text: string)
    ensures Untag(Tagged(speaker, text)) == Some((speaker, text))
  {
    var d := NatToString(speaker);
    var s := Tagged(speaker, text);
    assert s[..|TagOpen|] == TagOpen;
    var rest := s[|TagOpen|..];
    assert rest == d + (TagClose + text);
    DigitRunAppend(d, TagClose + text);
    assert DigitRun(TagClose + text) == 0;
    assert rest[..|d|] == d;
    assert rest[|d|..|d| + |TagClose|] == TagClose;
    assert rest[|d| + |TagClose|..] == text;
  }

  /** Different speakers or different sentences never produce the same tagged text. */
  lemma TaggedInjective(s1: nat, t1: string, s2: nat, t2: string)
    requires Tagged(s1, t1) == Tagged(s2, t2)
    ensures s1 == s2 && t1 == t2
  {
    UntagTagged(s1, t1);
    UntagTagged(s2, t2);
  }
}
