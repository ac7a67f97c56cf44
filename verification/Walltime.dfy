/** Walltimes: the `time_limit` text of a formal contract, and the reader of resource hints. */
module Walltime {
  import opened Text

  /* ---- printing ---- */

  /** `padStart(2, "0")`. */
  function PadStart(s: string): string {
    if |s| == 0 then "00" else if |s| == 1 then "0" + s else s
  }

  function Fields(seconds: nat): (parts: seq<string>)
    ensures |parts| == 3
  {
    [PadStart(Numeral(seconds / 3600)), PadStart(Numeral((seconds % 3600) / 60)), PadStart(Numeral(seconds % 60))]
  }

  function TimeLimit(seconds: nat): string {
    Join(Fields(seconds), ':')
  }

  /* ---- reading ---- */

  /** The pattern: two to four digits, two digits, two digits. */
  function Matched(value: string): (m: Option<seq<string>>)
    ensures m.Some? ==> |m.value| == 3 && forall p :: p in m.value ==> AllDigits(p)
  {
    var parts := Split(value, ':');
    if |parts| == 3 && 2 <= |parts[0]| <= 4 && |parts[1]| == 2 && |parts[2]| == 2
       && AllDigits(parts[0]) && AllDigits(parts[1]) && AllDigits(parts[2])
    then Some(parts) else None
  }

  function ParseTimeLimit(value: string, fallback: int): int {
    match Matched(value)
    case None => fallback
    case Some(parts) =>
      assert parts[0] in parts && parts[1] in parts && parts[2] in parts;
      var hours, minutes, seconds := NumeralValue(parts[0]), NumeralValue(parts[1]), NumeralValue(parts[2]);
      var result := hours * 3600 + minutes * 60 + seconds;
      if minutes < 60 && seconds < 60 && result > 0 then result else fallback
  }

  /** The walltime bounds of the input validator. */
  predicate WalltimeValid(seconds: int) {
    1 <= seconds <= 31_536_000
  }

  /* ---- numerals of a given width ---- */

  function Pow10(k: nat): nat {
    if k == 0 then 1 else 10 * Pow10(k - 1)
  }

  lemma {:induction false} NumeralWidth(n: nat, k: nat)
    requires k > 0
    ensures |Numeral(n)| <= k <==> n < Pow10(k)
    decreases k
  {
    if k == 1 {
      assert Pow10(1) == 10;
    } else if n >= 10 {
      NumeralWidth(n / 10, k - 1);
    } else {
      PowLarge(k);
    }
  }

  lemma {:induction false} PowLarge(k: nat)
    requires k > 0
    ensures Pow10(k) >= 10
  {
    if k > 1 {
      PowLarge(k - 1);
    }
  }

  lemma {:induction false} LeadingZero(s: string)
    requires AllDigits(s)
    ensures NumeralValue("0" + s) == NumeralValue(s)
    decreases |s|
  {
    var z := "0" + s;
    if s == [] {
      assert z[..0] == [];
    } else {
      LeadingZero(s[..|s| - 1]);
      assert z[..|z| - 1] == "0" + s[..|s| - 1];
    }
  }

  lemma PadValue(n: nat)
    ensures AllDigits(PadStart(Numeral(n))) && NumeralValue(PadStart(Numeral(n))) == n
    ensures |PadStart(Numeral(n))| >= 2
    ensures |PadStart(Numeral(n))| == 2 <==> n < 100
    ensures |PadStart(Numeral(n))| <= 4 <==> n < 10_000
  {
    NumeralRoundTrip(n);
    LeadingZero(Numeral(n));
    NumeralWidth(n, 2);
    NumeralWidth(n, 4);
    assert Pow10(2) == 100;
    assert Pow10(3) == 1000 && Pow10(4) == 10_000;
  }

  lemma NoColon(s: string)
    requires AllDigits(s)
    ensures ':' !in s
  {
  }

  /** The printed text splits into its three fields again. */
  lemma FieldsSplit(seconds: nat)
    ensures Split(TimeLimit(seconds), ':') == Fields(seconds)
    ensures forall p :: p in Fields(seconds) ==> AllDigits(p)
  {
    PadValue(seconds / 3600);
    PadValue((seconds % 3600) / 60);
    PadValue(seconds % 60);
    forall p | p in Fields(seconds)
      ensures AllDigits(p) && ':' !in p
    {
      NoColon(p);
    }
    SplitJoin(Fields(seconds), ':');
  }

  lemma HoursWidth(seconds: nat)
    ensures seconds / 3600 < 10_000 <==> seconds < 36_000_000
    ensures seconds == (seconds / 3600) * 3600 + ((seconds % 3600) / 60) * 60 + seconds % 60
    ensures (seconds % 3600) / 60 < 60
  {
    assert seconds % 60 == (seconds % 3600) % 60 by {
      SixtyInHour(seconds / 3600, seconds % 3600);
    }
  }

  lemma {:induction false} ModAbsorbs(a: nat, r: nat)
    ensures (a * 60 + r) % 60 == r % 60
  {
    if a > 0 {
      ModAbsorbs(a - 1, r);
      assert a * 60 + r == ((a - 1) * 60 + r) + 60;
    }
  }

  lemma SixtyInHour(q: nat, r: nat)
    ensures (q * 3600 + r) % 60 == r % 60
  {
    ModAbsorbs(q * 60, r);
  }

  /** Printing and reading back gives the number, for any fallback, exactly when it is positive and
      its hours fit four digits. */
  lemma PrintedReadsBack(seconds: nat, fallback: int)
    ensures ParseTimeLimit(TimeLimit(seconds), fallback) == if 1 <= seconds < 36_000_000 then seconds else fallback
  {
    hide Numeral, NumeralValue, Split, Join, PadStart;
    FieldsSplit(seconds);
    PadValue(seconds / 3600);
    PadValue((seconds % 3600) / 60);
    PadValue(seconds % 60);
    HoursWidth(seconds);
  }

  /** In particular for every walltime the validator admits. */
  lemma AdmittedReadsBack(seconds: int, fallback: int)
    requires WalltimeValid(seconds)
    ensures ParseTimeLimit(TimeLimit(seconds), fallback) == seconds
  {
    PrintedReadsBack(seconds, fallback);
  }

  /* ---- the other way round ---- */

  /** Whatever the fallback, the text itself decides. */
  predicate Accepted(value: string) {
    ParseTimeLimit(value, 0) != 0
  }

  lemma AcceptedMeaning(value: string, fallback: int)
    ensures ParseTimeLimit(value, fallback) == if Accepted(value) then ParseTimeLimit(value, 0) else fallback
    ensures Accepted(value) ==> 1 <= ParseTimeLimit(value, 0) < 36_000_000
  {
    if Matched(value).Some? {
      var parts := Matched(value).value;
      assert parts[0] in parts;
      ValueBound(parts[0]);
      PowMonotone(|parts[0]|, 4);
      assert Pow10(3) == 1000 && Pow10(4) == 10_000;
    }
  }

  lemma {:induction false} ValueBound(s: string)
    requires AllDigits(s)
    ensures NumeralValue(s) < Pow10(|s|)
  {
    if s != [] {
      ValueBound(s[..|s| - 1]);
    }
  }

  lemma {:induction false} PowMonotone(j: nat, k: nat)
    requires j <= k
    ensures Pow10(j) <= Pow10(k)
    decreases k - j
  {
    if j < k {
      PowMonotone(j + 1, k);
    }
  }

  /** Two digits, or no zero in front. */
  predicate NoSpareZero(hours: string) {
    |hours| == 2 || (hours != "" && hours[0] != '0')
  }

  lemma PadOfValue(s: string)
    requires AllDigits(s) && |s| >= 2
    ensures PadStart(Numeral(NumeralValue(s))) == s <==> NoSpareZero(s)
  {
    if s[0] != '0' {
      CanonicalRoundTrip(s);
    } else if |s| == 2 {
      LeadingZero(s[1..]);
      assert s == "0" + s[1..];
      CanonicalRoundTrip(s[1..]);
    } else {
      var n := NumeralValue(s);
      NumeralCanonical(n);
      assert |Numeral(n)| >= 2 ==> PadStart(Numeral(n))[0] != '0';
    }
  }

  lemma SplitsApart(h: nat, m: nat, s: nat)
    requires m < 60 && s < 60
    ensures var n := h * 3600 + m * 60 + s; n / 3600 == h && (n % 3600) / 60 == m && n % 60 == s
  {
    var n := h * 3600 + m * 60 + s;
    assert n / 3600 == h && n % 3600 == m * 60 + s;
    SixtyInHour(h, m * 60 + s);
  }

  /** An accepted text prints back to itself exactly when its hours carry no spare zero. */
  lemma AcceptedPrintsBack(value: string)
    requires Accepted(value)
    ensures 1 <= ParseTimeLimit(value, 0) && Matched(value).Some?
    ensures TimeLimit(ParseTimeLimit(value, 0)) == value <==> NoSpareZero(Matched(value).value[0])
  {
    hide Numeral, NumeralValue, Split, Join, PadStart, Canonical;
    var parts := Matched(value).value;
    assert parts[0] in parts && parts[1] in parts && parts[2] in parts;
    var n := ParseTimeLimit(value, 0);
    PadOfValue(parts[0]);
    PadOfValue(parts[1]);
    PadOfValue(parts[2]);
    SplitsApart(NumeralValue(parts[0]), NumeralValue(parts[1]), NumeralValue(parts[2]));
    JoinSplit(value, ':');
    FieldsSplit(n);
    assert Fields(n)[1] == parts[1] && Fields(n)[2] == parts[2];
    assert Fields(n) == parts <==> Fields(n)[0] == parts[0];
  }

  /* ---- what is read, on the characters ---- */

  predicate DigitsOnly(s: string) {
    forall i :: 0 <= i < |s| ==> '0' <= s[i] <= '9'
  }

  /** Two to four digits for the hours, two for the minutes, two for the seconds. */
  predicate ClockText(value: string, hours: string, minutes: string, seconds: string) {
    && value == hours + ":" + minutes + ":" + seconds
    && DigitsOnly(hours) && DigitsOnly(minutes) && DigitsOnly(seconds)
    && 2 <= |hours| <= 4 && |minutes| == 2 && |seconds| == 2
  }

  function DigitValue(c: char): int {
    c as int - '0' as int
  }

  function TwoDigits(s: string): int
    requires |s| == 2
  {
    10 * DigitValue(s[0]) + DigitValue(s[1])
  }

  function HoursValue(s: string): int
    requires 2 <= |s| <= 4
  {
    if |s| == 2 then TwoDigits(s)
    else if |s| == 3 then 10 * TwoDigits(s[..2]) + DigitValue(s[2])
    else 100 * TwoDigits(s[..2]) + TwoDigits(s[2..])
  }

  lemma TwoIs(s: string)
    requires |s| == 2 && AllDigits(s)
    ensures NumeralValue(s) == TwoDigits(s)
  {
    assert s[..1][..0] == [];
    assert NumeralValue(s[..1]) == DigitValue(s[0]);
  }

  lemma HoursIs(s: string)
    requires 2 <= |s| <= 4 && AllDigits(s)
    ensures NumeralValue(s) == HoursValue(s)
  {
    if |s| == 2 {
      TwoIs(s);
    } else if |s| == 3 {
      TwoIs(s[..2]);
    } else {
      TwoIs(s[..2]);
      assert s[..3][..2] == s[..2];
    }
  }

  lemma JoinThree(a: string, b: string, c: string)
    ensures Join([a, b, c], ':') == a + ":" + b + ":" + c
  {
    assert [a, b, c] == [a] + [b, c] && [b, c] == [b] + [c];
    JoinCons(a, [b, c], ':');
    JoinCons(b, [c], ':');
    JoinOne(c, ':');
  }

  lemma ClockMatches(value: string, hours: string, minutes: string, seconds: string)
    requires ClockText(value, hours, minutes, seconds)
    ensures Matched(value) == Some([hours, minutes, seconds])
  {
    var parts := [hours, minutes, seconds];
    JoinThree(hours, minutes, seconds);
    forall p | p in parts
      ensures ':' !in p
    {
      assert DigitsOnly(p);
    }
    SplitJoin(parts, ':');
  }

  lemma MatchedIsClock(value: string)
    requires Matched(value).Some?
    ensures var parts := Matched(value).value; ClockText(value, parts[0], parts[1], parts[2])
  {
    hide Split;
    var parts := Matched(value).value;
    JoinSplit(value, ':');
    JoinThree(parts[0], parts[1], parts[2]);
    assert parts == [parts[0], parts[1], parts[2]];
    assert parts[0] in parts && parts[1] in parts && parts[2] in parts;
  }

  /** A text is read as a clock time with minutes and seconds below sixty, if it is one and not all
      zero; anything else comes out as the fallback. */
  lemma ReadsExactly(value: string, fallback: int)
    ensures forall hours, minutes, seconds :: ClockText(value, hours, minutes, seconds) ==>
      var n := HoursValue(hours) * 3600 + TwoDigits(minutes) * 60 + TwoDigits(seconds);
      ParseTimeLimit(value, fallback) == if TwoDigits(minutes) < 60 && TwoDigits(seconds) < 60 && n > 0 then n else fallback
    ensures (forall hours, minutes, seconds :: !ClockText(value, hours, minutes, seconds)) ==>
      ParseTimeLimit(value, fallback) == fallback
  {
    hide Matched, NumeralValue, HoursValue, TwoDigits;
    forall hours, minutes, seconds | ClockText(value, hours, minutes, seconds)
      ensures var n := HoursValue(hours) * 3600 + TwoDigits(minutes) * 60 + TwoDigits(seconds);
        ParseTimeLimit(value, fallback) == if TwoDigits(minutes) < 60 && TwoDigits(seconds) < 60 && n > 0 then n else fallback
    {
      ClockMatches(value, hours, minutes, seconds);
      HoursIs(hours);
      TwoIs(minutes);
      TwoIs(seconds);
    }
    if Matched(value).Some? {
      MatchedIsClock(value);
    }
  }
}
