/**
 * The human-readable order id of lib/db.ts `createOrder`:
 * `ORD-YYYYMMDD-NNNN`, where NNNN is the day's sequence number padded to at
 * least four digits; and a parser that reads one back.
 */
module OrderIds {
  import opened Wrappers
  import opened Text
  import opened Orders

  /** `${yyyy}${mm}${dd}`: the year as is, month and day padded to two digits. */
  function DateKey(d: Date): string {
    NatToString(d.year) + PadStart(NatToString(d.month), 2) + PadStart(NatToString(d.day), 2)
  }

  /** `ORD-${dateKey}-${String(num).padStart(4, "0")}`. */
  function FormatOrderId(d: Date, num: nat): string {
    "ORD-" + DateKey(d) + "-" + PadStart(NatToString(num), 4)
  }

  /** A date whose key is exactly eight digits (a four-digit year). */
  predicate IsCalendarDate(d: Date) {
    1000 <= d.year <= 9999 && 1 <= d.month <= 12 && 1 <= d.day <= 31
  }

  /** Reads `ORD-YYYYMMDD-NNNN…` (at least four sequence digits) back into its date and number. */
  function ParseOrderId(s: string): Option<(Date, nat)> {
    if |s| >= 17 && s[..4] == "ORD-" && AllDigits(s[4..8]) && AllDigits(s[8..10]) && AllDigits(s[10..12])
       && s[12] == '-' && AllDigits(s[13..]) then
      Some((Date(ParseDigits(s[4..8]), ParseDigits(s[8..10]), ParseDigits(s[10..12])), ParseDigits(s[13..])))
    else
      None
  }

  lemma TwoDigits(n: nat)
    requires n < 100
    ensures |PadStart(NatToString(n), 2)| == 2
  {
    if n < 10 {
      NatToStringLength(n, 0);
    } else {
      NatToStringLength(n, 1);
    }
  }

  lemma DateKeyShape(d: Date)
    requires IsCalendarDate(d)
    ensures |DateKey(d)| == 8 && AllDigits(DateKey(d))
    ensures DateKey(d)[..4] == NatToString(d.year)
    ensures DateKey(d)[4..6] == PadStart(NatToString(d.month), 2)
    ensures DateKey(d)[6..] == PadStart(NatToString(d.day), 2)
  {
    NatToStringLength(d.year, 3);
    TwoDigits(d.month);
    TwoDigits(d.day);
    ParsePadStart(d.month, 2);
    ParsePadStart(d.day, 2);
  }

  /**
   * The id has the documented shape: the prefix, eight date digits, a dash,
   * and the sequence number padded to four digits but never truncated.
   */
  lemma OrderIdShape(d: Date, num: nat)
    requires IsCalendarDate(d)
    ensures |FormatOrderId(d, num)| >= 17
    ensures FormatOrderId(d, num)[..4] == "ORD-"
    ensures FormatOrderId(d, num)[4..12] == DateKey(d)
    ensures FormatOrderId(d, num)[12] == '-'
    ensures FormatOrderId(d, num)[13..] == PadStart(NatToString(num), 4)
    ensures num >= 1000 ==> FormatOrderId(d, num)[13..] == NatToString(num)
    ensures num < 1000 ==> |FormatOrderId(d, num)| == 17
  {
    DateKeyShape(d);
    SequenceDigits(num);
    IdParts(DateKey(d), PadStart(NatToString(num), 4));
  }

  lemma IdParts(key: string, suffix: string)
    requires |key| == 8
    ensures var id := "ORD-" + key + "-" + suffix;
      |id| == 13 + |suffix| && id[..4] == "ORD-" && id[4..12] == key && id[12] == '-' && id[13..] == suffix
  {
  }

  /** `String(num).padStart(4, "0")` is four digits below 1000 and the plain number from 1000 on. */
  lemma SequenceDigits(num: nat)
    ensures |PadStart(NatToString(num), 4)| >= 4
    ensures num >= 1000 ==> PadStart(NatToString(num), 4) == NatToString(num)
    ensures num < 1000 ==> |PadStart(NatToString(num), 4)| == 4
  {
    if num >= 1000 {
      var k: nat :| Pow10(k) <= num < Pow10(k + 1) by { Pow10Bracket(num); }
      assert k >= 3 by {
        if k < 3 { Pow10Monotone(k + 1, 3); }
      }
      NatToStringLength(num, k);
    } else if num < 10 {
      NatToStringLength(num, 0);
    } else if num < 100 {
      NatToStringLength(num, 1);
    } else {
      NatToStringLength(num, 2);
    }
  }

  lemma Pow10Monotone(a: nat, b: nat)
    requires a <= b
    ensures Pow10(a) <= Pow10(b)
    decreases b - a
  {
    if a < b { Pow10Monotone(a + 1, b); }
  }

  lemma {:induction false} Pow10Bracket(n: nat)
    requires n >= 1
    ensures exists k: nat :: Pow10(k) <= n < Pow10(k + 1)
  {
    if n < 10 {
      assert Pow10(0) <= n < Pow10(1);
    } else {
      Pow10Bracket(n / 10);
      var k: nat :| Pow10(k) <= n / 10 < Pow10(k + 1);
      assert Pow10(k + 1) <= n < Pow10(k + 2);
    }
  }

  /** An id starts with the letter O and ends with a digit of the sequence number. */
  lemma OrderIdEnds(d: Date, num: nat)
    ensures |FormatOrderId(d, num)| > 0 && FormatOrderId(d, num)[0] == 'O'
    ensures IsDigit(FormatOrderId(d, num)[|FormatOrderId(d, num)| - 1])
  {
    var digits := NatToString(num);
    var pad := PadStart(digits, 4);
    assert FormatOrderId(d, num) == ("ORD-" + DateKey(d) + "-") + pad;
    assert pad[|pad| - 1] == pad[|pad| - |digits|..][|digits| - 1] == digits[|digits| - 1];
  }

  /** Parsing a formatted id gives back its date and sequence number. */
  lemma OrderIdRoundTrip(d: Date, num: nat)
    requires IsCalendarDate(d)
    ensures ParseOrderId(FormatOrderId(d, num)) == Some((d, num))
  {
    var year, month, day := NatToString(d.year), PadStart(NatToString(d.month), 2), PadStart(NatToString(d.day), 2);
    var sequence := PadStart(NatToString(num), 4);
    NatToStringLength(d.year, 3);
    TwoDigits(d.month);
    TwoDigits(d.day);
    SequenceDigits(num);
    IdFields(year, month, day, sequence);
    ParseNatToString(d.year);
    ParsePadStart(d.month, 2);
    ParsePadStart(d.day, 2);
    ParsePadStart(num, 4);
    ParseIdFields(FormatOrderId(d, num), year, month, day, sequence);
  }

  /** Where each field of `ORD-YYYYMMDD-N…` sits. */
  lemma IdFields(year: string, month: string, day: string, sequence: string)
    requires |year| == 4 && |month| == 2 && |day| == 2 && |sequence| >= 4
    ensures var id := "ORD-" + (year + month + day) + "-" + sequence;
      && |id| >= 17 && id[..4] == "ORD-" && id[12] == '-'
      && id[4..8] == year && id[8..10] == month && id[10..12] == day && id[13..] == sequence
  {
  }

  /** An id with digit fields in the right places parses to those fields. */
  lemma ParseIdFields(id: string, year: string, month: string, day: string, sequence: string)
    requires |id| >= 17 && id[..4] == "ORD-" && id[12] == '-'
    requires id[4..8] == year && id[8..10] == month && id[10..12] == day && id[13..] == sequence
    requires AllDigits(year) && AllDigits(month) && AllDigits(day) && AllDigits(sequence)
    ensures ParseOrderId(id)
      == Some((Date(ParseDigits(year), ParseDigits(month), ParseDigits(day)), ParseDigits(sequence)))
  {
  }

  /** Distinct (date, sequence) pairs never share an id. */
  lemma OrderIdInjective(d1: Date, s1: nat, d2: Date, s2: nat)
    requires IsCalendarDate(d1) && IsCalendarDate(d2)
    requires FormatOrderId(d1, s1) == FormatOrderId(d2, s2)
    ensures d1 == d2 && s1 == s2
  {
    OrderIdRoundTrip(d1, s1);
    OrderIdRoundTrip(d2, s2);
  }
}
