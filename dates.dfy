/**
 * Calendar dates as the app stores them: `YYYY-MM-DD` strings (expiry dates, task dates,
 * the last cleaning day). The rest of the model works on day numbers; this module shows
 * that comparing the stored strings agrees with comparing the dates they name.
 */
module Dates {
  import opened Text

  /** Days since 1970-01-01 in UTC: the model's representation of a calendar day. */
  type Day = int

  /** A calendar date, as the three fields of its `YYYY-MM-DD` text. */
  datatype CalendarDate = CalendarDate(year: nat, month: nat, day: nat)

  /** Dates whose text has exactly four year digits and two month and day digits. */
  predicate IsWritable(d: CalendarDate) {
    d.year <= 9999 && 1 <= d.month <= 12 && 1 <= d.day <= 31
  }

  /** Two decimal digits, zero-padded. */
  function Pad2(n: nat): (s: string)
    requires n < 100
    ensures |s| == 2 && AllDigits(s)
  {
    [DigitChar(n / 10), DigitChar(n % 10)]
  }

  /** Four decimal digits, zero-padded. */
  function Pad4(n: nat): (s: string)
    requires n < 10000
    ensures |s| == 4 && AllDigits(s)
  {
    Pad2(n / 100) + Pad2(n % 100)
  }

  /** The `YYYY-MM-DD` text of a date (`toISOString().split('T')[0]`). */
  function IsoDate(d: CalendarDate): (s: string)
    requires IsWritable(d)
    ensures |s| == 10 && s[4] == '-' && s[7] == '-'
  {
    Pad4(d.year) + ("-" + (Pad2(d.month) + ("-" + Pad2(d.day))))
  }

  /** Chronological order of calendar dates. */
  predicate Before(a: CalendarDate, b: CalendarDate) {
    || a.year < b.year
    || (a.year == b.year && a.month < b.month)
    || (a.year == b.year && a.month == b.month && a.day < b.day)
  }

  /** JavaScript's `<` on strings: lexicographic order of the character codes. */
  predicate LexLess(a: string, b: string)
    decreases |a|
  {
    if a == [] then b != []
    else b != [] && (a[0] < b[0] || (a[0] == b[0] && LexLess(a[1..], b[1..])))
  }

  /** Comparing two texts made of equally long heads compares the heads first, then the tails. */
  lemma {:induction false} LexLessConcat(x1: string, y1: string, x2: string, y2: string)
    requires |x1| == |x2|
    ensures LexLess(x1 + y1, x2 + y2) <==> LexLess(x1, x2) || (x1 == x2 && LexLess(y1, y2))
    decreases |x1|
  {
    if x1 == [] {
      assert x1 + y1 == y1 && x2 + y2 == y2;
    } else {
      assert (x1 + y1)[0] == x1[0] && (x2 + y2)[0] == x2[0];
      assert (x1 + y1)[1..] == x1[1..] + y1;
      assert (x2 + y2)[1..] == x2[1..] + y2;
      LexLessConcat(x1[1..], y1, x2[1..], y2);
      if x1[0] == x2[0] && x1[1..] == x2[1..] {
        assert x1 == [x1[0]] + x1[1..] && x2 == [x2[0]] + x2[1..];
      }
    }
  }

  lemma Pad2Order(a: nat, b: nat)
    requires a < 100 && b < 100
    ensures LexLess(Pad2(a), Pad2(b)) <==> a < b
    ensures Pad2(a) == Pad2(b) <==> a == b
  {
    LexLessConcat([DigitChar(a / 10)], [DigitChar(a % 10)], [DigitChar(b / 10)], [DigitChar(b % 10)]);
    assert [DigitChar(a / 10)] + [DigitChar(a % 10)] == Pad2(a);
    assert [DigitChar(b / 10)] + [DigitChar(b % 10)] == Pad2(b);
    assert LexLess([DigitChar(a / 10)], [DigitChar(b / 10)]) <==> a / 10 < b / 10;
    assert LexLess([DigitChar(a % 10)], [DigitChar(b % 10)]) <==> a % 10 < b % 10;
    if Pad2(a) == Pad2(b) {
      assert Pad2(a)[0] == Pad2(b)[0] && Pad2(a)[1] == Pad2(b)[1];
    }
  }

  lemma Pad4Order(a: nat, b: nat)
    requires a < 10000 && b < 10000
    ensures LexLess(Pad4(a), Pad4(b)) <==> a < b
    ensures Pad4(a) == Pad4(b) <==> a == b
  {
    Pad2Order(a / 100, b / 100);
    Pad2Order(a % 100, b % 100);
    LexLessConcat(Pad2(a / 100), Pad2(a % 100), Pad2(b / 100), Pad2(b % 100));
    if Pad4(a) == Pad4(b) {
      assert Pad2(a / 100) == Pad4(a)[..2] == Pad4(b)[..2] == Pad2(b / 100);
      assert Pad2(a % 100) == Pad4(a)[2..] == Pad4(b)[2..] == Pad2(b % 100);
    }
  }

  /**
   * Stored dates compare as strings the way the dates compare in time, and two stored
   * dates are equal exactly when they name the same day.
   */
  lemma IsoOrderIsChronological(a: CalendarDate, b: CalendarDate)
    requires IsWritable(a) && IsWritable(b)
    ensures LexLess(IsoDate(a), IsoDate(b)) <==> Before(a, b)
    ensures IsoDate(a) == IsoDate(b) <==> a == b
  {
    var ma, mb := Pad2(a.month) + ("-" + Pad2(a.day)), Pad2(b.month) + ("-" + Pad2(b.day));
    Pad4Order(a.year, b.year);
    Pad2Order(a.month, b.month);
    Pad2Order(a.day, b.day);
    LexLessConcat(Pad2(a.day), [], Pad2(b.day), []);
    assert Pad2(a.day) + [] == Pad2(a.day) && Pad2(b.day) + [] == Pad2(b.day);
    LexLessConcat("-", Pad2(a.day), "-", Pad2(b.day));
    LexLessConcat(Pad2(a.month), "-" + Pad2(a.day), Pad2(b.month), "-" + Pad2(b.day));
    LexLessConcat("-", ma, "-", mb);
    LexLessConcat(Pad4(a.year), "-" + ma, Pad4(b.year), "-" + mb);
    assert !LexLess("-", "-");
    if IsoDate(a) == IsoDate(b) {
      assert IsoDate(a)[..4] == Pad4(a.year) && IsoDate(b)[..4] == Pad4(b.year);
      assert IsoDate(a)[5..7] == Pad2(a.month) && IsoDate(b)[5..7] == Pad2(b.month);
      assert IsoDate(a)[8..] == Pad2(a.day) && IsoDate(b)[8..] == Pad2(b.day);
    }
  }
}
