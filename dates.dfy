/**
 * Calendar-date text conversions between the extended calendar-date form
 * of ISO 8601 (section 4.1.2.2 of ISO 8601:2004, `YYYY-MM-DD`) and the
 * display form `DD/MM/YYYY`, and the display form of today's date.
 * The conversions split on the separator and reorder the first three
 * parts; a missing part reads as the text `undefined`, extra parts are dropped.
 */
module Dates {
  import opened Strings

  /** The `i`-th part of a split, or what a template renders for a missing one. */
  function Part(parts: seq<string>, i: nat): string
  {
    if i < |parts| then parts[i] else "undefined"
  }

  /** `isoToddmmyyyy`: `Y-M-D` to `D/M/Y`. */
  function IsoToDdMmYyyy(iso: string): string
  {
    var parts := Split(iso, '-');
    Part(parts, 2) + "/" + Part(parts, 1) + "/" + Part(parts, 0)
  }

  /** `ddmmyyyyToISO`: `D/M/Y` to `Y-M-D`. */
  function DdMmYyyyToIso(date: string): string
  {
    var parts := Split(date, '/');
    Part(parts, 2) + "-" + Part(parts, 1) + "-" + Part(parts, 0)
  }

  /** A date component: free of both separators. */
  predicate Component(s: string)
  {
    '-' !in s && '/' !in s
  }

  lemma SplitThree(a: string, b: string, c: string, sep: char)
    requires sep !in a && sep !in b && sep !in c
    ensures Split(a + [sep] + b + [sep] + c, sep) == [a, b, c]
  {
    var rest := b + [sep] + c;
    SplitNoSeparator(c, sep);
    SplitAfterSeparator(b, c, sep);
    SplitAfterSeparator(a, rest, sep);
    assert a + [sep] + b + [sep] + c == a + [sep] + rest;
  }

  /** `Y-M-D` becomes `D/M/Y`. */
  lemma IsoToDdMmYyyyShape(y: string, m: string, d: string)
    requires Component(y) && Component(m) && Component(d)
    ensures IsoToDdMmYyyy(y + "-" + m + "-" + d) == d + "/" + m + "/" + y
  {
    SplitThree(y, m, d, '-');
  }

  /** `D/M/Y` becomes `Y-M-D`. */
  lemma DdMmYyyyToIsoShape(d: string, m: string, y: string)
    requires Component(y) && Component(m) && Component(d)
    ensures DdMmYyyyToIso(d + "/" + m + "/" + y) == y + "-" + m + "-" + d
  {
    SplitThree(d, m, y, '/');
  }

  /** The two conversions undo each other on three separator-free components, in both orders. */
  lemma RoundTrips(y: string, m: string, d: string)
    requires Component(y) && Component(m) && Component(d)
    ensures DdMmYyyyToIso(IsoToDdMmYyyy(y + "-" + m + "-" + d)) == y + "-" + m + "-" + d
    ensures IsoToDdMmYyyy(DdMmYyyyToIso(d + "/" + m + "/" + y)) == d + "/" + m + "/" + y
  {
    IsoToDdMmYyyyShape(y, m, d);
    DdMmYyyyToIsoShape(d, m, y);
  }

  /** Exactly two separators split a text into three parts that, with the separators, make up its length. */
  lemma ThreeParts(s: string, sep: char)
    requires Count(s, sep) == 2
    ensures |Split(s, sep)| == 3
    ensures |Split(s, sep)[0]| + |Split(s, sep)[1]| + |Split(s, sep)[2]| + 2 == |s|
  {
    var parts := Split(s, sep);
    SplitCount(s, sep);
    JoinSplit(s, sep);
    assert parts[1..][1..] == [parts[2]];
    assert Join(parts[1..], sep) == parts[1] + [sep] + parts[2];
    assert Join(parts, sep) == parts[0] + [sep] + (parts[1] + [sep] + parts[2]);
  }

  /** With exactly two separators, each conversion only trades separators, so the length is kept. */
  lemma ConversionsKeepLength(s: string)
    ensures Count(s, '-') == 2 ==> |IsoToDdMmYyyy(s)| == |s|
    ensures Count(s, '/') == 2 ==> |DdMmYyyyToIso(s)| == |s|
  {
    if Count(s, '-') == 2 {
      ThreeParts(s, '-');
    }
    if Count(s, '/') == 2 {
      ThreeParts(s, '/');
    }
  }

  /** Text without a separator is taken as the year alone; day and month render as `undefined`. */
  lemma IsoMissingParts(s: string)
    requires '-' !in s
    ensures IsoToDdMmYyyy(s) == "undefined/undefined/" + s
  {
    SplitNoSeparator(s, '-');
    assert IsoToDdMmYyyy(s) == "undefined" + "/" + "undefined" + "/" + s;
  }

  /** `padStart(width, fill)`: `fill` prepended until the text is `width` long; longer text unchanged. */
  function PadStart(s: string, width: nat, fill: char): (r: string)
    ensures |r| == if |s| >= width then |s| else width
    ensures r[|r| - |s|..] == s
    ensures forall i :: 0 <= i < |r| - |s| ==> r[i] == fill
  {
    if |s| >= width then s else seq(width - |s|, _ => fill) + s
  }

  /** A two-digit day or month: `String(n).padStart(2, "0")`. */
  function TwoDigits(n: nat): string
  {
    PadStart(Decimal(n), 2, '0')
  }

  /** `getTodayString` for the calendar fields of the current date (month counted from 0). */
  function TodayString(day: nat, monthIndex: nat, year: nat): string
  {
    TwoDigits(day) + "/" + TwoDigits(monthIndex + 1) + "/" + Decimal(year)
  }

  /** Numbers below 100 render as exactly two decimal digits that read back as the number. */
  lemma {:induction false} TwoDigitsExact(n: nat)
    requires n < 100
    ensures |TwoDigits(n)| == 2
    ensures forall i :: 0 <= i < 2 ==> IsDigit(TwoDigits(n)[i])
    ensures DecimalValue(TwoDigits(n)) == n
  {
    DecimalRoundTrip(n);
    DecimalLength(n);
    var s := TwoDigits(n);
    if n < 10 {
      var d := Decimal(n);
      assert s == ['0'] + d;
      assert s[..1] == ['0'];
      assert DecimalValue(s[..1]) == 0 by {
        assert s[..1][..0] == [];
      }
    }
  }

  /** A display date made of digit runs converts to `YYYY-MM-DD`. */
  lemma DigitsToIso(dd: string, mm: string, yyyy: string)
    requires forall i :: 0 <= i < |dd| ==> IsDigit(dd[i])
    requires forall i :: 0 <= i < |mm| ==> IsDigit(mm[i])
    requires forall i :: 0 <= i < |yyyy| ==> IsDigit(yyyy[i])
    ensures DdMmYyyyToIso(dd + "/" + mm + "/" + yyyy) == yyyy + "-" + mm + "-" + dd
  {
    DigitsAreComponent(dd);
    DigitsAreComponent(mm);
    DigitsAreComponent(yyyy);
    DdMmYyyyToIsoShape(dd, mm, yyyy);
  }

  /**
   * Today's display date is `DD/MM/YYYY` with a two-digit day and month
   * (the month counted from 1, see `TwoDigitsExact`), and it converts to
   * `YYYY-MM-DD`.
   */
  lemma TodayStringShape(day: nat, monthIndex: nat, year: nat)
    requires 1 <= day <= 31 && monthIndex <= 11
    ensures |TwoDigits(day)| == 2 && |TwoDigits(monthIndex + 1)| == 2
    ensures DdMmYyyyToIso(TodayString(day, monthIndex, year))
            == Decimal(year) + "-" + TwoDigits(monthIndex + 1) + "-" + TwoDigits(day)
  {
    TwoDigitsExact(day);
    TwoDigitsExact(monthIndex + 1);
    DecimalRoundTrip(year);
    DigitsToIso(TwoDigits(day), TwoDigits(monthIndex + 1), Decimal(year));
  }

  lemma DigitsAreComponent(s: string)
    requires forall i :: 0 <= i < |s| ==> IsDigit(s[i])
    ensures Component(s)
  {
    assert forall i :: 0 <= i < |s| ==> s[i] != '-' && s[i] != '/';
  }
}
