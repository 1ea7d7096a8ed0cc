/**
 * `getFormattingSignals`: four checks (contact block, `YYYY-MM` start dates, bullet
 * length, summary length), each adding a positive signal or a warning; the score starts
 * at 20, loses 4 per warning and gains 1 per signal, clamped to [0, 20].
 */
module FormattingSignals {
  import opened JsStrings
  import opened Sequences
  import opened ResumeSchema
  import opened AtsText

  const ContactPositive: string := "Contact block complete."
  const DatePositive: string := "Consistent date formatting across roles."
  const BulletPositive: string := "Bullets have readable length."
  const SummaryPositive: string := "Summary length is balanced."

  const ContactWarning: string := "Add missing contact details (email, phone, location)."
  const DateWarning: string := "Use consistent YYYY-MM dates for roles."
  const BulletWarning: string := "Keep bullets concise (20-220 characters)."
  const SummaryWarning: string := "Keep summary between 80-600 characters."

  /** The positive signals and the warnings, in the order the four checks run. */
  const Positives: seq<string> := [ContactPositive, DatePositive, BulletPositive, SummaryPositive]
  const Warnings: seq<string> := [ContactWarning, DateWarning, BulletWarning, SummaryWarning]

  datatype Signals = Signals(score: real, positive: seq<string>, warnings: seq<string>)

  /** `DATE_REGEX`, `/^\d{4}-(0[1-9]|1[0-2])$/`: four digits, a dash, and a month 01 to 12. */
  predicate IsYearMonth(d: string) {
    |d| == 7 && IsDigit(d[0]) && IsDigit(d[1]) && IsDigit(d[2]) && IsDigit(d[3]) && d[4] == '-'
    && ((d[5] == '0' && '1' <= d[6] <= '9') || (d[5] == '1' && '0' <= d[6] <= '2'))
  }

  /** `basics.email && basics.phone && basics.location` */
  predicate ContactComplete(b: Basics) {
    b.email != "" && b.phone != "" && b.location != ""
  }

  /** `experiences.map((exp) => exp.startDate).filter(Boolean)` */
  function StartDates(es: seq<ExperienceEntry>): (ds: seq<string>)
    ensures |ds| <= |es|
    decreases |es|
  {
    if es == [] then []
    else
      var head := if es[0].startDate != "" then [es[0].startDate] else [];
      head + StartDates(es[1..])
  }

  /** `dateFormats.filter(Boolean).length`: the dates the pattern accepts. */
  function CountYearMonth(ds: seq<string>): (n: nat)
    ensures n <= |ds|
    decreases |ds|
  {
    if ds == [] then 0 else (if IsYearMonth(ds[0]) then 1 else 0) + CountYearMonth(ds[1..])
  }

  predicate ReadableBullet(b: string) {
    20 <= |b| <= 220
  }

  /** `experiences.every((exp) => (exp.bullets || []).every((b) => b.length >= 20 && b.length <= 220))` */
  predicate BulletsReadable(es: seq<ExperienceEntry>) {
    forall i, j :: 0 <= i < |es| && 0 <= j < |es[i].bullets| ==> ReadableBullet(es[i].bullets[j])
  }

  predicate SummaryBalanced(summary: string) {
    80 <= |summary| <= 600
  }

  /** `dateConsistency < 1 && dateFormats.length` */
  predicate DatesInconsistent(es: seq<ExperienceEntry>) {
    var ds := StartDates(es);
    Ratio(CountYearMonth(ds), |ds|) < 1.0 && |ds| > 0
  }

  /** Which of the four checks yield a positive signal. */
  function PositiveFlags(r: Resume): seq<bool> {
    [ ContactComplete(r.basics),
      !DatesInconsistent(r.experience) && |StartDates(r.experience)| > 0,
      BulletsReadable(r.experience) && |r.experience| > 0,
      SummaryBalanced(r.summary) ]
  }

  /** Which of the four checks yield a warning. */
  function WarningFlags(r: Resume): seq<bool> {
    [ !ContactComplete(r.basics),
      DatesInconsistent(r.experience),
      !BulletsReadable(r.experience) && |r.experience| > 0,
      !SummaryBalanced(r.summary) && |r.summary| > 0 ]
  }

  /** `clamp(20 - deductions.length * 4 + signals.length * 1, 0, 20)` */
  function FormattingScore(positives: nat, warnings: nat): real {
    Clamp((20 - warnings * 4 + positives) as real, 0.0, 20.0)
  }

  function FormattingSignalsOf(r: Resume): Signals {
    var positive := Select(Positives, PositiveFlags(r));
    var warnings := Select(Warnings, WarningFlags(r));
    Signals(FormattingScore(|positive|, |warnings|), positive, warnings)
  }

  /**
   * `getFormattingSignals(resume)`: the four checks are measured on the resume, then each
   * pushes a signal or a deduction.
   */
  method GetFormattingSignals(r: Resume) returns (s: Signals)
    ensures s == FormattingSignalsOf(r)
  {
    var contact := ContactComplete(r.basics);
    var experiences := r.experience;
    var dateFormats := StartDates(experiences);
    var dateConsistency := Ratio(CountYearMonth(dateFormats), |dateFormats|);
    var bulletLengthOk := BulletsReadable(experiences);
    var signals, deductions := PushSignals(contact, |dateFormats|, dateConsistency, bulletLengthOk, |experiences|, |r.summary|);
    assert PositiveFlags(r) == PositiveChecks(contact, |dateFormats|, dateConsistency, bulletLengthOk, |experiences|, |r.summary|);
    assert WarningFlags(r) == WarningChecks(contact, |dateFormats|, dateConsistency, bulletLengthOk, |experiences|, |r.summary|);
    s := Signals(FormattingScore(|signals|, |deductions|), signals, deductions);
  }

  /** The positive flags in terms of the measured quantities. */
  function PositiveChecks(contact: bool, dates: nat, dateConsistency: real, bulletLengthOk: bool, roles: nat, summaryLength: nat): seq<bool> {
    [contact, !(dateConsistency < 1.0 && dates > 0) && dates > 0, bulletLengthOk && roles > 0, 80 <= summaryLength <= 600]
  }

  /** The warning flags in terms of the measured quantities. */
  function WarningChecks(contact: bool, dates: nat, dateConsistency: real, bulletLengthOk: bool, roles: nat, summaryLength: nat): seq<bool> {
    [!contact, dateConsistency < 1.0 && dates > 0, !bulletLengthOk && roles > 0, !(80 <= summaryLength <= 600) && summaryLength > 0]
  }

  /** The branches of `getFormattingSignals`, one check after the other. */
  method PushSignals(contact: bool, dates: nat, dateConsistency: real, bulletLengthOk: bool, roles: nat, summaryLength: nat)
    returns (signals: seq<string>, deductions: seq<string>)
    ensures signals == Select(Positives, PositiveChecks(contact, dates, dateConsistency, bulletLengthOk, roles, summaryLength))
    ensures deductions == Select(Warnings, WarningChecks(contact, dates, dateConsistency, bulletLengthOk, roles, summaryLength))
  {
    signals, deductions := [], [];
    if contact {
      signals := signals + [ContactPositive];
    } else {
      deductions := deductions + [ContactWarning];
    }
    ghost var p0, w0 := signals, deductions;
    assert p0 == (if contact then [ContactPositive] else []);
    assert w0 == (if !contact then [ContactWarning] else []);

    var dateWarning := dateConsistency < 1.0 && dates > 0;
    if dateWarning {
      deductions := deductions + [DateWarning];
    } else if dates > 0 {
      signals := signals + [DatePositive];
    }
    ghost var p1, w1 := signals, deductions;
    assert p1 == p0 + (if !dateWarning && dates > 0 then [DatePositive] else []);
    assert w1 == w0 + (if dateWarning then [DateWarning] else []);

    if bulletLengthOk && roles > 0 {
      signals := signals + [BulletPositive];
    } else if roles > 0 {
      deductions := deductions + [BulletWarning];
    }
    ghost var p2, w2 := signals, deductions;
    assert p2 == p1 + (if bulletLengthOk && roles > 0 then [BulletPositive] else []);
    assert w2 == w1 + (if !bulletLengthOk && roles > 0 then [BulletWarning] else []);

    var summaryPositive := 80 <= summaryLength <= 600;
    if summaryPositive {
      signals := signals + [SummaryPositive];
    } else if summaryLength > 0 {
      deductions := deductions + [SummaryWarning];
    }
    assert signals == p2 + (if summaryPositive then [SummaryPositive] else []);
    assert deductions == w2 + (if !summaryPositive && summaryLength > 0 then [SummaryWarning] else []);
    assert PositiveChecks(contact, dates, dateConsistency, bulletLengthOk, roles, summaryLength)
      == [contact, !dateWarning && dates > 0, bulletLengthOk && roles > 0, summaryPositive];
    assert WarningChecks(contact, dates, dateConsistency, bulletLengthOk, roles, summaryLength)
      == [!contact, dateWarning, !bulletLengthOk && roles > 0, !summaryPositive && summaryLength > 0];
    PushedSignals(contact, !dateWarning && dates > 0, bulletLengthOk && roles > 0, summaryPositive);
    PushedWarnings(!contact, dateWarning, !bulletLengthOk && roles > 0, !summaryPositive && summaryLength > 0);
  }

  /** The conditional pushes of positive signals produce the selection by the four flags. */
  lemma PushedSignals(contact: bool, dates: bool, bullets: bool, summary: bool)
    ensures Select(Positives, [contact, dates, bullets, summary])
      == (if contact then [ContactPositive] else []) + (if dates then [DatePositive] else [])
         + (if bullets then [BulletPositive] else []) + (if summary then [SummaryPositive] else [])
  {
    SelectFour(Positives, [contact, dates, bullets, summary]);
  }

  /** The conditional pushes of deductions produce the selection by the four flags. */
  lemma PushedWarnings(contact: bool, dates: bool, bullets: bool, summary: bool)
    ensures Select(Warnings, [contact, dates, bullets, summary])
      == (if contact then [ContactWarning] else []) + (if dates then [DateWarning] else [])
         + (if bullets then [BulletWarning] else []) + (if summary then [SummaryWarning] else [])
  {
    SelectFour(Warnings, [contact, dates, bullets, summary]);
  }

  // ---------------------------------------------------------------------------
  // Properties
  // ---------------------------------------------------------------------------

  /** No check yields both a signal and a warning; the contact check always yields exactly one. */
  lemma OneSignalPerCheck(r: Resume)
    ensures forall k :: 0 <= k < 4 ==> !(PositiveFlags(r)[k] && WarningFlags(r)[k])
    ensures PositiveFlags(r)[0] != WarningFlags(r)[0]
  {
  }

  /** Selecting by two flag lists that are never both set picks at most one item per position. */
  lemma {:induction false} DisjointSelections(ps: seq<string>, ws: seq<string>, pf: seq<bool>, wf: seq<bool>)
    requires |ps| == |ws| == |pf| == |wf|
    requires forall k :: 0 <= k < |pf| ==> !(pf[k] && wf[k])
    ensures |Select(ps, pf)| + |Select(ws, wf)| <= |ps|
    decreases |ps|
  {
    if ps != [] {
      DisjointSelections(ps[1..], ws[1..], pf[1..], wf[1..]);
    }
  }

  /**
   * At most four messages come out, the contact check always yields one of its two, and the
   * score is 20 without warnings and otherwise exactly `20 - 4 * warnings + positives`; it is
   * never below 4.
   */
  lemma FormattingScoreShape(r: Resume)
    ensures var s := FormattingSignalsOf(r);
      && |s.positive| + |s.warnings| <= 4
      && (ContactPositive in s.positive <==> ContactWarning !in s.warnings)
      && (s.warnings == [] ==> s.score == 20.0)
      && (s.warnings != [] ==> s.score == (20 - 4 * |s.warnings| + |s.positive|) as real)
      && 4.0 <= s.score <= 20.0
  {
    var s := FormattingSignalsOf(r);
    OneSignalPerCheck(r);
    DisjointSelections(Positives, Warnings, PositiveFlags(r), WarningFlags(r));
    MessagesDistinct();
    SelectMembers(Positives, PositiveFlags(r), 0);
    SelectMembers(Warnings, WarningFlags(r), 0);
  }

  lemma MessagesDistinct()
    ensures Distinct(Positives) && Distinct(Warnings)
  {
  }

  /** Each warning is listed exactly when its check fails on something present. */
  lemma WarningsIff(r: Resume)
    ensures var w := FormattingSignalsOf(r).warnings;
      && (ContactWarning in w <==> !ContactComplete(r.basics))
      && (DateWarning in w <==>
            exists i :: 0 <= i < |r.experience| && r.experience[i].startDate != ""
                        && !IsYearMonth(r.experience[i].startDate))
      && (BulletWarning in w <==>
            exists i, j :: 0 <= i < |r.experience| && 0 <= j < |r.experience[i].bullets|
                           && !ReadableBullet(r.experience[i].bullets[j]))
      && (SummaryWarning in w <==> 0 < |r.summary| && !SummaryBalanced(r.summary))
  {
    MessagesDistinct();
    var flags := WarningFlags(r);
    SelectMembers(Warnings, flags, 0);
    SelectMembers(Warnings, flags, 1);
    SelectMembers(Warnings, flags, 2);
    SelectMembers(Warnings, flags, 3);
    DatesInconsistentIff(r.experience);
  }

  /** The date signal is positive exactly when some start date is given and all of them match. */
  lemma DatePositiveIff(r: Resume)
    ensures DatePositive in FormattingSignalsOf(r).positive <==>
      (exists i :: 0 <= i < |r.experience| && r.experience[i].startDate != "")
      && (forall i :: 0 <= i < |r.experience| && r.experience[i].startDate != "" ==>
            IsYearMonth(r.experience[i].startDate))
  {
    MessagesDistinct();
    SelectMembers(Positives, PositiveFlags(r), 1);
    DatesInconsistentIff(r.experience);
    var es := r.experience;
    var ds := StartDates(es);
    StartDatesMembers(es);
    if exists i :: 0 <= i < |es| && es[i].startDate != "" {
      var i :| 0 <= i < |es| && es[i].startDate != "";
      assert es[i].startDate in ds;
    }
    if |ds| > 0 {
      assert ds[0] in ds;
    }
  }

  /** The given start dates are exactly the non-empty start dates of the roles. */
  lemma {:induction false} StartDatesMembers(es: seq<ExperienceEntry>)
    ensures forall d :: d in StartDates(es) <==> exists i :: 0 <= i < |es| && es[i].startDate == d && d != ""
    decreases |es|
  {
    if es != [] {
      StartDatesMembers(es[1..]);
      forall d ensures d in StartDates(es) <==> exists i :: 0 <= i < |es| && es[i].startDate == d && d != "" {
        if exists i :: 0 <= i < |es| && es[i].startDate == d && d != "" {
          var i :| 0 <= i < |es| && es[i].startDate == d && d != "";
          if i > 0 {
            assert es[1..][i - 1] == es[i];
          }
        }
        if d in StartDates(es[1..]) {
          var i :| 0 <= i < |es[1..]| && es[1..][i].startDate == d && d != "";
          assert es[i + 1].startDate == d;
        }
      }
    }
  }

  /** Every date is accepted exactly when the accepted count is the whole count. */
  lemma {:induction false} CountYearMonthAll(ds: seq<string>)
    ensures CountYearMonth(ds) == |ds| <==> forall k :: 0 <= k < |ds| ==> IsYearMonth(ds[k])
    decreases |ds|
  {
    if ds != [] {
      CountYearMonthAll(ds[1..]);
      if forall k :: 0 <= k < |ds[1..]| ==> IsYearMonth(ds[1..][k]) {
        if IsYearMonth(ds[0]) {
          forall k | 0 <= k < |ds| ensures IsYearMonth(ds[k]) {
            if k > 0 { assert ds[k] == ds[1..][k - 1]; }
          }
        }
      } else {
        var j :| 0 <= j < |ds[1..]| && !IsYearMonth(ds[1..][j]);
        assert !IsYearMonth(ds[j + 1]);
      }
    }
  }

  /** The dates are inconsistent exactly when some given start date is not `YYYY-MM`. */
  lemma DatesInconsistentIff(es: seq<ExperienceEntry>)
    ensures DatesInconsistent(es) <==>
      exists i :: 0 <= i < |es| && es[i].startDate != "" && !IsYearMonth(es[i].startDate)
  {
    var ds := StartDates(es);
    CountYearMonthAll(ds);
    StartDatesMembers(es);
    if exists i :: 0 <= i < |es| && es[i].startDate != "" && !IsYearMonth(es[i].startDate) {
      var i :| 0 <= i < |es| && es[i].startDate != "" && !IsYearMonth(es[i].startDate);
      assert es[i].startDate in ds;
    }
    if DatesInconsistent(es) {
      var k :| 0 <= k < |ds| && !IsYearMonth(ds[k]);
      assert ds[k] in ds;
    }
  }

  // ---------------------------------------------------------------------------
  // The date pattern against a reference rendering
  // ---------------------------------------------------------------------------

  function DigitChar(n: nat): char
    requires n < 10
  {
    ('0' as int + n) as char
  }

  function DigitValue(c: char): nat
    requires IsDigit(c)
  {
    c as int - '0' as int
  }

  /** A year 0000-9999 and a month 1-12 written as `YYYY-MM`. */
  function YearMonthText(year: nat, month: nat): (s: string)
    requires year < 10000 && 1 <= month <= 12
    ensures |s| == 7
  {
    var y1 := year / 10;
    var y2 := y1 / 10;
    [DigitChar(y2 / 10), DigitChar(y2 % 10), DigitChar(y1 % 10), DigitChar(year % 10),
     '-', DigitChar(month / 10), DigitChar(month % 10)]
  }

  /** Every rendered year and month is accepted. */
  lemma YearMonthTextAccepted(year: nat, month: nat)
    requires year < 10000 && 1 <= month <= 12
    ensures IsYearMonth(YearMonthText(year, month))
  {
  }

  /** Every accepted date is the rendering of its own year and month. */
  lemma AcceptedIsYearMonthText(d: string)
    requires IsYearMonth(d)
    ensures var year := ((DigitValue(d[0]) * 10 + DigitValue(d[1])) * 10 + DigitValue(d[2])) * 10 + DigitValue(d[3]);
      var month := DigitValue(d[5]) * 10 + DigitValue(d[6]);
      year < 10000 && 1 <= month <= 12 && YearMonthText(year, month) == d
  {
    var a, b, c, e := DigitValue(d[0]), DigitValue(d[1]), DigitValue(d[2]), DigitValue(d[3]);
    var y2 := a * 10 + b;
    var y1 := y2 * 10 + c;
    var year := y1 * 10 + e;
    assert year / 10 == y1 && year % 10 == e;
    assert y1 / 10 == y2 && y1 % 10 == c;
    assert y2 / 10 == a && y2 % 10 == b;
    var month := DigitValue(d[5]) * 10 + DigitValue(d[6]);
    assert month / 10 == DigitValue(d[5]) && month % 10 == DigitValue(d[6]);
  }

  /** The date pattern accepts exactly the `YYYY-MM` renderings of a year and a month 01-12. */
  lemma YearMonthIff(d: string)
    ensures IsYearMonth(d) <==>
      exists year: nat, month: nat :: year < 10000 && 1 <= month <= 12 && d == YearMonthText(year, month)
  {
    if IsYearMonth(d) {
      AcceptedIsYearMonthText(d);
    }
    if exists year: nat, month: nat :: year < 10000 && 1 <= month <= 12 && d == YearMonthText(year, month) {
      var year: nat, month: nat :| year < 10000 && 1 <= month <= 12 && d == YearMonthText(year, month);
      YearMonthTextAccepted(year, month);
    }
  }

  /** The all-empty document earns only the contact deduction: no signal and a score of 16. */
  lemma EmptyResumeSignals()
    ensures FormattingSignalsOf(EmptyResume) == Signals(16.0, [], [ContactWarning])
  {
    assert !ContactComplete(EmptyResume.basics);
    assert StartDates([]) == [];
    assert PositiveFlags(EmptyResume) == [false, false, false, false];
    assert WarningFlags(EmptyResume) == [true, false, false, false];
    PushedSignals(false, false, false, false);
    PushedWarnings(true, false, false, false);
  }
}
