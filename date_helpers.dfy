/**
 * The frontend's date-string helpers: reading "DD/MM/YYYY" into the
 * "YYYY-MM-DD" text handed to the date library, writing a date back as
 * "DD/MM/YYYY" or "YYYY-MM-DD", and the range check on "DD/MM/YYYY".
 *
 * A date-library value is a calendar date or the invalid date. How the
 * library parses free text is a parameter (`dayjs`), not modelled.
 */
module DateHelpers {
  import opened Wrappers
  import opened JsText
  import JsNumber
  import Models

  /** A date-library value. */
  datatype Dayjs = Valid(date: Models.CivilDate) | Invalid

  /** `format("DD/MM/YYYY")`; the invalid date formats as "Invalid Date". */
  function FormatDDMMYYYY(d: Dayjs): string {
    match d
    case Invalid => "Invalid Date"
    case Valid(c) => PadStart(IntToString(c.day), 2) + "/" + PadStart(IntToString(c.month), 2) + "/" + PadStart(IntToString(c.year), 4)
  }

  /** `format("YYYY-MM-DD")`. */
  function FormatYYYYMMDD(d: Dayjs): string {
    match d
    case Invalid => "Invalid Date"
    case Valid(c) => PadStart(IntToString(c.year), 4) + "-" + PadStart(IntToString(c.month), 2) + "-" + PadStart(IntToString(c.day), 2)
  }

  // ---------------------------------------------------------------------
  // parseFechaDDMMYYYY

  /**
   * The text `parseFechaDDMMYYYY` hands to the library: for "d/m/y" it is
   * "y-mm-dd" with day and month padded to two digits; `None` (the function
   * returns null) for null, "" or a split on '/' that is not three parts.
   */
  function IsoTextOf(fecha: Option<string>): (r: Option<string>)
    ensures fecha.None? || fecha == Some("") ==> r.None?
    ensures fecha.Some? && fecha.value != "" && |Split(fecha.value, '/')| != 3 ==> r.None?
  {
    match fecha
    case None => None
    case Some(s) =>
      if s == "" then None
      else
        var parts := Split(s, '/');
        if |parts| == 3 then Some(parts[2] + "-" + PadStart(parts[1], 2) + "-" + PadStart(parts[0], 2))
        else None
  }

  /** `parseFechaDDMMYYYY`: the library's reading of that text. */
  function ParseFechaDDMMYYYY(fecha: Option<string>, dayjs: string -> Dayjs): Option<Dayjs> {
    match IsoTextOf(fecha)
    case None => None
    case Some(text) => Some(dayjs(text))
  }

  /** Writing a date as "DD/MM/YYYY" and reading it back gives the same date written as "YYYY-MM-DD". */
  lemma IsoTextOfFormatted(c: Models.CivilDate)
    ensures IsoTextOf(Some(FormatDDMMYYYY(Valid(c)))) == Some(FormatYYYYMMDD(Valid(c)))
  {
    var dd := PadStart(IntToString(c.day), 2);
    var mm := PadStart(IntToString(c.month), 2);
    var yyyy := PadStart(IntToString(c.year), 4);
    NoSlash(c.day, 2);
    NoSlash(c.month, 2);
    NoSlash(c.year, 4);
    SplitThree(dd, mm, yyyy);
    assert Split(FormatDDMMYYYY(Valid(c)), '/') == [dd, mm, yyyy];
  }

  /** A padded number has no '/'. */
  lemma NoSlash(i: int, width: nat)
    ensures '/' !in PadStart(IntToString(i), width)
  {
    var s := IntToString(i);
    var digits := NatToString(if i < 0 then -i else i);
    assert forall k :: 0 <= k < |digits| ==> digits[k] != '/' by {
      forall k | 0 <= k < |digits| ensures digits[k] != '/' {
        assert IsAsciiDigit(digits[k]);
      }
    }
    assert s == digits || s == "-" + digits;
    PadStartSuffix(s, width);
    var p := PadStart(s, width);
    forall k | 0 <= k < |p| ensures p[k] != '/' {
      if k >= |p| - |s| {
        assert p[k] == s[k - (|p| - |s|)];
      }
    }
  }

  /** Three pieces without '/' joined by '/' split back into those pieces. */
  lemma SplitThree(a: string, b: string, c: string)
    requires '/' !in a && '/' !in b && '/' !in c
    ensures Split(a + "/" + b + "/" + c, '/') == [a, b, c]
  {
    assert a + "/" + b + "/" + c == a + ['/'] + (b + ['/'] + c);
    SplitAfterPiece(a, '/', b + ['/'] + c);
    SplitAfterPiece(b, '/', c);
    SplitWithoutSep(c, '/');
  }

  /** "d/m/y" is read as "y-mm-dd": the year first, month and day padded to two characters with '0'. */
  lemma IsoTextOfParts(d: string, m: string, y: string)
    requires '/' !in d && '/' !in m && '/' !in y
    ensures IsoTextOf(Some(d + "/" + m + "/" + y)) == Some(y + "-" + PadStart(m, 2) + "-" + PadStart(d, 2))
  {
    SplitThree(d, m, y);
  }

  // ---------------------------------------------------------------------
  // formatFechaDDMMYYYY

  /** `formatFechaDDMMYYYY`: "" for null, else the date as "DD/MM/YYYY". */
  function FormatFechaDDMMYYYY(fecha: Option<Dayjs>): (r: string)
    ensures fecha.None? ==> r == ""
    ensures fecha.Some? ==> r != ""
  {
    match fecha
    case None => ""
    case Some(d) => FormatDDMMYYYY(d)
  }

  // ---------------------------------------------------------------------
  // formatFechaParaBackend

  /** What the caller passes: nothing, text, or a library value. */
  datatype DateInput = NoDate | Text(text: string) | Object(value: Dayjs)

  /** `^\d{4}-\d{2}-\d{2}$`. */
  predicate IsoShaped(s: string) {
    && |s| == 10
    && IsAsciiDigit(s[0]) && IsAsciiDigit(s[1]) && IsAsciiDigit(s[2]) && IsAsciiDigit(s[3])
    && s[4] == '-' && IsAsciiDigit(s[5]) && IsAsciiDigit(s[6])
    && s[7] == '-' && IsAsciiDigit(s[8]) && IsAsciiDigit(s[9])
  }

  /**
   * `formatFechaParaBackend`: null for nothing or ""; text already shaped
   * "YYYY-MM-DD" unchanged; other text through the library, null when it
   * cannot read it; a library value written as "YYYY-MM-DD".
   */
  function FormatFechaParaBackend(fecha: DateInput, dayjs: string -> Dayjs): (r: Option<string>)
    ensures fecha.NoDate? || fecha == Text("") ==> r.None?
    ensures fecha.Text? && IsoShaped(fecha.text) ==> r == Some(fecha.text)
    ensures fecha.Object? ==> r.Some?
  {
    match fecha
    case NoDate => None
    case Text(s) =>
      if s == "" then None
      else if IsoShaped(s) then Some(s)
      else (match dayjs(s)
        case Invalid => None
        case Valid(c) => Some(FormatYYYYMMDD(Valid(c))))
    case Object(d) => Some(FormatYYYYMMDD(d))
  }

  /**
   * Idempotence: a date with a four-digit year written for the backend is
   * already shaped "YYYY-MM-DD", so passing the result through again returns
   * it unchanged.
   */
  lemma ParaBackendIdempotent(c: Models.CivilDate, dayjs: string -> Dayjs)
    requires 0 <= c.year <= 9999 && 1 <= c.month <= 12 && 1 <= c.day <= 31
    ensures var once := FormatFechaParaBackend(Object(Valid(c)), dayjs).value;
            IsoShaped(once) && FormatFechaParaBackend(Text(once), dayjs) == Some(once)
  {
    DigitsPadded(c.year, 4);
    DigitsPadded(c.month, 2);
    DigitsPadded(c.day, 2);
  }

  /** A number below 10^width, padded to `width`, is exactly `width` digits. */
  lemma DigitsPadded(n: nat, width: nat)
    requires width == 2 || width == 4
    requires if width == 2 then n <= 99 else n <= 9999
    ensures var s := PadStart(IntToString(n), width);
            |s| == width && forall k :: 0 <= k < |s| ==> IsAsciiDigit(s[k])
  {
    var d := NatToString(n);
    assert |d| <= width by {
      var n1 := n / 10;
      var n2 := n1 / 10;
      var n3 := n2 / 10;
      assert |NatToString(n)| <= 1 + |NatToString(n1)|;
      assert |NatToString(n1)| <= 1 + |NatToString(n2)|;
      assert |NatToString(n2)| <= 1 + |NatToString(n3)|;
      assert n < 10 ==> |NatToString(n)| == 1;
      assert n1 < 10 ==> |NatToString(n1)| == 1;
      assert n3 < 10 && |NatToString(n3)| == 1;
    }
    var s := PadStart(d, width);
    forall k | 0 <= k < |s| ensures IsAsciiDigit(s[k]) {
      if k >= |s| - |d| {
        assert s[k] == d[k - (|s| - |d|)];
      }
    }
  }

  // ---------------------------------------------------------------------
  // isValidFechaDDMMYYYY

  /**
   * `isValidFechaDDMMYYYY`: three '/'-separated parts whose `parseInt`
   * values lie in 1..31, 1..12 and 1900..2100. A part `parseInt` cannot
   * read (NaN) fails every comparison.
   */
  predicate IsValidFechaDDMMYYYY(s: string) {
    var parts := Split(s, '/');
    && |parts| == 3
    && var dia := JsNumber.ParseInt(parts[0]);
       var mes := JsNumber.ParseInt(parts[1]);
       var anio := JsNumber.ParseInt(parts[2]);
       && dia.Some? && 1 <= dia.value <= 31
       && mes.Some? && 1 <= mes.value <= 12
       && anio.Some? && 1900 <= anio.value <= 2100
  }

  /** Every date of years 1900..2100 the helpers write as "DD/MM/YYYY" passes the check. */
  lemma FormattedIsValid(c: Models.CivilDate)
    requires 1 <= c.day <= 31 && 1 <= c.month <= 12 && 1900 <= c.year <= 2100
    ensures IsValidFechaDDMMYYYY(FormatDDMMYYYY(Valid(c)))
  {
    var dd := PadStart(IntToString(c.day), 2);
    var mm := PadStart(IntToString(c.month), 2);
    var yyyy := PadStart(IntToString(c.year), 4);
    NoSlash(c.day, 2);
    NoSlash(c.month, 2);
    NoSlash(c.year, 4);
    SplitThree(dd, mm, yyyy);
    JsNumber.ParseIntPadded(c.day, 2);
    JsNumber.ParseIntPadded(c.month, 2);
    JsNumber.ParseIntPadded(c.year, 4);
  }

  /** A string that passes the check is also one `parseFechaDDMMYYYY` reads. */
  lemma ValidIsParsed(s: string)
    requires IsValidFechaDDMMYYYY(s)
    ensures IsoTextOf(Some(s)).Some?
  {
  }

  /** There is no per-month day check: "31/02/2020" passes. */
  lemma NoMonthLengthCheck()
    ensures IsValidFechaDDMMYYYY(FormatDDMMYYYY(Valid(Models.CivilDate(2020, 2, 31))))
  {
    FormattedIsValid(Models.CivilDate(2020, 2, 31));
  }

  /** A part `parseInt` reads as NaN fails the check. */
  lemma NaNPartFails(d: string, m: string, y: string)
    requires '/' !in d && '/' !in m && '/' !in y
    requires JsNumber.ParseInt(d).None? || JsNumber.ParseInt(m).None? || JsNumber.ParseInt(y).None?
    ensures !IsValidFechaDDMMYYYY(d + "/" + m + "/" + y)
  {
    SplitThree(d, m, y);
  }
}
