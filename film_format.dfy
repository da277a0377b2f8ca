/**
 * `formatDate`: an ISO `yyyy-MM-dd` air date rewritten as US English
 * `MMMM d, yyyy` ("2023-01-05" becomes "January 5, 2023"), with the
 * sentinel "No release date" for a missing or empty date and a
 * `ParseException` for text that starts with a letter.
 */
module FilmFormat {
  import opened Wrappers
  import opened Jvm

  /** The sentinel for a missing date. */
  const NoReleaseDate: string := "No release date"

  /** The US English month names (`MMMM`, `Locale.US`). */
  function MonthName(m: nat): (name: string)
    requires 1 <= m <= 12
    ensures |name| >= 3 && ' ' !in name && ',' !in name
  {
    match m
    case 1 => "January"
    case 2 => "February"
    case 3 => "March"
    case 4 => "April"
    case 5 => "May"
    case 6 => "June"
    case 7 => "July"
    case 8 => "August"
    case 9 => "September"
    case 10 => "October"
    case 11 => "November"
    case 12 => "December"
  }

  /** The month a name denotes, or 0 for a word that is no month name. */
  function MonthNumber(name: string): (m: nat)
    ensures m <= 12
    ensures m != 0 ==> MonthName(m) == name
  {
    if name == "January" then 1
    else if name == "February" then 2
    else if name == "March" then 3
    else if name == "April" then 4
    else if name == "May" then 5
    else if name == "June" then 6
    else if name == "July" then 7
    else if name == "August" then 8
    else if name == "September" then 9
    else if name == "October" then 10
    else if name == "November" then 11
    else if name == "December" then 12
    else 0
  }

  /** Leap years of the Gregorian calendar. */
  predicate IsLeapYear(y: int) {
    (y % 4 == 0 && y % 100 != 0) || y % 400 == 0
  }

  /** The length of month `m` of year `y` in the Gregorian calendar. */
  function DaysInMonth(y: int, m: nat): (n: nat)
    requires 1 <= m <= 12
    ensures 28 <= n <= 31
  {
    if m == 2 then (if IsLeapYear(y) then 29 else 28)
    else if m == 4 || m == 6 || m == 9 || m == 11 then 30
    else 31
  }

  /** A calendar date (year, month, day). */
  datatype Date = Date(year: nat, month: nat, day: nat)

  /**
   * A real Gregorian date with a four-digit year from 1583 on (the first
   * full year after the Julian/Gregorian cutover of `GregorianCalendar`).
   */
  predicate ValidDate(d: Date) {
    1583 <= d.year <= 9999 && 1 <= d.month <= 12 && 1 <= d.day <= DaysInMonth(d.year, d.month)
  }

  /** A number of at most two digits, zero-padded to two (`MM`, `dd`). */
  function Pad2(n: nat): (s: string)
    requires n < 100
    ensures |s| == 2 && AllDigits(s)
  {
    [DigitChar(n / 10), DigitChar(n % 10)]
  }

  /** A number of at most four digits, zero-padded to four (`yyyy`). */
  function Pad4(n: nat): (s: string)
    requires n < 10000
    ensures |s| == 4 && AllDigits(s)
  {
    var tens := n / 10;
    var hundreds := tens / 10;
    [DigitChar(hundreds / 10), DigitChar(hundreds % 10), DigitChar(tens % 10), DigitChar(n % 10)]
  }

  /** The canonical `yyyy-MM-dd` spelling of a date. */
  function IsoText(d: Date): (s: string)
    requires ValidDate(d)
    ensures |s| == 10
  {
    Pad4(d.year) + "-" + Pad2(d.month) + "-" + Pad2(d.day)
  }

  /** `s` has the shape `dddd-dd-dd`. */
  predicate IsoShaped(s: string) {
    |s| == 10 && s[4] == '-' && s[7] == '-' && AllDigits(s[..4]) && AllDigits(s[5..7]) && AllDigits(s[8..])
  }

  /** The fields of a `dddd-dd-dd` string. */
  function IsoFields(s: string): Date
    requires IsoShaped(s)
  {
    Date(DigitsValue(s[..4]), DigitsValue(s[5..7]), DigitsValue(s[8..]))
  }

  /** A canonical, valid `yyyy-MM-dd` date. */
  predicate IsCanonicalDate(s: string) {
    IsoShaped(s) && ValidDate(IsoFields(s))
  }

  /**
   * Text whose first character is a letter, other than text opening with
   * the number format's NaN symbol: the `yyyy` field finds no number
   * there, so parsing throws. (A leading "NaN" is read as a number, so
   * such text is left out of the modelled inputs.)
   */
  predicate StartsWithLetter(s: string) {
    && |s| > 0
    && (IsLowerLetter(s[0]) || IsUpperLetter(s[0]))
    && !(|s| >= 3 && Upper(s[..3]) == "NAN")
  }

  /**
   * The inputs this model covers: null, empty, a canonical valid date, or
   * text that certainly fails to parse.
   */
  predicate InDomain(dateString: Option<string>) {
    match dateString
    case None => true
    case Some(s) => s == "" || IsCanonicalDate(s) || StartsWithLetter(s)
  }

  /** The message of the `ParseException` that `DateFormat.parse(String)` throws. */
  function UnparseableMessage(s: string): string {
    "Unparseable date: \"" + s + "\""
  }

  /** `MMMM d, yyyy` in `Locale.US`. */
  function UsText(d: Date): string
    requires ValidDate(d)
  {
    MonthName(d.month) + " " + NatToDecimal(d.day) + ", " + Pad4(d.year)
  }

  /**
   * `formatDate(dateString)`: the sentinel for null or empty input,
   * otherwise the parsed date in `MMMM d, yyyy`; a `Failure` is the
   * exception the parser throws.
   */
  function FormatDate(dateString: Option<string>): (r: Result<string, string>)
    requires InDomain(dateString)
    ensures (dateString.None? || dateString == Some("")) ==> r == Success(NoReleaseDate)
    ensures r.Failure? <==> dateString.Some? && StartsWithLetter(dateString.value)
    ensures r.Failure? ==> r.error == UnparseableMessage(dateString.value)
  {
    match dateString
    case None => Success(NoReleaseDate)
    case Some(s) =>
      if s == "" then Success(NoReleaseDate)
      else if StartsWithLetter(s) then Failure(UnparseableMessage(s))
      else Success(UsText(IsoFields(s)))
  }

  // ---------------------------------------------------------------- reading the output back

  /** The first index at or after `from` that holds `c`, or `|t|`. */
  function IndexOf(t: string, c: char, from: nat): (k: nat)
    requires from <= |t|
    ensures from <= k <= |t|
    ensures k < |t| ==> t[k] == c
    ensures forall i :: from <= i < k ==> t[i] != c
    decreases |t| - from
  {
    if from == |t| || t[from] == c then from else IndexOf(t, c, from + 1)
  }

  /**
   * Reads `MMMM d, yyyy` back: the month word before the first space, the
   * day digits up to ", " and the four year digits at the end.
   */
  function ReadUsText(t: string): Option<Date> {
    var sp := IndexOf(t, ' ', 0);
    if sp + 8 > |t| then None
    else
      var m := MonthNumber(t[..sp]);
      var day := t[sp + 1..|t| - 6];
      var year := t[|t| - 4..];
      if m == 0 || t[|t| - 6..|t| - 4] != ", " || !AllDigits(day) || !AllDigits(year) then None
      else Some(Date(DigitsValue(year), m, DigitsValue(day)))
  }

  // ---------------------------------------------------------------- properties

  /** Twelve months, each named and read back. */
  lemma MonthNameRoundTrip(m: nat)
    requires 1 <= m <= 12
    ensures MonthNumber(MonthName(m)) == m
  {
  }

  lemma DigitCharValue(c: char)
    requires IsDigit(c)
    ensures DigitChar(DigitValue(c)) == c
  {
  }

  /** Two digits are the zero-padded rendering of their value. */
  lemma Pad2OfDigits(s: string)
    requires |s| == 2 && AllDigits(s)
    ensures DigitsValue(s) < 100 && Pad2(DigitsValue(s)) == s
  {
    DigitsValue2(s);
    DigitCharValue(s[0]);
    DigitCharValue(s[1]);
  }

  /** Dividing `10 * q + r` by ten gives back `q` and `r`. */
  lemma DivModTen(q: nat, r: nat)
    requires r < 10
    ensures (10 * q + r) / 10 == q && (10 * q + r) % 10 == r
  {
  }

  /** Four digits are the zero-padded rendering of their value. */
  lemma Pad4OfDigits(s: string)
    requires |s| == 4 && AllDigits(s)
    ensures DigitsValue(s) < 10000 && Pad4(DigitsValue(s)) == s
  {
    DigitsValue4(s);
    var a, b, c, d := DigitValue(s[0]), DigitValue(s[1]), DigitValue(s[2]), DigitValue(s[3]);
    var hundreds := 10 * a + b;
    var tens := 10 * hundreds + c;
    var v := 10 * tens + d;
    assert DigitsValue(s) == v;
    DivModTen(tens, d);
    DivModTen(hundreds, c);
    DivModTen(a, b);
    assert Pad4(v) == [DigitChar(a), DigitChar(b), DigitChar(c), DigitChar(d)];
    DigitCharValue(s[0]);
    DigitCharValue(s[1]);
    DigitCharValue(s[2]);
    DigitCharValue(s[3]);
  }

  /** A zero-padded year reads back as itself. */
  lemma ValueOfPad4(n: nat)
    requires n < 10000
    ensures DigitsValue(Pad4(n)) == n
  {
    DigitsValue4(Pad4(n));
    var tens := n / 10;
    var hundreds := tens / 10;
    assert n == 10 * tens + n % 10;
    assert tens == 10 * hundreds + tens % 10;
    assert hundreds == 10 * (hundreds / 10) + hundreds % 10;
  }

  /** A canonical date string is the canonical spelling of its fields. */
  lemma {:induction false} CanonicalIsIsoText(s: string)
    requires IsCanonicalDate(s)
    ensures IsoText(IsoFields(s)) == s
  {
    Pad4OfDigits(s[..4]);
    Pad2OfDigits(s[5..7]);
    Pad2OfDigits(s[8..]);
    assert s == s[..4] + "-" + s[5..7] + "-" + s[8..];
  }

  /** The index of a character absent from `a` and placed right after it. */
  lemma IndexOfAfter(a: string, c: char, b: string)
    requires c !in a
    ensures IndexOf(a + [c] + b, c, 0) == |a|
  {
    var t := a + [c] + b;
    assert t[|a|] == c;
    assert forall i :: 0 <= i < |a| ==> t[i] == a[i];
  }

  /**
   * Round trip: the formatted text reads back as the date it came from, so
   * different dates never format alike.
   */
  lemma {:induction false} ReadUsTextOfUsText(d: Date)
    requires ValidDate(d)
    ensures ReadUsText(UsText(d)) == Some(d)
  {
    var name, day, year := MonthName(d.month), NatToDecimal(d.day), Pad4(d.year);
    var t := UsText(d);
    assert t == name + [' '] + (day + ", " + year);
    IndexOfAfter(name, ' ', day + ", " + year);
    var sp := |name|;
    assert t[..sp] == name;
    assert t[sp + 1..|t| - 6] == day;
    assert t[|t| - 6..|t| - 4] == ", ";
    assert t[|t| - 4..] == year;
    MonthNameRoundTrip(d.month);
    ValueOfPad4(d.year);
  }

  /**
   * A valid `yyyy-MM-dd` date formats to "<month name> <day>, <yyyy>":
   * the month word is the name of `MM`, the day has no leading zero, the
   * year is the input's first four characters, and the text reads back as
   * the input's date.
   */
  lemma {:induction false} FormatValidDate(s: string)
    requires IsCanonicalDate(s)
    ensures FormatDate(Some(s)).Success?
    ensures var t := FormatDate(Some(s)).value; var d := IsoFields(s);
      && t == MonthName(d.month) + " " + NatToDecimal(d.day) + ", " + s[..4]
      && NatToDecimal(d.day)[0] != '0'
      && ReadUsText(t) == Some(d)
  {
    assert !StartsWithLetter(s);
    var d := IsoFields(s);
    Pad4OfDigits(s[..4]);
    ReadUsTextOfUsText(d);
  }

  /** Whatever is formatted from a valid date reads back as that date. */
  lemma FormattedReadsBack(dateString: Option<string>)
    requires InDomain(dateString)
    ensures dateString.Some? && IsCanonicalDate(dateString.value) ==>
      FormatDate(dateString).Success? && ReadUsText(FormatDate(dateString).value) == Some(IsoFields(dateString.value))
  {
    if dateString.Some? && IsCanonicalDate(dateString.value) {
      FormatValidDate(dateString.value);
    }
  }

  /**
   * The formatted text of a valid date has exactly one ',', it is followed
   * by a space, and the text ends with the four-digit year.
   */
  lemma {:induction false} OneCommaThenYear(s: string)
    requires IsCanonicalDate(s)
    ensures var t := FormatDate(Some(s)).value;
      && |t| >= 8
      && (forall k :: 0 <= k < |t| ==> (t[k] == ',' <==> k == |t| - 6))
      && t[|t| - 5] == ' '
      && t[|t| - 4..] == s[..4]
  {
    FormatValidDate(s);
    var d := IsoFields(s);
    var name, day := MonthName(d.month), NatToDecimal(d.day);
    var t := FormatDate(Some(s)).value;
    assert t == name + " " + day + ", " + s[..4];
    forall k | 0 <= k < |t| ensures t[k] == ',' <==> k == |t| - 6 {
      if k < |name| {
        assert t[k] == name[k];
      } else if k == |name| {
        assert t[k] == ' ';
      } else if k < |name| + 1 + |day| {
        assert t[k] == day[k - |name| - 1];
      } else if k > |t| - 6 {
        assert k == |t| - 5 || t[k] == s[..4][k - (|t| - 4)];
      }
    }
  }

  /** Different valid date strings never format to the same text. */
  lemma {:induction false} FormatInjective(s1: string, s2: string)
    requires IsCanonicalDate(s1) && IsCanonicalDate(s2)
    requires FormatDate(Some(s1)) == FormatDate(Some(s2))
    ensures s1 == s2
  {
    FormatValidDate(s1);
    FormatValidDate(s2);
    CanonicalIsIsoText(s1);
    CanonicalIsIsoText(s2);
  }

  /** The worked example: "2023-01-05" becomes "January 5, 2023". */
  lemma FormatExample()
    ensures IsCanonicalDate("2023-01-05")
    ensures FormatDate(Some("2023-01-05")) == Success("January 5, 2023")
  {
    var s := "2023-01-05";
    assert s[..4] == "2023" && s[5..7] == "01" && s[8..] == "05";
    DigitsValue4("2023");
    DigitsValue2("01");
    DigitsValue2("05");
    var d := Date(2023, 1, 5);
    assert IsoFields(s) == d;
    assert IsCanonicalDate(s);
    assert !StartsWithLetter(s);
    assert Pad4(2023) == "2023";
    assert NatToDecimal(5) == "5";
    assert UsText(d) == "January 5, 2023";
  }

  /** "2024-02-29" is a canonical date: February 29 of the leap year 2024. */
  lemma LeapDayFields(s: string)
    requires s == "2024-02-29"
    ensures IsCanonicalDate(s) && IsoFields(s) == Date(2024, 2, 29)
  {
    assert s[..4] == "2024" && s[5..7] == "02" && s[8..] == "29";
    DigitsValue4("2024");
    DigitsValue2("02");
    DigitsValue2("29");
  }

  /** A leap day exists in a leap year: "2024-02-29" formats. */
  lemma LeapDayFormats()
    ensures IsCanonicalDate("2024-02-29")
    ensures FormatDate(Some("2024-02-29")) == Success("February 29, 2024")
  {
    var s := "2024-02-29";
    LeapDayFields(s);
    var d := Date(2024, 2, 29);
    assert !StartsWithLetter(s);
    assert Pad4(2024) == "2024";
    assert NatToDecimal(29) == "29" by {
      assert NatToDecimal(2) == "2";
    }
    assert UsText(d) == "February 29, 2024";
  }

  /**
   * "2023-02-29" is not a canonical date and so lies outside the modelled
   * inputs (the lenient parser would roll it over to March 1, 2023).
   */
  lemma NoLeapDayInCommonYear()
    ensures !IsCanonicalDate("2023-02-29")
  {
    var u := "2023-02-29";
    assert u[..4] == "2023" && u[5..7] == "02" && u[8..] == "29";
    DigitsValue4("2023");
    DigitsValue2("02");
    DigitsValue2("29");
    assert IsoFields(u) == Date(2023, 2, 29);
  }

  /** Text that starts with a letter (and not with "NaN") throws, carrying the input in the message. */
  lemma LetterInputThrows(s: string)
    requires StartsWithLetter(s)
    ensures FormatDate(Some(s)) == Failure(UnparseableMessage(s))
  {
  }
}
