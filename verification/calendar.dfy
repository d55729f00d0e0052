/**
 * The run's date and time as the renderers print them (`strftime`), and the
 * document's file name, one per calendar day.
 */
module Calendar {
  import opened Options
  import opened Numerals

  datatype Date = Date(year: nat, month: nat, day: nat)
  datatype Time = Time(hour: nat, minute: nat, second: nat)

  predicate IsLeapYear(y: nat) {
    y % 4 == 0 && (y % 100 != 0 || y % 400 == 0)
  }

  function DaysInMonth(y: nat, m: nat): nat
    requires 1 <= m <= 12
  {
    if m == 2 then (if IsLeapYear(y) then 29 else 28)
    else if m == 4 || m == 6 || m == 9 || m == 11 then 30
    else 31
  }

  /** The dates Python's `datetime` can hold. */
  predicate ValidDate(d: Date) {
    1 <= d.year <= 9999 && 1 <= d.month <= 12 && 1 <= d.day <= DaysInMonth(d.year, d.month)
  }

  /** `%Y`: the year as four zero-padded digits. */
  function Year4(y: nat): string {
    ZeroPad(y, 4)
  }

  /** `%m`, `%d`, `%H`, `%M`, `%S`: two zero-padded digits. */
  function Two(n: nat): string {
    ZeroPad(n, 2)
  }

  /** `strftime("%Y-%m-%d")`. */
  function IsoDate(d: Date): string {
    Year4(d.year) + "-" + Two(d.month) + "-" + Two(d.day)
  }

  /** The document's file name, `strftime("%Y-%m-%d") + ".md"`. */
  function FileName(d: Date): string {
    IsoDate(d) + ".md"
  }

  /** `strftime("%Y年%m月%d日")`, used in both headers. */
  function JapaneseDate(d: Date): string {
    Year4(d.year) + "年" + Two(d.month) + "月" + Two(d.day) + "日"
  }

  /** `strftime("%Y-%m-%d %H:%M:%S")`, the document's generation time. */
  function Timestamp(d: Date, t: Time): string {
    IsoDate(d) + " " + Two(t.hour) + ":" + Two(t.minute) + ":" + Two(t.second)
  }

  /** Reads a file name of the form `YYYY-MM-DD.md` back into a date. */
  function ParseFileName(name: string): Option<Date> {
    if |name| == 13 && name[4] == '-' && name[7] == '-' && name[10..] == ".md"
       && AllDigits(name[..4]) && AllDigits(name[5..7]) && AllDigits(name[8..10])
    then Some(Date(ValueOf(name[..4]), ValueOf(name[5..7]), ValueOf(name[8..10])))
    else None
  }

  /** A padded field of a number below `10^width` is exactly `width` digits long. */
  lemma PaddedWidth(n: nat, width: nat)
    requires width >= 1 && n < Pow10(width)
    ensures |ZeroPad(n, width)| == width
  {
    NatToStringLength(n, width);
  }

  /** The fields of a name assembled as `YYYY-MM-DD.md` sit at fixed offsets. */
  lemma FileNameFields(y: string, m: string, dd: string)
    requires |y| == 4 && |m| == 2 && |dd| == 2
    ensures var name := y + "-" + m + "-" + dd + ".md";
      && |name| == 13 && name[4] == '-' && name[7] == '-' && name[10..] == ".md"
      && name[..4] == y && name[5..7] == m && name[8..10] == dd
  {
    var name := y + "-" + m + "-" + dd + ".md";
    assert name[..4] == y;
    assert name[5..7] == m;
    assert name[8..10] == dd;
    assert name[10..] == ".md";
  }

  /** The file name of a valid date reads back as that date. */
  lemma FileNameRoundTrip(d: Date)
    requires ValidDate(d)
    ensures ParseFileName(FileName(d)) == Some(d)
  {
    assert Pow10(2) == 100;
    assert Pow10(4) == 10000;
    PaddedWidth(d.year, 4);
    PaddedWidth(d.month, 2);
    PaddedWidth(d.day, 2);
    FileNameFields(Year4(d.year), Two(d.month), Two(d.day));
  }

  /** One document per calendar day: two valid dates share a file name exactly when they are the same day. */
  lemma FileNamePerDay(d1: Date, d2: Date)
    requires ValidDate(d1) && ValidDate(d2)
    ensures FileName(d1) == FileName(d2) <==> d1 == d2
  {
    if FileName(d1) == FileName(d2) {
      FileNameRoundTrip(d1);
      FileNameRoundTrip(d2);
    }
  }
}
