/**
 * The formatting and validation helpers shared by the pages: runtime
 * formatting, text truncation, the year list of the filters, rating
 * validation and the rating colour scale.
 */
module Helpers {
  import opened Text

  // ---------------------------------------------------------------------
  // formatRuntime
  // ---------------------------------------------------------------------

  /** A runtime as the pages pass it: absent, a text such as `"148 min"`, or a number of minutes. */
  datatype Runtime = NoRuntime | RuntimeText(text: string) | RuntimeMinutes(minutes: int)

  /** `!runtime`: absent, the empty text, or the number 0. */
  predicate Falsy(runtime: Runtime)
  {
    runtime.NoRuntime? || runtime == RuntimeText("") || runtime == RuntimeMinutes(0)
  }

  /**
   * `Math.floor(minutes / 60)` and the truncating remainder `minutes % 60`.
   * For a non-negative count they are the hours and the minutes left over.
   */
  function SplitMinutes(minutes: int): (r: (int, int))
    ensures minutes >= 0 ==> 60 * r.0 + r.1 == minutes && r.0 >= 0 && 0 <= r.1 < 60
    ensures minutes < 0 ==> r.0 < 0 && -60 < r.1 <= 0
  {
    var mins := if minutes >= 0 then minutes % 60 else -((-minutes) % 60);
    (minutes / 60, mins)
  }

  /** The text `formatRuntime` builds from a parsed number of minutes: `Ym`, `Xh` or `Xh Ym`. */
  function MinutesText(minutes: int): (r: string)
    ensures |r| >= 2 && (r[|r| - 1] == 'm' || r[|r| - 1] == 'h')
  {
    var (hours, mins) := SplitMinutes(minutes);
    if hours == 0 then IntToDecimal(mins) + "m"
    else if mins == 0 then IntToDecimal(hours) + "h"
    else IntToDecimal(hours) + "h " + IntToDecimal(mins) + "m"
  }

  /**
   * `formatRuntime`: `N/A` for a missing runtime, the input text itself when
   * `parseInt` finds no number in it, and otherwise the hours-and-minutes text.
   */
  function FormatRuntime(runtime: Runtime): (r: string)
    ensures Falsy(runtime) || runtime == RuntimeText("N/A") ==> r == "N/A"
    ensures runtime.RuntimeText? && runtime.text != "" && runtime.text != "N/A" ==>
      r == match ParseInt(runtime.text) { case None => runtime.text case Some(m) => MinutesText(m) }
    ensures runtime.RuntimeMinutes? && runtime.minutes != 0 ==> r == MinutesText(runtime.minutes)
  {
    if Falsy(runtime) || runtime == RuntimeText("N/A") then "N/A"
    else
      match runtime
      case RuntimeMinutes(m) =>
        assert ParseInt(IntToDecimal(m)) == Some(m) by { ParseIntRoundTrip(m); }
        MinutesText(m)
      case RuntimeText(text) =>
        match ParseInt(text)
        case None => text
        case Some(m) => MinutesText(m)
  }

  /**
   * Reads an hours-and-minutes text (`Ym`, `Xh` or `Xh Ym`, non-negative
   * decimal numbers) back into minutes.
   */
  function ReadMinutes(t: string): Option<int>
  {
    var d := DigitPrefix(t);
    if d == [] then None else ReadUnit(DecimalValue(d), t[|d|..])
  }

  /** What follows the first number `n` of an hours-and-minutes text. */
  function ReadUnit(n: nat, rest: string): Option<int>
  {
    if rest == "m" then Some(n)
    else if rest == "h" then Some(60 * n)
    else if |rest| >= 2 && rest[..2] == "h " then
      var d := DigitPrefix(rest[2..]);
      if d != [] && rest[2..][|d|..] == "m" then Some(60 * n + DecimalValue(d)) else None
    else None
  }

  /** The decimal text of a natural number followed by a non-digit: its digit run is the number. */
  lemma NumberThen(n: nat, rest: string)
    requires rest == [] || !IsDigit(rest[0])
    ensures DigitPrefix(IntToDecimal(n) + rest) == NatToDecimal(n)
    ensures (IntToDecimal(n) + rest)[|NatToDecimal(n)|..] == rest
    ensures DecimalValue(NatToDecimal(n)) == n
  {
    DigitPrefixStops(NatToDecimal(n), rest);
    DecimalRoundTrip(n);
  }

  /** `Ym` reads back as `m` minutes. */
  lemma ReadMinutesOnly(m: nat)
    ensures ReadMinutes(IntToDecimal(m) + "m") == Some(m)
  {
    NumberThen(m, "m");
  }

  /** `Xh` reads back as `60 h` minutes. */
  lemma ReadHoursOnly(h: nat)
    ensures ReadMinutes(IntToDecimal(h) + "h") == Some(60 * h)
  {
    NumberThen(h, "h");
  }

  /** What follows the hours of `Xh Ym` reads back as `60 h + m` minutes. */
  lemma ReadUnitOfMinutes(h: nat, m: nat)
    ensures ReadUnit(h, "h " + IntToDecimal(m) + "m") == Some(60 * h + m)
  {
    var dm := NatToDecimal(m);
    var tail := dm + "m";
    var rest := "h " + tail;
    assert IntToDecimal(m) == dm;
    assert "h " + IntToDecimal(m) + "m" == rest;
    assert rest != "m" && rest != "h";
    assert rest[..2] == "h " && rest[2..] == tail;
    DigitPrefixStops(dm, "m");
    assert tail[|dm|..] == "m";
    DecimalRoundTrip(m);
  }

  /** `Xh Ym` reads back as `60 h + m` minutes. */
  lemma ReadHoursAndMinutes(h: nat, m: nat)
    ensures ReadMinutes(IntToDecimal(h) + "h " + IntToDecimal(m) + "m") == Some(60 * h + m)
  {
    var dh := NatToDecimal(h);
    var rest := "h " + IntToDecimal(m) + "m";
    var t := dh + rest;
    assert IntToDecimal(h) + "h " + IntToDecimal(m) + "m" == t;
    DigitPrefixStops(dh, rest);
    assert t[|dh|..] == rest;
    DecimalRoundTrip(h);
    assert ReadMinutes(t) == ReadUnit(h, rest);
    ReadUnitOfMinutes(h, m);
  }

  /** The formatted runtime of a positive number of minutes reads back as that number. */
  lemma MinutesTextReadsBack(minutes: int)
    requires minutes > 0
    ensures ReadMinutes(MinutesText(minutes)) == Some(minutes)
  {
    var p := SplitMinutes(minutes);
    var hours: nat, mins: nat := p.0, p.1;
    assert 60 * hours + mins == minutes;
    if hours == 0 {
      assert MinutesText(minutes) == IntToDecimal(mins) + "m";
      ReadMinutesOnly(mins);
    } else if mins == 0 {
      assert MinutesText(minutes) == IntToDecimal(hours) + "h";
      ReadHoursOnly(hours);
    } else {
      assert MinutesText(minutes) == IntToDecimal(hours) + "h " + IntToDecimal(mins) + "m";
      ReadHoursAndMinutes(hours, mins);
    }
  }

  // ---------------------------------------------------------------------
  // truncateText
  // ---------------------------------------------------------------------

  /** Where the trimmed first `cut` characters of a text lie: only white space is cut on either side. */
  lemma TrimmedHeadBounds(text: string, cut: int) returns (i: nat, j: nat)
    requires 0 <= cut <= |text|
    ensures i <= j <= cut && Trim(text[..cut]) == text[i..j]
    ensures forall k :: 0 <= k < i ==> IsWhitespace(text[k])
    ensures forall k :: j <= k < cut ==> IsWhitespace(text[k])
    ensures i < j ==> !IsWhitespace(text[i]) && !IsWhitespace(text[j - 1])
  {
    var head := text[..cut];
    i, j := TrimSpan(head);
    assert forall k :: 0 <= k < cut ==> head[k] == text[k];
    assert head[i..j] == text[i..j];
  }

  /** `substring(0, maxLength)` keeps this many characters of a longer text: none for a negative limit. */
  function HeadLength(maxLength: int): nat
  {
    if maxLength < 0 then 0 else maxLength
  }

  /**
   * `truncateText`: text within the limit (or empty) is returned as it is;
   * longer text is cut to its first `maxLength` characters, trimmed, and
   * followed by `...`.
   */
  function TruncateText(text: string, maxLength: int): (r: string)
    ensures text == "" || |text| <= maxLength ==> r == text
    ensures text != "" && |text| > maxLength ==> |r| <= HeadLength(maxLength) + 3
  {
    if text == "" || |text| <= maxLength then text
    else Trim(text[..HeadLength(maxLength)]) + "..."
  }

  /**
   * `text[i..j]` is the first `cut` characters of `text` with the white
   * space at both ends cut off: only white space lies before `i` and from
   * `j` to `cut`, and the slice neither starts nor ends with white space.
   */
  ghost predicate TrimmedSlice(text: string, cut: nat, i: int, j: int)
    requires cut <= |text|
  {
    0 <= i <= j <= cut
    && AllWhitespace(text[..i]) && AllWhitespace(text[j..cut])
    && (i < j ==> !IsWhitespace(text[i]) && !IsWhitespace(text[j - 1]))
  }

  /** A truncated text is the trimmed slice of its first `maxLength` characters followed by `...`. */
  lemma TruncatedIsSlice(text: string, maxLength: int)
    requires text != "" && |text| > maxLength
    ensures exists i, j :: TrimmedSlice(text, HeadLength(maxLength), i, j)
                           && TruncateText(text, maxLength) == text[i..j] + "..."
  {
    var h := HeadLength(maxLength);
    var i, j := TrimmedHeadBounds(text, h);
    assert TrimmedSlice(text, h, i, j);
  }

  // ---------------------------------------------------------------------
  // getYearRange
  // ---------------------------------------------------------------------

  /** The oldest year the filters offer. */
  const EarliestYear: int := 1900

  /** `getYearRange`: the years from the current one down to 1900, newest first. */
  method YearRange(currentYear: int) returns (years: seq<int>)
    ensures |years| == if currentYear < EarliestYear then 0 else currentYear - EarliestYear + 1
    ensures forall i :: 0 <= i < |years| ==> years[i] == currentYear - i
    ensures |years| > 0 ==> years[0] == currentYear && years[|years| - 1] == EarliestYear
    ensures forall i, j :: 0 <= i < j < |years| ==> years[i] > years[j]
  {
    years := [];
    var year := currentYear;
    while year >= EarliestYear
      invariant year <= currentYear
      invariant currentYear >= EarliestYear ==> year >= EarliestYear - 1
      invariant currentYear < EarliestYear ==> year == currentYear
      invariant |years| == currentYear - year
      invariant forall i :: 0 <= i < |years| ==> years[i] == currentYear - i
    {
      years := years + [year];
      year := year - 1;
    }
  }

  // ---------------------------------------------------------------------
  // isValidRating
  // ---------------------------------------------------------------------

  /** `isValidRating`: a rating text whose `parseFloat` value lies between 0 and 10. */
  function IsValidRating(rating: string): (r: bool)
    ensures rating == "" || rating == "N/A" ==> !r
    ensures r <==> rating != "" && rating != "N/A" && ParseFloat(rating).Finite? && 0.0 <= ParseFloat(rating).value <= 10.0
  {
    if rating == "" || rating == "N/A" then false
    else
      match ParseFloat(rating)
      case Finite(v) => 0.0 <= v <= 10.0
      case _ => false
  }

  /** A whole-number rating is valid exactly when it lies between 0 and 10. */
  lemma WholeRatingValid(n: int)
    ensures IsValidRating(IntToDecimal(n)) <==> 0 <= n <= 10
  {
    ParseFloatRoundTrip(n);
    assert IntToDecimal(n) != "N/A" by {
      var s := IntToDecimal(n);
      assert s[0] == '-' || IsDigit(s[0]);
    }
  }

  // ---------------------------------------------------------------------
  // getRatingColor
  // ---------------------------------------------------------------------

  /** A rating as the pages pass it: a text (read by `parseFloat`) or a number. */
  datatype RatingInput = RatingText(text: string) | RatingNumber(number: Float)

  /** The colour classes of the rating scale. */
  datatype Color = Gray | Green | Yellow | Orange | Red

  /** The CSS class of each colour. */
  function ClassName(c: Color): string
  {
    match c
    case Gray => "text-gray-400"
    case Green => "text-green-500"
    case Yellow => "text-yellow-500"
    case Orange => "text-orange-500"
    case Red => "text-red-500"
  }

  /** The numeric score of a rating input. */
  function Score(rating: RatingInput): Float
  {
    match rating
    case RatingText(text) => ParseFloat(text)
    case RatingNumber(x) => x
  }

  /** `x >= t` on a JavaScript number; `NaN` compares false. */
  predicate AtLeast(x: Float, t: real)
  {
    (x.Finite? && x.value >= t) || x == Infinity(false)
  }

  /** `getRatingColor`: 8 and above green, from 6 yellow, from 4 orange, below red, not a number gray. */
  function RatingColor(rating: RatingInput): (c: Color)
    ensures c == Gray <==> Score(rating).NaN?
    ensures c == Green <==> AtLeast(Score(rating), 8.0)
    ensures c == Yellow <==> AtLeast(Score(rating), 6.0) && !AtLeast(Score(rating), 8.0)
    ensures c == Orange <==> AtLeast(Score(rating), 4.0) && !AtLeast(Score(rating), 6.0)
    ensures c == Red <==> !Score(rating).NaN? && !AtLeast(Score(rating), 4.0)
  {
    match Score(rating)
    case NaN => Gray
    case Infinity(negative) => if negative then Red else Green
    case Finite(v) =>
      if v >= 8.0 then Green else if v >= 6.0 then Yellow else if v >= 4.0 then Orange else Red
  }

  /** The position of a colour on the scale, red lowest. */
  function Rank(c: Color): int
  {
    match c
    case Gray => -1
    case Red => 0
    case Orange => 1
    case Yellow => 2
    case Green => 3
  }

  /** A higher score never gets a lower colour. */
  lemma RatingColorMonotone(a: real, b: real)
    requires a <= b
    ensures Rank(RatingColor(RatingNumber(Finite(a)))) <= Rank(RatingColor(RatingNumber(Finite(b))))
  {
  }

  /** Distinct colours have distinct classes. */
  lemma ClassNamesDistinct(c: Color, d: Color)
    requires ClassName(c) == ClassName(d)
    ensures c == d
  {
  }
}
