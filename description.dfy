/** The human-readable label every workout carries (review.js, Workout._setDescription):
    the activity name with its first letter in upper case, " on ", the English month
    name and the day of the month, e.g. "Running on April 14". */
module Description {
  import opened Wrappers

  /** Month indices as returned by Date.prototype.getMonth. */
  type Month = m: nat | m < 12
  /** Days as returned by Date.prototype.getDate. */
  type Day = d: nat | 1 <= d <= 31 witness 1

  /** The fixed 12-entry month table. */
  const Months: seq<string> := ["January", "February", "March", "April", "May", "June",
                                "July", "August", "September", "October", "November", "December"]

  /** String.prototype.toUpperCase on a single character, for the ASCII letters the
      activity names are made of. */
  function UpperCase(c: char): (u: char)
    ensures 'a' <= c <= 'z' ==> 'A' <= u <= 'Z' && u as int - c as int == 'A' as int - 'a' as int
    ensures !('a' <= c <= 'z') ==> u == c
  {
    if 'a' <= c <= 'z' then (c as int - 'a' as int + 'A' as int) as char else c
  }

  predicate IsDigit(c: char) { '0' as int <= c as int <= '9' as int }

  function DigitChar(d: nat): (c: char)
    requires d < 10
    ensures IsDigit(c) && c as int - '0' as int == d
  {
    ('0' as int + d) as char
  }

  function DigitValue(c: char): (d: nat)
    requires IsDigit(c)
    ensures d < 10
  {
    c as int - '0' as int
  }

  /** Decimal text that Number.prototype.toString produces for a non-negative
      integer: only digits, and no leading zero. */
  predicate IsCanonicalDecimal(s: string)
  {
    |s| > 0 && (forall i :: 0 <= i < |s| ==> IsDigit(s[i])) && (s[0] == '0' ==> |s| == 1)
  }

  /** The day of the month as it appears in the template literal. */
  function DecimalString(n: nat): (s: string)
    ensures IsCanonicalDecimal(s)
    ensures forall i :: 0 <= i < |s| ==> s[i] != ' '
  {
    if n < 10 then [DigitChar(n)] else DecimalString(n / 10) + [DigitChar(n % 10)]
  }

  /** The value of a string of decimal digits (its inverse). */
  function DecimalValue(s: string): (r: nat)
    requires forall i :: 0 <= i < |s| ==> IsDigit(s[i])
  {
    if s == [] then 0
    else DecimalValue(s[..|s| - 1]) * 10 + DigitValue(s[|s| - 1])
  }

  lemma {:induction false} DecimalValueOfString(n: nat)
    ensures DecimalValue(DecimalString(n)) == n
  {
    if n >= 10 {
      var s := DecimalString(n);
      assert s[..|s| - 1] == DecimalString(n / 10);
      DecimalValueOfString(n / 10);
    }
  }

  lemma {:induction false} DecimalStringOfValue(s: string)
    requires IsCanonicalDecimal(s)
    ensures DecimalString(DecimalValue(s)) == s
  {
    var init := s[..|s| - 1];
    var last := s[|s| - 1] as int - '0' as int;
    if |s| == 1 {
      assert DecimalValue(s) == last;
    } else {
      assert s[0] != '0';
      assert init[0] == s[0];
      DecimalStringOfValue(init);
      DecimalLowerBound(init);
      var v := DecimalValue(s);
      assert v == DecimalValue(init) * 10 + last;
      assert v / 10 == DecimalValue(init) && v % 10 == last;
      assert s == init + [s[|s| - 1]];
    }
  }

  /** A canonical decimal of two or more digits stands for a value of at least 1. */
  lemma {:induction false} DecimalLowerBound(s: string)
    requires IsCanonicalDecimal(s) && |s| >= 1 && s[0] != '0'
    ensures DecimalValue(s) >= 1
  {
    if |s| > 1 {
      var init := s[..|s| - 1];
      assert init[0] == s[0];
      DecimalLowerBound(init);
    }
  }

  /** The description built by _setDescription from the activity name, the month
      index and the day of the month. The name must be non-empty: `name[0]` of an
      empty string is undefined and the call would throw. */
  function Describe(name: string, month: Month, day: Day): (r: string)
    requires |name| > 0
  {
    [UpperCase(name[0])] + name[1..] + " on " + Months[month] + " " + DecimalString(day)
  }

  /** The position of the first space in s, if any. */
  function FirstSpace(s: string): (r: Option<nat>)
    ensures r.Some? ==> r.value < |s| && s[r.value] == ' ' && forall i :: 0 <= i < r.value ==> s[i] != ' '
    ensures r.None? ==> forall i :: 0 <= i < |s| ==> s[i] != ' '
  {
    if s == [] then None
    else if s[0] == ' ' then Some(0)
    else match FirstSpace(s[1..])
      case None => None
      case Some(k) => Some(k + 1)
  }

  /** The index of a month name in the table, if it is one. */
  function MonthOf(name: string): (r: Option<Month>)
    ensures r.Some? ==> Months[r.value] == name
    ensures r.None? ==> forall m: Month :: Months[m] != name
  {
    MonthFrom(name, 0)
  }

  /** The first index from `i` on whose month name is `name`. */
  function MonthFrom(name: string, i: nat): (r: Option<Month>)
    requires i <= 12
    ensures r.Some? ==> i <= r.value && Months[r.value] == name
    ensures r.None? ==> forall m: Month :: i <= m ==> Months[m] != name
    decreases 12 - i
  {
    if i == 12 then None
    else if Months[i] == name then Some(i)
    else MonthFrom(name, i + 1)
  }

  /** The inverse of Describe for the two activity names: recovers the name, the
      month index and the day from a description, or None for any other string. */
  function ParseDescription(s: string): (r: Option<(string, Month, Day)>)
  {
    if |s| < 11 then None
    else if s[..11] == "Running on " then ParseDate("running", s[11..])
    else if s[..11] == "Cycling on " then ParseDate("cycling", s[11..])
    else None
  }

  /** Reads "<Month> <day>" back into a month index and a day. */
  function ParseDate(name: string, rest: string): (r: Option<(string, Month, Day)>)
  {
    match FirstSpace(rest)
    case None => None
    case Some(k) =>
      match MonthOf(rest[..k])
      case None => None
      case Some(m) =>
        var digits := rest[k + 1..];
        if !IsCanonicalDecimal(digits) then None
        else
          var day := DecimalValue(digits);
          if 1 <= day <= 31 then Some((name, m, day)) else None
  }

  predicate IsActivityName(name: string) { name == "running" || name == "cycling" }

  lemma NoSpaceInMonths(m: Month)
    ensures forall i :: 0 <= i < |Months[m]| ==> Months[m][i] != ' '
  {
  }

  /** The 12 month names are distinct, so each one finds its own index. */
  lemma MonthOfName(m: Month)
    ensures MonthOf(Months[m]) == Some(m)
  {
  }

  /** Describe's output splits at its first space after the name into the month
      name and the day text. */
  lemma {:induction false} FirstSpaceAfterWord(word: string, tail: string)
    requires forall i :: 0 <= i < |word| ==> word[i] != ' '
    ensures FirstSpace(word + " " + tail) == Some(|word|)
  {
    if word != [] {
      assert (word + " " + tail)[1..] == word[1..] + " " + tail;
      FirstSpaceAfterWord(word[1..], tail);
    }
  }

  lemma ParseDateRoundTrip(name: string, month: Month, day: Day)
    ensures ParseDate(name, Months[month] + " " + DecimalString(day)) == Some((name, month, day))
  {
    var rest := Months[month] + " " + DecimalString(day);
    NoSpaceInMonths(month);
    FirstSpaceAfterWord(Months[month], DecimalString(day));
    var k := |Months[month]|;
    assert rest[..k] == Months[month];
    MonthOfName(month);
    assert rest[k + 1..] == DecimalString(day);
    DecimalValueOfString(day);
  }

  /** What follows "Running on " or "Cycling on " is handed to ParseDate. */
  lemma ParseAfterPrefix(name: string, tail: string)
    requires IsActivityName(name)
    ensures ParseDescription([UpperCase(name[0])] + name[1..] + " on " + tail) == ParseDate(name, tail)
  {
    var s := [UpperCase(name[0])] + name[1..] + " on " + tail;
    var prefix := if name == "running" then "Running on " else "Cycling on ";
    assert s == prefix + tail;
    assert s[..11] == prefix && s[11..] == tail;
  }

  /** Round trip: a description of a running or cycling workout gives back the
      name, the month and the day it was built from. */
  lemma DescriptionRoundTrip(name: string, month: Month, day: Day)
    requires IsActivityName(name)
    ensures ParseDescription(Describe(name, month, day)) == Some((name, month, day))
  {
    var tail := Months[month] + " " + DecimalString(day);
    assert Describe(name, month, day) == [UpperCase(name[0])] + name[1..] + " on " + tail;
    ParseAfterPrefix(name, tail);
    ParseDateRoundTrip(name, month, day);
  }

  /** The other direction: whatever ParseDescription accepts is exactly the
      description of what it returns, so a description determines its activity
      and the month and day of its date. */
  lemma ParsedDescriptionIsDescribed(s: string)
    requires ParseDescription(s).Some?
    ensures var (name, month, day) := ParseDescription(s).value;
            IsActivityName(name) && Describe(name, month, day) == s
  {
    var name := ParsedPrefix(s);
    var tail := s[11..];
    ParsedDateIsDescribed(name, tail);
    var (_, month, day) := ParseDate(name, tail).value;
    DescribeActivity(name, month, day);
    assert s == s[..11] + tail;
  }

  /** A string that parses starts with one of the two capitalised prefixes, and
      its remainder is what ParseDate read. */
  lemma ParsedPrefix(s: string) returns (name: string)
    requires ParseDescription(s).Some?
    ensures IsActivityName(name) && |s| >= 11
    ensures s[..11] == if name == "running" then "Running on " else "Cycling on "
    ensures ParseDescription(s) == ParseDate(name, s[11..])
  {
    name := if s[..11] == "Running on " then "running" else "cycling";
  }

  lemma ParsedDateIsDescribed(name: string, rest: string)
    requires ParseDate(name, rest).Some?
    ensures var (n, month, day) := ParseDate(name, rest).value;
            n == name && rest == Months[month] + " " + DecimalString(day)
  {
    var k := FirstSpace(rest).value;
    var digits := rest[k + 1..];
    DecimalStringOfValue(digits);
    assert rest == rest[..k] + " " + digits;
  }

  /** Describe with the capitalisation worked out for the two activity names. */
  lemma DescribeActivity(name: string, month: Month, day: Day)
    requires IsActivityName(name)
    ensures Describe(name, month, day)
         == (if name == "running" then "Running on " else "Cycling on ") + Months[month] + " " + DecimalString(day)
  {
  }

  /** Describe is injective on the activity names: different activities or
      different month-and-day pairs never share a description. */
  lemma DescriptionInjective(n1: string, m1: Month, d1: Day, n2: string, m2: Month, d2: Day)
    requires IsActivityName(n1) && IsActivityName(n2)
    requires Describe(n1, m1, d1) == Describe(n2, m2, d2)
    ensures n1 == n2 && m1 == m2 && d1 == d2
  {
    DescriptionRoundTrip(n1, m1, d1);
    DescriptionRoundTrip(n2, m2, d2);
  }
}
