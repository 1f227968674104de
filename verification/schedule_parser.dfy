/**
 * The schedule parser: a day token such as 毎日, 平日, 土日 or 月水金 and a time
 * `H:MM`/`HH:MM` become a five-field cron expression `minute hour * * days`
 * and a Japanese description; `CronToDescription` renders an expression back
 * to text.
 */
module ScheduleParser {
  import opened Common

  /** The day-name table: one kanji per weekday, Sunday = 0. */
  const DayMap: map<char, char> :=
    map['日' := '0', '月' := '1', '火' := '2', '水' := '3', '木' := '4', '金' := '5', '土' := '6']

  /** The table `CronToDescription` uses to turn day numbers back into kanji. */
  const ReverseDayMap: map<string, string> :=
    map["0" := "日", "1" := "月", "2" := "火", "3" := "水", "4" := "木", "5" := "金", "6" := "土"]

  const EveryDay: string := "毎日"
  const Weekdays: string := "平日"
  const Holidays: string := "休日"
  const Weekend: string := "土日"

  datatype ParsedSchedule = ParsedSchedule(cronExpression: string, description: string)

  datatype ParseError =
    | InvalidTimeFormat(input: string)
    | TimeOutOfRange(input: string)
    | UnknownDay(day: char)
    | NoDaySpecified

  /** The text the parser reports for each error. */
  function ErrorMessage(e: ParseError): string {
    match e
    case InvalidTimeFormat(t) => "時刻の形式が不正です: \"" + t + "\" → HH:MM で指定してください"
    case TimeOutOfRange(t) => "時刻が範囲外です: " + t
    case UnknownDay(c) => "不明な曜日: \"" + [c] + "\" → 毎日/平日/土日、または曜日（月火水木金土日）を指定してください"
    case NoDaySpecified => "曜日が指定されていません"
  }

  /** The messages for malformed and out-of-range times quote the offending input. */
  lemma TimeErrorsQuoteInput(t: string)
    ensures Contains(ErrorMessage(InvalidTimeFormat(t)), t)
    ensures Contains(ErrorMessage(TimeOutOfRange(t)), t)
  {
    ContainsMiddle("時刻の形式が不正です: \"", t, "\" → HH:MM で指定してください");
    ContainsMiddle("時刻が範囲外です: ", t, "");
    assert "時刻が範囲外です: " + t + "" == "時刻が範囲外です: " + t;
  }

  // ---------------------------------------------------------------------
  // The time literal: /^(\d{1,2}):(\d{2})$/
  // ---------------------------------------------------------------------

  /** Matches `^(\d{1,2}):(\d{2})$`, giving the hour and minute digit groups. */
  function MatchTime(t: string): (m: Option<(string, string)>)
    ensures m.Some? ==>
      && t == m.value.0 + ":" + m.value.1
      && 1 <= |m.value.0| <= 2 && |m.value.1| == 2
      && AllDigits(m.value.0) && AllDigits(m.value.1)
  {
    if (|t| == 4 || |t| == 5) && t[|t| - 3] == ':' && AllDigits(t[..|t| - 3]) && AllDigits(t[|t| - 2..]) then
      assert t == t[..|t| - 3] + ":" + t[|t| - 2..];
      Some((t[..|t| - 3], t[|t| - 2..]))
    else
      None
  }

  /** Every literal of the pattern's shape is matched, with the groups it was built from. */
  lemma MatchTimeComplete(h: string, mm: string)
    requires 1 <= |h| <= 2 && |mm| == 2 && AllDigits(h) && AllDigits(mm)
    ensures MatchTime(h + ":" + mm) == Some((h, mm))
  {
    var t := h + ":" + mm;
    assert t[..|t| - 3] == h;
    assert t[|t| - 2..] == mm;
  }

  /** `H:MM` rendered with both parts zero-padded to two digits. */
  function TimeText(hour: nat, minute: nat): string {
    PadStart2(NatToString(hour)) + ":" + PadStart2(NatToString(minute))
  }

  /** The canonical expression `minute hour * * days`, numbers unpadded. */
  function CronOf(minute: nat, hour: nat, dayOfWeek: string): string {
    NatToString(minute) + " " + NatToString(hour) + " * * " + dayOfWeek
  }

  // ---------------------------------------------------------------------
  // The day token
  // ---------------------------------------------------------------------

  /** Index of the first character of `s` that is not a day name, if any. */
  function FirstUnknownIndex(s: string): (r: Option<nat>)
    ensures r.Some? ==> r.value < |s| && s[r.value] !in DayMap
    ensures r.Some? ==> forall j :: 0 <= j < r.value ==> s[j] in DayMap
    ensures r.None? <==> forall j :: 0 <= j < |s| ==> s[j] in DayMap
  {
    if s == [] then None
    else if s[0] !in DayMap then Some(0)
    else
      match FirstUnknownIndex(s[1..])
      case None => None
      case Some(i) => Some(i + 1)
  }

  /** The day numbers of a token made only of day names, one per character, in order. */
  function DayNumbers(s: string): (days: seq<string>)
    requires forall j :: 0 <= j < |s| ==> s[j] in DayMap
    ensures |days| == |s|
  {
    seq(|s|, j requires 0 <= j < |s| => [DayMap[s[j]]])
  }

  /** `dayNames.map(d => d + "曜").join("")`. */
  function DayLabels(names: string): string {
    if names == [] then "" else [names[0], '曜'] + DayLabels(names[1..])
  }

  /** Day field and description label for a trimmed day token. */
  function ParseDays(token: string): Result<(string, string), ParseError> {
    if token == EveryDay then Ok(("*", EveryDay))
    else if token == Weekdays then Ok(("1-5", Weekdays))
    else if token == Holidays || token == Weekend then Ok(("0,6", Weekend))
    else
      match FirstUnknownIndex(token)
      case Some(i) => Err(UnknownDay(token[i]))
      case None =>
        if token == [] then Err(NoDaySpecified)
        else Ok((Join(DayNumbers(token), ","), DayLabels(token)))
  }

  /** The time half of `parseScheduleInput`: the literal must match, then the hour must be at most 23 and the minute at most 59. */
  function ParseTime(timeInput: string): Result<(nat, nat), ParseError> {
    match MatchTime(timeInput)
    case None => Err(InvalidTimeFormat(timeInput))
    case Some((hs, ms)) =>
      var hour := DigitsValue(hs);
      var minute := DigitsValue(ms);
      if hour > 23 || minute > 59 then Err(TimeOutOfRange(timeInput)) else Ok((hour, minute))
  }

  /** What `parseScheduleInput` returns for a day input and a time input: time errors come before day errors. */
  function Parse(dayInput: string, timeInput: string): Result<ParsedSchedule, ParseError> {
    match ParseTime(timeInput)
    case Err(e) => Err(e)
    case Ok((hour, minute)) =>
      match ParseDays(Trim(dayInput))
      case Err(e) => Err(e)
      case Ok((dayOfWeek, dayLabel)) =>
        Ok(ParsedSchedule(CronOf(minute, hour, dayOfWeek), dayLabel + " " + TimeText(hour, minute)))
  }

  /**
   * The day half of `parseScheduleInput` on the trimmed token: the named sets
   * first, otherwise character by character, stopping at the first character
   * that is not a day name.
   */
  method ResolveDays(normalized: string) returns (r: Result<(string, string), ParseError>)
    ensures r == ParseDays(normalized)
  {
    if normalized == EveryDay {
      return Ok(("*", EveryDay));
    } else if normalized == Weekdays {
      return Ok(("1-5", Weekdays));
    } else if normalized == Holidays || normalized == Weekend {
      return Ok(("0,6", Weekend));
    }
    var days: seq<string> := [];
    var dayNames: string := [];
    for i := 0 to |normalized|
      invariant forall j :: 0 <= j < i ==> normalized[j] in DayMap
      invariant |days| == i
      invariant forall j :: 0 <= j < i ==> days[j] == [DayMap[normalized[j]]]
      invariant dayNames == normalized[..i]
    {
      var c := normalized[i];
      if c in DayMap {
        days := days + [[DayMap[c]]];
        dayNames := dayNames + [c];
        assert normalized[..i + 1] == normalized[..i] + [c];
      } else {
        assert FirstUnknownIndex(normalized) == Some(i);
        return Err(UnknownDay(c));
      }
    }
    if |days| == 0 {
      return Err(NoDaySpecified);
    }
    assert normalized[..|normalized|] == normalized;
    assert FirstUnknownIndex(normalized).None?;
    assert days == DayNumbers(normalized);
    r := Ok((Join(days, ","), DayLabels(dayNames)));
  }

  /** `parseScheduleInput`: check the time, then resolve the trimmed day token. */
  method ParseScheduleInput(dayInput: string, timeInput: string) returns (r: Result<ParsedSchedule, ParseError>)
    ensures r == Parse(dayInput, timeInput)
  {
    var time := ParseTime(timeInput);
    if time.Err? {
      return Err(time.error);
    }
    var (hour, minute) := time.value;
    var days := ResolveDays(Trim(dayInput));
    if days.Err? {
      return Err(days.error);
    }
    var (dayOfWeek, description) := days.value;
    r := Ok(ParsedSchedule(CronOf(minute, hour, dayOfWeek), description + " " + TimeText(hour, minute)));
  }

  // ---------------------------------------------------------------------
  // Rendering an expression back to text
  // ---------------------------------------------------------------------

  /**
   * The methods every object literal inherits from `Object.prototype`, apart
   * from `constructor`. Looking one of them up in the reverse table finds the
   * inherited function rather than `undefined`.
   */
  const InheritedMethods: set<string> :=
    {"__defineGetter__", "__defineSetter__", "__lookupGetter__", "__lookupSetter__", "hasOwnProperty",
     "isPrototypeOf", "propertyIsEnumerable", "toLocaleString", "toString", "valueOf"}

  /** How `join` renders a built-in function of Node.js: its source text is not available. */
  function NativeFunctionText(name: string): string {
    "function " + name + "() { [native code] }"
  }

  /**
   * `REVERSE_DAY_MAP[d] ?? d`: a day number becomes its kanji; a name the
   * table inherits from `Object.prototype` becomes that member as `join`
   * renders it (`__proto__` is the prototype object itself, `constructor` is
   * the `Object` function); anything else is kept.
   */
  function ReverseDay(d: string): string {
    if d in ReverseDayMap then ReverseDayMap[d]
    else if d == "__proto__" then "[object Object]"
    else if d == "constructor" then NativeFunctionText("Object")
    else if d in InheritedMethods then NativeFunctionText(d)
    else d
  }

  /** A field that is neither a day number nor an inherited name is kept verbatim. */
  lemma OrdinaryFieldKept(d: string)
    requires d !in ReverseDayMap && d != "__proto__" && d != "constructor" && d !in InheritedMethods
    ensures ReverseDay(d) == d
  {
  }

  /** `__proto__` is the prototype object itself, which prints as `[object Object]`. */
  lemma ExampleProtoDay()
    ensures ReverseDay("__proto__") == "[object Object]"
  {
    assert "__proto__" !in ReverseDayMap by { assert |"__proto__"| == 9; }
  }

  function ReverseDays(ds: seq<string>): (r: seq<string>)
    ensures |r| == |ds| && forall i :: 0 <= i < |ds| ==> r[i] == ReverseDay(ds[i])
  {
    if ds == [] then [] else [ReverseDay(ds[0])] + ReverseDays(ds[1..])
  }

  /** The label for a day-of-week field. */
  function DescribeDays(dayOfWeek: string): string {
    if dayOfWeek == "*" then EveryDay
    else if dayOfWeek == "1-5" then Weekdays
    else if dayOfWeek == "0,6" then Weekend
    else Concat(ReverseDays(Split(dayOfWeek, ',')))
  }

  /** `cronToDescription`: anything that is not exactly five space-separated fields comes back unchanged. */
  function CronToDescription(cron: string): (r: string)
    ensures |Split(cron, ' ')| != 5 ==> r == cron
  {
    var parts := Split(cron, ' ');
    if |parts| != 5 then cron
    else
      var timeStr := PadStart2(parts[1]) + ":" + PadStart2(parts[0]);
      DescribeDays(parts[4]) + " " + timeStr
  }

  // ---------------------------------------------------------------------
  // What a parse promises
  // ---------------------------------------------------------------------

  /** The value of a one- or two-digit string. */
  lemma SmallDigitsValue(s: string)
    requires 1 <= |s| <= 2 && AllDigits(s)
    ensures |s| == 1 ==> DigitsValue(s) == DigitValue(s[0])
    ensures |s| == 2 ==> DigitsValue(s) == DigitValue(s[0]) * 10 + DigitValue(s[1])
  {
    assert s[..|s| - 1][..0] == [];
    if |s| == 2 {
      assert s[..1] == [s[0]];
    }
  }

  /** Two digits with a leading zero denote a one-digit number. */
  lemma RepadLeadingZero(s: string)
    requires |s| == 2 && AllDigits(s) && s[0] == '0'
    ensures NatToString(DigitsValue(s)) == [s[1]]
  {
    SmallDigitsValue(s);
    DigitRoundTrip(s[1]);
  }

  /** Two digits without a leading zero are their own decimal rendering. */
  lemma RepadTwoDigits(s: string)
    requires |s| == 2 && AllDigits(s) && s[0] != '0'
    ensures NatToString(DigitsValue(s)) == s
  {
    SmallDigitsValue(s);
    var a, b := DigitValue(s[0]), DigitValue(s[1]);
    TwoDigitRendering(a, b);
    DigitRoundTrip(s[0]);
    DigitRoundTrip(s[1]);
    assert s == [DigitChar(a), DigitChar(b)];
  }

  /** A number from 10 to 99 renders as its two digits. */
  lemma TwoDigitRendering(a: nat, b: nat)
    requires 1 <= a < 10 && b < 10
    ensures NatToString(a * 10 + b) == [DigitChar(a), DigitChar(b)]
  {
    var v := a * 10 + b;
    assert v / 10 == a && v % 10 == b;
    var da, db := DigitChar(a), DigitChar(b);
    assert NatToString(a) == [da];
    assert NatToString(v) == NatToString(a) + [db];
    assert [da] + [db] == [da, db];
  }

  /** A one- or two-digit string, converted and re-padded, reads as the string padded to two places. */
  lemma RepadDigits(s: string)
    requires 1 <= |s| <= 2 && AllDigits(s)
    ensures PadStart2(NatToString(DigitsValue(s))) == PadStart2(s)
  {
    if |s| == 1 {
      SmallDigitsValue(s);
      DigitRoundTrip(s[0]);
      assert NatToString(DigitsValue(s)) == s;
    } else if s[0] == '0' {
      RepadLeadingZero(s);
      PadDigits([s[1]]);
      PadDigits(s);
      assert s == "0" + [s[1]];
    } else {
      RepadTwoDigits(s);
    }
  }

  /**
   * A time accepted by the parser is in range and is rendered as the typed
   * literal with the hour zero-padded; a five-character literal is kept as typed.
   */
  lemma ParseTimeRendering(t: string)
    requires ParseTime(t).Ok?
    ensures var (hour, minute) := ParseTime(t).value;
      && hour <= 23 && minute <= 59
      && MatchTime(t).Some?
      && TimeText(hour, minute) == PadStart2(MatchTime(t).value.0) + ":" + MatchTime(t).value.1
      && (|t| == 5 ==> TimeText(hour, minute) == t)
  {
    var (hs, ms) := MatchTime(t).value;
    RepadDigits(hs);
    RepadDigits(ms);
    assert PadStart2(ms) == ms;
  }

  /** Every `H:MM`/`HH:MM` literal is accepted exactly when its hour is at most 23 and its minute at most 59. */
  lemma ParseTimeOfLiteral(h: string, mm: string)
    requires 1 <= |h| <= 2 && |mm| == 2 && AllDigits(h) && AllDigits(mm)
    ensures ParseTime(h + ":" + mm).Ok? <==> DigitsValue(h) <= 23 && DigitsValue(mm) <= 59
    ensures ParseTime(h + ":" + mm).Ok? ==> ParseTime(h + ":" + mm).value == (DigitsValue(h), DigitsValue(mm))
    ensures ParseTime(h + ":" + mm).Err? ==> ParseTime(h + ":" + mm).error == TimeOutOfRange(h + ":" + mm)
  {
    MatchTimeComplete(h, mm);
  }

  /** A text that is not of the shape `H:MM`/`HH:MM` is refused as malformed, whatever the day input. */
  lemma MalformedTimeRejected(dayInput: string, t: string)
    requires MatchTime(t).None?
    ensures Parse(dayInput, t) == Err(InvalidTimeFormat(t))
  {
  }

  /** The time is checked before the day token, so a bad time is reported even when the day is bad too. */
  lemma TimeErrorsComeFirst(dayInput: string, t: string)
    requires ParseTime(t).Err?
    ensures Parse(dayInput, t) == Err(ParseTime(t).error)
  {
  }

  /**
   * The day-token errors: an empty token has no day; a token that is not a
   * named set and holds a character that is not a day name reports the first
   * such character.
   */
  lemma ParseDaysErrors(token: string)
    ensures ParseDays(token) == Err(NoDaySpecified) <==> token == []
    ensures (ParseDays(token).Err? && ParseDays(token).error.UnknownDay?) <==>
      token != Holidays && token != EveryDay && token != Weekdays && exists j :: 0 <= j < |token| && token[j] !in DayMap
    ensures ParseDays(token).Err? && ParseDays(token).error.UnknownDay? ==>
      exists i :: 0 <= i < |token| && token[i] == ParseDays(token).error.day && token[i] !in DayMap
                  && forall j :: 0 <= j < i ==> token[j] in DayMap
  {
    assert EveryDay[0] !in DayMap && Weekdays[0] !in DayMap && Holidays[0] !in DayMap;
    assert Weekend[0] in DayMap && Weekend[1] in DayMap;
    if FirstUnknownIndex(token).Some? {
      var i := FirstUnknownIndex(token).value;
      assert token[i] !in DayMap;
    }
  }

  lemma {:induction false} DayNumbersTail(s: string)
    requires s != [] && forall j :: 0 <= j < |s| ==> s[j] in DayMap
    ensures DayNumbers(s) == [[DayMap[s[0]]]] + DayNumbers(s[1..])
  {
    assert forall j :: 0 <= j < |s| - 1 ==> DayNumbers(s[1..])[j] == DayNumbers(s)[j + 1];
  }

  /** Each day number is one digit, so joining them with commas and splitting again gives them back. */
  lemma DayNumbersSplit(token: string)
    requires token != [] && forall j :: 0 <= j < |token| ==> token[j] in DayMap
    ensures Split(Join(DayNumbers(token), ","), ',') == DayNumbers(token)
  {
    var ds := DayNumbers(token);
    forall i | 0 <= i < |ds| ensures ',' !in ds[i] {
      assert ds[i] == [DayMap[token[i]]];
    }
    SplitJoin(ds, ',');
  }

  /** The reverse table takes each day name's number back to the name. */
  lemma ReverseDayOfDayName(c: char)
    requires c in DayMap
    ensures ReverseDay([DayMap[c]]) == [c]
  {
    var d := [DayMap[c]];
    if c == '日' { assert d == "0"; }
    else if c == '月' { assert d == "1"; }
    else if c == '火' { assert d == "2"; }
    else if c == '水' { assert d == "3"; }
    else if c == '木' { assert d == "4"; }
    else if c == '金' { assert d == "5"; }
    else { assert d == "6"; }
  }

  /** `REVERSE_DAY_MAP` undoes `DAY_MAP`: a token's day numbers read back as the token itself. */
  lemma {:induction false} ReverseDayNumbers(token: string)
    requires forall j :: 0 <= j < |token| ==> token[j] in DayMap
    ensures Concat(ReverseDays(DayNumbers(token))) == token
    decreases |token|
  {
    if token != [] {
      DayNumbersTail(token);
      ReverseDayNumbers(token[1..]);
      var c := token[0];
      ReverseDayOfDayName(c);
      assert ReverseDays(DayNumbers(token)) == [[c]] + ReverseDays(DayNumbers(token[1..]));
      assert token == [c] + token[1..];
    }
  }

  /**
   * A custom day token: one day number per character, in input order and
   * with repeats kept, and one `曜` label per character.
   */
  lemma CustomDays(token: string)
    requires token != EveryDay && token != Weekdays && token != Holidays && token != Weekend
    requires ParseDays(token).Ok?
    ensures token != [] && forall j :: 0 <= j < |token| ==> token[j] in DayMap
    ensures var (dayOfWeek, dayLabel) := ParseDays(token).value;
      && Split(dayOfWeek, ',') == DayNumbers(token)
      && (forall j :: 0 <= j < |token| ==> Split(dayOfWeek, ',')[j] == [DayMap[token[j]]])
      && dayLabel == DayLabels(token)
  {
    DayNumbersSplit(token);
  }

  /** Five fields without spaces, written `a b * * d`, split back into those fields. */
  lemma FiveFields(a: string, b: string, d: string)
    requires ' ' !in a && ' ' !in b && ' ' !in d
    ensures Split(a + " " + b + " * * " + d, ' ') == [a, b, "*", "*", d]
  {
    var star := "*";
    var fields := [a, b, star, star, d];
    assert fields == [a] + ([b] + ([star] + [star, d]));
    var t4 := star + [' '] + d;
    var t3 := star + [' '] + t4;
    var t2 := b + [' '] + t3;
    assert a + " " + b + " * * " + d == a + [' '] + t2;
    SplitCons(star, ' ', d);
    assert Split(t4, ' ') == [star, d] by { assert Split(d, ' ') == [d]; }
    SplitCons(star, ' ', t4);
    SplitCons(b, ' ', t3);
    SplitCons(a, ' ', t2);
  }

  /** Spaces separate the five fields of `CronOf`. */
  lemma CronFields(minute: nat, hour: nat, dayOfWeek: string)
    requires ' ' !in dayOfWeek
    ensures Split(CronOf(minute, hour, dayOfWeek), ' ') == [NatToString(minute), NatToString(hour), "*", "*", dayOfWeek]
  {
    DigitsHaveNoSeparators(NatToString(minute));
    DigitsHaveNoSeparators(NatToString(hour));
    FiveFields(NatToString(minute), NatToString(hour), dayOfWeek);
  }

  /** The day field of a custom token has no spaces and is none of the named fields `*` and `1-5`. */
  lemma CustomDayField(token: string)
    requires token != [] && forall j :: 0 <= j < |token| ==> token[j] in DayMap
    ensures var dayOfWeek := Join(DayNumbers(token), ",");
      ' ' !in dayOfWeek && dayOfWeek != "*" && dayOfWeek != "1-5"
  {
    var ds := DayNumbers(token);
    var dayOfWeek := Join(ds, ",");
    forall i | 0 <= i < |ds| ensures ' ' !in ds[i] {
      assert ds[i] == [DayMap[token[i]]];
    }
    JoinAvoids(ds, ",", ' ');
    DayNumbersSplit(token);
    assert |ds[0]| == 1;
    assert Split("*", ',') == ["*"];
    assert Split("1-5", ',') == ["1-5"];
  }

  /** `cronToDescription` on a canonical expression: the day label, a space, then the zero-padded time. */
  lemma DescribeCron(minute: nat, hour: nat, dayOfWeek: string)
    requires ' ' !in dayOfWeek
    ensures CronToDescription(CronOf(minute, hour, dayOfWeek)) == DescribeDays(dayOfWeek) + " " + TimeText(hour, minute)
  {
    var parts := Split(CronOf(minute, hour, dayOfWeek), ' ');
    CronFields(minute, hour, dayOfWeek);
    assert |parts| == 5;
    assert parts[0] == NatToString(minute) && parts[1] == NatToString(hour) && parts[4] == dayOfWeek;
  }

  /** The day field of a custom token reads back as the token, except that `0,6` reads as `土日`. */
  lemma DescribeCustomDays(token: string)
    requires token != [] && forall j :: 0 <= j < |token| ==> token[j] in DayMap
    ensures var dayOfWeek := Join(DayNumbers(token), ",");
      DescribeDays(dayOfWeek) == if dayOfWeek == "0,6" then Weekend else token
  {
    var dayOfWeek := Join(DayNumbers(token), ",");
    CustomDayField(token);
    if dayOfWeek != "0,6" {
      DayNumbersSplit(token);
      ReverseDayNumbers(token);
    }
  }

  /** The day label `cronToDescription` gives back for the day field of a token. */
  lemma DescribeParsedDays(token: string)
    requires ParseDays(token).Ok?
    ensures var (dayOfWeek, dayLabel) := ParseDays(token).value;
      && ' ' !in dayOfWeek
      && (token == EveryDay || token == Weekdays || token == Holidays || token == Weekend ==>
            DescribeDays(dayOfWeek) == dayLabel)
      && (token != EveryDay && token != Weekdays && token != Holidays && token != Weekend ==>
            DescribeDays(dayOfWeek) == if dayOfWeek == "0,6" then Weekend else token)
  {
    if token == EveryDay {
    } else if token == Weekdays {
      assert "1-5"[0] != "*"[0];
    } else if token == Holidays || token == Weekend {
      assert "0,6"[0] != "*"[0] && "0,6"[0] != "1-5"[0];
    } else {
      CustomDays(token);
      CustomDayField(token);
      DescribeCustomDays(token);
    }
  }

  /**
   * `cronToDescription` on an expression the parser produced: the time reads
   * back as the description's `HH:MM`; a named day set reads back as the
   * description itself; a custom token reads back as the token without its
   * `曜` suffixes, except that the field `0,6` (from `日土`) reads as `土日`.
   */
  lemma DescriptionRoundTrip(dayInput: string, timeInput: string)
    requires Parse(dayInput, timeInput).Ok?
    ensures var s := Parse(dayInput, timeInput).value;
      var (hour, minute) := ParseTime(timeInput).value;
      var token := Trim(dayInput);
      var (dayOfWeek, dayLabel) := ParseDays(token).value;
      && s.description == dayLabel + " " + TimeText(hour, minute)
      && Split(s.cronExpression, ' ') == [NatToString(minute), NatToString(hour), "*", "*", dayOfWeek]
      && (token == EveryDay || token == Weekdays || token == Holidays || token == Weekend ==>
            CronToDescription(s.cronExpression) == s.description)
      && (token != EveryDay && token != Weekdays && token != Holidays && token != Weekend ==>
            CronToDescription(s.cronExpression) == (if dayOfWeek == "0,6" then Weekend else token) + " " + TimeText(hour, minute))
  {
    var (hour, minute) := ParseTime(timeInput).value;
    var (dayOfWeek, dayLabel) := ParseDays(Trim(dayInput)).value;
    DescribeParsedDays(Trim(dayInput));
    CronFields(minute, hour, dayOfWeek);
    DescribeCron(minute, hour, dayOfWeek);
  }

  /** `25:00` has the right shape but an hour past 23. */
  lemma ExampleHourOutOfRange(dayInput: string)
    ensures Parse(dayInput, "25:00") == Err(TimeOutOfRange("25:00"))
  {
    TimeErrorsComeFirst(dayInput, "25:00");
    assert "25:00" == "25" + ":" + "00";
    SmallDigitsValue("25");
    ParseTimeOfLiteral("25", "00");
  }

  /** Applies `parse` to each time in order; the first time that fails decides the result. */
  function AllOrNothing<E>(parse: string -> Result<ParsedSchedule, E>, times: seq<string>): Result<seq<ParsedSchedule>, E> {
    if times == [] then Ok([])
    else
      match parse(times[0])
      case Err(e) => Err(e)
      case Ok(p) =>
        match AllOrNothing(parse, times[1..])
        case Err(e) => Err(e)
        case Ok(ps) => Ok([p] + ps)
  }

  /** A successful request holds one schedule per time, in input order. */
  lemma {:induction false} AllOrNothingSuccess<E>(parse: string -> Result<ParsedSchedule, E>, times: seq<string>)
    requires AllOrNothing(parse, times).Ok?
    ensures |AllOrNothing(parse, times).value| == |times|
    ensures forall i :: 0 <= i < |times| ==> parse(times[i]) == Ok(AllOrNothing(parse, times).value[i])
  {
    if times != [] {
      AllOrNothingSuccess(parse, times[1..]);
    }
  }

  /** A failed request reports the error of the first time that fails; every earlier time succeeded. */
  lemma {:induction false} AllOrNothingFirstError<E>(parse: string -> Result<ParsedSchedule, E>, times: seq<string>)
    requires AllOrNothing(parse, times).Err?
    ensures exists i :: 0 <= i < |times| && parse(times[i]) == Err(AllOrNothing(parse, times).error)
                        && forall j :: 0 <= j < i ==> parse(times[j]).Ok?
  {
    if parse(times[0]).Err? {
      assert parse(times[0]) == Err(AllOrNothing(parse, times).error);
    } else {
      var rest := times[1..];
      AllOrNothingFirstError(parse, rest);
      var i :| 0 <= i < |rest| && parse(rest[i]) == Err(AllOrNothing(parse, rest).error)
               && forall j :: 0 <= j < i ==> parse(rest[j]).Ok?;
      assert parse(times[i + 1]) == Err(AllOrNothing(parse, times).error);
      forall j | 0 <= j < i + 1
        ensures parse(times[j]).Ok?
      {
        if j > 0 {
          assert times[j] == rest[j - 1];
        }
      }
    }
  }

  /** Parsing a concatenation: the first part's outcome, then the second's. */
  lemma {:induction false} AllOrNothingAppend<E>(parse: string -> Result<ParsedSchedule, E>, xs: seq<string>, ys: seq<string>)
    ensures AllOrNothing(parse, xs + ys) ==
      match AllOrNothing(parse, xs)
      case Err(e) => Err(e)
      case Ok(ps) => (match AllOrNothing(parse, ys) case Err(e) => Err(e) case Ok(qs) => Ok(ps + qs))
  {
    if xs == [] {
      assert xs + ys == ys;
      match AllOrNothing(parse, ys)
      case Err(_) =>
      case Ok(qs) => assert [] + qs == qs;
    } else {
      assert (xs + ys)[0] == xs[0];
      assert (xs + ys)[1..] == xs[1..] + ys;
      AllOrNothingAppend(parse, xs[1..], ys);
      match parse(xs[0])
      case Err(_) =>
      case Ok(p) =>
        match AllOrNothing(parse, xs[1..])
        case Err(_) =>
        case Ok(ps) =>
          match AllOrNothing(parse, ys)
          case Err(_) =>
          case Ok(qs) => assert [p] + (ps + qs) == [p] + ps + qs;
    }
  }

  /** A time that parses extends the results of the times before it. */
  lemma AllOrNothingExtend<E>(parse: string -> Result<ParsedSchedule, E>, times: seq<string>, i: nat, results: seq<ParsedSchedule>)
    requires i < |times| && AllOrNothing(parse, times[..i]) == Ok(results) && parse(times[i]).Ok?
    ensures AllOrNothing(parse, times[..i + 1]) == Ok(results + [parse(times[i]).value])
  {
    var next := [times[i]];
    var p := parse(times[i]).value;
    assert times[..i + 1] == times[..i] + next;
    assert AllOrNothing(parse, next) == Ok([p]) by {
      assert next[0] == times[i] && next[1..] == [];
      assert [p] + [] == [p];
    }
    AllOrNothingAppend(parse, times[..i], next);
  }

  /** The first time that fails decides the whole request, whatever follows it. */
  lemma AllOrNothingStop<E>(parse: string -> Result<ParsedSchedule, E>, times: seq<string>, i: nat)
    requires i < |times| && AllOrNothing(parse, times[..i]).Ok? && parse(times[i]).Err?
    ensures AllOrNothing(parse, times) == Err(parse(times[i]).error)
  {
    var rest := times[i..];
    assert times == times[..i] + rest;
    assert rest[0] == times[i];
    AllOrNothingAppend(parse, times[..i], rest);
  }

  /** `parseScheduleInput` with the day input fixed, as a function of the time input. */
  function ParserFor(dayInput: string): string -> Result<ParsedSchedule, ParseError> {
    t => Parse(dayInput, t)
  }

  /** `set-schedule`'s loop: one expression per time, and the first failing time aborts the whole request. */
  method ParseAll(dayInput: string, times: seq<string>) returns (r: Result<seq<ParsedSchedule>, ParseError>)
    ensures r == AllOrNothing(ParserFor(dayInput), times)
  {
    ghost var parse := ParserFor(dayInput);
    var results: seq<ParsedSchedule> := [];
    for i := 0 to |times|
      invariant AllOrNothing(parse, times[..i]) == Ok(results)
    {
      var parsed := ParseScheduleInput(dayInput, times[i]);
      assert parse(times[i]) == parsed;
      if parsed.Err? {
        AllOrNothingStop(parse, times, i);
        return Err(parsed.error);
      }
      AllOrNothingExtend(parse, times, i, results);
      results := results + [parsed.value];
    }
    assert times[..|times|] == times;
    r := Ok(results);
  }
}
