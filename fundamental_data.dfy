/**
 * fundamentalData.go: the listing-status option validators, including the
 * calendar check time.Parse makes on the date, and GetListingStatus.
 */
module FundamentalData {
  import opened Wrappers
  import opened ApiError
  import opened Text
  import Query
  import Csv
  import opened Client

  const StateNames: set<string> := {"", "active", "delisted"}

  lemma StateNamesAreFolded()
    ensures forall n :: n in StateNames ==> IsLowerCase(n)
  {
  }

  /** State.Valid: unset, active or delisted, in any ASCII case. */
  function StateValid(s: string): (r: bool)
    ensures r <==> exists n :: n in StateNames && EqualIgnoringCase(s, n)
  {
    StateNamesAreFolded();
    LowerSwitch(s, StateNames);
    ToLower(s) in StateNames
  }

  // ---------------------------------------------------------------------------
  // Dates

  /** The regular expression `^\d{4}-\d{2}-\d{2}$`: four, two and two ASCII digits joined by dashes. */
  predicate MatchesDatePattern(d: string)
  {
    |d| == 10 && d[4] == '-' && d[7] == '-'
    && AllDigits(d[..4]) && AllDigits(d[5..7]) && AllDigits(d[8..])
  }

  /** A calendar day, as time.Parse reads it (midnight UTC). */
  datatype Date = Date(year: int, month: int, day: int)

  predicate IsLeapYear(y: int)
  {
    y % 4 == 0 && (y % 100 != 0 || y % 400 == 0)
  }

  function DaysIn(year: int, month: int): int
  {
    if month == 2 then (if IsLeapYear(year) then 29 else 28)
    else if month == 4 || month == 6 || month == 9 || month == 11 then 30
    else 31
  }

  predicate IsCalendarDate(t: Date)
  {
    1 <= t.month <= 12 && 1 <= t.day <= DaysIn(t.year, t.month)
  }

  /** The three numbers of a text of the pattern's shape, before any range check. */
  function Components(d: string): Date
    requires MatchesDatePattern(d)
  {
    Date(DigitsValue(d[..4]), DigitsValue(d[5..7]), DigitsValue(d[8..]))
  }

  /**
   * The pattern accepts exactly the layout renderings: every text of its shape
   * is FormatDate of its own three numbers (and FormatDate always yields that shape).
   */
  lemma ShapedDateIsFormatted(d: string)
    requires MatchesDatePattern(d)
    ensures var t := Components(d);
      0 <= t.year < 10000 && 0 <= t.month < 100 && 0 <= t.day < 100 && FormatDate(t) == d
  {
    DigitsValueBound(d[..4]);
    DigitsValueBound(d[5..7]);
    DigitsValueBound(d[8..]);
    FixedDigitsOfValue(d[..4]);
    FixedDigitsOfValue(d[5..7]);
    FixedDigitsOfValue(d[8..]);
    assert d == d[..4] + "-" + d[5..7] + "-" + d[8..];
  }

  /** The "2006-01-02" layout: the year in four digits, month and day in two. */
  function FormatDate(t: Date): (r: string)
    requires 0 <= t.year < 10000 && 0 <= t.month < 100 && 0 <= t.day < 100
    ensures MatchesDatePattern(r)
  {
    var r := FixedDigits(t.year, 4) + "-" + FixedDigits(t.month, 2) + "-" + FixedDigits(t.day, 2);
    assert r[..4] == FixedDigits(t.year, 4) && r[5..7] == FixedDigits(t.month, 2) && r[8..] == FixedDigits(t.day, 2);
    r
  }

  /**
   * time.Parse("2006-01-02", d) on a text the pattern accepts: the month must
   * lie in 1..12 and the day in the month, February 29 only in a leap year.
   * What it accepts is a calendar date whose layout rendering is the text itself.
   */
  function ParseDate(d: string): (r: Option<Date>)
    requires MatchesDatePattern(d)
    ensures r.Some? <==> IsCalendarDate(Components(d))
    ensures r.Some? ==> r.value == Components(d) && 0 <= r.value.year < 10000 && FormatDate(r.value) == d
  {
    var t := Components(d);
    ShapedDateIsFormatted(d);
    if t.month < 1 || t.month > 12 then None
    else if t.day < 1 || t.day > DaysIn(t.year, t.month) then None
    else Some(t)
  }

  /** time.Time.Before on two calendar days. */
  predicate Before(a: Date, b: Date)
  {
    a.year < b.year
    || (a.year == b.year && (a.month < b.month || (a.month == b.month && a.day < b.day)))
  }

  /** The earliest date the endpoint accepts. */
  const MinimumDate := Date(2010, 1, 1)

  // ---------------------------------------------------------------------------
  // Options

  datatype ListingStatusOptions = ListingStatusOptions(date: string, state: string)

  /**
   * ListingStatusOptions.Valid. An unset date is not checked; a set one must
   * match the pattern, parse as a calendar date and not come before the
   * minimum date, which for texts of this shape is plain text comparison.
   */
  function Valid(l: ListingStatusOptions): (r: bool)
    ensures r <==> (StateValid(l.state) &&
      (l.date == "" ||
        (MatchesDatePattern(l.date) && IsCalendarDate(Components(l.date)) && !Less(l.date, FormatDate(MinimumDate)))))
  {
    if !StateValid(l.state) then false
    else if l.date != "" then
      if !MatchesDatePattern(l.date) then false
      else
        var parsed := ParseDate(l.date);
        if parsed.None? then false
        else
          TextOrderIsDateOrder(l.date, FormatDate(MinimumDate));
          MinimumDateRoundTrip();
          !Before(parsed.value, MinimumDate)
    else true
  }

  /** The struct as reflection sees it: field names, url tags and values, in declaration order. */
  function Fields(l: ListingStatusOptions): seq<Query.Field>
  {
    [ Query.Field("Date", "date", true, Query.Str(l.date)),
      Query.Field("State", "state", true, Query.Str(l.state)) ]
  }

  /** buildQuery's argument: a nil options pointer is not a struct and encodes to nothing. */
  function OptionsValue(options: Option<ListingStatusOptions>): Query.Options
  {
    if options.None? then Query.NotAStruct else Query.Struct(Fields(options.value))
  }

  const ListingStatusPath := "function=LISTING_STATUS&"
  const ListingStatusFailure := "failed to get latest active listing status: "

  /**
   * GetListingStatus: options, when given, must be valid; the listings come
   * from a fresh slice the CSV reader fills.
   */
  method GetListingStatus(c: Client, options: Option<ListingStatusOptions>, reply: Reply)
    returns (request: Option<Request>, result: Result<seq<Csv.Listing>, Error>)
    ensures options.Some? && !Valid(options.value) ==> request == None && result == Err(InvalidInput)
    ensures options.None? || Valid(options.value) ==>
      && request == Some(Request(c.baseURL + ListingStatusPath, Query.EncodedQuery(OptionsValue(options))))
      && result == ListingStatusResult(reply)
  {
    if options.Some? && !Valid(options.value) {
      return None, Err(InvalidInput);
    }
    var query := Query.BuildQuery(OptionsValue(options));
    request := Some(Request(c.baseURL + ListingStatusPath, query));
    var listings := new Csv.ListingSlice();
    var err := DoCSVRequest(reply, Csv.SliceOf(Csv.ListingType, listings));
    if err.Some? {
      return request, Err(Wrap(ListingStatusFailure, err.value, ""));
    }
    assert listings.items == if ReachesCSVReader(reply) then Csv.ListingsOf(Csv.Records(reply.body.asCsv).value) else [];
    result := Ok(listings.items);
  }

  /** What GetListingStatus returns once its request is sent. */
  function ListingStatusResult(reply: Reply): (r: Result<seq<Csv.Listing>, Error>)
    ensures r.Err? <==> CSVRequestError(reply, Csv.SliceType(Csv.ListingType)).Some?
    ensures r.Err? ==> AsAPIError(r.error) == AsAPIError(CSVRequestError(reply, Csv.SliceType(Csv.ListingType)).value)
    ensures r.Ok? && !ReachesCSVReader(reply) ==> r.value == []
    ensures r.Ok? && ReachesCSVReader(reply) ==>
      Csv.Records(reply.body.asCsv).Ok? && r.value == Csv.ListingsOf(Csv.Records(reply.body.asCsv).value)
  {
    var e := CSVRequestError(reply, Csv.SliceType(Csv.ListingType));
    if e.Some? then Err(Wrap(ListingStatusFailure, e.value, ""))
    else if ReachesCSVReader(reply) then Ok(Csv.ListingsOf(Csv.Records(reply.body.asCsv).value))
    else Ok([])
  }

  // ---------------------------------------------------------------------------
  // Properties

  lemma SeparatorStep(x: string, y: string)
    requires |x| >= 1 && |y| >= 1 && x[0] == y[0]
    ensures Less(x, y) <==> Less(x[1..], y[1..])
  {
  }

  /** Text from the month on compares as the month, then the day. */
  lemma MonthDayTextOrder(d: string, e: string)
    requires MatchesDatePattern(d) && MatchesDatePattern(e)
    ensures Less(d[5..], e[5..]) <==>
      Components(d).month < Components(e).month ||
      (Components(d).month == Components(e).month && Components(d).day < Components(e).day)
  {
    assert d[5..] == d[5..7] + d[7..] && e[5..] == e[5..7] + e[7..];
    LessConcat(d[5..7], d[7..], e[5..7], e[7..]);
    SeparatorStep(d[7..], e[7..]);
    assert d[7..][1..] == d[8..] && e[7..][1..] == e[8..];
    DigitsLessIsNumericLess(d[5..7], e[5..7]);
    DigitsEqualIsNumericEqual(d[5..7], e[5..7]);
    DigitsLessIsNumericLess(d[8..], e[8..]);
  }

  /** For texts of the pattern's shape, Go's string order is the order of the dates they denote. */
  lemma TextOrderIsDateOrder(d: string, e: string)
    requires MatchesDatePattern(d) && MatchesDatePattern(e)
    ensures Less(d, e) <==> Before(Components(d), Components(e))
  {
    assert d == d[..4] + d[4..] && e == e[..4] + e[4..];
    LessConcat(d[..4], d[4..], e[..4], e[4..]);
    SeparatorStep(d[4..], e[4..]);
    assert d[4..][1..] == d[5..] && e[4..][1..] == e[5..];
    DigitsLessIsNumericLess(d[..4], e[..4]);
    DigitsEqualIsNumericEqual(d[..4], e[..4]);
    MonthDayTextOrder(d, e);
  }

  /** The minimum date's own text reads back as the minimum date. */
  lemma MinimumDateRoundTrip()
    ensures Components(FormatDate(MinimumDate)) == MinimumDate
  {
    ParseFormat(MinimumDate);
  }

  /** Rendering a calendar date in the layout and parsing it back gives the date. */
  lemma ParseFormat(t: Date)
    requires IsCalendarDate(t) && 0 <= t.year < 10000
    ensures ParseDate(FormatDate(t)) == Some(t)
  {
    ComponentsOfFormat(t);
  }

  /** The layout rendering keeps the three numbers, in range or not. */
  lemma ComponentsOfFormat(t: Date)
    requires 0 <= t.year < 10000 && 0 <= t.month < 100 && 0 <= t.day < 100
    ensures Components(FormatDate(t)) == t
  {
    var d := FormatDate(t);
    assert d[..4] == FixedDigits(t.year, 4) && d[5..7] == FixedDigits(t.month, 2) && d[8..] == FixedDigits(t.day, 2);
    FixedDigitsValue(t.year, 4);
    FixedDigitsValue(t.month, 2);
    FixedDigitsValue(t.day, 2);
  }

  /** Two accepted texts denote the same date only when they are the same text. */
  lemma ParseDateInjective(d: string, e: string)
    requires MatchesDatePattern(d) && MatchesDatePattern(e)
    requires ParseDate(d).Some? && ParseDate(d) == ParseDate(e)
    ensures d == e
  {
  }

  /** February 29 parses only in leap years. */
  lemma LeapDay(year: int)
    requires 0 <= year < 10000
    ensures ParseDate(FormatDate(Date(year, 2, 29))).Some? <==> IsLeapYear(year)
  {
    ComponentsOfFormat(Date(year, 2, 29));
  }

  /** Unset options of both kinds pass. */
  lemma ZeroOptionsAreValid()
    ensures Valid(ListingStatusOptions("", ""))
  {
    assert EqualIgnoringCase("", "");
  }

  /** A date of 2010 or later passes, an earlier one does not, whatever its month and day. */
  lemma MinimumYear(t: Date, state: string)
    requires IsCalendarDate(t) && 0 <= t.year < 10000 && StateValid(state)
    ensures Valid(ListingStatusOptions(FormatDate(t), state)) <==> t.year >= 2010
  {
    ParseFormat(t);
  }

  /** An out-of-range month is rejected even though the text has the right shape. */
  lemma OutOfRangeMonthRejected(d: string, state: string)
    requires MatchesDatePattern(d) && DigitsValue(d[5..7]) > 12
    ensures !Valid(ListingStatusOptions(d, state))
  {
  }

  /** Any text not of the pattern's shape is rejected. */
  lemma MisshapenDateRejected(d: string, state: string)
    requires d != "" && !MatchesDatePattern(d)
    ensures !Valid(ListingStatusOptions(d, state))
  {
  }

  /** A nil options pointer sends no options at all. */
  lemma NilOptionsSendNothing()
    ensures Query.EncodedQuery(OptionsValue(None)) == []
  {
  }

  /** Both fields are required in their tags, so each goes out under its own name whenever set. */
  lemma OptionsRoundTrip(l: ListingStatusOptions)
    ensures Query.ValuesFor("date", Query.EncodedQuery(OptionsValue(Some(l)))) == if l.date == "" then [] else [l.date]
    ensures Query.ValuesFor("state", Query.EncodedQuery(OptionsValue(Some(l)))) == if l.state == "" then [] else [l.state]
  {
    Query.KeyOfTag(Fields(l)[0], "date", "");
    Query.KeyOfTag(Fields(l)[1], "state", "");
    Query.ValuesForUniqueKey("date", Fields(l), 0);
    Query.ValuesForUniqueKey("state", Fields(l), 1);
  }

  /** A date of the endpoint's own tests: month 56 is refused. */
  lemma SampleInvalidDateRejected()
    ensures !Valid(ListingStatusOptions("1234-56-78", ""))
  {
    var bad := "1234-56-78";
    assert bad[5..7] == FixedDigits(56, 2);
    FixedDigitsValue(56, 2);
    OutOfRangeMonthRejected(bad, "");
  }

  /** A date of the endpoint's own tests: January 2, 2010 passes. */
  lemma SampleValidDateAccepted()
    ensures Valid(ListingStatusOptions("2010-01-02", ""))
  {
    assert FormatDate(Date(2010, 1, 2)) == "2010-01-02";
    assert StateValid("") by { assert EqualIgnoringCase("", ""); }
    MinimumYear(Date(2010, 1, 2), "");
  }
}
