/**
 * The decision logic of the Python ML service (`ml_service/app.py`): the
 * meeting-time suggester behind `/api/schedule-assistant`, and the two keyword
 * classifiers behind `/api/predict-duration` and `/api/assistant`.
 * Request parsing, `jsonify` and the simulated delays are not modelled: each
 * endpoint is a function or method from the request fields to the response fields.
 */
module MlService {
  import opened Wrappers
  import opened Text
  import opened Keywords

  // ---------------------------------------------------------------------------
  // Python's int() on a decimal string

  /** Python refuses to convert decimal strings longer than this many digits. */
  const MaxStrDigits := 4300

  /** ASCII digits with single underscores between them: the numerals `int()` accepts in base 10. */
  predicate IsDigitRun(s: string)
  {
    && |s| > 0 && IsDigit(s[0]) && IsDigit(s[|s| - 1])
    && (forall i :: 0 <= i < |s| ==> IsDigit(s[i]) || s[i] == '_')
    && !Contains(s, "__")
  }

  /** The digits of a numeral with its underscores removed. */
  function DropUnderscores(s: string): (r: string)
    ensures |r| <= |s|
    ensures (forall i :: 0 <= i < |s| ==> IsDigit(s[i]) || s[i] == '_') ==> AllDigits(r)
    ensures AllDigits(s) ==> r == s
  {
    if s == [] then []
    else (if s[0] == '_' then [] else [s[0]]) + DropUnderscores(s[1..])
  }

  /** Python's `int(s)`: None where it raises ValueError. */
  function PyInt(s: string): (r: Option<int>)
  {
    PyIntStripped(PyStrip(s))
  }

  /** `int()` on text already stripped of surrounding whitespace: an optional sign, then a numeral. */
  function PyIntStripped(t: string): (r: Option<int>)
  {
    var negative := |t| > 0 && t[0] == '-';
    var body := if |t| > 0 && (t[0] == '+' || t[0] == '-') then t[1..] else t;
    if IsDigitRun(body) && |DropUnderscores(body)| <= MaxStrDigits then
      var v: int := DigitsValue(DropUnderscores(body));
      Some(if negative then -v else v)
    else None
  }

  /** A numeral without sign or underscores reads as its decimal value. */
  lemma PyIntPlain(s: string)
    requires IsDigitRun(s) && DropUnderscores(s) == s && |s| <= MaxStrDigits
    ensures PyIntStripped(s) == Some(DigitsValue(s))
  {
    assert s[0] != '+' && s[0] != '-';
  }

  /** A plain string of at most 4300 ASCII digits reads as its decimal value. */
  lemma PyIntOfDigits(s: string)
    requires |s| > 0 && AllDigits(s) && |s| <= MaxStrDigits
    ensures PyInt(s) == Some(DigitsValue(s))
  {
    assert PyStrip(s) == s by {
      assert !IsPyWhitespace(s[0]) && !IsPyWhitespace(s[|s| - 1]);
      TrimNoop(s, IsPyWhitespace);
    }
    assert IsDigitRun(s) by {
      NotContainsWithoutHead(s, "__");
    }
    PyIntPlain(s);
  }

  /** A printed natural number reads back as itself. */
  lemma PyIntDecimal(n: nat)
    requires n < 100
    ensures PyInt(Decimal(n)) == Some(n)
  {
    PyIntOfDigits(Decimal(n));
    DecimalRoundTrip(n);
  }

  // ---------------------------------------------------------------------------
  // Busy hours

  /** One entry of the request's `meetings` list; `time` is None when the entry has no 'time' key. */
  datatype MeetingEntry = MeetingEntry(time: Option<string>)

  /**
   * The hour a "10:00 AM - 11:00 AM" string occupies: the integer before ':' in the
   * stripped text before the first '-', plus 12 when that text contains "PM" and the
   * integer is not 12. None where the source's `try` block raises.
   */
  function ParseBusyHour(time: string): Option<int>
  {
    var timePart := PyStrip(Before(time, '-'));
    match PyInt(Before(timePart, ':'))
    case None => None
    case Some(hour) => Some(if Contains(timePart, "PM") && hour != 12 then hour + 12 else hour)
  }

  /** The busy hour one meeting contributes: only an entry whose `time` contains '-' and parses. */
  function BusyHourOf(m: MeetingEntry): (r: Option<int>)
    ensures r.Some? ==> m.time.Some? && '-' in m.time.value
  {
    if m.time.Some? && Contains(m.time.value, "-") then
      ContainsChar(m.time.value, '-');
      ParseBusyHour(m.time.value)
    else None
  }

  /** The values `f` gives for the elements of `s`, in order, skipping those where it gives None. */
  function Collect<T>(s: seq<T>, f: T -> Option<int>): seq<int>
  {
    if s == [] then []
    else Collect(s[..|s| - 1], f) + (if f(s[|s| - 1]).Some? then [f(s[|s| - 1]).value] else [])
  }

  /** A value is collected exactly when some element gives it. */
  lemma {:induction false} CollectMembers<T>(s: seq<T>, f: T -> Option<int>, h: int)
    ensures h in Collect(s, f) <==> exists i :: 0 <= i < |s| && f(s[i]) == Some(h)
  {
    if s != [] {
      var init := s[..|s| - 1];
      CollectMembers(init, f, h);
      if h in Collect(init, f) {
        var i :| 0 <= i < |init| && f(init[i]) == Some(h);
        assert s[i] == init[i];
      }
      if i :| 0 <= i < |s| && f(s[i]) == Some(h) {
        if i < |init| {
          assert init[i] == s[i];
        }
      }
    }
  }

  /** `occupied_slots` before sorting: the busy hours of the meetings, in meeting order. */
  function BusyHours(meetings: seq<MeetingEntry>): seq<int>
  {
    Collect(meetings, BusyHourOf)
  }

  /** An hour is busy exactly when some meeting contributes it; entries that fail to parse are skipped. */
  lemma BusyHoursFromMeetings(meetings: seq<MeetingEntry>, h: int)
    ensures h in BusyHours(meetings) <==> exists i :: 0 <= i < |meetings| && BusyHourOf(meetings[i]) == Some(h)
  {
    CollectMembers(meetings, BusyHourOf, h);
  }

  // ---------------------------------------------------------------------------
  // Time labels

  const WorkStart := 9
  const WorkEnd := 18
  const MaxSuggestions := 3

  /** "n:00 AM" / "n:00 PM", with `n` printed as Python prints an integer. */
  function HourText(n: int, meridiem: string): string
  {
    IntText(n) + ":00 " + meridiem
  }

  /** The 12-hour label of hour `h`: printed as h when h <= 12, else h - 12, with AM iff h < 12. */
  function ClockLabel(h: int): string
  {
    HourText(if h <= 12 then h else h - 12, if h < 12 then "AM" else "PM")
  }

  /** The `time` field of a suggestion starting at hour `h`: "h:00 AM - h+1:00 AM" in 12-hour form. */
  function SlotLabel(h: int): string
  {
    ClockLabel(h) + " - " + ClockLabel(h + 1)
  }

  /** The text before the first '-' of an hour text followed by " - " is the hour text and a space. */
  lemma HourTextSplit(d: nat, meridiem: string, rest: string)
    requires meridiem == "AM" || meridiem == "PM"
    ensures Before(HourText(d, meridiem) + " - " + rest, '-') == HourText(d, meridiem) + " "
  {
    var digits := Decimal(d);
    var text := HourText(d, meridiem);
    assert forall i :: 0 <= i < |digits| ==> digits[i] != '-';
    assert '-' !in text + " ";
    assert text + " - " + rest == (text + " ") + ['-'] + (" " + rest);
    BeforeJoin(text + " ", '-', " " + rest);
  }

  /** Stripping an hour text with a trailing space gives the hour text. */
  lemma HourTextStrip(d: nat, meridiem: string)
    requires meridiem == "AM" || meridiem == "PM"
    ensures PyStrip(HourText(d, meridiem) + " ") == HourText(d, meridiem)
  {
    var text := HourText(d, meridiem);
    assert text[0] == Decimal(d)[0];
    assert text[|text| - 1] == 'M';
    TrimDropsTrailing(text, ' ', IsPyWhitespace);
  }

  /** The part of an hour text before ':' is its number. */
  lemma HourTextNumber(d: nat, meridiem: string)
    ensures Before(HourText(d, meridiem), ':') == Decimal(d)
  {
    var digits := Decimal(d);
    assert forall i :: 0 <= i < |digits| ==> digits[i] != ':';
    assert HourText(d, meridiem) == digits + [':'] + ("00 " + meridiem);
    BeforeJoin(digits, ':', "00 " + meridiem);
  }

  /** An hour text contains "PM" exactly when its meridiem is PM. */
  lemma HourTextPM(d: nat, meridiem: string)
    requires meridiem == "AM" || meridiem == "PM"
    ensures Contains(HourText(d, meridiem), "PM") <==> meridiem == "PM"
  {
    var digits := Decimal(d);
    if meridiem == "PM" {
      ContainsSuffix(digits + ":00 ", "PM");
    } else {
      assert forall i :: 0 <= i < |digits| ==> digits[i] != 'P';
      assert 'P' !in HourText(d, meridiem);
      NotContainsWithoutHead(HourText(d, meridiem), "PM");
    }
  }

  /** Parsing an hour text followed by " - " reads its number, shifted by 12 for PM unless it is 12. */
  lemma ParseHourText(d: nat, meridiem: string, rest: string)
    requires d < 100 && (meridiem == "AM" || meridiem == "PM")
    ensures ParseBusyHour(HourText(d, meridiem) + " - " + rest)
         == Some(if meridiem == "PM" && d != 12 then d + 12 else d)
  {
    HourTextSplit(d, meridiem, rest);
    HourTextStrip(d, meridiem);
    HourTextNumber(d, meridiem);
    HourTextPM(d, meridiem);
    PyIntDecimal(d);
  }

  /** A suggestion's `time` parses back, by the same rule that reads busy hours, to the hour it starts at. */
  lemma SlotLabelRoundTrip(h: int)
    requires 0 <= h <= 23
    ensures ParseBusyHour(SlotLabel(h)) == Some(h)
  {
    var d := if h <= 12 then h else h - 12;
    var meridiem := if h < 12 then "AM" else "PM";
    assert SlotLabel(h) == HourText(d, meridiem) + " - " + ClockLabel(h + 1);
    ParseHourText(d, meridiem, ClockLabel(h + 1));
  }

  /** "12:00 AM" is read as hour 12, like noon: only PM shifts the hour. */
  lemma MidnightReadsAsNoon(rest: string)
    ensures ParseBusyHour(HourText(12, "AM") + " - " + rest) == Some(12)
    ensures ParseBusyHour(HourText(12, "PM") + " - " + rest) == Some(12)
  {
    ParseHourText(12, "AM", rest);
    ParseHourText(12, "PM", rest);
  }

  // ---------------------------------------------------------------------------
  // Free hours and suggestions

  /** The source's collision check between a busy hour and a candidate hour. */
  predicate Collides(busyHour: int, hour: int)
  {
    (if busyHour - hour < 0 then hour - busyHour else busyHour - hour) < 1
  }

  /** The free working hours before `hi`, ascending: hours in [WorkStart, hi) that are not busy. */
  function FreeBefore(busy: seq<int>, hi: int): (r: seq<int>)
    ensures forall i :: 0 <= i < |r| ==> WorkStart <= r[i] < hi
    // `|busy|` is listed so that the verifier does not unroll the recursion on a literal `hi` alone
    decreases hi - WorkStart, |busy|
  {
    if hi <= WorkStart then []
    else FreeBefore(busy, hi - 1) + (if hi - 1 in busy then [] else [hi - 1])
  }

  /** No free hour is busy. */
  lemma {:induction false} FreeBeforeNotBusy(busy: seq<int>, hi: int)
    ensures forall i :: 0 <= i < |FreeBefore(busy, hi)| ==> FreeBefore(busy, hi)[i] !in busy
    decreases hi - WorkStart
  {
    if hi > WorkStart {
      var prev := FreeBefore(busy, hi - 1);
      var r := FreeBefore(busy, hi);
      FreeBeforeNotBusy(busy, hi - 1);
      assert forall i :: 0 <= i < |prev| ==> r[i] == prev[i];
    }
  }

  /** Strictly ascending. */
  predicate Ascending(s: seq<int>)
  {
    forall i, j :: 0 <= i < j < |s| ==> s[i] < s[j]
  }

  /** The free hours are in strictly ascending order. */
  lemma {:induction false} FreeBeforeAscending(busy: seq<int>, hi: int)
    ensures Ascending(FreeBefore(busy, hi))
    decreases hi - WorkStart
  {
    if hi > WorkStart {
      var prev := FreeBefore(busy, hi - 1);
      var r := FreeBefore(busy, hi);
      FreeBeforeAscending(busy, hi - 1);
      if hi - 1 !in busy {
        assert r == prev + [hi - 1];
        forall i, j | 0 <= i < j < |r|
          ensures r[i] < r[j]
        {
          if j < |prev| {
            assert r[i] == prev[i] && r[j] == prev[j];
          } else {
            assert r[i] == prev[i] < hi - 1 == r[j];
          }
        }
      }
    }
  }

  /** Every working hour below `hi` that is not busy is among the free hours. */
  lemma {:induction false} FreeBeforeComplete(busy: seq<int>, hi: int)
    ensures forall h :: WorkStart <= h < hi && h !in busy ==> h in FreeBefore(busy, hi)
    decreases hi - WorkStart
  {
    if hi > WorkStart {
      var prev := FreeBefore(busy, hi - 1);
      var r := FreeBefore(busy, hi);
      FreeBeforeComplete(busy, hi - 1);
      assert forall h :: h in prev ==> h in r;
    }
  }

  /**
   * The free hours before `hi` are exactly the working hours below `hi` that are not
   * busy, each once, in ascending order.
   */
  lemma FreeBeforeMeaning(busy: seq<int>, hi: int)
    ensures var r := FreeBefore(busy, hi);
      && (forall i :: 0 <= i < |r| ==> WorkStart <= r[i] < hi && r[i] !in busy)
      && (forall i, j :: 0 <= i < |r| && 0 <= j < |r| ==> (i < j <==> r[i] < r[j]))
      && (forall h :: WorkStart <= h < hi && h !in busy ==> h in r)
  {
    FreeBeforeNotBusy(busy, hi);
    FreeBeforeAscending(busy, hi);
    FreeBeforeComplete(busy, hi);
  }

  /** The free hours found before `lo` are a prefix of those found before any later bound. */
  lemma {:induction false} FreeBeforePrefix(busy: seq<int>, lo: int, hi: int)
    requires lo <= hi
    ensures FreeBefore(busy, lo) <= FreeBefore(busy, hi)
    decreases hi - lo
  {
    if lo < hi {
      FreeBeforePrefix(busy, lo, hi - 1);
    }
  }

  /** The first `n` free working hours before `hi` (all of them when there are fewer). */
  function FirstFree(busy: seq<int>, hi: int, n: nat): (p: seq<int>)
    ensures |p| <= n
    ensures p <= FreeBefore(busy, hi)
    ensures |p| < n ==> p == FreeBefore(busy, hi)
  {
    var free := FreeBefore(busy, hi);
    if |free| <= n then free else free[..n]
  }

  /** The hours the suggester picks: the free working hours up to the third. */
  function Picks(busy: seq<int>): (p: seq<int>)
  {
    FirstFree(busy, WorkEnd, MaxSuggestions)
  }

  /** Every free hour below the last of the first `n` free hours is among them. */
  lemma FirstFreeEarliest(busy: seq<int>, hi: int, n: nat, h: int)
    requires WorkStart <= h < hi && h !in busy
    requires var p := FirstFree(busy, hi, n); |p| > 0 && h < p[|p| - 1]
    ensures h in FirstFree(busy, hi, n)
  {
    var free := FreeBefore(busy, hi);
    var p := FirstFree(busy, hi, n);
    FreeBeforeMeaning(busy, hi);
    var k :| 0 <= k < |free| && free[k] == h;
    assert free[|p| - 1] == p[|p| - 1];
    assert p[k] == h;
  }

  /** The first `n` free hours are free working hours, ascending. */
  lemma FirstFreeFree(busy: seq<int>, hi: int, n: nat)
    ensures var p := FirstFree(busy, hi, n);
      && (forall i :: 0 <= i < |p| ==> WorkStart <= p[i] < hi && p[i] !in busy)
      && (forall i, j :: 0 <= i < j < |p| ==> p[i] < p[j])
  {
    var free := FreeBefore(busy, hi);
    var p := FirstFree(busy, hi, n);
    FreeBeforeMeaning(busy, hi);
    assert forall i :: 0 <= i < |p| ==> p[i] == free[i];
  }

  /** There are no free hours before the first `n` exactly when every working hour is busy. */
  lemma FirstFreeNone(busy: seq<int>, hi: int, n: nat)
    requires n > 0
    ensures FirstFree(busy, hi, n) == [] <==> forall h :: WorkStart <= h < hi ==> h in busy
  {
    var free := FreeBefore(busy, hi);
    FreeBeforeMeaning(busy, hi);
    if free != [] {
      assert free[0] !in busy;
    }
  }

  /** What `FirstFree` gives, for any bound: the earliest free hours, in order. */
  lemma FirstFreeMeaning(busy: seq<int>, hi: int, n: nat)
    ensures var p := FirstFree(busy, hi, n);
      && (forall i :: 0 <= i < |p| ==> WorkStart <= p[i] < hi && p[i] !in busy)
      && (forall i, j :: 0 <= i < j < |p| ==> p[i] < p[j])
      && (|p| < n ==> forall h :: WorkStart <= h < hi && h !in busy ==> h in p)
      && (forall h :: WorkStart <= h < hi && h !in busy && |p| > 0 && h < p[|p| - 1] ==> h in p)
      && (n > 0 ==> (p == [] <==> forall h :: WorkStart <= h < hi ==> h in busy))
  {
    var p := FirstFree(busy, hi, n);
    FreeBeforeMeaning(busy, hi);
    FirstFreeFree(busy, hi, n);
    forall h | WorkStart <= h < hi && h !in busy && |p| > 0 && h < p[|p| - 1]
      ensures h in p
    {
      FirstFreeEarliest(busy, hi, n, h);
    }
    if n > 0 {
      FirstFreeNone(busy, hi, n);
    }
  }

  /**
   * The picks are the earliest free working hours: at most three, each free and in
   * working hours, ascending; every free hour before the last pick is picked; all free
   * hours are picked when fewer than three are; none only when every hour is busy.
   */
  lemma PicksMeaning(busy: seq<int>)
    ensures var p := Picks(busy);
      && |p| <= MaxSuggestions
      && (forall i :: 0 <= i < |p| ==> WorkStart <= p[i] < WorkEnd && p[i] !in busy)
      && (forall i, j :: 0 <= i < j < |p| ==> p[i] < p[j])
      && (|p| < MaxSuggestions ==> forall h :: WorkStart <= h < WorkEnd && h !in busy ==> h in p)
      && (forall h :: WorkStart <= h < WorkEnd && h !in busy && |p| > 0 && h < p[|p| - 1] ==> h in p)
      && (p == [] <==> forall h :: WorkStart <= h < WorkEnd ==> h in busy)
  {
    FirstFreeMeaning(busy, WorkEnd, MaxSuggestions);
  }

  datatype Suggestion = Suggestion(time: string, date: string, confidence: int)

  /** Returned alone when no working hour is free. */
  const Fallback := Suggestion("10:00 AM - 11:00 AM", "Day After Tomorrow", 80)

  /** The n-th suggestion of the response (counting from 0), for the free hour `h`. */
  function SuggestionAt(h: int, n: int): Suggestion
  {
    Suggestion(SlotLabel(h), "Tomorrow", 90 - 5 * n)
  }

  /** The suggestions for picked hours: the n-th is labelled with its hour, dated "Tomorrow", confidence 90 - 5n. */
  function Render(hours: seq<int>): (r: seq<Suggestion>)
    ensures |r| == |hours|
  {
    if hours == [] then []
    else
      var n := |hours| - 1;
      Render(hours[..n]) + [SuggestionAt(hours[n], n)]
  }

  /** Rendering one more hour appends its suggestion, numbered after those before it. */
  lemma {:induction false} RenderAppend(hours: seq<int>, h: int)
    ensures Render(hours + [h]) == Render(hours) + [SuggestionAt(h, |hours|)]
  {
    assert (hours + [h])[..|hours|] == hours;
  }

  /** The n-th rendered suggestion is dated "Tomorrow", has confidence 90 - 5n and is labelled with the n-th hour. */
  lemma {:induction false} RenderAt(hours: seq<int>, n: int)
    requires 0 <= n < |hours|
    ensures Render(hours)[n] == Suggestion(SlotLabel(hours[n]), "Tomorrow", 90 - 5 * n)
  {
    if n < |hours| - 1 {
      var init := hours[..|hours| - 1];
      RenderAt(init, n);
      assert init[n] == hours[n];
    }
  }

  /** The n-th rendered suggestion is dated "Tomorrow", has confidence 90 - 5n and reads back to the n-th hour. */
  lemma RenderedSuggestion(hours: seq<int>, n: int)
    requires forall i :: 0 <= i < |hours| ==> WorkStart <= hours[i] < WorkEnd
    requires 0 <= n < |hours|
    ensures Render(hours)[n].date == "Tomorrow"
    ensures Render(hours)[n].confidence == 90 - 5 * n
    ensures ParseBusyHour(Render(hours)[n].time) == Some(hours[n])
  {
    RenderAt(hours, n);
    SlotLabelRoundTrip(hours[n]);
  }

  /** The picks lie in working hours. */
  lemma PicksInDay(busy: seq<int>)
    ensures forall i :: 0 <= i < |Picks(busy)| ==> WorkStart <= Picks(busy)[i] < WorkEnd
  {
    FirstFreeFree(busy, WorkEnd, MaxSuggestions);
  }

  /** The suggestions for the busy hours `busy`: the rendered picks, or the fallback alone when there are none. */
  function Suggest(busy: seq<int>): seq<Suggestion>
  {
    var p := Picks(busy);
    if p == [] then [Fallback] else Render(p)
  }

  /** The `suggestions` field of the schedule-assistant response. */
  function ScheduleSuggestions(meetings: seq<MeetingEntry>): seq<Suggestion>
  {
    Suggest(BusyHours(meetings))
  }

  /** The suggestions for busy hours with no free working hour are the fallback alone. */
  lemma SuggestFallback(busy: seq<int>)
    ensures Suggest(busy) == [Fallback] <==> forall h :: WorkStart <= h < WorkEnd ==> h in busy
  {
    var p := Picks(busy);
    PicksMeaning(busy);
    if p != [] {
      RenderAt(p, 0);
      assert Suggest(busy)[0].date == "Tomorrow";
    }
  }

  /** Otherwise the n-th suggestion is dated "Tomorrow", has confidence 90 - 5n and reads back to the n-th pick. */
  lemma SuggestRendered(busy: seq<int>, n: int)
    requires Picks(busy) != [] && 0 <= n < |Picks(busy)|
    ensures |Suggest(busy)| == |Picks(busy)|
    ensures Suggest(busy)[n].date == "Tomorrow"
    ensures Suggest(busy)[n].confidence == 90 - 5 * n
    ensures ParseBusyHour(Suggest(busy)[n].time) == Some(Picks(busy)[n])
  {
    PicksInDay(busy);
    RenderedSuggestion(Picks(busy), n);
  }

  /**
   * What the suggestions mean: one to three entries; the fallback exactly when every
   * working hour is busy; otherwise the n-th is dated "Tomorrow", has confidence 90 - 5n,
   * and its time reads back to the n-th pick, the earliest free working hours ascending.
   */
  lemma SuggestionsMeaning(meetings: seq<MeetingEntry>)
    ensures var r := ScheduleSuggestions(meetings);
      && 1 <= |r| <= MaxSuggestions
      && (r == [Fallback] <==> forall h :: WorkStart <= h < WorkEnd ==> h in BusyHours(meetings))
      && (r != [Fallback] ==> forall n :: 0 <= n < |r| ==>
            && r[n].date == "Tomorrow"
            && r[n].confidence == 90 - 5 * n
            && ParseBusyHour(r[n].time) == Some(Picks(BusyHours(meetings))[n]))
  {
    var busy := BusyHours(meetings);
    var p := Picks(busy);
    SuggestFallback(busy);
    if p != [] {
      forall n | 0 <= n < |p|
        ensures Suggest(busy)[n].date == "Tomorrow" && Suggest(busy)[n].confidence == 90 - 5 * n
        ensures ParseBusyHour(Suggest(busy)[n].time) == Some(p[n])
      {
        SuggestRendered(busy, n);
      }
    }
  }

  /** The fallback's own time reads as hour 10. */
  lemma FallbackReadsAsTen()
    ensures ParseBusyHour(Fallback.time) == Some(10)
  {
    assert Decimal(10) == "10" && Decimal(11) == "11";
    assert HourText(10, "AM") == "10:00 AM" && HourText(11, "AM") == "11:00 AM";
    assert Fallback.time == HourText(10, "AM") + " - " + HourText(11, "AM");
    ParseHourText(10, "AM", HourText(11, "AM"));
  }

  /** One more hour of the scan adds that hour to the free hours exactly when it is not busy. */
  lemma FreeBeforeStep(busy: seq<int>, h: int)
    requires WorkStart <= h
    ensures FreeBefore(busy, h + 1) == FreeBefore(busy, h) + (if h in busy then [] else [h])
  {
  }

  /** One hour of the scan: a free hour is appended to the free hours and its suggestion to the rendered ones. */
  lemma ScanStep(busy: seq<int>, picked: seq<int>, suggestions: seq<Suggestion>, h: int)
    requires WorkStart <= h && picked == FreeBefore(busy, h) && suggestions == Render(picked)
    ensures h in busy ==> FreeBefore(busy, h + 1) == picked
    ensures h !in busy ==> FreeBefore(busy, h + 1) == picked + [h]
    ensures h !in busy ==> Render(picked + [h]) == suggestions + [SuggestionAt(h, |suggestions|)]
  {
    FreeBeforeStep(busy, h);
    RenderAppend(picked, h);
  }

  /**
   * The scan may stop once it has found three free hours or reached the end of the day:
   * what it has found then are the picks, and rendering them gives the suggestions.
   */
  lemma ScanComplete(busy: seq<int>, hi: int, picked: seq<int>, suggestions: seq<Suggestion>)
    requires WorkStart <= hi <= WorkEnd
    requires picked == FreeBefore(busy, hi) && suggestions == Render(picked)
    requires hi == WorkEnd || |picked| == MaxSuggestions
    requires |picked| <= MaxSuggestions
    ensures Picks(busy) == picked
    ensures Suggest(busy) == if suggestions == [] then [Fallback] else suggestions
  {
    FreeBeforePrefix(busy, hi, WorkEnd);
  }

  /** The first loop of `schedule_assistant`: gather `occupied_slots` from the meetings. */
  method OccupiedSlots(meetings: seq<MeetingEntry>) returns (occupied: seq<int>)
    ensures occupied == BusyHours(meetings)
  {
    occupied := [];
    for i := 0 to |meetings|
      invariant occupied == BusyHours(meetings[..i])
    {
      assert meetings[..i + 1][..i] == meetings[..i];
      var m := meetings[i];
      if m.time.Some? && Contains(m.time.value, "-") {
        var hour := ParseBusyHour(m.time.value);
        if hour.Some? {
          occupied := occupied + [hour.value];
        }
      }
    }
    assert meetings[..|meetings|] == meetings;
  }

  /** The inner loop of `schedule_assistant`: does some busy hour collide with `hour`. */
  method IsOccupied(occupied: seq<int>, hour: int) returns (isOccupied: bool)
    ensures isOccupied <==> hour in occupied
  {
    isOccupied := false;
    var j := 0;
    while j < |occupied|
      invariant 0 <= j <= |occupied|
      invariant !isOccupied ==> forall k :: 0 <= k < j ==> occupied[k] != hour
      invariant isOccupied ==> hour in occupied
    {
      if Collides(occupied[j], hour) {
        isOccupied := true;
        break;
      }
      j := j + 1;
    }
  }

  /** The scan of the working day in `schedule_assistant`: free hours in order, stopping after the third. */
  method ScanDay(occupied: seq<int>) returns (suggestions: seq<Suggestion>)
    ensures suggestions == Suggest(occupied)
  {
    suggestions := [];
    ghost var picked: seq<int> := [];
    var currentHour := WorkStart;
    while currentHour < WorkEnd
      invariant WorkStart <= currentHour <= WorkEnd
      invariant picked == FreeBefore(occupied, currentHour)
      invariant suggestions == Render(picked)
      invariant |suggestions| <= MaxSuggestions
      invariant currentHour < WorkEnd ==> |suggestions| < MaxSuggestions
    {
      var isOccupied := IsOccupied(occupied, currentHour);
      ScanStep(occupied, picked, suggestions, currentHour);
      if !isOccupied {
        suggestions := suggestions + [SuggestionAt(currentHour, |suggestions|)];
        picked := picked + [currentHour];
        if |suggestions| >= MaxSuggestions {
          currentHour := currentHour + 1;
          break;
        }
      }
      currentHour := currentHour + 1;
    }
    ScanComplete(occupied, currentHour, picked, suggestions);
    if suggestions == [] {
      suggestions := [Fallback];
    }
  }

  /** `schedule_assistant`: collect busy hours, scan the working day, stop after three free hours. */
  method ScheduleAssistant(meetings: seq<MeetingEntry>) returns (suggestions: seq<Suggestion>)
    ensures suggestions == ScheduleSuggestions(meetings)
  {
    var occupied := OccupiedSlots(meetings);
    suggestions := ScanDay(occupied);
  }

  // ---------------------------------------------------------------------------
  // Duration prediction

  datatype DurationPrediction = DurationPrediction(predictedDuration: string, confidence: real, reasoning: string)

  /** `predict_duration`: the first keyword found in the lower-cased description decides. */
  function PredictDuration(description: Option<string>): DurationPrediction
  {
    var d := Lower(description.GetOr(""));
    var (duration, confidence) :=
      if Contains(d, "report") then ("4 hours", 0.8)
      else if Contains(d, "email") || Contains(d, "mail") then ("15 minutes", 0.9)
      else if Contains(d, "meeting") then ("1 hour", 0.85)
      else if Contains(d, "review") then ("2 hours", 0.7)
      else if Contains(d, "urgent") then ("30 minutes", 0.6)
      else ("1 hour", 0.5);
    DurationPrediction(duration, confidence, "Based on keywords in '" + d + "'")
  }

  /** The duration rules in priority order, and the default when none matches. */
  const DurationRules: seq<Rule<(string, real)>> := [
    Rule(["report"], ("4 hours", 0.8)),
    Rule(["email", "mail"], ("15 minutes", 0.9)),
    Rule(["meeting"], ("1 hour", 0.85)),
    Rule(["review"], ("2 hours", 0.7)),
    Rule(["urgent"], ("30 minutes", 0.6))
  ]
  const DefaultDuration := ("1 hour", 0.5)

  /** The prediction is the outcome of the first matching rule of the table (first match wins). */
  lemma PredictDurationByRules(description: Option<string>)
    ensures var d := Lower(description.GetOr(""));
      var (duration, confidence) := Classify(DurationRules, DefaultDuration, d);
      PredictDuration(description) == DurationPrediction(duration, confidence, "Based on keywords in '" + d + "'")
  {
    var d := Lower(description.GetOr(""));
    var rules := DurationRules;
    Classify5(rules[0], rules[1], rules[2], rules[3], rules[4], DefaultDuration, d);
    Classify4(rules[1], rules[2], rules[3], rules[4], DefaultDuration, d);
    AnyInSmall(d, "report", "", "", "");
    AnyInSmall(d, "email", "mail", "", "");
    AnyInSmall(d, "meeting", "", "", "");
    AnyInSmall(d, "review", "", "", "");
    AnyInSmall(d, "urgent", "", "", "");
  }

  /** "email" contains "mail", so the e-mail rule fires exactly when "mail" occurs. */
  lemma EmailRuleIsMail(d: string)
    ensures AnyIn(DurationRules[1].keywords, d) <==> Contains(d, "mail")
  {
    if Contains(d, "email") {
      assert "email" == "e" + "mail";
      ContainsPart(d, "e", "mail");
    }
    assert "mail" in DurationRules[1].keywords;
  }

  // ---------------------------------------------------------------------------
  // Assistant chat

  /** The response of `/api/assistant`; `action` is the `type` of the action object, None for `{}`. */
  datatype AssistantReply = AssistantReply(intent: string, confidence: real, response: string, action: Option<string>)

  const ScheduleReply := AssistantReply("schedule a meeting", 0.95,
    "I can help you " + "schedule that. " + "Checking your " + "calendar for free " + "slots...", Some("calendar_check"))
  const TaskReply := AssistantReply("create a task", 0.95,
    "I'll create a task " + "for you. What is the " + "deadline?", Some("create_task"))
  const StatusReply := AssistantReply("check status", 0.95,
    "You have 3 pending " + "tasks and 2 meetings " + "today.", Some("fetch_status"))
  const GreetingReply := AssistantReply("greeting", 0.95,
    "Hello! I am your AI " + "Assistant. How can I " + "help you today?", None)
  const UnknownReply := AssistantReply("unknown", 0.95,
    "I'm not sure how to " + "help with that. Try " + "asking to schedule a " + "meeting or create a " + "task.", None)

  /** `assistant_chat`: the first keyword group found in the lower-cased query decides. */
  function AssistantChat(query: Option<string>): AssistantReply
  {
    var q := Lower(query.GetOr(""));
    if Contains(q, "schedule") || Contains(q, "meeting") || Contains(q, "doctor") then ScheduleReply
    else if Contains(q, "task") || Contains(q, "create") || Contains(q, "remind") || Contains(q, "buy") then TaskReply
    else if Contains(q, "status") || Contains(q, "pending") || Contains(q, "busy") then StatusReply
    else if Contains(q, "hello") || Contains(q, "hi") then GreetingReply
    else UnknownReply
  }

  /** The assistant's keyword groups in priority order. */
  const AssistantRules: seq<Rule<AssistantReply>> := [
    Rule(["schedule", "meeting", "doctor"], ScheduleReply),
    Rule(["task", "create", "remind", "buy"], TaskReply),
    Rule(["status", "pending", "busy"], StatusReply),
    Rule(["hello", "hi"], GreetingReply)
  ]

  /** The reply is the outcome of the first matching keyword group (first match wins), with confidence 0.95. */
  lemma AssistantChatByRules(query: Option<string>)
    ensures AssistantChat(query) == Classify(AssistantRules, UnknownReply, Lower(query.GetOr("")))
    ensures AssistantChat(query).confidence == 0.95
  {
    var q := Lower(query.GetOr(""));
    var rules := AssistantRules;
    Classify4(rules[0], rules[1], rules[2], rules[3], UnknownReply, q);
    AnyInSmall(q, "schedule", "meeting", "doctor", "");
    AnyInSmall(q, "task", "create", "remind", "buy");
    AnyInSmall(q, "status", "pending", "busy", "");
    AnyInSmall(q, "hello", "hi", "", "");
  }
}
