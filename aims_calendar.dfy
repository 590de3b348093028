/** The AIMS race calendar of main.py: the page is a flat list of month
    headers ("January 2026") and race items; one pass carries the current
    month and year from header to header and turns each dated item into an
    event. The page download and the HTML selection are not modelled: the
    pass receives the selected elements with their stripped texts. */
module AimsCalendar {
  import opened TextUtil
  import opened Optional

  /** AIMS distance codes: marathon, half marathon, 10 km road race, ultra. */
  const DistanceMap: map<string, string> := map["M" := "FULL", "H" := "HALF", "R" := "10K", "U" := "ULTRA"]

  const DistanceLabels: set<string> := {"FULL", "HALF", "10K", "ULTRA"}

  const MonthMap: map<string, nat> := map[
    "January" := 1, "February" := 2, "March" := 3, "April" := 4,
    "May" := 5, "June" := 6, "July" := 7, "August" := 8,
    "September" := 9, "October" := 10, "November" := 11, "December" := 12]

  // ---- parse_distances ----

  /** `s.replace(" ", "")`: only the ASCII space is removed. */
  function RemoveSpaces(s: string): (r: string)
    ensures ' ' !in r
    ensures forall c :: c != ' ' ==> (c in r <==> c in s)
  {
    if s == [] then []
    else (if s[0] == ' ' then [] else [s[0]]) + RemoveSpaces(s[1..])
  }

  /** The comma-separated tokens `parse_distances` looks up. */
  function DistanceTokens(raw: string): seq<string> {
    Split(RemoveSpaces(raw), ',')
  }

  /** The labels of the known codes among the tokens. */
  function DistanceSet(raw: string): (r: set<string>)
    ensures r <= DistanceLabels
  {
    var tokens := DistanceTokens(raw);
    set j | 0 <= j < |tokens| && tokens[j] in DistanceMap :: DistanceMap[tokens[j]]
  }

  /** A label is reported exactly when its own code is one of the tokens:
      the four codes have four different labels. */
  lemma DistanceSetByCode(raw: string, code: string)
    requires code in DistanceMap
    ensures DistanceMap[code] in DistanceSet(raw) <==> code in DistanceTokens(raw)
  {
    var tokens := DistanceTokens(raw);
    if DistanceMap[code] in DistanceSet(raw) {
      var j :| 0 <= j < |tokens| && tokens[j] in DistanceMap && DistanceMap[tokens[j]] == DistanceMap[code];
      assert tokens[j] == code;
    }
    if code in tokens {
      var j :| 0 <= j < |tokens| && tokens[j] == code;
      assert DistanceMap[tokens[j]] in DistanceSet(raw);
    }
  }

  /** `parse_distances`: the labels of the known codes, each once. The order
      of `list(set(...))` is not specified, so only membership is promised. */
  method ParseDistances(raw: string) returns (r: seq<string>)
    ensures forall i, j :: 0 <= i < j < |r| ==> r[i] != r[j]
    ensures forall x :: x in r <==> x in DistanceSet(raw)
  {
    var tokens := DistanceTokens(raw);
    var distances: seq<string> := [];
    var i := 0;
    while i < |tokens|
      invariant 0 <= i <= |tokens|
      invariant forall x :: x in distances <==>
                  exists j :: 0 <= j < i && tokens[j] in DistanceMap && DistanceMap[tokens[j]] == x
    {
      if tokens[i] in DistanceMap {
        distances := distances + [DistanceMap[tokens[i]]];
      }
      i := i + 1;
    }
    r := [];
    var k := 0;
    while k < |distances|
      invariant 0 <= k <= |distances|
      invariant forall a, b :: 0 <= a < b < |r| ==> r[a] != r[b]
      invariant forall x :: x in r <==> x in distances[..k]
    {
      if distances[k] !in r {
        r := r + [distances[k]];
      }
      assert distances[..k + 1] == distances[..k] + [distances[k]];
      k := k + 1;
    }
    assert distances[..k] == distances;
    forall x | x in DistanceSet(raw) ensures x in r {
      var j :| 0 <= j < |tokens| && tokens[j] in DistanceMap && DistanceMap[tokens[j]] == x;
    }
  }

  // ---- helpers for one item ----

  /** `int(s)` on a stripped text: ASCII digits only, otherwise it raises. */
  function ParseInt(s: string): (r: Option<nat>)
    ensures r.Some? <==> s != [] && IsDigits(s)
  {
    if s != [] && IsDigits(s) then Some(ParseNat(s)) else None
  }

  /** The separators of the day range: the en-dash and the hyphen. */
  predicate IsDash(c: char) {
    c == '–' || c == '-'
  }

  /** `re.split("[–\-]", s)`: the pieces between dashes. */
  function DashSplit(s: string): (r: seq<string>)
    ensures |r| >= 1
    ensures forall k, i :: 0 <= k < |r| && 0 <= i < |r[k]| ==> !IsDash(r[k][i])
  {
    if s == [] then [""]
    else if IsDash(s[0]) then [""] + DashSplit(s[1..])
    else
      var rest := DashSplit(s[1..]);
      [[s[0]] + rest[0]] + rest[1..]
  }

  lemma {:induction false} DashSplitPrefix(a: string, c: char, b: string)
    requires IsDash(c) && forall i :: 0 <= i < |a| ==> !IsDash(a[i])
    ensures DashSplit(a + [c] + b) == [a] + DashSplit(b)
    ensures DashSplit(a) == [a]
  {
    if a == [] {
      assert a + [c] + b == [c] + b;
      assert ([c] + b)[1..] == b;
    } else {
      assert (a + [c] + b)[1..] == a[1..] + [c] + b;
      assert (a + [c] + b)[0] == a[0];
      DashSplitPrefix(a[1..], c, b);
      assert [a[0]] + a[1..] == a;
    }
  }

  /** `f"{year}-{month:02d}-{day:02d}"`. */
  function FormatDate(year: nat, month: nat, day: nat): string {
    NatToString(year) + "-" + Pad2(month) + "-" + Pad2(day)
  }

  /** A formatted date splits back into its three numbers. */
  lemma FormatDateRoundTrip(year: nat, month: nat, day: nat)
    ensures Split(FormatDate(year, month, day), '-') == [NatToString(year), Pad2(month), Pad2(day)]
    ensures ParseNat(NatToString(year)) == year && ParseNat(Pad2(month)) == month && ParseNat(Pad2(day)) == day
  {
    var y, m, d := NatToString(year), Pad2(month), Pad2(day);
    assert forall k :: 0 <= k < |y| ==> y[k] != '-';
    assert forall k :: 0 <= k < |m| ==> m[k] != '-';
    assert forall k :: 0 <= k < |d| ==> d[k] != '-';
    assert Join([d], '-') == d;
    assert [m, d][1..] == [d];
    assert Join([m, d], '-') == m + "-" + d;
    assert [y, m, d][1..] == [m, d];
    assert Join([y, m, d], '-') == y + "-" + (m + "-" + d);
    assert FormatDate(year, month, day) == Join([y, m, d], '-');
    SplitJoin([y, m, d], '-');
    ParseNatToString(year);
    ParsePad2(month);
    ParsePad2(day);
  }

  /** The start and end dates of a date text: `None` for both when the text
      is `tbc` in any case; otherwise the first and the last piece of the
      dash split as days of the current month, or `None` when a day is not a
      number (`int()` raises). */
  function EventDates(year: nat, month: nat, text: string): Option<(Option<string>, Option<string>)> {
    if ToLower(text) == "tbc" then Some((None, None))
    else
      var pieces := DashSplit(text);
      match (ParseInt(Strip(pieces[0])), ParseInt(Strip(pieces[|pieces| - 1])))
      case (Some(s), Some(e)) => Some((Some(FormatDate(year, month, s)), Some(FormatDate(year, month, e))))
      case _ => None
  }

  /** `s.find(sub, i)`: the first occurrence of `sub` at or after `i`. */
  function FindFrom(s: string, sub: string, i: nat): (r: Option<nat>)
    requires i <= |s|
    ensures r.Some? ==> i <= r.value && OccursAt(s, sub, r.value)
    ensures forall k :: i <= k && (r.None? || k < r.value) ==> !OccursAt(s, sub, k)
    decreases |s| - i
  {
    if OccursAt(s, sub, i) then Some(i)
    else if i == |s| then None
    else FindFrom(s, sub, i + 1)
  }

  /** `s.replace(sub, "", 1)`: drops the first occurrence of `sub`. */
  function ReplaceFirst(s: string, sub: string): (r: string)
    ensures !Contains(s, sub) ==> r == s
    ensures Contains(s, sub) ==>
              exists i: nat :: && OccursAt(s, sub, i) && r == s[..i] + s[i + |sub|..]
                               && forall k: nat :: k < i ==> !OccursAt(s, sub, k)
  {
    match FindFrom(s, sub, 0)
    case None => s
    case Some(i) => s[..i] + s[i + |sub|..]
  }

  // ---- the pass over the calendar ----

  /** `.calendar-race-name a`: its text and its `href`. */
  datatype Link = Link(text: string, href: Option<string>)

  /** A selected element, with the stripped texts of the parts the pass
      reads; a missing part is `None`. */
  datatype Element =
    | Header(text: string)
    | Item(date: Option<string>, race: Option<Link>, countryCode: Option<string>, supinfo: Option<string>)

  /** `city` is always null in the output and is not kept. The distances are
      the set `list(set(...))` is made from. */
  datatype Event = Event(
    eventName: Option<string>,
    startDate: Option<string>,
    endDate: Option<string>,
    countryCode: Option<string>,
    distances: set<string>,
    aimsUrl: Option<string>)

  /** `current_month` and `current_year`, which are always set together. */
  datatype State = NoMonth | InMonth(month: nat, year: nat)

  /** The outcome of the pass: an exception from `int()` or the events. */
  datatype Crawl = Raised | Calendar(events: seq<Event>)

  /** The distance text of a `.calendar-supinfo`: the country code, or ""
      when there is none, removed once, then stripped. */
  function DistanceText(supinfo: string, countryCode: Option<string>): string {
    var cc := if countryCode.Some? then countryCode.value else "";
    Strip(ReplaceFirst(supinfo, cc))
  }

  /** The event of a dated item in the current month, or `None` when a day
      is not a number. */
  function ItemEvent(month: nat, year: nat, date: string, race: Option<Link>,
                     countryCode: Option<string>, supinfo: Option<string>): Option<Event>
  {
    match EventDates(year, month, date)
    case None => None
    case Some((start, end)) =>
      Some(Event(
        if race.Some? then Some(race.value.text) else None,
        start, end, countryCode,
        if supinfo.Some? then DistanceSet(DistanceText(supinfo.value, countryCode)) else {},
        if race.Some? then race.value.href else None))
  }

  /** One element: the new state and the event it adds, or `None` when
      `int()` raises. */
  function Step(st: State, el: Element): (r: Option<(State, Option<Event>)>)
    ensures el.Item? ==> r.None? || r.value.0 == st
    ensures el.Header? ==> r.None? || r.value.1.None?
  {
    match el
    case Header(text) =>
      var parts := Words(text);
      if |parts| == 2 && parts[0] in MonthMap then
        match ParseInt(parts[1])
        case None => None
        case Some(year) => Some((InMonth(MonthMap[parts[0]], year), None))
      else Some((st, None))
    case Item(date, race, countryCode, supinfo) =>
      if st.NoMonth? || date.None? then Some((st, None))
      else
        match ItemEvent(st.month, st.year, date.value, race, countryCode, supinfo)
        case None => None
        case Some(ev) => Some((st, Some(ev)))
  }

  /** What the pass has reached: `None` once `int()` has raised, otherwise
      the state and the events so far. */
  type Progress = Option<(State, seq<Event>)>

  /** The pass after one more element, for any per-element step. */
  function Next(step: (State, Element) -> Option<(State, Option<Event>)>, acc: Progress, el: Element): Progress {
    match acc
    case None => None
    case Some((st, events)) =>
      match step(st, el)
      case None => None
      case Some((st', None)) => Some((st', events))
      case Some((st', Some(ev))) => Some((st', events + [ev]))
  }

  /** The pass over `els` from no month and no events: a left fold of the step. */
  function Fold(step: (State, Element) -> Option<(State, Option<Event>)>, els: seq<Element>): Progress {
    if els == [] then Some((NoMonth, [])) else Next(step, Fold(step, els[..|els| - 1]), els[|els| - 1])
  }

  function Run(els: seq<Element>): Progress {
    Fold(Step, els)
  }

  lemma RunStep(els: seq<Element>, i: nat)
    requires i < |els|
    ensures Run(els[..i + 1]) == Next(Step, Run(els[..i]), els[i])
  {
    assert els[..i + 1][..i] == els[..i];
  }

  /** Once `int()` has raised, the pass stays raised. */
  lemma {:induction false} RaisedStays(step: (State, Element) -> Option<(State, Option<Event>)>, els: seq<Element>, n: nat)
    requires n <= |els| && Fold(step, els[..n]).None?
    ensures Fold(step, els).None?
    decreases |els|
  {
    if n < |els| {
      var m := |els| - 1;
      assert els[..m][..n] == els[..n];
      RaisedStays(step, els[..m], n);
    } else {
      assert els[..n] == els;
    }
  }

  /** `crawl_aims_calendar` once the elements are selected. */
  function CalendarOf(els: seq<Element>): Crawl {
    match Run(els)
    case None => Raised
    case Some((_, events)) => Calendar(events)
  }

  /** The loop of `crawl_aims_calendar`. */
  method CrawlCalendar(elements: seq<Element>) returns (r: Crawl)
    ensures r == CalendarOf(elements)
  {
    var current := NoMonth;
    var events: seq<Event> := [];
    var i := 0;
    while i < |elements|
      invariant 0 <= i <= |elements|
      invariant Run(elements[..i]) == Some((current, events))
    {
      RunStep(elements, i);
      ghost var st0, events0 := current, events;
      match elements[i] {
        case Header(text) =>
          var parts := Words(text);
          if |parts| == 2 && parts[0] in MonthMap {
            var year := ParseInt(parts[1]);
            if year.None? {
              RaisedStays(Step, elements, i + 1);
              return Raised;
            }
            current := InMonth(MonthMap[parts[0]], year.value);
          }
          assert Step(st0, elements[i]) == Some((current, None));
        case Item(date, race, countryCode, supinfo) =>
          if current.InMonth? && date.Some? {
            var ev := ItemEvent(current.month, current.year, date.value, race, countryCode, supinfo);
            if ev.None? {
              RaisedStays(Step, elements, i + 1);
              return Raised;
            }
            assert Step(st0, elements[i]) == Some((current, ev));
            events := events + [ev.value];
          } else {
            assert Step(st0, elements[i]) == Some((current, None));
          }
      }
      assert Next(Step, Some((st0, events0)), elements[i]) == Some((current, events));
      i := i + 1;
    }
    assert elements[..i] == elements;
    r := Calendar(events);
  }

  // ---- properties of the pass ----

  /** A header sets the month and year when it has exactly two words, the
      first a month name and the second a number; any other header leaves
      the state alone. */
  lemma HeaderSetsMonth(st: State, text: string)
    ensures var parts := Words(text);
            Step(st, Header(text)) ==
              if |parts| == 2 && parts[0] in MonthMap then
                (if parts[1] != [] && IsDigits(parts[1])
                 then Some((InMonth(MonthMap[parts[0]], ParseNat(parts[1])), None))
                 else None)
              else Some((st, None))
  {
  }

  /** Over the whole pass: whatever came before, a dated item right after
      a valid "Month YYYY" header is dated in that month and year, and its
      event, if its days are numbers, is appended to the events so far. */
  lemma HeaderThenItem(els: seq<Element>, text: string, date: string, race: Option<Link>,
                       countryCode: Option<string>, supinfo: Option<string>)
    requires Run(els).Some?
    requires var parts := Words(text);
             |parts| == 2 && parts[0] in MonthMap && parts[1] != [] && IsDigits(parts[1])
    ensures var parts := Words(text);
            var month, year := MonthMap[parts[0]], ParseNat(parts[1]);
            var page := els + [Header(text), Item(Some(date), race, countryCode, supinfo)];
            match ItemEvent(month, year, date, race, countryCode, supinfo)
            case None => Run(page).None?
            case Some(ev) => Run(page) == Some((InMonth(month, year), Run(els).value.1 + [ev]))
  {
    var parts := Words(text);
    var st := InMonth(MonthMap[parts[0]], ParseNat(parts[1]));
    var withHeader := els + [Header(text)];
    var page := withHeader + [Item(Some(date), race, countryCode, supinfo)];
    assert page == els + [Header(text), Item(Some(date), race, countryCode, supinfo)];
    HeaderSetsMonth(Run(els).value.0, text);
    RunAppend(els, Header(text));
    assert Run(withHeader) == Some((st, Run(els).value.1));
    RunAppend(withHeader, Item(Some(date), race, countryCode, supinfo));
  }

  /** The pass over one more element is one more step. */
  lemma RunAppend(els: seq<Element>, el: Element)
    ensures Run(els + [el]) == Next(Step, Run(els), el)
  {
    assert (els + [el])[..|els|] == els;
  }

  /** Before the first valid header, and without a date, an item adds no
      event and changes nothing. */
  lemma UndatedItemSkipped(st: State, date: Option<string>, race: Option<Link>,
                           countryCode: Option<string>, supinfo: Option<string>)
    requires st.NoMonth? || date.None?
    ensures Step(st, Item(date, race, countryCode, supinfo)) == Some((st, None))
  {
  }

  /** A page whose elements before any header are all items: nothing is
      produced until a header names a month. */
  lemma {:induction false} NoEventsBeforeHeader(els: seq<Element>)
    requires forall k :: 0 <= k < |els| ==> els[k].Item?
    ensures Run(els) == Some((NoMonth, []))
  {
    if els != [] {
      var m := |els| - 1;
      NoEventsBeforeHeader(els[..m]);
      var last := els[m];
      UndatedItemSkipped(NoMonth, last.date, last.race, last.countryCode, last.supinfo);
    }
  }

  /** `tbc`, in any case, gives an event without dates. */
  lemma TbcHasNoDates(month: nat, year: nat, date: string)
    requires ToLower(date) == "tbc"
    ensures EventDates(year, month, date) == Some((None, None))
  {
  }

  /** A single day gives the same start and end date. */
  lemma SingleDay(month: nat, year: nat, date: string)
    requires ToLower(date) != "tbc" && forall i :: 0 <= i < |date| ==> !IsDash(date[i])
    ensures EventDates(year, month, date).Some? ==>
              EventDates(year, month, date).value.0 == EventDates(year, month, date).value.1
  {
    DashSplitPrefix(date, '-', "");
  }

  /** A range `s–e` gives day `s` and day `e` of the header's month, even
      when `e < s` because the race runs into the next month. */
  lemma RangeKeepsMonth(month: nat, year: nat, s: nat, e: nat, dash: char)
    requires IsDash(dash)
    ensures var date := NatToString(s) + [dash] + NatToString(e);
            EventDates(year, month, date) == Some((Some(FormatDate(year, month, s)), Some(FormatDate(year, month, e))))
  {
    var a, b := NatToString(s), NatToString(e);
    var date := a + [dash] + b;
    DayPiece(s);
    DayPiece(e);
    DashSplitPrefix(a, dash, b);
    DashSplitPrefix(b, dash, "");
    DashIsNotTbc(date, |a|);
    RangeDates(year, month, date, a, b);
  }

  lemma RangeDates(year: nat, month: nat, date: string, a: string, b: string)
    requires ToLower(date) != "tbc" && DashSplit(date) == [a] + DashSplit(b) && DashSplit(b) == [b]
    requires ParseInt(Strip(a)).Some? && ParseInt(Strip(b)).Some?
    ensures EventDates(year, month, date)
            == Some((Some(FormatDate(year, month, ParseInt(Strip(a)).value)),
                     Some(FormatDate(year, month, ParseInt(Strip(b)).value))))
  {
    var pieces := DashSplit(date);
    assert pieces[0] == a && pieces[|pieces| - 1] == b;
  }

  /** A day written in decimal has no dash and no surrounding space, and
      `int()` reads it back. */
  lemma DayPiece(n: nat)
    ensures forall i :: 0 <= i < |NatToString(n)| ==> !IsDash(NatToString(n)[i])
    ensures ParseInt(Strip(NatToString(n))) == Some(n)
  {
    var a := NatToString(n);
    assert !IsSpace(a[0]) && !IsSpace(a[|a| - 1]);
    StripNoSpace(a);
    ParseNatToString(n);
  }

  lemma DashIsNotTbc(date: string, i: nat)
    requires i < |date| && IsDash(date[i])
    ensures ToLower(date) != "tbc"
  {
    assert ToLower(date)[i] == date[i];
  }

  /** At any point after a month header, a dated row whose first or last
      dash piece is not a number makes the whole crawl raise. */
  lemma BadDayRaises(month: nat, year: nat, date: string, els: seq<Element>, race: Option<Link>,
                     countryCode: Option<string>, supinfo: Option<string>)
    requires ToLower(date) != "tbc"
    requires ParseInt(Strip(DashSplit(date)[0])).None?
             || ParseInt(Strip(DashSplit(date)[|DashSplit(date)| - 1])).None?
    requires Run(els).Some? && Run(els).value.0 == InMonth(month, year)
    ensures CalendarOf(els + [Item(Some(date), race, countryCode, supinfo)]) == Raised
  {
    var item := Item(Some(date), race, countryCode, supinfo);
    BadDayNoDates(month, year, date);
    assert ItemEvent(month, year, date, race, countryCode, supinfo).None?;
    assert Step(InMonth(month, year), item).None?;
    RunAppend(els, item);
  }

  lemma BadDayNoDates(month: nat, year: nat, date: string)
    requires ToLower(date) != "tbc"
    requires ParseInt(Strip(DashSplit(date)[0])).None?
             || ParseInt(Strip(DashSplit(date)[|DashSplit(date)| - 1])).None?
    ensures EventDates(year, month, date).None?
  {
    var pieces := DashSplit(date);
    var first, last := ParseInt(Strip(pieces[0])), ParseInt(Strip(pieces[|pieces| - 1]));
    if first.None? {
      assert EventDates(year, month, date) == None;
    } else {
      assert EventDates(year, month, date) == None;
    }
  }

  /** The distances come from the supinfo text with the country code removed
      once: a country code that is itself a distance code does not count as
      a distance when it is found first. */
  lemma DistanceTextDropsCode(cc: string, rest: string)
    requires cc != []
    ensures DistanceText(cc + rest, Some(cc)) == Strip(rest)
  {
    var supinfo := cc + rest;
    assert supinfo[0..|cc|] == cc;
    assert FindFrom(supinfo, cc, 0) == Some(0);
    assert supinfo[|cc|..] == rest;
    assert ReplaceFirst(supinfo, cc) == rest;
  }

  /** Events are only ever appended: the events after a prefix of the page
      open the events after the whole page, so they are in document order. */
  lemma {:induction false} EventsInDocumentOrder(step: (State, Element) -> Option<(State, Option<Event>)>, els: seq<Element>, n: nat)
    requires n <= |els| && Fold(step, els).Some?
    ensures Fold(step, els[..n]).Some? && Fold(step, els[..n]).value.1 <= Fold(step, els).value.1
    decreases |els|
  {
    if n < |els| {
      var m := |els| - 1;
      assert els[..m][..n] == els[..n];
      EventsInDocumentOrder(step, els[..m], n);
    } else {
      assert els[..n] == els;
    }
  }
}
