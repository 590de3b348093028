/** `parse_visa_period` (merge_visa_data.py): the number of days a passport
    holder may stay without a visa, read from the free-text rule of a
    country's visa table entry; None when a visa is required or no number
    can be read. */
module VisaPeriod {
  import opened TextUtil
  import opened Optional
  import Sorting

  /** `re.findall(r'\d+', text)` as integers: the value of every maximal run
      of digits at or after `i`, in text order. */
  function NumbersFrom(s: string, i: nat): seq<nat>
    requires i <= |s|
    decreases |s| - i
  {
    if i == |s| then []
    else if IsDigit(s[i]) then
      var j := DigitRunEnd(s, i);
      [ParseNat(s[i..j])] + NumbersFrom(s, j)
    else NumbersFrom(s, i + 1)
  }

  /** `re.findall(r'(\d+)일', text)` as integers: the maximal digit runs that
      are directly followed by the day unit `일`. A run followed by anything
      else does not match at any of its positions, since the run is greedy
      and a shorter run is followed by a digit. */
  function DayNumbersFrom(s: string, i: nat): seq<nat>
    requires i <= |s|
    decreases |s| - i
  {
    if i == |s| then []
    else if IsDigit(s[i]) then
      var j := DigitRunEnd(s, i);
      (if j < |s| && s[j] == '일' then [ParseNat(s[i..j])] else []) + DayNumbersFrom(s, j)
    else DayNumbersFrom(s, i + 1)
  }

  /** `re.search(r'(\d+)\s*개월', text)`: the first maximal digit run that is
      followed, after optional whitespace, by the month unit `개월`. */
  function MonthCountFrom(s: string, i: nat): Option<nat>
    requires i <= |s|
    decreases |s| - i
  {
    if i == |s| then None
    else if IsDigit(s[i]) then
      var j := DigitRunEnd(s, i);
      if StartsWith(s[SkipSpace(s, j)..], "개월") then Some(ParseNat(s[i..j]))
      else MonthCountFrom(s, j)
    else MonthCountFrom(s, i + 1)
  }

  /** The rule names a window ("within" / "of") and uses the day unit. */
  predicate IsWindowText(text: string) {
    ('중' in text || Contains(text, "이내")) && '일' in text
  }

  const CommonPeriods: seq<nat> := [30, 60, 90, 180]

  /** The numbers above 5; 1 to 5 are treated as list markers or noise. */
  function Survivors(ns: seq<nat>): (r: seq<nat>)
    ensures |r| <= |ns|
    ensures forall k :: 0 <= k < |r| ==> r[k] > 5
    ensures forall x :: x in r <==> x in ns && x > 5
  {
    if ns == [] then []
    else (if ns[0] > 5 then [ns[0]] else []) + Survivors(ns[1..])
  }

  /** The filter works number by number: order and repeated numbers are kept. */
  lemma {:induction false} SurvivorsConcat(a: seq<nat>, b: seq<nat>)
    ensures Survivors(a + b) == Survivors(a) + Survivors(b)
  {
    if a == [] {
      assert a + b == b;
    } else {
      assert (a + b)[0] == a[0] && (a + b)[1..] == a[1..] + b;
      SurvivorsConcat(a[1..], b);
    }
  }

  lemma SurvivorsSingle(x: nat)
    ensures Survivors([x]) == if x > 5 then [x] else []
  {
  }

  /** The first of 30, 60, 90, 180 (in that order) present in `ns`. */
  function FirstCommonFrom(ns: seq<nat>, k: nat): (r: Option<nat>)
    requires k <= |CommonPeriods|
    ensures r.Some? ==> r.value in ns && r.value in CommonPeriods[k..]
    ensures r.Some? ==> forall q :: k <= q < |CommonPeriods| && CommonPeriods[q] == r.value ==>
                          forall p :: k <= p < q ==> CommonPeriods[p] !in ns
    ensures r.None? <==> forall p :: k <= p < |CommonPeriods| ==> CommonPeriods[p] !in ns
    decreases |CommonPeriods| - k
  {
    if k == |CommonPeriods| then None
    else if CommonPeriods[k] in ns then Some(CommonPeriods[k])
    else FirstCommonFrom(ns, k + 1)
  }

  /** The generic branch: integers above 5; none gives None, one is returned
      as is, and among several a common period wins, else the upper median. */
  function GenericDays(text: string): (r: Option<nat>)
    ensures r.None? <==> Survivors(NumbersFrom(text, 0)) == []
    ensures r.Some? ==> r.value > 5 && r.value in NumbersFrom(text, 0)
  {
    var ns := Survivors(NumbersFrom(text, 0));
    if ns == [] then None
    else if |ns| >= 2 then
      match FirstCommonFrom(ns, 0)
      case Some(p) => Some(p)
      case None =>
        Sorting.UpperMedian(ns);
        Some(Sorting.Sort(ns)[|ns| / 2] as nat)
    else Some(ns[0])
  }

  function ParseVisaPeriod(text: string): (r: Option<nat>)
    ensures Strip(text) == [] ==> r == None
    ensures Strip(text) != [] && (Strip(text)[0] == 'X' || Strip(text)[0] == 'x') ==> r == None
  {
    var t := Strip(text);
    if t == [] then None
    else if t[0] == 'X' || t[0] == 'x' then None
    else
      var days := DayNumbersFrom(text, 0);
      if IsWindowText(text) && |days| >= 2 then Some(days[|days| - 1])
      else if IsWindowText(text) && |days| == 1 then Some(days[0])
      else
        var months := MonthCountFrom(text, 0);
        if months.Some? && '일' !in text then Some(months.value * 30)
        else GenericDays(text)
  }

  /** Neither sentinel applies. */
  predicate Readable(text: string) {
    Strip(text) != [] && Strip(text)[0] != 'X' && Strip(text)[0] != 'x'
  }

  /** A window rule ("N일 중 M일") yields its last day-valued number. */
  lemma WindowRule(text: string)
    requires Readable(text) && IsWindowText(text)
    requires |DayNumbersFrom(text, 0)| >= 1
    ensures ParseVisaPeriod(text) == Some(DayNumbersFrom(text, 0)[|DayNumbersFrom(text, 0)| - 1])
  {
  }

  /** A month count with no day unit anywhere is converted at 30 days a month. */
  lemma MonthRule(text: string)
    requires Readable(text) && '일' !in text
    requires MonthCountFrom(text, 0).Some?
    ensures ParseVisaPeriod(text) == Some(MonthCountFrom(text, 0).value * 30)
  {
  }

  /** Whatever the generic branch returns is above 5 and was written in the text. */
  lemma GenericAboveFive(text: string)
    requires Readable(text)
    requires !(IsWindowText(text) && |DayNumbersFrom(text, 0)| >= 1)
    requires !(MonthCountFrom(text, 0).Some? && '일' !in text)
    ensures ParseVisaPeriod(text) == GenericDays(text)
    ensures ParseVisaPeriod(text).Some? ==> ParseVisaPeriod(text).value > 5
  {
  }

  /** With two or more candidates, the first common period present wins,
      whatever its position in the text. */
  lemma GenericPrefersCommon(text: string, q: nat)
    requires |Survivors(NumbersFrom(text, 0))| >= 2
    requires q < |CommonPeriods| && CommonPeriods[q] in NumbersFrom(text, 0)
    requires forall p :: 0 <= p < q ==> CommonPeriods[p] !in NumbersFrom(text, 0)
    ensures GenericDays(text) == Some(CommonPeriods[q])
  {
    var ns := Survivors(NumbersFrom(text, 0));
    assert CommonPeriods[q] in ns;
    var r := FirstCommonFrom(ns, 0);
    assert r.Some?;
  }

  /** With two or more candidates and no common period, the result is an
      upper median of the candidates: at most half lie below it and more than
      half lie at or below it. */
  lemma GenericMedian(text: string)
    requires |Survivors(NumbersFrom(text, 0))| >= 2
    requires forall p :: 0 <= p < |CommonPeriods| ==> CommonPeriods[p] !in NumbersFrom(text, 0)
    ensures GenericDays(text).Some?
    ensures var ns := Survivors(NumbersFrom(text, 0));
            var m := GenericDays(text).value;
            && m in ns
            && Sorting.CountCmp(ns, m, false) <= |ns| / 2
            && Sorting.CountCmp(ns, m, true) > |ns| / 2
  {
    var ns := Survivors(NumbersFrom(text, 0));
    Sorting.UpperMedian(ns);
  }

  lemma ExampleWindowDays(s: string)
    requires s == "180일 중 90일"
    ensures |DayNumbersFrom(s, 0)| == 2 && DayNumbersFrom(s, 0)[1] == 90
  {
    assert DigitRunEnd(s, 9) == 9;
    assert DigitRunEnd(s, 8) == 9;
    assert DigitRunEnd(s, 7) == 9;
    assert s[7..9] == "90";
    assert ParseNat("90") == 90 by { assert "90"[..1] == "9"; }
    assert DayNumbersFrom(s, 10) == [];
    assert DayNumbersFrom(s, 7) == [90];
    assert DayNumbersFrom(s, 6) == [90];
    assert DayNumbersFrom(s, 5) == [90];
    assert DayNumbersFrom(s, 4) == [90];
    assert DayNumbersFrom(s, 3) == [90];
    assert DigitRunEnd(s, 3) == 3;
    assert DigitRunEnd(s, 2) == 3;
    assert DigitRunEnd(s, 1) == 3;
    assert DigitRunEnd(s, 0) == 3;
  }

  lemma ExampleWindowShape(s: string)
    requires s == "180일 중 90일"
    ensures Readable(s) && IsWindowText(s)
  {
    StripNoSpace(s);
    assert s[5] == '중' && s[3] == '일';
  }

  /** "180일 중 90일" (90 days within 180) gives 90. */
  lemma ExampleWindow()
    ensures ParseVisaPeriod("180일 중 90일") == Some(90)
  {
    var s := "180일 중 90일";
    ExampleWindowDays(s);
    ExampleWindowShape(s);
    WindowRule(s);
  }

  /** "6개월" (six months) gives 180. */
  lemma ExampleMonths()
    ensures ParseVisaPeriod("6개월") == Some(180)
  {
    var s := "6개월";
    StripNoSpace(s);
    assert DigitRunEnd(s, 1) == 1;
    assert DigitRunEnd(s, 0) == 1;
    assert SkipSpace(s, 1) == 1;
    assert s[1..] == "개월";
    assert s[0..1] == "6";
    assert ParseNat("6") == 6 by { assert "6"[..0] == ""; }
    assert MonthCountFrom(s, 0) == Some(6);
    assert '일' !in s;
    assert DayNumbersFrom(s, 3) == [];
    assert DayNumbersFrom(s, 2) == [];
    assert DayNumbersFrom(s, 1) == [];
    assert DayNumbersFrom(s, 0) == [];
  }

  /** "X" (visa required) gives None. */
  lemma ExampleRequired()
    ensures ParseVisaPeriod("X") == None
  {
    StripNoSpace("X");
  }

  /** "90일" (90 days, no window) falls to the generic branch and gives 90. */
  lemma ExamplePlainDays()
    ensures ParseVisaPeriod("90일") == Some(90)
  {
    var s := "90일";
    StripNoSpace(s);
    assert !IsWindowText(s) by {
      assert '중' !in s;
      assert !Contains(s, "이내") by {
        forall i: nat | i <= |s| ensures !OccursAt(s, "이내", i) {
          if i + 2 <= |s| {
            assert s[i] != '이';
          }
        }
      }
    }
    assert DigitRunEnd(s, 2) == 2;
    assert DigitRunEnd(s, 1) == 2;
    assert DigitRunEnd(s, 0) == 2;
    assert s[0..2] == "90";
    assert ParseNat("90") == 90 by { assert "90"[..1] == "9"; }
    assert NumbersFrom(s, 3) == [];
    assert NumbersFrom(s, 2) == [];
    assert NumbersFrom(s, 0) == [90];
    assert Survivors([90]) == [90] by { assert [90][1..] == []; }
    assert MonthCountFrom(s, 3) == None;
    assert MonthCountFrom(s, 2) == None;
    assert SkipSpace(s, 2) == 2;
    assert !StartsWith(s[2..], "개월");
    assert MonthCountFrom(s, 0) == None;
  }
}
