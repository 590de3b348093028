/** Field normalizers of crawl_korea.py: the distance allow-list filter, the
    date normalizer (list-page `M/D` and detail-page `YYYY년M월D일` to the
    ISO 8601 extended calendar date `YYYY-MM-DD`, section 4.1.2.2 of
    ISO 8601:2004) and the registration-period splitter. */
module KoreaFields {
  import opened TextUtil
  import opened Optional

  /** Full, half, 10 km and 5 km, in the site's own spelling. */
  const AllowedDistances: set<string> := {"풀", "하프", "10km", "5km"}

  /** The stripped tokens that lie in the allow-set, in order, duplicates kept. */
  function KeptDistances(parts: seq<string>): (r: seq<string>)
    ensures |r| <= |parts|
    ensures forall k :: 0 <= k < |r| ==> r[k] in AllowedDistances
  {
    if parts == [] then []
    else
      var d := Strip(parts[0]);
      (if d in AllowedDistances then [d] else []) + KeptDistances(parts[1..])
  }

  /** The filter works token by token: order and repeated tokens are kept. */
  lemma {:induction false} KeptDistancesConcat(a: seq<string>, b: seq<string>)
    ensures KeptDistances(a + b) == KeptDistances(a) + KeptDistances(b)
  {
    if a == [] {
      assert a + b == b;
    } else {
      assert (a + b)[0] == a[0] && (a + b)[1..] == a[1..] + b;
      KeptDistancesConcat(a[1..], b);
    }
  }

  lemma KeptDistancesSingle(x: string)
    ensures KeptDistances([x]) == if Strip(x) in AllowedDistances then [Strip(x)] else []
  {
  }

  /** A label is kept exactly when some token strips to it and it is allowed. */
  lemma {:induction false} KeptMembers(parts: seq<string>, x: string)
    ensures x in KeptDistances(parts) <==>
            exists k :: 0 <= k < |parts| && Strip(parts[k]) == x && x in AllowedDistances
  {
    if parts != [] {
      var tail := parts[1..];
      KeptMembers(tail, x);
      if exists k :: 0 <= k < |parts| && Strip(parts[k]) == x && x in AllowedDistances {
        var k :| 0 <= k < |parts| && Strip(parts[k]) == x && x in AllowedDistances;
        if k > 0 {
          assert tail[k - 1] == parts[k];
        }
      }
      if exists k :: 0 <= k < |tail| && Strip(tail[k]) == x && x in AllowedDistances {
        var k :| 0 <= k < |tail| && Strip(tail[k]) == x && x in AllowedDistances;
        assert parts[k + 1] == tail[k];
      }
    }
  }

  /** `filter_distances`: falsy input gives "", otherwise the comma-join of the kept tokens. */
  function FilterDistances(s: string): string {
    if s == "" then "" else Join(KeptDistances(Split(s, ',')), ',')
  }

  lemma AllowedShape(x: string)
    requires x in AllowedDistances
    ensures ',' !in x && Strip(x) == x
  {
    StripNoSpace(x);
  }

  /** The output is either empty or splits back, on commas, into exactly the
      kept tokens: allowed labels in input order with duplicates kept. */
  lemma FilterDistancesTokens(s: string)
    ensures var kept := KeptDistances(Split(s, ','));
            s == "" || kept == [] <==> FilterDistances(s) == ""
    ensures var kept := KeptDistances(Split(s, ','));
            s != "" && kept != [] ==> Split(FilterDistances(s), ',') == kept
  {
    var kept := KeptDistances(Split(s, ','));
    forall k | 0 <= k < |kept| ensures ',' !in kept[k] {
      AllowedShape(kept[k]);
    }
    if s != "" && kept != [] {
      SplitJoin(kept, ',');
      assert FilterDistances(s) != "" by {
        assert |Split(FilterDistances(s), ',')| == |kept|;
        if |kept| == 1 {
          assert FilterDistances(s) == kept[0];
          assert kept[0] in AllowedDistances;
        }
      }
    }
  }

  /** A list of allowed tokens is kept whole. */
  lemma {:induction false} KeptAllAllowed(parts: seq<string>)
    requires forall k :: 0 <= k < |parts| ==> parts[k] in AllowedDistances
    ensures KeptDistances(parts) == parts
  {
    if parts != [] {
      AllowedShape(parts[0]);
      KeptAllAllowed(parts[1..]);
    }
  }

  /** Filtering twice gives the same string. */
  lemma FilterDistancesIdempotent(s: string)
    ensures FilterDistances(FilterDistances(s)) == FilterDistances(s)
  {
    FilterDistancesTokens(s);
    var r := FilterDistances(s);
    if r != "" {
      var kept := KeptDistances(Split(s, ','));
      KeptAllAllowed(kept);
    }
  }

  lemma SplitFour(a: string, b: string, c: string, d: string, sep: char)
    requires sep !in a && sep !in b && sep !in c && sep !in d
    ensures Split(a + [sep] + (b + [sep] + (c + [sep] + d)), sep) == [a, b, c, d]
  {
    SplitPrefix(d, "", sep);
    SplitPrefix(c, d, sep);
    SplitPrefix(b, c + [sep] + d, sep);
    SplitPrefix(a, b + [sep] + (c + [sep] + d), sep);
  }

  lemma ExampleDistanceTokens(parts: seq<string>)
    requires parts == ["풀", "하프", "마라톤", "5km"]
    ensures Split("풀,하프,마라톤,5km", ',') == parts
  {
    SplitFour("풀", "하프", "마라톤", "5km", ',');
    assert "풀" + [','] + ("하프" + [','] + ("마라톤" + [','] + "5km")) == "풀,하프,마라톤,5km";
  }

  lemma ExampleKeptTokens(parts: seq<string>)
    requires parts == ["풀", "하프", "마라톤", "5km"]
    ensures KeptDistances(parts) == ["풀", "하프", "5km"]
  {
    StripNoSpace(parts[0]);
    StripNoSpace(parts[1]);
    StripNoSpace(parts[2]);
    StripNoSpace(parts[3]);
    assert KeptDistances(parts[4..]) == [];
    assert KeptDistances(parts[3..]) == ["5km"];
    assert KeptDistances(parts[2..]) == ["5km"];
    assert KeptDistances(parts[1..]) == ["하프", "5km"];
  }

  lemma ExampleJoinKept(kept: seq<string>)
    requires kept == ["풀", "하프", "5km"]
    ensures Join(kept, ',') == "풀,하프,5km"
  {
    assert Join(kept[2..], ',') == "5km";
    assert Join(kept[1..], ',') == "하프,5km";
  }

  /** "풀,하프,마라톤,5km" keeps the full, half and 5 km labels. */
  lemma ExampleFilterDistances(s: string)
    requires s == "풀,하프,마라톤,5km"
    ensures FilterDistances(s) == "풀,하프,5km"
  {
    var parts: seq<string> := ["풀", "하프", "마라톤", "5km"];
    ExampleDistanceTokens(parts);
    ExampleKeptTokens(parts);
    ExampleJoinKept(KeptDistances(parts));
  }

  // ---- normalize_date ----

  /** `(\d{1,2})` followed by `stop`, anchored at `p`: the end of the digits. */
  function DigitsBefore(s: string, p: nat, stop: char): (e: Option<nat>)
    ensures e.Some? ==> p < e.value <= p + 2 && e.value < |s| && s[e.value] == stop && IsDigits(s[p..e.value])
  {
    if p + 2 < |s| && IsDigit(s[p]) && IsDigit(s[p + 1]) && s[p + 2] == stop then Some(p + 2)
    else if p + 1 < |s| && IsDigit(s[p]) && s[p + 1] == stop then Some(p + 1)
    else None
  }

  /** `(\d{1,2})` at `p` with nothing required after it: the greedy end. */
  function UpToTwoDigits(s: string, p: nat): (e: Option<nat>)
    ensures e.Some? ==> p < e.value <= p + 2 && e.value <= |s| && IsDigits(s[p..e.value])
  {
    if p + 1 < |s| && IsDigit(s[p]) && IsDigit(s[p + 1]) then Some(p + 2)
    else if p < |s| && IsDigit(s[p]) then Some(p + 1)
    else None
  }

  /** `re.match(r"(\d{1,2})/(\d{1,2})", s)`: month and day digit strings. */
  function MatchSlash(s: string): (r: Option<(string, string)>)
    ensures r.Some? ==> 1 <= |r.value.0| <= 2 && IsDigits(r.value.0) && 1 <= |r.value.1| <= 2 && IsDigits(r.value.1)
    ensures r.Some? ==> '/' in s
  {
    match DigitsBefore(s, 0, '/')
    case None => None
    case Some(m) =>
      match UpToTwoDigits(s, m + 1)
      case None => None
      case Some(d) => Some((s[..m], s[m + 1..d]))
  }

  /** `re.match(r"(\d{4})년\s*(\d{1,2})월\s*(\d{1,2})일", s)`. */
  function MatchKorean(s: string): (r: Option<(string, string, string)>)
    ensures r.Some? ==> |r.value.0| == 4 && IsDigits(r.value.0)
    ensures r.Some? ==> 1 <= |r.value.1| <= 2 && IsDigits(r.value.1) && 1 <= |r.value.2| <= 2 && IsDigits(r.value.2)
    ensures r.Some? ==> '년' in s
  {
    if |s| >= 5 && IsDigits(s[..4]) && s[4] == '년' then
      var p := SkipSpace(s, 5);
      match DigitsBefore(s, p, '월')
      case None => None
      case Some(m) =>
        var q := SkipSpace(s, m + 1);
        match DigitsBefore(s, q, '일')
        case None => None
        case Some(d) => Some((s[..4], s[p..m], s[q..d]))
    else None
  }

  /** Whatever follows `m/d` decides only whether the day is cut at one
      digit: the month is the digits before the slash, the day the one or
      two digits after it, taken greedily. */
  lemma MatchSlashComplete(s: string, m: string, d: string, rest: string)
    requires 1 <= |m| <= 2 && IsDigits(m) && 1 <= |d| <= 2 && IsDigits(d)
    requires s == m + "/" + d + rest
    requires |d| == 2 || rest == [] || !IsDigit(rest[0])
    ensures MatchSlash(s) == Some((m, d))
  {
    var p := |m| + 1;
    assert s[..|m|] == m && s[|m|] == '/';
    assert s[p..p + |d|] == d;
    if |d| == 1 && rest != [] {
      assert s[p + 1] == rest[0];
    }
  }

  /** A slash match is a prefix `m/d` of the text, and the day is greedy. */
  lemma MatchSlashSound(s: string)
    requires MatchSlash(s).Some?
    ensures var (m, d) := MatchSlash(s).value;
            && |m| + 1 + |d| <= |s| && s == m + "/" + d + s[|m| + 1 + |d|..]
            && (|d| == 2 || |m| + 1 + |d| == |s| || !IsDigit(s[|m| + 1 + |d|]))
  {
    var (m, d) := MatchSlash(s).value;
    var e := |m| + 1 + |d|;
    assert s[..|m|] == m && s[|m|] == '/' && s[|m| + 1..e] == d;
    assert s == s[..|m|] + [s[|m|]] + s[|m| + 1..e] + s[e..];
  }

  /** The last piece of a prefix sits right after the rest of it. */
  lemma PeelPiece(s: string, pre: string, piece: string)
    requires StartsWith(s, pre + piece)
    ensures StartsWith(s, pre) && s[|pre|..|pre| + |piece|] == piece
  {
    assert s[..|pre|] == (pre + piece)[..|pre|];
    assert s[|pre|..|pre| + |piece|] == (pre + piece)[|pre|..];
  }

  lemma ExtendPiece(s: string, pre: string, piece: string)
    requires StartsWith(s, pre) && |pre| + |piece| <= |s| && s[|pre|..|pre| + |piece|] == piece
    ensures StartsWith(s, pre + piece)
  {
    assert s[..|pre| + |piece|] == s[..|pre|] + s[|pre|..|pre| + |piece|];
  }

  /** `\s*` at `i` stops after a known run of spaces followed by a non-space. */
  lemma SkipSpacesOver(s: string, i: nat, sp: string)
    requires i + |sp| < |s| && s[i..i + |sp|] == sp && IsSpaces(sp) && !IsSpace(s[i + |sp|])
    ensures SkipSpace(s, i) == i + |sp|
  {
    assert forall k :: i <= k < i + |sp| ==> s[k] == sp[k - i];
  }

  /** `(\d{1,2})` at `p` followed by a non-digit `stop`. */
  lemma DigitsBeforeOver(s: string, p: nat, ds: string, stop: char)
    requires 1 <= |ds| <= 2 && IsDigits(ds) && !IsDigit(stop)
    requires p + |ds| < |s| && s[p..p + |ds|] == ds && s[p + |ds|] == stop
    ensures DigitsBefore(s, p, stop) == Some(p + |ds|)
  {
    assert s[p] == ds[0];
    if |ds| == 2 {
      assert s[p + 1] == ds[1];
    }
  }

  /** `YYYY년`, spaces, `M월`, spaces, `D일` at the start of the text is matched
      with its three digit groups, whatever follows. */
  lemma MatchKoreanComplete(s: string, y: string, m: string, d: string, a: string, b: string)
    requires |y| == 4 && IsDigits(y) && 1 <= |m| <= 2 && IsDigits(m) && 1 <= |d| <= 2 && IsDigits(d)
    requires IsSpaces(a) && IsSpaces(b)
    requires StartsWith(s, y + "년" + a + m + "월" + b + d + "일")
    ensures MatchKorean(s) == Some((y, m, d))
  {
    var s1 := y + "년";
    var s2 := s1 + a;
    var s3 := s2 + m;
    var s4 := s3 + "월";
    var s5 := s4 + b;
    var s6 := s5 + d;
    PeelPiece(s, s6, "일");
    PeelPiece(s, s5, d);
    PeelPiece(s, s4, b);
    PeelPiece(s, s3, "월");
    PeelPiece(s, s2, m);
    PeelPiece(s, s1, a);
    PeelPiece(s, y, "년");
    assert s[..4] == y;
    SkipSpacesOver(s, 5, a);
    DigitsBeforeOver(s, |s2|, m, '월');
    SkipSpacesOver(s, |s4|, b);
    DigitsBeforeOver(s, |s5|, d, '일');
  }

  /** The pieces between the positions the matcher finds make up a prefix. */
  lemma KoreanPrefixFromParts(s: string, p: nat, me: nat, q: nat, de: nat)
    requires 5 <= p <= me < q <= de < |s| && s[4] == '년' && s[me] == '월' && s[de] == '일'
    ensures StartsWith(s, s[..4] + "년" + s[5..p] + s[p..me] + "월" + s[me + 1..q] + s[q..de] + "일")
  {
    var y, a, m, b, d := s[..4], s[5..p], s[p..me], s[me + 1..q], s[q..de];
    assert s[4..5] == "년" && s[me..me + 1] == "월" && s[de..de + 1] == "일";
    ExtendPiece(s, y, "년");
    ExtendPiece(s, y + "년", a);
    ExtendPiece(s, y + "년" + a, m);
    ExtendPiece(s, y + "년" + a + m, "월");
    ExtendPiece(s, y + "년" + a + m + "월", b);
    ExtendPiece(s, y + "년" + a + m + "월" + b, d);
    ExtendPiece(s, y + "년" + a + m + "월" + b + d, "일");
  }

  /** A Korean match is such a prefix of the text. */
  lemma MatchKoreanSound(s: string)
    requires MatchKorean(s).Some?
    ensures var (y, m, d) := MatchKorean(s).value;
            exists a, b :: IsSpaces(a) && IsSpaces(b) && StartsWith(s, y + "년" + a + m + "월" + b + d + "일")
  {
    var (y, m, d) := MatchKorean(s).value;
    var p := SkipSpace(s, 5);
    var me := DigitsBefore(s, p, '월').value;
    var q := SkipSpace(s, me + 1);
    var de := DigitsBefore(s, q, '일').value;
    var a := s[5..p];
    var b := s[me + 1..q];
    assert y == s[..4] && m == s[p..me] && d == s[q..de];
    KoreanPrefixFromParts(s, p, me, q, de);
    assert IsSpaces(a) by {
      forall k | 0 <= k < |a| ensures IsSpace(a[k]) { assert a[k] == s[5 + k]; }
    }
    assert IsSpaces(b) by {
      forall k | 0 <= k < |b| ensures IsSpace(b[k]) { assert b[k] == s[me + 1 + k]; }
    }
    assert IsSpaces(a) && IsSpaces(b) && StartsWith(s, y + "년" + a + m + "월" + b + d + "일");
  }

  /** `normalize_date(s, year)`. */
  function NormalizeDate(s: string, year: nat): (r: string)
    ensures MatchSlash(s).None? && MatchKorean(s).None? ==> r == s
  {
    match MatchSlash(s)
    case Some((m, d)) => NatToString(year) + "-" + Pad2(ParseNat(m)) + "-" + Pad2(ParseNat(d))
    case None =>
      match MatchKorean(s)
      case Some((y, m, d)) => y + "-" + Pad2(ParseNat(m)) + "-" + Pad2(ParseNat(d))
      case None => s
  }

  /** `YYYY-MM-DD`: four digits, dash, two digits, dash, two digits. */
  predicate IsoDate(s: string) {
    && |s| == 10 && s[4] == '-' && s[7] == '-'
    && IsDigits(s[..4]) && IsDigits(s[5..7]) && IsDigits(s[8..])
  }

  lemma ParseUpTo99(s: string)
    requires 1 <= |s| <= 2 && IsDigits(s)
    ensures ParseNat(s) < 100
  {
    if |s| == 2 {
      assert ParseNat(s[..1]) < 10 by { assert s[..1][..0] == []; }
    } else {
      assert s[..0] == [];
    }
  }

  lemma IsoParts(y: string, m: nat, d: nat)
    requires |y| == 4 && IsDigits(y) && m < 100 && d < 100
    ensures var r := y + "-" + Pad2(m) + "-" + Pad2(d);
            IsoDate(r) && r[..4] == y && ParseNat(r[5..7]) == m && ParseNat(r[8..]) == d
  {
    var r := y + "-" + Pad2(m) + "-" + Pad2(d);
    assert r[..4] == y;
    assert r[5..7] == Pad2(m);
    assert r[8..] == Pad2(d);
    ParsePad2(m);
    ParsePad2(d);
  }

  /** A list-page `M/D` becomes `year-MM-DD` holding the same month and day
      numbers, whatever their range; a four-digit year gives an ISO date. */
  lemma NormalizeSlashDate(s: string, year: nat)
    requires MatchSlash(s).Some?
    ensures var (m, d) := MatchSlash(s).value;
            var r := NormalizeDate(s, year);
            && StartsWith(s, m + "/" + d)
            && (1000 <= year <= 9999 ==>
                  IsoDate(r) && ParseNat(r[..4]) == year && ParseNat(r[5..7]) == ParseNat(m) && ParseNat(r[8..]) == ParseNat(d))
  {
    var (m, d) := MatchSlash(s).value;
    var e := DigitsBefore(s, 0, '/').value;
    assert s[..|m + "/" + d|] == m + "/" + d;
    ParseUpTo99(m);
    ParseUpTo99(d);
    if 1000 <= year <= 9999 {
      var y := NatToString(year);
      assert |y| == 4 by {
        assert |NatToString(year / 10)| == 3 by {
          assert |NatToString(year / 100)| == 2 by {
            assert |NatToString(year / 1000)| == 1;
          }
        }
      }
      IsoParts(y, ParseNat(m), ParseNat(d));
      ParseNatToString(year);
    }
  }

  /** A detail-page `YYYY년M월D일` becomes an ISO date with the same year
      digits and the same month and day numbers. */
  lemma NormalizeKoreanDate(s: string, year: nat)
    requires MatchSlash(s).None? && MatchKorean(s).Some?
    ensures var (y, m, d) := MatchKorean(s).value;
            var r := NormalizeDate(s, year);
            IsoDate(r) && r[..4] == y && ParseNat(r[5..7]) == ParseNat(m) && ParseNat(r[8..]) == ParseNat(d)
  {
    var (y, m, d) := MatchKorean(s).value;
    ParseUpTo99(m);
    ParseUpTo99(d);
    IsoParts(y, ParseNat(m), ParseNat(d));
  }

  /** A string of digits and dashes only is returned unchanged. */
  lemma DigitsAndDashesUnchanged(t: string, year: nat)
    requires forall k :: 0 <= k < |t| ==> IsDigit(t[k]) || t[k] == '-'
    ensures NormalizeDate(t, year) == t
  {
    assert '/' !in t;
    assert '년' !in t;
  }

  /** Normalizing twice gives the same string as normalizing once. */
  lemma NormalizeDateIdempotent(s: string, year: nat)
    ensures NormalizeDate(NormalizeDate(s, year), year) == NormalizeDate(s, year)
  {
    var r := NormalizeDate(s, year);
    if MatchSlash(s).Some? || MatchKorean(s).Some? {
      var head := if MatchSlash(s).Some? then NatToString(year) else MatchKorean(s).value.0;
      var (m, d) := if MatchSlash(s).Some? then MatchSlash(s).value
                    else (MatchKorean(s).value.1, MatchKorean(s).value.2);
      assert r == head + "-" + Pad2(ParseNat(m)) + "-" + Pad2(ParseNat(d));
      DashJoinedDigits(head, Pad2(ParseNat(m)), Pad2(ParseNat(d)));
      DigitsAndDashesUnchanged(r, year);
    }
  }

  /** Three digit runs joined by dashes hold only digits and dashes. */
  lemma DashJoinedDigits(a: string, b: string, c: string)
    requires IsDigits(a) && IsDigits(b) && IsDigits(c)
    ensures var t := a + "-" + b + "-" + c;
            forall k :: 0 <= k < |t| ==> IsDigit(t[k]) || t[k] == '-'
  {
  }

  /** Once the detail-page pattern matches, the date is its year digits and
      the zero-padded month and day numbers. */
  lemma KoreanNormalized(s: string, year: nat, y: string, m: string, d: string)
    requires MatchSlash(s).None? && MatchKorean(s) == Some((y, m, d))
    ensures NormalizeDate(s, year) == y + "-" + Pad2(ParseNat(m)) + "-" + Pad2(ParseNat(d))
  {
  }

  /** A one-digit month or day is padded with a leading zero. */
  lemma PadOneDigit(c: char)
    requires IsDigit(c)
    ensures Pad2(ParseNat([c])) == ['0', c]
  {
    assert [c][..0] == [];
  }

  /** A two-digit month or day without a leading zero is kept as written. */
  lemma PadTwoDigits(c: char, e: char)
    requires IsDigit(c) && c != '0' && IsDigit(e)
    ensures Pad2(ParseNat([c, e])) == [c, e]
  {
    assert [c, e][..1] == [c];
    assert [c][..0] == [];
    assert ParseNat([c]) == DigitValue(c);
    var n := ParseNat([c, e]);
    assert n == DigitValue(c) * 10 + DigitValue(e);
    assert n / 10 == DigitValue(c) && n % 10 == DigitValue(e);
    assert DigitChar(DigitValue(c)) == c && DigitChar(DigitValue(e)) == e;
    assert NatToString(n / 10) == [c];
    assert Pad2(n) == NatToString(n / 10) + [DigitChar(n % 10)];
  }

  lemma ExampleSlashDate()
    ensures NormalizeDate("2/8", 2026) == "2026-02-08"
  {
    var s := "2/8";
    assert DigitsBefore(s, 0, '/') == Some(1);
    assert UpToTwoDigits(s, 2) == Some(3);
    PadOneDigit('2');
    PadOneDigit('8');
    assert NatToString(2026) == "2026" by {
      assert NatToString(2) == "2";
      assert NatToString(20) == "20";
      assert NatToString(202) == "202";
    }
  }

  /** A February 2026 date with a one-digit day, as the detail pages write it. */
  lemma MatchesFebruaryDay(s: string, c: char)
    requires IsDigit(c) && s == ['2', '0', '2', '6', '년', '2', '월', c, '일']
    ensures MatchSlash(s).None? && MatchKorean(s) == Some(("2026", "2", [c]))
  {
    assert MatchSlash(s) == None;
    assert s[..4] == "2026" && IsDigits(s[..4]);
    assert SkipSpace(s, 5) == 5;
    assert DigitsBefore(s, 5, '월') == Some(6);
    assert SkipSpace(s, 7) == 7;
    assert DigitsBefore(s, 7, '일') == Some(8);
    assert s[5..6] == "2" && s[7..8] == [c];
  }

  lemma ExampleKoreanDate()
    ensures NormalizeDate("2026년2월8일", 2026) == "2026-02-08"
  {
    MatchesFebruaryDay("2026년2월8일", '8');
    KoreanNormalized("2026년2월8일", 2026, "2026", "2", "8");
    PadOneDigit('2');
    PadOneDigit('8');
  }

  // ---- parse_registration_dates ----

  /** `parse_registration_dates(period)`: (start, end). */
  function ParseRegistrationDates(period: string): (string, string) {
    if period == "" then ("", "")
    else
      var parts := Split(period, '~');
      if |parts| != 2 then (period, "")
      else (NormalizeDate(Strip(parts[0]), 2026), NormalizeDate(Strip(parts[1]), 2026))
  }

  /** Occurrences of `c` in `s`. */
  function CountChar(s: string, c: char): nat {
    if s == [] then 0 else (if s[0] == c then 1 else 0) + CountChar(s[1..], c)
  }

  lemma {:induction false} SplitCount(s: string, sep: char)
    ensures |Split(s, sep)| == 1 + CountChar(s, sep)
  {
    if s != [] {
      SplitCount(s[1..], sep);
    }
  }

  /** Exactly one tilde: each side is stripped and normalized. */
  lemma RegistrationOneTilde(a: string, b: string)
    requires '~' !in a && '~' !in b
    ensures ParseRegistrationDates(a + "~" + b) == (NormalizeDate(Strip(a), 2026), NormalizeDate(Strip(b), 2026))
  {
    SplitPrefix(a, b, '~');
    SplitPrefix(b, "", '~');
    assert b + [] == b;
    assert a + "~" + b == a + ['~'] + b;
  }

  /** No tilde, or more than one: the whole period comes back as the start. */
  lemma RegistrationNotTwoParts(period: string)
    requires period != ""
    requires CountChar(period, '~') != 1
    ensures ParseRegistrationDates(period) == (period, "")
  {
    SplitCount(period, '~');
  }

  lemma MatchesRegistrationStart(a: string)
    requires a == "2025년10월28일"
    ensures MatchSlash(a).None? && MatchKorean(a) == Some(("2025", "10", "28"))
  {
    assert MatchSlash(a) == None;
    assert a[..4] == "2025" && IsDigits(a[..4]);
    assert SkipSpace(a, 5) == 5;
    assert DigitsBefore(a, 5, '월') == Some(7);
    assert SkipSpace(a, 8) == 8;
    assert DigitsBefore(a, 8, '일') == Some(10);
    assert a[5..7] == "10" && a[8..10] == "28";
  }

  lemma ExampleRegistrationStart(a: string)
    requires a == "2025년10월28일"
    ensures NormalizeDate(Strip(a), 2026) == "2025-10-28"
  {
    StripNoSpace(a);
    MatchesRegistrationStart(a);
    KoreanNormalized(a, 2026, "2025", "10", "28");
    PadTwoDigits('1', '0');
    PadTwoDigits('2', '8');
    assert NormalizeDate(a, 2026) == "2025" + "-" + "10" + "-" + "28";
  }

  lemma ExampleRegistrationEnd(b: string)
    requires b == "2026년2월1일"
    ensures NormalizeDate(Strip(b), 2026) == "2026-02-01"
  {
    StripNoSpace(b);
    MatchesFebruaryDay(b, '1');
    KoreanNormalized(b, 2026, "2026", "2", "1");
    PadOneDigit('2');
    PadOneDigit('1');
    assert NormalizeDate(b, 2026) == "2026" + "-" + "02" + "-" + "01";
  }

  /** "2025년10월28일~2026년2월1일" gives ("2025-10-28", "2026-02-01"). */
  lemma ExampleRegistration(period: string)
    requires period == "2025년10월28일~2026년2월1일"
    ensures ParseRegistrationDates(period) == ("2025-10-28", "2026-02-01")
  {
    var a := "2025년10월28일";
    var b := "2026년2월1일";
    assert period == a + "~" + b;
    RegistrationOneTilde(a, b);
    ExampleRegistrationStart(a);
    ExampleRegistrationEnd(b);
  }
}
