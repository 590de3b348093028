/** The detail page of crawl_korea.py: labelled table rows fill a field
    dictionary (a later row with the same label wins), then a price is read
    from the description. The two price patterns are modelled with the
    backtracking order of Python's `re.search`. */
module KoreaPrice {
  import opened TextUtil
  import opened Optional

  predicate IsAmountChar(c: char) {
    IsDigit(c) || c == ','
  }

  predicate IsAmountText(t: string) {
    forall k :: 0 <= k < |t| ==> IsAmountChar(t[k])
  }

  /** End of the maximal run of digits and commas that starts at `p`. */
  function AmountRunEnd(s: string, p: nat): (e: nat)
    requires p <= |s|
    ensures p <= e <= |s|
    ensures forall k :: p <= k < e ==> IsAmountChar(s[k])
    ensures e < |s| ==> !IsAmountChar(s[e])
    decreases |s| - p
  {
    if p < |s| && IsAmountChar(s[p]) then AmountRunEnd(s, p + 1) else p
  }

  /** End of the maximal run of non-digits that starts at `p`. */
  function NonDigitRunEnd(s: string, p: nat): (e: nat)
    requires p <= |s|
    ensures p <= e <= |s|
    ensures forall k :: p <= k < e ==> !IsDigit(s[k])
    ensures e < |s| ==> IsDigit(s[e])
    decreases |s| - p
  {
    if p < |s| && !IsDigit(s[p]) then NonDigitRunEnd(s, p + 1) else p
  }

  /** `([\d,]+)\s*원` anchored at `p`: the group. The group is greedy and
      nothing shorter can succeed (its next character would be a digit or a
      comma, neither whitespace nor the won sign), so one try decides. */
  function AmountAt(s: string, p: nat): (r: Option<string>)
    requires p <= |s|
    ensures r.Some? ==> |r.value| >= 1 && IsAmountText(r.value)
    ensures r.Some? ==> r.value == s[p..AmountRunEnd(s, p)]
  {
    if p < |s| && IsAmountChar(s[p]) then
      var e := AmountRunEnd(s, p);
      var q := SkipSpace(s, e);
      if q < |s| && s[q] == '원' then Some(s[p..e]) else None
    else None
  }

  /** `[^\d]{0,30}` after the keyword, tried greedily: the amount is looked
      for after `k` non-digits, then `k - 1`, down to none. */
  function FeeWindow(s: string, a: nat, k: nat): (r: Option<string>)
    requires a + k <= |s|
    ensures r.Some? ==> IsAmountText(r.value)
  {
    match AmountAt(s, a + k)
    case Some(g) => Some(g)
    case None => if k == 0 then None else FeeWindow(s, a, k - 1)
  }

  /** The window takes as many non-digits as it can: when `p` is the last
      position of the window where an amount starts, that amount is found. */
  lemma {:induction false} FeeWindowGreedy(s: string, a: nat, k: nat, p: nat)
    requires a <= p <= a + k <= |s| && AmountAt(s, p).Some?
    requires forall p' :: p < p' <= a + k ==> AmountAt(s, p').None?
    ensures FeeWindow(s, a, k) == AmountAt(s, p)
  {
    if p < a + k {
      assert AmountAt(s, a + k).None?;
      FeeWindowSkips(s, a, k);
      FeeWindowGreedy(s, a, k - 1, p);
    } else {
      FeeWindowHit(s, a, k);
    }
  }

  /** The window finds nothing exactly when no amount starts anywhere in it. */
  lemma {:induction false} FeeWindowNone(s: string, a: nat, k: nat)
    requires a + k <= |s|
    ensures FeeWindow(s, a, k).None? <==> forall p :: a <= p <= a + k ==> AmountAt(s, p).None?
  {
    if k > 0 {
      FeeWindowNone(s, a, k - 1);
    }
  }

  /** An amount at the window's far end is the one found. */
  lemma FeeWindowHit(s: string, a: nat, k: nat)
    requires a + k <= |s| && AmountAt(s, a + k).Some?
    ensures FeeWindow(s, a, k) == AmountAt(s, a + k)
  {
  }

  /** One step of the window: no amount at its far end shrinks it by one. */
  lemma FeeWindowSkips(s: string, a: nat, k: nat)
    requires 0 < k && a + k <= |s| && AmountAt(s, a + k).None?
    ensures FeeWindow(s, a, k) == FeeWindow(s, a, k - 1)
  {
  }

  function Min(x: nat, y: nat): nat {
    if x <= y then x else y
  }

  /** How many non-digits the window may span after the keyword at `i`. */
  function WindowWidth(s: string, i: nat): (w: nat)
    requires i + 3 <= |s|
    ensures w <= 30 && i + 3 + w <= |s|
    ensures forall k :: i + 3 <= k < i + 3 + w ==> !IsDigit(s[k])
  {
    Min(30, NonDigitRunEnd(s, i + 3) - (i + 3))
  }

  /** The fee pattern `참가비[^\d]{0,30}([\d,]+)\s*원` matched at keyword position `i`. */
  function FeeAt(s: string, i: nat): (r: Option<string>)
    requires i <= |s|
    ensures r.Some? ==> OccursAt(s, "참가비", i) && IsAmountText(r.value)
  {
    if OccursAt(s, "참가비", i) then FeeWindow(s, i + 3, WindowWidth(s, i)) else None
  }

  /** `re.search` as a scan: the match at the first position from `i` to `n`
      where `at` matches. */
  function Leftmost(at: nat -> Option<string>, i: nat, n: nat): Option<string>
    requires i <= n
    decreases n - i
  {
    if i == n || at(i).Some? then at(i) else Leftmost(at, i + 1, n)
  }

  /** The scan is leftmost: a result comes from the first matching position,
      and no result means no position matches. */
  lemma {:induction false} LeftmostFirst(at: nat -> Option<string>, i: nat, n: nat)
    requires i <= n
    ensures var r := Leftmost(at, i, n);
            && (r.Some? ==> exists j :: i <= j <= n && at(j) == r && forall j' :: i <= j' < j ==> at(j').None?)
            && (r.None? ==> forall j :: i <= j <= n ==> at(j).None?)
    decreases n - i
  {
    if i < n && at(i).None? {
      LeftmostFirst(at, i + 1, n);
    }
  }

  /** The match of the pattern tried at each keyword position of `s`. */
  function FeeScan(s: string): nat -> Option<string> {
    (j: nat) => if j <= |s| then FeeAt(s, j) else None
  }

  /** `re.search` of the fee pattern from position `i`: the leftmost keyword
      occurrence whose window leads to an amount. */
  function FeeFrom(s: string, i: nat): (r: Option<string>)
    requires i <= |s|
    ensures r.Some? ==> IsAmountText(r.value)
  {
    LeftmostFirst(FeeScan(s), i, |s|);
    Leftmost(FeeScan(s), i, |s|)
  }

  /** The match of the pattern tried at each position of `s`. */
  function AmountScan(s: string): nat -> Option<string> {
    (j: nat) => if j <= |s| then AmountAt(s, j) else None
  }

  /** `re.search(r"([\d,]+)\s*원", s)` from position `i`: the leftmost amount. */
  function FirstAmountFrom(s: string, i: nat): (r: Option<string>)
    requires i <= |s|
    ensures r.Some? ==> IsAmountText(r.value)
  {
    LeftmostFirst(AmountScan(s), i, |s|);
    Leftmost(AmountScan(s), i, |s|)
  }

  /** The price read from a description: None means the `price` key is not set. */
  function ExtractPrice(desc: string): Option<string> {
    if desc == "" then None
    else
      match FeeFrom(desc, 0)
      case Some(g) => Some(RemoveCommas(g) + "원")
      case None =>
        match FirstAmountFrom(desc, 0)
        case None => None
        case Some(g) =>
          RemoveCommasDigits(g);
          var raw := RemoveCommas(g);
          if raw != "" && 1000 <= ParseNat(raw) <= 1000000 then Some(raw + "원") else None
  }

  /** Whatever the branch, a price is a run of digits followed by the won sign. */
  lemma PriceShape(desc: string)
    requires ExtractPrice(desc).Some?
    ensures var p := ExtractPrice(desc).value;
            |p| >= 1 && p[|p| - 1] == '원' && IsDigits(p[..|p| - 1])
  {
    var p := ExtractPrice(desc).value;
    match FeeFrom(desc, 0)
    case Some(g) =>
      RemoveCommasDigits(g);
      assert p[..|p| - 1] == RemoveCommas(g);
    case None =>
      var g := FirstAmountFrom(desc, 0).value;
      RemoveCommasDigits(g);
      assert p[..|p| - 1] == RemoveCommas(g);
  }

  /** Without a keyword match the price, if any, is the first amount in the
      text and lies in 1000..1000000. */
  lemma PriceFallbackInRange(desc: string)
    requires desc != "" && FeeFrom(desc, 0).None?
    requires ExtractPrice(desc).Some?
    ensures FirstAmountFrom(desc, 0).Some?
    ensures var raw := RemoveCommas(FirstAmountFrom(desc, 0).value);
            ExtractPrice(desc) == Some(raw + "원") && IsDigits(raw) && 1000 <= ParseNat(raw) <= 1000000
  {
    RemoveCommasDigits(FirstAmountFrom(desc, 0).value);
  }

  /** A keyword match is taken as it stands, with no range check. */
  lemma PriceKeywordWins(desc: string)
    requires desc != "" && FeeFrom(desc, 0).Some?
    ensures ExtractPrice(desc) == Some(RemoveCommas(FeeFrom(desc, 0).value) + "원")
  {
  }

  /** "참가비 5,000원" (entry fee 5,000 won) gives "5000원". */
  lemma ExampleKeywordPrice(s: string)
    requires s == "참가비 5,000원"
    ensures ExtractPrice(s) == Some("5000원")
  {
    assert OccursAt(s, "참가비", 0) by { assert s[0..3] == "참가비"; }
    assert NonDigitRunEnd(s, 4) == 4;
    assert NonDigitRunEnd(s, 3) == 4;
    assert WindowWidth(s, 0) == 1;
    assert AmountRunEnd(s, 9) == 9;
    assert AmountRunEnd(s, 4) == 9;
    assert SkipSpace(s, 9) == 9;
    assert s[4..9] == "5,000";
    assert AmountAt(s, 4) == Some("5,000");
    assert FeeWindow(s, 3, 1) == Some("5,000");
    assert FeeAt(s, 0) == Some("5,000");
    assert FeeFrom(s, 0) == Some("5,000");
    assert RemoveCommas("5,000") == "5000" by {
      assert "5,000"[1..] == ",000";
      assert ",000"[1..] == "000";
      assert RemoveCommas("000") == "000" by {
        assert "000"[1..] == "00";
        assert "00"[1..] == "0";
        assert "0"[1..] == "";
      }
    }
    assert "5000" + "원" == "5000원";
  }

  /** "참가비,,원": after one comma is taken by the window, the second comma
      alone satisfies the amount group, so the price is the bare won sign. */
  lemma ExampleCommaOnlyPrice(s: string)
    requires s == "참가비,,원"
    ensures ExtractPrice(s) == Some("원")
  {
    assert OccursAt(s, "참가비", 0) by { assert s[0..3] == "참가비"; }
    assert NonDigitRunEnd(s, 6) == 6;
    assert NonDigitRunEnd(s, 5) == 6;
    assert NonDigitRunEnd(s, 4) == 6;
    assert NonDigitRunEnd(s, 3) == 6;
    assert WindowWidth(s, 0) == 3;
    assert AmountAt(s, 6) == None;
    assert AmountAt(s, 5) == None;
    assert AmountRunEnd(s, 5) == 5;
    assert AmountRunEnd(s, 4) == 5;
    assert SkipSpace(s, 5) == 5;
    assert s[4..5] == ",";
    assert AmountAt(s, 4) == Some(",");
    assert FeeWindow(s, 3, 1) == Some(",");
    assert FeeWindow(s, 3, 2) == Some(",");
    assert FeeWindow(s, 3, 3) == Some(",");
    assert FeeFrom(s, 0) == Some(",");
    assert RemoveCommas(",") == "" by {
      assert ","[1..] == "";
    }
    assert "" + "원" == "원";
  }

  /** "500원" (no keyword, below the range) sets no price. */
  lemma ExampleSmallAmount(s: string)
    requires s == "500원"
    ensures ExtractPrice(s) == None
  {
    forall j | 0 <= j <= |s| ensures !OccursAt(s, "참가비", j) {
      if j + 3 <= |s| {
        assert s[j] != '참';
      }
    }
    assert forall j :: 0 <= j <= |s| ==> FeeAt(s, j).None?;
    LeftmostFirst(FeeScan(s), 0, |s|);
    assert FeeFrom(s, 0).None?;
    assert AmountRunEnd(s, 3) == 3;
    assert AmountRunEnd(s, 2) == 3;
    assert AmountRunEnd(s, 1) == 3;
    assert AmountRunEnd(s, 0) == 3;
    assert s[0..3] == "500";
    assert SkipSpace(s, 3) == 3;
    assert AmountAt(s, 0) == Some("500");
    assert FirstAmountFrom(s, 0) == Some("500");
    assert RemoveCommas("500") == "500" by {
      assert "500"[1..] == "00";
      assert "00"[1..] == "0";
      assert "0"[1..] == "";
    }
    assert ParseNat("500") == 500 by {
      assert "500"[..2] == "50";
      assert "50"[..1] == "5";
      assert "5"[..0] == "";
    }
  }

  // ---- the row loop of parse_detail_page ----

  /** A table row as the page yields it: how many cells it has, the text of
      its first cell and the value extracted from its second (HTML cleaning,
      link and mail-address extraction are not part of this model). */
  datatype Row = Row(cellCount: nat, heading: string, value: string)

  /** The twelve labels the detail table uses and the keys they fill. */
  const FieldMap: map<string, string> := map[
    "대회명" := "title", "대표자명" := "representative", "E-mail" := "email",
    "대회일시" := "datetime", "전화번호" := "phone", "대회종목" := "distances",
    "대회지역" := "region", "대회장소" := "venue", "주최단체" := "organizer",
    "접수기간" := "registrationPeriod", "홈페이지" := "website", "기타소개" := "description"]

  /** The row is recognised: two or more cells and a known label. */
  predicate Fills(row: Row) {
    row.cellCount >= 2 && row.heading in FieldMap
  }

  /** The dictionary after the rows: a later row with the same label overwrites. */
  function RowFields(rows: seq<Row>): map<string, string> {
    if rows == [] then map[]
    else
      var prev := RowFields(rows[..|rows| - 1]);
      var row := rows[|rows| - 1];
      if Fills(row) then prev[FieldMap[row.heading] := row.value] else prev
  }

  /** Every key comes from a recognised row, and holds the value of the last
      recognised row that fills it. */
  lemma {:induction false} RowFieldsLastWins(rows: seq<Row>, key: string)
    requires key in RowFields(rows)
    ensures exists j :: 0 <= j < |rows| && Fills(rows[j]) && FieldMap[rows[j].heading] == key
                        && RowFields(rows)[key] == rows[j].value
                        && forall j' :: j < j' < |rows| ==> !(Fills(rows[j']) && FieldMap[rows[j'].heading] == key)
  {
    var init := rows[..|rows| - 1];
    var row := rows[|rows| - 1];
    if Fills(row) && FieldMap[row.heading] == key {
    } else {
      RowFieldsLastWins(init, key);
      var j :| 0 <= j < |init| && Fills(init[j]) && FieldMap[init[j].heading] == key
               && RowFields(init)[key] == init[j].value
               && forall j' :: j < j' < |init| ==> !(Fills(init[j']) && FieldMap[init[j'].heading] == key);
      assert rows[j] == init[j];
      forall j' | j < j' < |rows| ensures !(Fills(rows[j']) && FieldMap[rows[j'].heading] == key) {
        if j' < |init| {
          assert rows[j'] == init[j'];
        }
      }
    }
  }

  /** Every recognised row puts its field in the dictionary. */
  lemma {:induction false} RowFieldsHasKey(rows: seq<Row>, j: nat)
    requires j < |rows| && Fills(rows[j])
    ensures FieldMap[rows[j].heading] in RowFields(rows)
  {
    var n := |rows| - 1;
    if j < n {
      assert rows[..n][j] == rows[j];
      RowFieldsHasKey(rows[..n], j);
    }
  }

  /** `parse_detail_page` after the fetch: the row loop, then the price. */
  method ParseDetail(rows: seq<Row>) returns (detail: map<string, string>)
    ensures "price" in detail <==> ExtractPrice(if "description" in RowFields(rows) then RowFields(rows)["description"] else "").Some?
    ensures forall key :: key != "price" ==> (key in detail <==> key in RowFields(rows))
    ensures forall key :: key in RowFields(rows) ==> key in detail && detail[key] == RowFields(rows)[key]
    ensures "price" in detail ==> detail["price"] == ExtractPrice(RowFields(rows)["description"]).value
  {
    detail := map[];
    var i := 0;
    while i < |rows|
      invariant 0 <= i <= |rows|
      invariant detail == RowFields(rows[..i])
    {
      var row := rows[i];
      if row.cellCount >= 2 && row.heading in FieldMap {
        detail := detail[FieldMap[row.heading] := row.value];
      }
      assert rows[..i + 1][..i] == rows[..i];
      i := i + 1;
    }
    assert rows[..i] == rows;
    assert "price" !in FieldMap.Values;
    assert "price" !in detail by {
      if "price" in detail {
        RowFieldsLastWins(rows, "price");
      }
    }
    var desc := if "description" in detail then detail["description"] else "";
    var price := ExtractPrice(desc);
    if price.Some? {
      detail := detail["price" := price.value];
    }
  }
}
