/** The static lookups of `MarathonParser` in crawl_global.py and the pure
    helpers `parse_marathon` uses: Korean tags with their fallbacks, the
    participant-count estimate, and the rounding and formatting of the
    converted minimum price. The large country, city, continent and tag
    tables are represented by excerpts; every lemma that is not an example
    holds for any table contents. */
module GlobalTables {
  import opened TextUtil
  import opened Optional

  const RaceTypeKr: map<string, string> := map[
    "full_marathon" := "풀코스",
    "half_marathon" := "하프",
    "ultra_marathon" := "울트라",
    "ten_km" := "10km",
    "five_km" := "5km",
    "custom" := "기타"
  ]

  const SurfaceKr: map<string, string> := map[
    "Asphalt" := "매끄러운 도로",
    "Road" := "일반 도로",
    "Trail" := "산길",
    "Terrain" := "흙길",
    "Mixed" := "섞여 있음",
    "Track" := "우레탄 트랙",
    "Urban trail" := "공원 산책로",
    "Sand" := "모래길",
    "Snow" := "눈길",
    "Indoor" := "실내",
    "Grass" := "잔디",
    "Gravel" := "자갈길",
    "Other" := "기타"
  ]

  const DifficultyKr: map<string, string> := map[
    "flat" := "평평해요",
    "rolling" := "조금 출렁여요",
    "undulating" := "오르내림이 반복돼요",
    "hilly" := "언덕이 많아요",
    "mountain" := "험난한 산길",
    "extreme" := "한계에 가까워요"
  ]

  /** An excerpt of `COUNTRY_KR`. */
  const CountryKr: map<string, string> := map[
    "Australia" := "호주",
    "France" := "프랑스",
    "Germany" := "독일",
    "Japan" := "일본",
    "South Korea" := "대한민국",
    "United Kingdom" := "영국"
  ]

  /** An excerpt of `COUNTRY_CONTINENT_KR`. */
  const ContinentKr: map<string, string> := map[
    "Australia" := "오세아니아",
    "France" := "유럽",
    "Germany" := "유럽",
    "Japan" := "아시아",
    "South Korea" := "아시아",
    "United Kingdom" := "유럽"
  ]

  /** An excerpt of `CITY_KR`. */
  const CityKr: map<string, string> := map[
    "Berlin" := "베를린",
    "Boston" := "보스턴",
    "London" := "런던",
    "New York" := "뉴욕",
    "Paris" := "파리",
    "Seoul" := "서울",
    "Tokyo" := "도쿄"
  ]

  /** An excerpt of `TAG_KR`: the participant tags and the tags the
      convenience flags look at. */
  const TagKr: map<string, string> := map[
    "0-99-participants" := "100명 미만",
    "100-999-participants" := "100~999명",
    "1000-4999-participants" := "1,000~4,999명",
    "5000-9999-participants" := "5,000~9,999명",
    "10000-24999-participants" := "1만~2만5천명",
    "25000-499999-participants" := "2만5천명 이상",
    "50000-∞-participants" := "5만명 이상",
    "nature" := "자연",
    "scenic" := "경치가 좋아요",
    "beginner-friendly" := "초보자 편해요",
    "boston-marathon-qualifier" := "보스턴 마라톤 예선"
  ]

  /** `table.get(key, key)`: a translation, or the key itself. */
  function Translate(table: map<string, string>, key: string): (r: string)
    ensures key in table ==> r == table[key]
    ensures key !in table ==> r == key
  {
    if key in table then table[key] else key
  }

  /** Translating a translated name again changes nothing, as long as no
      translation is itself a key of the table (true of every Korean table
      of the source, whose values are Korean and whose keys are English). */
  lemma TranslateIdempotent(table: map<string, string>, key: string)
    requires forall k :: k in table ==> table[k] !in table
    ensures Translate(table, Translate(table, key)) == Translate(table, key)
  {
  }

  lemma SurfaceKrValuesAreNotKeys()
    ensures forall k :: k in SurfaceKr ==> SurfaceKr[k] !in SurfaceKr
  {
  }

  lemma DifficultyKrValuesAreNotKeys()
    ensures forall k :: k in DifficultyKr ==> DifficultyKr[k] !in DifficultyKr
  {
  }

  /** `get_type_label`: an unknown race type reads as the `custom` tag. */
  function TypeLabel(raceType: string): (r: string)
    ensures raceType in RaceTypeKr ==> r == RaceTypeKr[raceType]
    ensures raceType !in RaceTypeKr ==> r == RaceTypeKr["custom"]
  {
    if raceType in RaceTypeKr then RaceTypeKr[raceType] else "기타"
  }

  /** Every race gets one of the six tags of the table. */
  lemma TypeLabelKnown(raceType: string)
    ensures TypeLabel(raceType) in RaceTypeKr.Values
  {
    assert "custom" in RaceTypeKr;
  }

  /** `get_continent_kr`: "" for a country the table does not know. */
  function ContinentOf(country: string): (r: string)
    ensures country in ContinentKr ==> r == ContinentKr[country]
    ensures country !in ContinentKr ==> r == ""
  {
    if country in ContinentKr then ContinentKr[country] else ""
  }

  // ---- participant estimate ----

  /** The substrings `estimate_participants` tries, in order, with their tags. */
  const Bands: seq<(string, string)> := [
    ("0-99", "100명 미만"),
    ("100-999", "100~999명"),
    ("1000-4999", "1,000~4,999명"),
    ("5000-9999", "5,000~9,999명"),
    ("10000-24999", "1만~2만5천명"),
    ("25000", "2만5천명 이상"),
    ("50000", "5만명 이상")
  ]

  /** The if/elif chain as written: the first band, from `k` on, whose key
      occurs anywhere in the tag. */
  function BandContained(tag: string, k: nat): (r: Option<string>)
    requires k <= |Bands|
    ensures r.Some? ==> exists j :: k <= j < |Bands| && r.value == Bands[j].1 && Contains(tag, Bands[j].0)
                                    && forall j' :: k <= j' < j ==> !Contains(tag, Bands[j'].0)
    ensures r.None? ==> forall j :: k <= j < |Bands| ==> !Contains(tag, Bands[j].0)
    decreases |Bands| - k
  {
    if k == |Bands| then None
    else if Contains(tag, Bands[k].0) then Some(Bands[k].1)
    else BandContained(tag, k + 1)
  }

  /** A tag the loop as written returns from. */
  predicate CountedAsWritten(tag: string) {
    Contains(tag, "participants") && BandContained(tag, 0).Some?
  }

  /** `estimate_participants` as written: the first participants tag whose
      tag contains one of the band substrings decides. */
  function EstimateParticipantsAsWritten(tags: seq<string>): (r: Option<string>)
    ensures r.Some? <==> exists i :: 0 <= i < |tags| && CountedAsWritten(tags[i])
  {
    if tags == [] then None
    else if CountedAsWritten(tags[0]) then BandContained(tags[0], 0)
    else
      var r := EstimateParticipantsAsWritten(tags[1..]);
      assert forall i :: 1 <= i < |tags| ==> tags[i] == tags[1..][i - 1];
      r
  }

  /** As written, the first tag the chain returns from decides the estimate. */
  lemma {:induction false} EstimateFirstCountedAsWritten(tags: seq<string>, i: nat)
    requires i < |tags| && CountedAsWritten(tags[i])
    requires forall j :: 0 <= j < i ==> !CountedAsWritten(tags[j])
    ensures EstimateParticipantsAsWritten(tags) == BandContained(tags[i], 0)
  {
    if i > 0 {
      assert forall j :: 0 <= j < i - 1 ==> tags[1..][j] == tags[j + 1];
      EstimateFirstCountedAsWritten(tags[1..], i - 1);
    }
  }

  lemma ContainsAt(s: string, sub: string, i: nat)
    requires OccursAt(s, sub, i)
    ensures Contains(s, sub)
  {
  }

  /** The substring test lets "0-99" match inside "100-999" and "5000-9999":
      a race tagged 100-999 participants is estimated at fewer than 100. */
  lemma AsWrittenMislabelsHundreds(tag: string)
    requires tag == "100-999-participants"
    ensures EstimateParticipantsAsWritten([tag]) == Some("100명 미만")
    ensures TagKr[tag] == "100~999명"
  {
    assert tag[8..20] == "participants";
    ContainsAt(tag, "participants", 8);
    assert tag[2..6] == "0-99";
    ContainsAt(tag, "0-99", 2);
    assert CountedAsWritten(tag);
  }

  lemma AsWrittenMislabelsThousands(tag: string)
    requires tag == "5000-9999-participants"
    ensures EstimateParticipantsAsWritten([tag]) == Some("100명 미만")
    ensures TagKr[tag] == "5,000~9,999명"
  {
    assert tag[10..22] == "participants";
    ContainsAt(tag, "participants", 10);
    assert tag[3..7] == "0-99";
    ContainsAt(tag, "0-99", 3);
    assert CountedAsWritten(tag);
  }

  /** The band a tag names: its count range is exactly a band key, so the
      tag starts with that key followed by '-'. */
  function BandNamed(tag: string, k: nat): (r: Option<string>)
    requires k <= |Bands|
    ensures r.Some? ==> exists j :: k <= j < |Bands| && r.value == Bands[j].1 && StartsWith(tag, Bands[j].0 + "-")
    ensures r.None? ==> forall j :: k <= j < |Bands| ==> !StartsWith(tag, Bands[j].0 + "-")
    decreases |Bands| - k
  {
    if k == |Bands| then None
    else if StartsWith(tag, Bands[k].0 + "-") then Some(Bands[k].1)
    else BandNamed(tag, k + 1)
  }

  predicate Counted(tag: string) {
    Contains(tag, "participants") && BandNamed(tag, 0).Some?
  }

  /** The participant estimate with each band matched against the tag's
      own count range: the first participants tag that names a band decides. */
  function EstimateParticipants(tags: seq<string>): (r: Option<string>)
    ensures r.Some? <==> exists i :: 0 <= i < |tags| && Counted(tags[i])
  {
    if tags == [] then None
    else if Counted(tags[0]) then BandNamed(tags[0], 0)
    else
      var r := EstimateParticipants(tags[1..]);
      assert forall i :: 1 <= i < |tags| ==> tags[i] == tags[1..][i - 1];
      r
  }

  /** The first counted tag decides the estimate. */
  lemma {:induction false} EstimateFirstCounted(tags: seq<string>, i: nat)
    requires i < |tags| && Counted(tags[i])
    requires forall j :: 0 <= j < i ==> !Counted(tags[j])
    ensures EstimateParticipants(tags) == BandNamed(tags[i], 0)
  {
    if i > 0 {
      assert forall j :: 0 <= j < i - 1 ==> tags[1..][j] == tags[j + 1];
      EstimateFirstCounted(tags[1..], i - 1);
    }
  }

  /** The participant tags of the tag table, band by band. */
  const ParticipantTags: seq<string> := [
    "0-99-participants",
    "100-999-participants",
    "1000-4999-participants",
    "5000-9999-participants",
    "10000-24999-participants",
    "25000-499999-participants",
    "50000-∞-participants"
  ]

  lemma EstimateTag(tag: string, k: nat, p: nat)
    requires k < |Bands| && OccursAt(tag, "participants", p)
    requires StartsWith(tag, Bands[k].0 + "-")
    requires forall j :: 0 <= j < k ==> !StartsWith(tag, Bands[j].0 + "-")
    ensures EstimateParticipants([tag]) == Some(Bands[k].1)
  {
    ContainsAt(tag, "participants", p);
    var m := k;
    while m > 0
      invariant 0 <= m <= k
      invariant BandNamed(tag, m) == Some(Bands[k].1)
    {
      m := m - 1;
    }
  }

  lemma EstimateTag0(tag: string)
    requires tag == "0-99-participants"
    ensures EstimateParticipants([tag]) == Some(TagKr[tag])
  {
    assert tag[5..17] == "participants";
    assert tag[..5] == "0-99-";
    EstimateTag(tag, 0, 5);
  }

  lemma EstimateTag1(tag: string)
    requires tag == "100-999-participants"
    ensures EstimateParticipants([tag]) == Some(TagKr[tag])
  {
    assert tag[8..20] == "participants";
    assert tag[..8] == "100-999-";
    assert tag[0] == '1';
    EstimateTag(tag, 1, 8);
  }

  lemma EstimateTag2(tag: string)
    requires tag == "1000-4999-participants"
    ensures EstimateParticipants([tag]) == Some(TagKr[tag])
  {
    assert tag[10..22] == "participants";
    assert tag[..10] == "1000-4999-";
    assert tag[0] == '1';
    assert tag[3] == '0';
    EstimateTag(tag, 2, 10);
  }

  lemma EstimateTag3(tag: string)
    requires tag == "5000-9999-participants"
    ensures EstimateParticipants([tag]) == Some(TagKr[tag])
  {
    assert tag[10..22] == "participants";
    assert tag[..10] == "5000-9999-";
    assert tag[0] == '5';
    EstimateTag(tag, 3, 10);
  }

  lemma EstimateTag4(tag: string)
    requires tag == "10000-24999-participants"
    ensures EstimateParticipants([tag]) == Some(TagKr[tag])
  {
    assert tag[12..24] == "participants";
    assert tag[..12] == "10000-24999-";
    assert tag[0] == '1';
    assert tag[3] == '0';
    assert tag[4] == '0';
    EstimateTag(tag, 4, 12);
  }

  lemma EstimateTag5(tag: string)
    requires tag == "25000-499999-participants"
    ensures EstimateParticipants([tag]) == Some(TagKr[tag])
  {
    assert tag[13..25] == "participants";
    assert tag[..6] == "25000-";
    assert tag[0] == '2';
    EstimateTag(tag, 5, 13);
  }

  lemma EstimateTag6(tag: string)
    requires tag == "50000-∞-participants"
    ensures EstimateParticipants([tag]) == Some(TagKr[tag])
  {
    assert tag[8..20] == "participants";
    assert tag[..6] == "50000-";
    assert tag[0] == '5';
    assert tag[4] == '0';
    EstimateTag(tag, 6, 8);
  }

  /** Every participant tag of the tag table is estimated at that tag's own
      label. */
  lemma EstimateAgreesWithTagTable(k: nat)
    requires k < |ParticipantTags|
    ensures EstimateParticipants([ParticipantTags[k]]) == Some(TagKr[ParticipantTags[k]])
  {
    var tag := ParticipantTags[k];
    if k == 0 { EstimateTag0(tag); }
    else if k == 1 { EstimateTag1(tag); }
    else if k == 2 { EstimateTag2(tag); }
    else if k == 3 { EstimateTag3(tag); }
    else if k == 4 { EstimateTag4(tag); }
    else if k == 5 { EstimateTag5(tag); }
    else { EstimateTag6(tag); }
  }

  // ---- minimum price ----

  /** Python's `round(n, -2)` on an integer: the nearest multiple of 100,
      a tie going to the even multiple (`/` and `%` below floor, as Python's
      `divmod` does for a positive divisor). */
  function RoundHundreds(n: int): (r: int)
    ensures r % 100 == 0
    ensures n - 50 <= r <= n + 50
    ensures (r == n - 50 || r == n + 50) ==> (r / 100) % 2 == 0
  {
    var q := n / 100;
    var rem := n % 100;
    if rem > 50 || (rem == 50 && q % 2 == 1) then (q + 1) * 100 else q * 100
  }

  /** No multiple of 100 is nearer to `n` than the rounded value. */
  lemma RoundHundredsNearest(n: int, m: int)
    requires m % 100 == 0
    ensures Abs(n - RoundHundreds(n)) <= Abs(n - m)
  {
    var r := RoundHundreds(n);
    var q := n / 100;
    assert m == (m / 100) * 100;
    assert r == q * 100 || r == (q + 1) * 100;
    if m / 100 <= q - 1 {
      assert m <= q * 100 - 100;
    } else if m / 100 >= q + 2 {
      assert m >= q * 100 + 200;
    }
  }

  function Abs(x: int): nat {
    if x < 0 then -x else x
  }

  /** A multiple of 100 rounds to itself. */
  lemma RoundHundredsFixed(n: int)
    requires n % 100 == 0
    ensures RoundHundreds(n) == n
  {
  }

  /** The three digits of `m`, zero-padded: a group after a thousands comma. */
  function Pad3(m: nat): (r: string)
    requires m < 1000
    ensures |r| == 3 && IsDigits(r)
  {
    [DigitChar(m / 100), DigitChar(m / 10 % 10), DigitChar(m % 10)]
  }

  /** `f"{n:,}"` for a natural number: decimal digits with a comma between
      each group of three. */
  function GroupThousands(n: nat): (r: string)
    ensures |r| >= 1 && r[0] != ','
  {
    if n < 1000 then NatToString(n) else GroupThousands(n / 1000) + "," + Pad3(n % 1000)
  }

  /** `f"{n:,}"` for any integer. */
  function FormatThousands(n: int): string {
    if n < 0 then "-" + GroupThousands(-n) else GroupThousands(n)
  }

  lemma {:induction false} RemoveCommasConcat(a: string, b: string)
    ensures RemoveCommas(a + b) == RemoveCommas(a) + RemoveCommas(b)
  {
    if a == [] {
      assert a + b == b;
    } else {
      assert (a + b)[0] == a[0] && (a + b)[1..] == a[1..] + b;
      RemoveCommasConcat(a[1..], b);
    }
  }

  /** Three decimal digits come off the end of `str(n)` at a time. */
  lemma NatToStringThousands(n: nat)
    requires n >= 1000
    ensures NatToString(n) == NatToString(n / 1000) + Pad3(n % 1000)
  {
    ThousandsDivMod(n);
    assert NatToString(n) == NatToString(n / 10) + [DigitChar(n % 10)];
    assert NatToString(n / 10) == NatToString(n / 100) + [DigitChar(n / 10 % 10)];
    assert NatToString(n / 100) == NatToString(n / 1000) + [DigitChar(n / 100 % 10)];
  }

  /** The last three decimal digits of `n` are the digits of `n % 1000`. */
  lemma ThousandsDivMod(n: nat)
    ensures n / 10 / 10 == n / 100 && n / 100 / 10 == n / 1000
    ensures n / 10 % 10 == n % 1000 / 10 % 10
    ensures n / 100 % 10 == n % 1000 / 100
    ensures n % 10 == n % 1000 % 10
  {
    var q := n / 1000;
    var m := n % 1000;
    assert n == q * 1000 + m;
    assert n / 10 == q * 100 + m / 10;
    assert n / 100 == q * 10 + m / 100;
  }

  /** Dropping the thousands commas gives back `str(n)`. */
  lemma {:induction false} GroupThousandsDigits(n: nat)
    ensures RemoveCommas(GroupThousands(n)) == NatToString(n)
  {
    if n < 1000 {
      RemoveCommasNone(NatToString(n));
    } else {
      GroupThousandsDigits(n / 1000);
      DropJoiningComma(GroupThousands(n / 1000), Pad3(n % 1000));
      NatToStringThousands(n);
    }
  }

  /** Removing commas from `head,low` with `low` all digits. */
  lemma DropJoiningComma(head: string, low: string)
    requires IsDigits(low)
    ensures RemoveCommas(head + "," + low) == RemoveCommas(head) + low
  {
    RemoveCommasConcat(head + ",", low);
    TrailingCommaDropped(head);
    RemoveCommasNone(low);
  }

  lemma TrailingCommaDropped(head: string)
    ensures RemoveCommas(head + ",") == RemoveCommas(head)
  {
    RemoveCommasConcat(head, ",");
    assert RemoveCommas(",") == RemoveCommas([]);
  }

  lemma {:induction false} RemoveCommasNone(s: string)
    requires IsDigits(s)
    ensures RemoveCommas(s) == s
  {
    if s != [] {
      RemoveCommasNone(s[1..]);
    }
  }

  /** The price fields of `parse_marathon`: `minPrice` is the scaled price
      rounded to hundreds, `minPriceFormatted` its grouped form. A falsy
      price gives 0 and "". `scaled` is `int(min_price * 1450)`. */
  function MinPrice(scaled: Option<int>): (r: int)
    ensures r % 100 == 0
    ensures scaled.Some? ==> scaled.value - 50 <= r <= scaled.value + 50
    ensures scaled.None? ==> r == 0
  {
    if scaled.Some? then RoundHundreds(scaled.value) else 0
  }

  function MinPriceFormatted(scaled: Option<int>): string {
    if scaled.Some? then "약 " + FormatThousands(RoundHundreds(scaled.value)) + "원" else ""
  }

  /** The formatted price shows the same amount as `minPrice`. */
  lemma MinPriceFormattedShowsPrice(scaled: Option<int>)
    requires scaled.Some? && MinPrice(scaled) >= 0
    ensures var f := MinPriceFormatted(scaled);
            && |f| >= 3 && f[..2] == "약 " && f[|f| - 1] == '원'
            && RemoveCommas(f[2..|f| - 1]) == NatToString(MinPrice(scaled))
  {
    GroupThousandsDigits(MinPrice(scaled));
    var g := GroupThousands(MinPrice(scaled));
    var f := MinPriceFormatted(scaled);
    assert f == "약 " + g + "원";
    assert f[2..|f| - 1] == g;
  }

  /** 12.34 EUR scales to 17893 and is shown as 17,900 KRW. */
  lemma ExamplePrice()
    ensures MinPrice(Some(17893)) == 17900
    ensures MinPriceFormatted(Some(17893)) == "약 17,900원"
  {
    assert Pad3(900) == "900";
    assert NatToString(17) == "17";
  }
}
