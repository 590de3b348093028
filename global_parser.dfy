/** `MarathonParser.parse_marathon` and `get_city_kr` of crawl_global.py:
    one raw record of the marathon API becomes the app's record, and city
    names outside the city table go through a translation service whose
    answers are memoised for the life of the parser. */
module GlobalParser {
  import opened TextUtil
  import opened Optional
  import opened GlobalTables

  /** A calendar date; `Before` is the order of Python's `date`. */
  datatype Date = Date(year: int, month: int, day: int)

  predicate Before(a: Date, b: Date) {
    || a.year < b.year
    || (a.year == b.year && a.month < b.month)
    || (a.year == b.year && a.month == b.month && a.day < b.day)
  }

  /** The translation service: for a query text, the `translatedText` of a
      successful (status 200) answer, or None when the request fails, the
      status is not 200, or the answer carries no usable text. */
  type Service = string -> Option<string>

  /** `translate_with_api`: the service's text when it is non-empty and
      differs from the query, otherwise the query itself. */
  function TranslateWithApi(service: Service, text: string): (r: string)
    ensures r == text || (r != "" && service(text) == Some(r))
  {
    match service(text)
    case Some(t) => if t != "" && t != text then t else text
    case None => text
  }

  /** The test `not city or not city.strip()`. */
  predicate IsBlank(city: string) {
    Strip(city) == ""
  }

  /** What `get_city_kr` answers for `city`, cache aside: blank names are
      returned as they are, then the city table, then the service. */
  function CityKrOf(service: Service, city: string): (r: string)
    ensures !IsBlank(city) ==> r != ""
  {
    if IsBlank(city) then city
    else if city in CityKr then CityKr[city]
    else TranslateWithApi(service, city)
  }

  /** One record of the API's `results`, with the defaults `raw.get` applies
      already filled in (missing text fields are "", a missing race type is
      "custom", a missing start point is [0, 0]). `scaledPrice` is
      `int(min_price * 1450)`, or None when `min_price` is falsy; `tags`
      holds each tag's `label`. */
  datatype Raw = Raw(
    id: string,
    title: string,
    dateNextRace: string,
    city: string,
    country: string,
    startPoint: seq<real>,
    raceType: string,
    distance: string,
    uniqueDistances: seq<string>,
    image: string,
    imageSmall: string,
    imageExtraSmall: string,
    scaledPrice: Option<int>,
    earlyBirdDaysLeft: Option<int>,
    surface: string,
    courseDifficulty: string,
    tags: seq<string>,
    reviewsCount: int,
    registerPossible: bool,
    isSoldOut: bool,
    isRaceDayPassed: bool)

  /** The fields of the app record that `parse_marathon` computes; the fields
      it copies from the raw record unchanged are not repeated here. */
  datatype Parsed = Parsed(
    id: string,
    title: string,
    city: string,
    country: string,
    location: string,
    continent: string,
    latitude: real,
    longitude: real,
    raceTypeLabel: string,
    mainDistance: string,
    thumbnail: string,
    minPrice: int,
    minPriceFormatted: string,
    hasEarlyBird: bool,
    surface: string,
    courseDifficulty: string,
    tags: seq<string>,
    participantsEstimate: Option<string>,
    hasReviews: bool,
    isAvailable: bool,
    isPremium: bool,
    isBeginnerFriendly: bool,
    isScenic: bool)

  /** The race's next date parses (`datetime.fromisoformat`, None when it
      raises) and lies before today. */
  predicate RaceIsPast(raw: Raw, today: Date, parseDate: string -> Option<Date>) {
    raw.dateNextRace != "" && parseDate(raw.dateNextRace).Some? && Before(parseDate(raw.dateNextRace).value, today)
  }

  function Location(service: Service, city: string, country: string): string {
    if city != "" && country != "" then CityKrOf(service, city) + ", " + Translate(CountryKr, country)
    else if CityKrOf(service, city) != "" then CityKrOf(service, city)
    else Translate(CountryKr, country)
  }

  function Thumbnail(raw: Raw): string {
    if raw.imageSmall != "" then raw.imageSmall
    else if raw.imageExtraSmall != "" then raw.imageExtraSmall
    else raw.image
  }

  function TranslateTags(tags: seq<string>): (r: seq<string>)
    ensures |r| == |tags|
    ensures forall i :: 0 <= i < |tags| ==> r[i] == Translate(TagKr, tags[i])
  {
    seq(|tags|, i requires 0 <= i < |tags| => Translate(TagKr, tags[i]))
  }

  /** The app record built from a raw record once its city, country and
      location have been translated. */
  function Assemble(raw: Raw, city: string, country: string, location: string): Parsed {
    Parsed(
      raw.id,
      raw.title,
      city,
      country,
      location,
      ContinentOf(raw.country),
      if |raw.startPoint| > 1 then raw.startPoint[1] else 0.0,
      if |raw.startPoint| > 0 then raw.startPoint[0] else 0.0,
      TypeLabel(raw.raceType),
      if raw.uniqueDistances != [] then raw.uniqueDistances[0] else raw.distance,
      Thumbnail(raw),
      MinPrice(raw.scaledPrice),
      MinPriceFormatted(raw.scaledPrice),
      raw.earlyBirdDaysLeft.Some? && raw.earlyBirdDaysLeft.value > 0,
      Translate(SurfaceKr, raw.surface),
      Translate(DifficultyKr, raw.courseDifficulty),
      TranslateTags(raw.tags),
      EstimateParticipants(raw.tags),
      raw.reviewsCount > 0,
      raw.registerPossible && !raw.isSoldOut && !raw.isRaceDayPassed,
      "premium" in raw.tags || "boston-marathon-qualifier" in raw.tags,
      "beginner-friendly" in raw.tags,
      "scenic" in raw.tags || "nature" in raw.tags)
  }

  /** `parse_marathon`: None for a race whose date has passed. */
  function Normalize(service: Service, raw: Raw, today: Date, parseDate: string -> Option<Date>): (r: Option<Parsed>)
    ensures r.None? <==> RaceIsPast(raw, today, parseDate)
    ensures r.Some? ==> r.value.id == raw.id && r.value.title == raw.title
  {
    if RaceIsPast(raw, today, parseDate) then None
    else Some(Assemble(raw, CityKrOf(service, raw.city), Translate(CountryKr, raw.country),
                       Location(service, raw.city, raw.country)))
  }

  /** The location joins the record's own city and country fields when both
      are given, and otherwise is whichever of them is non-empty. */
  lemma LocationJoinsCityAndCountry(service: Service, raw: Raw, today: Date, parseDate: string -> Option<Date>)
    requires !RaceIsPast(raw, today, parseDate)
    ensures var p := Normalize(service, raw, today, parseDate).value;
            && (raw.city != "" && raw.country != "" ==> p.location == p.city + ", " + p.country)
            && (raw.city == "" ==> p.location == p.country)
            && (raw.city != "" && raw.country == "" ==> p.location == p.city && p.location != "")
  {
    if raw.city != "" && raw.country == "" {
      if IsBlank(raw.city) {
        assert CityKrOf(service, raw.city) == raw.city;
      }
    }
    if raw.city == "" {
      assert Strip("") == "";
    }
  }

  /** The thumbnail is the first non-empty image size, from small to large,
      and is empty only when the record has no image at all. */
  lemma ThumbnailFirstImage(raw: Raw)
    ensures Thumbnail(raw) in {raw.imageSmall, raw.imageExtraSmall, raw.image}
    ensures Thumbnail(raw) == "" <==> raw.imageSmall == "" && raw.imageExtraSmall == "" && raw.image == ""
    ensures raw.imageSmall != "" ==> Thumbnail(raw) == raw.imageSmall
  {
  }

  /** A race is available exactly while registration is open and the race is
      neither sold out nor over; the early-bird flag needs days left; the
      three convenience flags test the raw (untranslated) tag labels. */
  lemma FlagsAgreeWithStatus(service: Service, raw: Raw, today: Date, parseDate: string -> Option<Date>)
    requires !RaceIsPast(raw, today, parseDate)
    ensures var p := Normalize(service, raw, today, parseDate).value;
            && (p.isAvailable <==> raw.registerPossible && !raw.isSoldOut && !raw.isRaceDayPassed)
            && (p.hasEarlyBird <==> exists d :: raw.earlyBirdDaysLeft == Some(d) && d > 0)
            && (p.hasReviews <==> raw.reviewsCount >= 1)
            && (p.isPremium <==> "premium" in raw.tags || "boston-marathon-qualifier" in raw.tags)
            && (p.isBeginnerFriendly <==> "beginner-friendly" in raw.tags)
            && (p.isScenic <==> "scenic" in raw.tags || "nature" in raw.tags)
  {
  }

  /** The record carries the corrected participant estimate: for a race
      tagged "100-999-participants" it reads "100~999명", where the if/elif
      chain as written answers "100명 미만". */
  lemma NormalizeUsesCorrectedEstimate(service: Service, raw: Raw, today: Date, parseDate: string -> Option<Date>)
    requires !RaceIsPast(raw, today, parseDate) && raw.tags == ["100-999-participants"]
    ensures Normalize(service, raw, today, parseDate).value.participantsEstimate == Some("100~999명")
    ensures EstimateParticipantsAsWritten(raw.tags) == Some("100명 미만")
  {
    EstimateTag1(raw.tags[0]);
    AsWrittenMislabelsHundreds(raw.tags[0]);
  }

  /** The present values of `xs`, in order. */
  function Somes<T>(xs: seq<Option<T>>): (r: seq<T>)
    ensures |r| <= |xs|
  {
    if xs == [] then []
    else Somes(xs[..|xs| - 1]) + (if xs[|xs| - 1].Some? then [xs[|xs| - 1].value] else [])
  }

  lemma SomesStep<T>(xs: seq<Option<T>>, i: nat)
    requires i < |xs|
    ensures Somes(xs[..i + 1]) == Somes(xs[..i]) + (if xs[i].Some? then [xs[i].value] else [])
  {
    assert xs[..i + 1][..i] == xs[..i];
  }

  lemma {:induction false} SomesSound<T>(xs: seq<Option<T>>, x: T)
    requires x in Somes(xs)
    ensures exists k :: 0 <= k < |xs| && xs[k] == Some(x)
  {
    var n := |xs| - 1;
    if x in Somes(xs[..n]) {
      SomesSound(xs[..n], x);
      var k :| 0 <= k < n && xs[..n][k] == Some(x);
      assert xs[k] == Some(x);
    }
  }

  lemma {:induction false} SomesComplete<T>(xs: seq<Option<T>>, k: nat)
    requires k < |xs| && xs[k].Some?
    ensures xs[k].value in Somes(xs)
  {
    var n := |xs| - 1;
    if k < n {
      assert xs[..n][k] == xs[k];
      SomesComplete(xs[..n], k);
    }
  }

  /** Each raw record's parse, in order. */
  function NormalizeEach(service: Service, raws: seq<Raw>, today: Date, parseDate: string -> Option<Date>): (r: seq<Option<Parsed>>)
    ensures |r| == |raws|
    ensures forall k :: 0 <= k < |raws| ==> r[k] == Normalize(service, raws[k], today, parseDate)
  {
    seq(|raws|, k requires 0 <= k < |raws| => Normalize(service, raws[k], today, parseDate))
  }

  /** The records the parse loop of `fetch_marathon_data` keeps: every raw
      record in order, past races dropped. */
  function NormalizeAll(service: Service, raws: seq<Raw>, today: Date, parseDate: string -> Option<Date>): (r: seq<Parsed>)
    ensures |r| <= |raws|
  {
    Somes(NormalizeEach(service, raws, today, parseDate))
  }

  /** Every kept record is the parse of a raw record whose race is not past. */
  lemma NormalizeAllSound(service: Service, raws: seq<Raw>, today: Date, parseDate: string -> Option<Date>, p: Parsed)
    requires p in NormalizeAll(service, raws, today, parseDate)
    ensures exists k :: 0 <= k < |raws| && !RaceIsPast(raws[k], today, parseDate)
                        && Normalize(service, raws[k], today, parseDate) == Some(p)
  {
    SomesSound(NormalizeEach(service, raws, today, parseDate), p);
  }

  /** Every race that is not past is kept. */
  lemma NormalizeAllComplete(service: Service, raws: seq<Raw>, today: Date, parseDate: string -> Option<Date>, k: nat)
    requires k < |raws| && !RaceIsPast(raws[k], today, parseDate)
    ensures Normalize(service, raws[k], today, parseDate).value in NormalizeAll(service, raws, today, parseDate)
  {
    SomesComplete(NormalizeEach(service, raws, today, parseDate), k);
  }

  /** The parser with its translation cache (`_translation_cache`, one per
      program run). `requested` records the cities sent to the translation
      service, in order. */
  class MarathonParser {
    const service: Service
    var cache: map<string, string>
    ghost var requested: seq<string>

    /** The cache only holds service answers for non-blank cities outside
        the city table, and no city was ever sent to the service twice. */
    ghost predicate Valid()
      reads this
    {
      && (forall c :: c in cache ==> !IsBlank(c) && c !in CityKr && cache[c] == TranslateWithApi(service, c))
      && (forall c :: c in cache <==> c in requested)
      && (forall i, j :: 0 <= i < j < |requested| ==> requested[i] != requested[j])
    }

    constructor(service: Service)
      ensures this.service == service && cache == map[] && requested == []
      ensures Valid()
    {
      this.service := service;
      cache := map[];
      requested := [];
    }

    /** `get_city_kr`: the cache never changes the answer, and a city reaches
        the service only on its first lookup. */
    method GetCityKr(city: string) returns (r: string)
      requires Valid()
      modifies this
      ensures Valid()
      ensures r == CityKrOf(service, city)
      ensures if IsBlank(city) || city in CityKr || city in old(cache)
              then cache == old(cache) && requested == old(requested)
              else cache == old(cache)[city := r] && requested == old(requested) + [city]
      ensures forall c :: c in old(cache) ==> c in cache && cache[c] == old(cache)[c]
      ensures cache.Keys <= old(cache).Keys + {city}
    {
      if city == "" || Strip(city) == "" {
        return city;
      }
      if city in CityKr {
        return CityKr[city];
      }
      if city in cache {
        return cache[city];
      }
      r := TranslateWithApi(service, city);
      cache := cache[city := r];
      requested := requested + [city];
    }

    /** The `location` field, which looks the city up once more. */
    method LocationOf(city: string, country: string) returns (location: string)
      requires Valid()
      modifies this
      ensures Valid()
      ensures location == Location(service, city, country)
      ensures forall c :: c in old(cache) ==> c in cache && cache[c] == old(cache)[c]
      ensures cache.Keys <= old(cache).Keys + {city}
    {
      var again := GetCityKr(city);
      if city != "" && country != "" {
        location := again + ", " + Translate(CountryKr, country);
      } else {
        location := if again != "" then again else Translate(CountryKr, country);
      }
    }

    /** `parse_marathon`, with its two lookups of the city. */
    method ParseMarathon(raw: Raw, today: Date, parseDate: string -> Option<Date>) returns (parsed: Option<Parsed>)
      requires Valid()
      modifies this
      ensures Valid()
      ensures parsed == Normalize(service, raw, today, parseDate)
      ensures forall c :: c in old(cache) ==> c in cache && cache[c] == old(cache)[c]
      ensures cache.Keys <= old(cache).Keys + {raw.city}
    {
      if raw.dateNextRace != "" {
        var date := parseDate(raw.dateNextRace);
        if date.Some? && Before(date.value, today) {
          return None;
        }
      }
      var city := GetCityKr(raw.city);
      var country := Translate(CountryKr, raw.country);
      var location := LocationOf(raw.city, raw.country);
      parsed := Some(Assemble(raw, city, country, location));
    }

    /** The parse loop of `fetch_marathon_data`. */
    method ParseAll(raws: seq<Raw>, today: Date, parseDate: string -> Option<Date>) returns (parsed: seq<Parsed>)
      requires Valid()
      modifies this
      ensures Valid()
      ensures parsed == NormalizeAll(service, raws, today, parseDate)
    {
      ghost var each := NormalizeEach(service, raws, today, parseDate);
      parsed := [];
      var i := 0;
      while i < |raws|
        invariant 0 <= i <= |raws|
        invariant Valid()
        invariant parsed == Somes(each[..i])
      {
        var p := ParseMarathon(raws[i], today, parseDate);
        SomesStep(each, i);
        if p.Some? {
          parsed := parsed + [p.value];
        }
        i := i + 1;
      }
      assert each[..i] == each;
    }
  }
}
