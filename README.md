# Marathon race collector — a verified model

The repository collects marathon races from three places and turns them into
the JSON records a mobile app shows:

- **Global races.** `crawl_global.py` pages through a race-search web API in
  many partitions (by continent, race type and country). It deduplicates the
  raw records by id, keeping the first one seen, and drops races already run.
  It normalises each remaining record into the app's shape: Korean labels,
  "City, Country" location, thumbnail, a price converted to won and rounded to
  hundreds, availability flags, and a participant-count estimate.
- **Korean races.** `crawl_korea.py` scrapes a Korean race calendar. It covers:
  - the list page (one event per distinct numeric id);
  - the detail page (a labelled table plus a fee found in the description);
  - the hero image (banner, then main, then logo, then the first image);
  - distance filtering;
  - date normalisation to `YYYY-MM-DD`;
  - registration periods;
  - the "upcoming only" filter.
- **Visa data.** `merge_visa_data.py` reads a per-country visa table and
  turns the Korean visa-period text into a number of days. It then attaches
  that number as `visa` to every race record, or null when there is no match.
- **AIMS calendar.** `main.py` walks the document of a running-federation
  calendar. A month header sets the current month and year. Each race row
  after it becomes an event with start and end dates, a country code and a
  set of distance labels.

The Dafny modules follow those files:

| module | file | models |
|---|---|---|
| `Optional` | optional.dfy | the `Option` result type |
| `TextUtil` | text_util.dfy | Python string semantics: `strip`, `split`, `join`, `int()`, `f"{n:02d}"`, `str` ordering |
| `Sorting` | sorting.dfy | `sorted()` on integers, used for the median |
| `GlobalTables` | global_tables.dfy | the translation tables, the participant estimate and the price rounding of `MarathonParser` |
| `GlobalParser` | global_parser.dfy | `translate_with_api`, `get_city_kr` with its cache, `parse_marathon` |
| `GlobalCollector` | global_collect.dfy | `fetch_marathon_data`: the partitioned fetch plan and the first-wins deduplicating dictionary |
| `KoreaList` | korea_list.dfy | `parse_list_page` and the upcoming-date filter of `main` |
| `KoreaPrice` | korea_price.dfy | `parse_detail_page`: the table rows and the fee search |
| `KoreaHero` | korea_hero.dfy | `is_image_url`, `fetch_hero_image` |
| `KoreaFields` | korea_fields.dfy | `filter_distances`, `normalize_date`, `parse_registration_dates` |
| `VisaPeriod` | visa_period.dfy | `parse_visa_period` |
| `VisaMerge` | visa_merge.dfy | `main` of `merge_visa_data.py`: the visa index, the in-place attach loop, the container key |
| `AimsCalendar` | aims_calendar.dfy | `main.py`: distance parsing, date ranges, the header/row pass |

The model works on abstracted inputs in place of I/O:

- The race-search API is a function from a query to a reply. A reply is a
  transport error or a status with its records.
- The translation service is a function from a text to an optional
  translation.
- "Today" and the ISO date parser are parameters.
- An HTML page is given as the sequence of elements the source's selectors
  pick out: links, table rows, header and race rows, image sources.

## Model

| member | source | states |
|---|---|---|
| TextUtil.Split | crawl_korea.py:258 | Python `str.split(sep)` gives at least one piece and no piece holds the separator |
| TextUtil.NatToString | main.py:74-75 | decimal rendering: digits only, one digit exactly below 10, no leading zero from 10 on |
| TextUtil.Pad2 | crawl_korea.py:272 | `f"{n:02d}"` is digits only, at least two, exactly two for n < 100 |
| TextUtil.ParseNatToString | main.py:74-75 | `int()` of a rendered number gives that number back |
| TextUtil.ParsePad2 | crawl_korea.py:272-276 | the zero-padded month or day parses back to itself |
| TextUtil.SplitJoin | crawl_korea.py:258-261 | splitting a join of separator-free pieces gives the pieces back |
| Sorting.Sort | merge_visa_data.py:76 | `sorted()` returns an ascending permutation of its input |
| Sorting.CountSort | merge_visa_data.py:76 | sorting does not change how many elements lie below or at a value |
| Sorting.UpperMedian | merge_visa_data.py:76-77 | `sorted(x)[len//2]` is an element of x with at most half of x strictly below it and more than half at or below it |
| GlobalTables.Translate | crawl_global.py:709-726 | a table lookup returns the mapped label for a known key and the key itself otherwise |
| GlobalTables.TranslateIdempotent | crawl_global.py:709-726 | translating twice is translating once when no label is itself a key |
| GlobalTables.SurfaceKrValuesAreNotKeys | crawl_global.py:29-43 | no Korean surface label is also an English surface key |
| GlobalTables.DifficultyKrValuesAreNotKeys | crawl_global.py:46-53 | no Korean difficulty label is also an English difficulty key |
| GlobalTables.TypeLabel | crawl_global.py:704-707 | a known race type maps to its label; any other maps to the "custom" label |
| GlobalTables.TypeLabelKnown | crawl_global.py:704-707 | the type label is always one of the table's labels |
| GlobalTables.ContinentOf | crawl_global.py:473-475 | the continent of a listed country, otherwise the empty string |
| GlobalTables.EstimateParticipantsAsWritten | crawl_global.py:729-748 | the estimate as written is present exactly when some tag label contains "participants" and also contains one of the band keys |
| GlobalTables.BandContained | crawl_global.py:734-747 | the chain of `in` tests returns the label of the first band key contained in the tag, or nothing when no band key is contained |
| GlobalTables.EstimateFirstCountedAsWritten | crawl_global.py:731-748 | as written, the estimate is the first contained band of the first tag that both names participants and contains a band key |
| GlobalTables.AsWrittenMislabelsHundreds | crawl_global.py:733-735 | as written, "100-999-participants" is reported as the under-100 band |
| GlobalTables.AsWrittenMislabelsThousands | crawl_global.py:733-735 | as written, "5000-9999-participants" is reported as the under-100 band |
| GlobalTables.BandNamed | crawl_global.py:734-747 | the first band whose key, followed by "-", starts the tag, or none when no band key does |
| GlobalTables.EstimateParticipants | crawl_global.py:729-748 | the corrected estimate is present exactly when some tag is a participants tag naming a band |
| GlobalTables.EstimateFirstCounted | crawl_global.py:731-748 | the estimate comes from the first participants tag in the list |
| GlobalTables.EstimateAgreesWithTagTable | crawl_global.py:539-547 | for every participants tag of the tag table, the corrected estimate equals that tag's Korean label |
| GlobalTables.RoundHundreds | crawl_global.py:866 | `round(n, -2)`: a multiple of 100 within 50 of n, ties to the even hundred |
| GlobalTables.RoundHundredsNearest | crawl_global.py:866 | no multiple of 100 is closer to n than the rounded value |
| GlobalTables.RoundHundredsFixed | crawl_global.py:866 | a multiple of 100 rounds to itself |
| GlobalTables.GroupThousandsDigits | crawl_global.py:867 | the `:,` grouping with its commas removed is the plain decimal rendering |
| GlobalTables.MinPrice | crawl_global.py:866 | the price is 0 when missing, else the scaled price rounded to hundreds |
| GlobalTables.MinPriceFormattedShowsPrice | crawl_global.py:867 | the formatted price is "약 " + grouped digits + "원", and the digits are the rounded price |
| GlobalTables.ExamplePrice | crawl_global.py:866-867 | 17893 scaled won becomes 17900 and "약 17,900원" |
| GlobalParser.TranslateWithApi | crawl_global.py:478-506 | the result is the input, or a non-empty translation the service returned for it |
| GlobalParser.CityKrOf | crawl_global.py:509-536 | a non-blank city always gets a non-empty Korean name |
| GlobalParser.TranslateTags | crawl_global.py:876 | the tag list is translated element by element, same length and order |
| GlobalParser.Location | crawl_global.py:843 | the location text of a record: its meaning is stated by LocationJoinsCityAndCountry |
| GlobalParser.Assemble | crawl_global.py:826-900 | the app record built from a raw record and its translated names; Normalize, FlagsAgreeWithStatus, ThumbnailFirstImage, MinPrice and MinPriceFormattedShowsPrice state its fields |
| GlobalParser.Normalize | crawl_global.py:751-900 | a record is dropped exactly when its next race date parses and is before today; otherwise id and title are kept |
| GlobalParser.LocationJoinsCityAndCountry | crawl_global.py:843 | location is "city, country" when both exist, the country alone without a city, the city alone without a country |
| GlobalParser.ThumbnailFirstImage | crawl_global.py:863 | the thumbnail is the first non-empty of small, extra-small, full image |
| GlobalParser.FlagsAgreeWithStatus | crawl_global.py:869-897 | available iff registrable, not sold out and not passed; early-bird iff days left > 0; reviews iff count >= 1; premium iff tagged premium or Boston qualifier; beginner-friendly iff so tagged; scenic iff tagged scenic or nature |
| GlobalParser.NormalizeUsesCorrectedEstimate | crawl_global.py:877 | the record's estimate is the corrected one: for "100-999-participants" it is "100~999명", where the chain as written gives "100명 미만" |
| GlobalParser.NormalizeAllSound | crawl_global.py:1015-1026 | every parsed race comes from a raw record that is not past |
| GlobalParser.NormalizeAllComplete | crawl_global.py:1015-1026 | every raw record that is not past appears parsed in the output |
| GlobalParser.MarathonParser.GetCityKr | crawl_global.py:509-536 | returns the city's Korean name; only an uncached, untabled, non-blank city is sent to the service and then cached |
| GlobalParser.MarathonParser.LocationOf | crawl_global.py:843 | the location the parser object builds equals Location, which looks the city up again; cached names are kept and only the city may be added to the cache |
| GlobalParser.MarathonParser.ParseMarathon | crawl_global.py:751-900 | returns the normalised record; the cache only grows, and at most by the record's city |
| GlobalParser.MarathonParser.ParseAll | crawl_global.py:1015-1026 | the parse loop returns exactly the normalised non-past records in order |
| GlobalCollector.InsertAllConcat | crawl_global.py:920-938 | inserting two batches is inserting their concatenation |
| GlobalCollector.AddAllKeys | crawl_global.py:930-933 | an id is in the dictionary after a batch iff it was before or some record of the batch has that non-empty id |
| GlobalCollector.AddAllKeeps | crawl_global.py:931 | a record already stored is never replaced |
| GlobalCollector.AddAllFirstWins | crawl_global.py:930-933 | a new id is stored with the first record of the batch carrying it |
| GlobalCollector.NewIdsExact | crawl_global.py:929-936 | the new keys are distinct, exactly the ids added, and the count added is the growth of the dictionary |
| GlobalCollector.CollectedFirstSeen | crawl_global.py:997 | each collected record has a non-empty id and is the first record with that id |
| GlobalCollector.CollectedDistinct | crawl_global.py:997 | the collected records have pairwise distinct ids |
| GlobalCollector.CollectedComplete | crawl_global.py:997 | every non-empty id fetched is represented in the collection |
| GlobalCollector.SortedListShape | crawl_global.py:967 | `sorted(set)` is strictly ascending and has exactly the set's elements |
| GlobalCollector.SortCountries | crawl_global.py:967 | the method's result is the sorted list of the country set |
| GlobalCollector.FailsConcat | crawl_global.py:920-938 | a sequence of fetches fails iff one of its parts fails |
| GlobalCollector.EuropeCountriesHarvested | crawl_global.py:951-966 | the European countries are those harvested from the race-type phase and the half-marathon seed |
| GlobalCollector.Collector.FetchAndAdd | crawl_global.py:920-938 | fails exactly on a transport error and then changes nothing; otherwise inserts the reply's records first-wins and reports how many keys were added |
| GlobalCollector.Collector.Harvest | crawl_global.py:954-958 | adds the countries of the reply's records to the set |
| GlobalCollector.Collector.FetchAll | crawl_global.py:946-949 | a phase fails iff some query fails; otherwise the dictionary is the old one with every reply inserted in query order |
| GlobalCollector.Collector.FetchAndHarvest | crawl_global.py:951-958 | as FetchAll, and also returns the countries of all replies |
| GlobalCollector.Plan | crawl_global.py:945-995 | the seven query phases in source order; Collect, FetchMarathonData and EuropeCountriesHarvested state what running it gives |
| GlobalCollector.Collector.Collect | crawl_global.py:945-995 | the whole plan fails iff one of its queries fails; otherwise the dictionary holds every reply of the plan, inserted in plan order |
| GlobalCollector.InsertAllCollected | crawl_global.py:997 | the dictionary's values in key order are the first-seen records |
| GlobalCollector.FetchMarathonData | crawl_global.py:903-1063 | a failing fetch returns []; otherwise the result is the normalised non-past records of the deduplicated replies |
| KoreaList.IdFrom | crawl_korea.py:38-43 | an extracted event id is a non-empty run of digits |
| KoreaList.IdFromLeftmost | crawl_korea.py:41-43 | `re.search(r"no=(\d+)")`: an id is the maximal digit run after the leftmost "no=" followed by a digit, and there is no id exactly when no "no=" is followed by a digit |
| KoreaList.ListEvents | crawl_korea.py:44-58 | the events of the list page in link order; ListEventsFromFirstLinks, ListIdsDistinct, ListEventsComplete and ListIdHiddenByEmptyTitle state its contents |
| KoreaList.ParseListPage | crawl_korea.py:29-116 | the loop returns exactly the specification's event list |
| KoreaList.ListEventsFromFirstLinks | crawl_korea.py:44-58 | every event comes from a link that is the first with its id and has a title |
| KoreaList.ListIdsDistinct | crawl_korea.py:44-46 | no two events share an id |
| KoreaList.ListEventsComplete | crawl_korea.py:44-58 | every first link with an id and a title produces its event |
| KoreaList.ListIdHiddenByEmptyTitle | crawl_korea.py:44-50 | a first link with an empty title hides its id for the whole page |
| KoreaList.KeptBySound | crawl_korea.py:303-309 | for any date function, a kept event comes from the input, carries its date, and that date is not before today |
| KoreaList.KeptByComplete | crawl_korea.py:303-309 | for any date function, every event whose date is not before today is kept |
| KoreaList.Upcoming | crawl_korea.py:303-309 | the events dated on or after today; UpcomingSound, UpcomingComplete and FilterUpcoming state its contents |
| KoreaList.UpcomingSound | crawl_korea.py:303-309 | every kept event has its normalised date and that date is not before today |
| KoreaList.UpcomingComplete | crawl_korea.py:303-309 | every event whose normalised date is not before today is kept |
| KoreaList.FilterUpcoming | crawl_korea.py:303-309 | the filter loop returns exactly the upcoming events |
| KoreaList.UndatedDropped | crawl_korea.py:303-309 | an event without a date never survives a non-empty "today" |
| KoreaPrice.AmountAt | crawl_korea.py:172-174 | an amount is a maximal non-empty run of digits and commas |
| KoreaPrice.FeeWindowGreedy | crawl_korea.py:172-174 | within the window the last amount start wins, as the greedy gap does |
| KoreaPrice.FeeWindowNone | crawl_korea.py:172 | the window after the keyword finds nothing iff no amount starts anywhere in it |
| KoreaPrice.LeftmostFirst | crawl_korea.py:172-178 | `re.search` scans left to right: a match is the one at the first position that matches, and no match means no position matches |
| KoreaPrice.FeeFrom | crawl_korea.py:171-175 | the keyword search, when it finds a fee, finds a run of digits and commas |
| KoreaPrice.FirstAmountFrom | crawl_korea.py:177-178 | the fallback search, when it finds an amount, finds a run of digits and commas |
| KoreaPrice.ExtractPrice | crawl_korea.py:169-183 | the price read from the description; PriceShape, PriceKeywordWins and PriceFallbackInRange state its cases |
| KoreaPrice.PriceShape | crawl_korea.py:169-183 | a price is digits followed by "원" |
| KoreaPrice.PriceKeywordWins | crawl_korea.py:171-175 | when a fee follows "참가비", the price is that fee without commas |
| KoreaPrice.PriceFallbackInRange | crawl_korea.py:176-183 | without the keyword, the price is the first amount, and only when it is 1,000 to 1,000,000 |
| KoreaPrice.ExampleKeywordPrice | crawl_korea.py:171-175 | "참가비 5,000원" gives "5000원" |
| KoreaPrice.ExampleCommaOnlyPrice | crawl_korea.py:171-175 | "참가비,,원" gives "원": a run of commas counts as an amount |
| KoreaPrice.ExampleSmallAmount | crawl_korea.py:177-182 | "500원" gives no price |
| KoreaPrice.RowFields | crawl_korea.py:140-167 | the fields read from the table rows; RowFieldsLastWins and RowFieldsHasKey state its keys and values |
| KoreaPrice.RowFieldsLastWins | crawl_korea.py:140-167 | each field holds the value of the last labelled row with at least two cells for it |
| KoreaPrice.RowFieldsHasKey | crawl_korea.py:140-167 | every labelled row with at least two cells puts its field in the detail |
| KoreaPrice.ParseDetail | crawl_korea.py:119-185 | the detail holds exactly the table's fields, plus "price" iff a price is found in the description |
| KoreaHero.IsImageUrl | crawl_korea.py:188-190 | the left-to-right search of the image pattern; IsImageUrlCorrect states which URLs it accepts |
| KoreaHero.IsImageUrlCorrect | crawl_korea.py:188-190 | a URL is an image iff, ignoring case, an image extension after a "." is followed by "?", "#", the end of the text, or a final newline |
| KoreaHero.ImageTagMembers | crawl_korea.py:224-228 | an image tag contributes iff its source is not junk, as its resolved URL |
| KoreaHero.CollectBackgrounds | crawl_korea.py:217-221 | background URLs are collected resolved, in order |
| KoreaHero.CollectImageTags | crawl_korea.py:224-228 | image tags are collected resolved, skipping junk, in order |
| KoreaHero.CollectCandidates | crawl_korea.py:207-228 | candidates are the meta images, then backgrounds, then image tags |
| KoreaHero.ImageUrls | crawl_korea.py:231-233 | the filter keeps exactly the candidates that are images |
| KoreaHero.ImageUrlsConcat | crawl_korea.py:231-233 | filtering a concatenation is concatenating the filtered parts, so the order of the candidates is kept |
| KoreaHero.ImageUrlsSingle | crawl_korea.py:231-233 | one candidate is kept iff it is an image |
| KoreaHero.ChooseHero | crawl_korea.py:236-246 | the hero is one of the images; HeroPrefersBanner, HeroPrefersMain, HeroPrefersLogo and HeroFallsBackToFirst state which one |
| KoreaHero.SelectHero | crawl_korea.py:231-246 | the hero is empty iff no candidate is an image; otherwise it is an image candidate |
| KoreaHero.FetchHeroImage | crawl_korea.py:193-249 | no website or a failed fetch gives ""; otherwise the selected hero of the page's candidates |
| KoreaHero.HeroPrefersBanner | crawl_korea.py:236-238 | the first image naming "banner" wins |
| KoreaHero.HeroPrefersMain | crawl_korea.py:239-241 | without a banner, the first image naming "main" wins |
| KoreaHero.HeroPrefersLogo | crawl_korea.py:242-244 | without banner or main, the first image naming "logo" wins |
| KoreaHero.HeroFallsBackToFirst | crawl_korea.py:245-246 | otherwise the first image wins |
| KoreaHero.ExampleUpperCaseImage | crawl_korea.py:188-190 | the extension test ignores case and allows a query string |
| KoreaHero.ExampleNotImage | crawl_korea.py:188-190 | ".jpg" inside the path is not an image extension |
| KoreaFields.FilterDistances | crawl_korea.py:255-261 | `filter_distances`; FilterDistancesTokens, KeptMembers and FilterDistancesIdempotent state its result |
| KoreaFields.KeptDistances | crawl_korea.py:255-261 | every kept distance is one of the allowed labels, and there are never more of them than pieces |
| KoreaFields.KeptDistancesConcat | crawl_korea.py:255-261 | filtering a concatenation of pieces is concatenating the filtered parts, so the pieces' order is kept |
| KoreaFields.KeptDistancesSingle | crawl_korea.py:255-261 | one piece is kept, stripped, iff its stripped text is an allowed label |
| KoreaFields.KeptMembers | crawl_korea.py:255-261 | a label is kept exactly when some piece strips to it and it is allowed |
| KoreaFields.FilterDistancesTokens | crawl_korea.py:255-261 | the result is empty iff nothing is kept; otherwise splitting it gives the kept pieces |
| KoreaFields.FilterDistancesIdempotent | crawl_korea.py:255-261 | filtering twice is filtering once |
| KoreaFields.ExampleFilterDistances | crawl_korea.py:255-261 | "풀,하프,마라톤,5km" becomes "풀,하프,5km" |
| KoreaFields.MatchSlash | crawl_korea.py:268-272 | a slash match is one or two digits, "/", one or two digits |
| KoreaFields.MatchKorean | crawl_korea.py:273-276 | a Korean match is four digits "년", one or two digits "월", one or two digits "일" |
| KoreaFields.MatchSlashComplete | crawl_korea.py:268-272 | every text that starts with one or two digits, "/", and one or two digits not followed by a third digit matches, with those month and day digits |
| KoreaFields.MatchSlashSound | crawl_korea.py:268-272 | a slash match is a prefix of the text, and its day takes every digit the pattern allows |
| KoreaFields.MatchKoreanComplete | crawl_korea.py:273-276 | every text that starts with year "년", spaces, month "월", spaces, day "일" matches with that year, month and day |
| KoreaFields.MatchKoreanSound | crawl_korea.py:273-276 | a Korean match is a prefix of the text of that shape, with only spaces between the pieces |
| KoreaFields.MatchesFebruaryDay | crawl_korea.py:268-276 | "2026년2월D일" with a one-digit day fails the slash pattern and matches the Korean one |
| KoreaFields.NormalizeDate | crawl_korea.py:264-277 | text matching neither pattern is returned unchanged |
| KoreaFields.NormalizeSlashDate | crawl_korea.py:268-272 | "M/D" becomes an ISO date in the default year with the same month and day |
| KoreaFields.NormalizeKoreanDate | crawl_korea.py:273-276 | "Y년M월D일" becomes an ISO date with the same year, month and day |
| KoreaFields.NormalizeDateIdempotent | crawl_korea.py:264-277 | normalising twice is normalising once |
| KoreaFields.ExampleSlashDate | crawl_korea.py:268-272 | "2/8" becomes "2026-02-08" |
| KoreaFields.KoreanNormalized | crawl_korea.py:273-276 | once the detail-page pattern matches, the result is the year digits with the zero-padded month and day |
| KoreaFields.PadOneDigit | crawl_korea.py:275 | a one-digit month or day gets a leading zero |
| KoreaFields.PadTwoDigits | crawl_korea.py:275 | a two-digit month or day without a leading zero is kept as written |
| KoreaFields.ExampleKoreanDate | crawl_korea.py:273-276 | "2026년2월8일" becomes "2026-02-08" |
| KoreaFields.ParseRegistrationDates | crawl_korea.py:280-289 | `parse_registration_dates`; RegistrationOneTilde and RegistrationNotTwoParts state its cases |
| KoreaFields.RegistrationOneTilde | crawl_korea.py:280-289 | a period with one "~" gives both normalised, stripped halves |
| KoreaFields.RegistrationNotTwoParts | crawl_korea.py:280-289 | any other non-empty period is returned as the start with an empty end |
| KoreaFields.ExampleRegistration | crawl_korea.py:280-289 | "2025년10월28일~2026년2월1일" gives ("2025-10-28", "2026-02-01") |
| VisaPeriod.Survivors | merge_visa_data.py:55-58 | candidate day counts are the numbers above 5 |
| VisaPeriod.SurvivorsConcat | merge_visa_data.py:55-58 | filtering a concatenation is concatenating the filtered parts, so the text order of the numbers is kept |
| VisaPeriod.SurvivorsSingle | merge_visa_data.py:55-58 | one number survives iff it is above 5 |
| VisaPeriod.FirstCommonFrom | merge_visa_data.py:70-73 | picks the first common period, in preference order, that occurs in the text |
| VisaPeriod.GenericDays | merge_visa_data.py:52-80 | no result iff no number above 5; otherwise a number above 5 from the text |
| VisaPeriod.ParseVisaPeriod | merge_visa_data.py:10-80 | empty text and text starting with "X" give no period |
| VisaPeriod.WindowRule | merge_visa_data.py:31-42 | "N일 중 M일" windows give the last day count |
| VisaPeriod.MonthRule | merge_visa_data.py:46-49 | month counts without "일" give 30 days per month |
| VisaPeriod.GenericAboveFive | merge_visa_data.py:52-80 | the generic rule applies otherwise and any result exceeds 5 |
| VisaPeriod.GenericPrefersCommon | merge_visa_data.py:70-73 | with several candidates, the first common period present wins |
| VisaPeriod.GenericMedian | merge_visa_data.py:76-77 | with several candidates and no common period, the upper median is chosen |
| VisaPeriod.ExampleWindow | merge_visa_data.py:31-42 | "180일 중 90일" gives 90 |
| VisaPeriod.ExampleMonths | merge_visa_data.py:46-49 | "6개월" gives 180 |
| VisaPeriod.ExampleRequired | merge_visa_data.py:24-25 | "X" gives no period |
| VisaPeriod.ExamplePlainDays | merge_visa_data.py:52-80 | "90일" gives 90 |
| VisaMerge.IndexOf | merge_visa_data.py:126-130 | the index after the entries; BuildIndex and IndexLastWins state its keys and values |
| VisaMerge.BuildIndex | merge_visa_data.py:126-130 | the index holds a key iff some entry is keyed by it |
| VisaMerge.IndexLastWins | merge_visa_data.py:126-130 | a key maps to the last entry keyed by it |
| VisaMerge.WithVisa | merge_visa_data.py:140-163 | a record gains only "visa"; a number there means the code matched |
| VisaMerge.UnmatchedStep | merge_visa_data.py:155-160 | an unmatched non-empty code is added to the unmatched set |
| VisaMerge.AttachVisa | merge_visa_data.py:140-163 | every record is replaced by its visa-enriched copy in place; matched and unmatched counts add up to the total |
| VisaMerge.ContainerKey | merge_visa_data.py:102-113 | "marathons" is preferred, then "results", otherwise nothing is processed |
| VisaMerge.MergeVisa | merge_visa_data.py:102-176 | nothing is written iff there is no container; otherwise only the container's records change, each by its visa copy, and the matched count is the number of container records whose code is in the index |
| AimsCalendar.DistanceSet | main.py:25-30 | distance labels always come from the distance table |
| AimsCalendar.DistanceSetByCode | main.py:25-30 | a label is present iff its code is one of the space-free comma pieces |
| AimsCalendar.ParseDistances | main.py:25-30 | the list is duplicate-free and holds exactly the labels of the codes present |
| AimsCalendar.ParseInt | main.py:73-74 | `int()` succeeds iff the text is a non-empty digit run |
| AimsCalendar.DashSplit | main.py:71 | `re.split` on en-dash and hyphen gives at least one piece and no piece holds a dash |
| AimsCalendar.DashSplitPrefix | main.py:71 | splitting at the first dash gives the dash-free head and the split tail |
| AimsCalendar.FormatDateRoundTrip | main.py:75 | the formatted date splits into year, two-digit month and two-digit day that parse back to the inputs |
| AimsCalendar.ReplaceFirst | main.py:91-92 | removes the first occurrence of the code, or returns the text when absent |
| AimsCalendar.Step | main.py:43-105 | a row never changes the current month; a header never produces an event |
| AimsCalendar.RaisedStays | main.py:43-107 | once the pass raises, the whole crawl raises |
| AimsCalendar.CalendarOf | main.py:43-111 | the crawl outcome over the selected elements; CrawlCalendar, HeaderThenItem, BadDayRaises, RaisedStays and EventsInDocumentOrder state it |
| AimsCalendar.CrawlCalendar | main.py:43-111 | the loop returns exactly the specified crawl outcome |
| AimsCalendar.NoEventsBeforeHeader | main.py:55-56 | rows before any month header produce nothing |
| AimsCalendar.UndatedItemSkipped | main.py:55-61 | a row without a month or a date is skipped |
| AimsCalendar.HeaderSetsMonth | main.py:47-53 | a two-word header naming a month sets month and year; a non-numeric year raises |
| AimsCalendar.HeaderThenItem | main.py:47-105 | over the whole pass, whatever came before, a dated row right after a valid "Month YYYY" header is dated in that month and year and its event is appended |
| AimsCalendar.EventDates | main.py:66-75 | the start and end dates of a row; TbcHasNoDates, SingleDay, RangeDates, RangeKeepsMonth and BadDayNoDates state its cases |
| AimsCalendar.ItemEvent | main.py:62-103 | the event of a dated row in the current month; HeaderThenItem and BadDayRaises state it over the pass |
| AimsCalendar.TbcHasNoDates | main.py:66-68 | "tbc", in any case, gives no dates |
| AimsCalendar.SingleDay | main.py:71-75 | a day without a dash gives the same start and end |
| AimsCalendar.RangeKeepsMonth | main.py:71-75 | "s–e" gives both days in the header's month, even when e < s |
| AimsCalendar.RangeDates | main.py:71-75 | a two-piece range uses the first and last piece |
| AimsCalendar.BadDayNoDates | main.py:66-74 | a date text other than "tbc" whose first or last dash piece is not a number gives no dates |
| AimsCalendar.BadDayRaises | main.py:55-74 | at any point after a month header, a dated row whose first or last dash piece is not a number ends the whole crawl with an exception, whatever the row's race, code and note |
| AimsCalendar.DistanceTextDropsCode | main.py:87-93 | the country code at the head of the note is removed before parsing distances |
| AimsCalendar.EventsInDocumentOrder | main.py:105 | events are appended in document order |

## Left out

- HTTP, HTML parsing, JSON files, `print`, `time.sleep` and the `updated_at` / `fetched_at` clocks are outside the model. Pages are given as the elements the selectors pick out, and "today" is a parameter.
- The translation service and the race-search API are deterministic functions. Network time-outs other than the API's transport error are not modelled.
- A transport error is not recovered per partition: the request in `fetch_and_add` is not guarded, so the outer handler catches it and `fetch_marathon_data` ends with []. A non-200 status only empties that one query.
- A failure while parsing a single record, and any exception besides the API's transport error, is not modelled.
- The console statistics and samples (`print_statistics`, `print_samples`) and the per-phase labels and counts that are only printed are not modelled.
- GlobalTables: the country, city, continent and tag tables hold excerpts of the source tables (the race-type, surface and difficulty tables are whole). A tag missing from the excerpt, such as "commonwealth-games-qualifier", is left untranslated by TranslateTags where the source translates it. Every lemma that is not an example holds for any table contents.
- GlobalTables.MinPrice: the float product `int(min_price * 1450)` is taken as an integer input. Floating point is not modelled.
- GlobalParser.MarathonParser: the city cache is a field of one parser object per run. In the source it is a class-level dictionary shared by the process.
- GlobalParser.Normalize: the record's `participantsEstimate` uses the corrected band matcher `EstimateParticipants`, not the chain as written at crawl_global.py:729-748 that crawl_global.py:877 calls; the difference is logged under Findings and shown by NormalizeUsesCorrectedEstimate. The same holds for GlobalParser.MarathonParser.ParseMarathon.
- GlobalParser.Normalize: the fields copied through unchanged (the date strings, `countryCode`, `startPoint`, `raceType`, the distance lists, the three image URLs, `earlyBirdDaysLeft`, `rating`, `reviewsCount`, the links and the three registration flags) are not carried in the record; the fields computed from them are.
- KoreaFields.NormalizeDate: the default year 2026 is the source's constant. Month and day ranges are not checked, as in the source.
- KoreaList.UpcomingSound: the filter compares date strings by Python's code-point order, as the source does, not as calendar dates.
- KoreaHero.FetchHeroImage: the source has no hashed fallback image pool; a page without images gives "".
- `int()` is modelled on ASCII digits only. A sign, underscores and other Unicode digits are not accepted. `upper()` / `lower()` act on ASCII letters only.
- The regular expressions' `\d` is modelled as the ASCII digits `0`-`9`, whereas Python's `\d` on `str` matches every Unicode decimal digit. So a date such as "２/８" (full-width digits), which the source normalises to "2026-02-08", is returned unchanged by the model. This affects the event id, both date patterns, the fee and amount searches, and the visa day counts.
- The `re.I` flag is modelled as ASCII case folding, whereas Python also folds a few non-ASCII letters ("ſ" matches "s", the Kelvin sign matches "k"). This affects the image-extension test and the banner/main/logo preference.
- AimsCalendar.ParseDistances: the order of the returned list is not stated. The source builds it from a `set`, whose order Python leaves unspecified, so events keep their distances as a set.
- AimsCalendar.Step: the event's city is always null in the source and is not a field of the model's event.
- KoreaPrice.ParseDetail: each row's value is given as the text the source extracts (the description's markup clean-up, the website's href, the e-mail's `mail_url`); that extraction is not modelled.
- `crawl_korea.py` main's file writing and its merge with the global records are not modelled beyond the date filter.

## Findings

| source | as written | input that shows it | evidently intended | confidence | as-written member | corrected member |
|---|---|---|---|---|---|---|
| crawl_global.py:729-748 | the band is chosen by substring containment of the band key in the tag (the whole count ranges "0-99" to "10000-24999", then the lower bounds "25000" and "50000"), first band first, so the under-100 key "0-99" also occurs inside "100-999-participants" and "5000-9999-participants", two of the other six participants tags | the tag "100-999-participants" (or "5000-9999-participants") is reported as "100명 미만" | each participants tag gets the band it names, the Korean label of the tag table | not executed | GlobalTables.AsWrittenMislabelsHundreds | GlobalTables.EstimateAgreesWithTagTable |
