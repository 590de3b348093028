/** The collection phases of `fetch_marathon_data` in crawl_global.py: the
    search API answers at most 1000 records per query, so the run splits
    its queries by continent, race type and country, and merges every answer
    into one dictionary keyed by record id in which the first record seen
    for an id is kept. Network failures are modelled by the answer type; the
    pauses between requests, the console report and the JSON files written
    are not modelled. */
module GlobalCollector {
  import opened TextUtil
  import opened Optional
  import opened GlobalParser

  /** The query parameters added to the fixed base parameters. */
  type Query = map<string, string>

  /** What a request returns: the status and the `results` of the body, or
      an exception raised by the transport (timeout, connection error). */
  datatype Reply = TransportError | Reply(status: int, results: seq<Raw>)

  /** The search API, as a function of the query. */
  type Api = Query -> Reply

  // ---- the dictionary `all_raw` ----

  /** The loop body of `fetch_and_add`: a record is inserted only when its
      id is non-empty and not yet a key. */
  function Add(m: map<string, Raw>, r: Raw): map<string, Raw> {
    if r.id != "" && r.id !in m then m[r.id := r] else m
  }

  function AddAll(m: map<string, Raw>, rs: seq<Raw>): map<string, Raw> {
    if rs == [] then m else Add(AddAll(m, rs[..|rs| - 1]), rs[|rs| - 1])
  }

  /** The ids `rs` adds to `m`, in insertion order. */
  function NewIds(m: map<string, Raw>, rs: seq<Raw>): seq<string> {
    if rs == [] then []
    else
      var n := |rs| - 1;
      NewIds(m, rs[..n]) + (if rs[n].id != "" && rs[n].id !in AddAll(m, rs[..n]) then [rs[n].id] else [])
  }

  /** A Python dictionary: its entries and the order their keys were
      inserted in. */
  datatype Dict = Dict(entries: map<string, Raw>, keys: seq<string>)

  const EmptyDict := Dict(map[], [])

  /** `fetch_and_add` over a batch, on the dictionary with its key order. */
  function InsertAll(d: Dict, rs: seq<Raw>): Dict {
    if rs == [] then d
    else
      var prev := InsertAll(d, rs[..|rs| - 1]);
      var r := rs[|rs| - 1];
      if r.id != "" && r.id !in prev.entries then Dict(prev.entries[r.id := r], prev.keys + [r.id]) else prev
  }

  /** The entries are `AddAll` and the keys grow by `NewIds`. */
  lemma {:induction false} InsertAllSplits(d: Dict, rs: seq<Raw>)
    ensures InsertAll(d, rs) == Dict(AddAll(d.entries, rs), d.keys + NewIds(d.entries, rs))
  {
    if rs != [] {
      InsertAllSplits(d, rs[..|rs| - 1]);
    }
  }

  lemma {:induction false} InsertAllConcat(d: Dict, a: seq<Raw>, b: seq<Raw>)
    ensures InsertAll(d, a + b) == InsertAll(InsertAll(d, a), b)
  {
    if b == [] {
      assert a + b == a;
    } else {
      var n := |b| - 1;
      assert (a + b)[..|a + b| - 1] == a + b[..n];
      assert (a + b)[|a + b| - 1] == b[n];
      InsertAllConcat(d, a, b[..n]);
    }
  }

  /** A record already in the dictionary is never overwritten. */
  lemma {:induction false} AddAllKeeps(m: map<string, Raw>, rs: seq<Raw>, k: string)
    requires k in m
    ensures k in AddAll(m, rs) && AddAll(m, rs)[k] == m[k]
  {
    if rs != [] {
      AddAllKeeps(m, rs[..|rs| - 1], k);
    }
  }

  /** The keys after the loop: the old keys and every non-empty id received. */
  lemma {:induction false} AddAllKeys(m: map<string, Raw>, rs: seq<Raw>, k: string)
    ensures k in AddAll(m, rs) <==> k in m || (k != "" && exists i :: 0 <= i < |rs| && rs[i].id == k)
  {
    if rs != [] {
      var n := |rs| - 1;
      AddAllKeys(m, rs[..n], k);
      if k in m || (k != "" && exists i :: 0 <= i < |rs| && rs[i].id == k) {
        if !(k in m) && rs[n].id != k {
          var i :| 0 <= i < |rs| && rs[i].id == k;
          assert rs[..n][i].id == k;
        }
      }
      if exists i :: 0 <= i < n && rs[..n][i].id == k {
        var i :| 0 <= i < n && rs[..n][i].id == k;
        assert rs[i].id == k;
      }
    }
  }

  /** A new id holds the first record received with that id. */
  lemma {:induction false} AddAllFirstWins(m: map<string, Raw>, rs: seq<Raw>, i: nat)
    requires i < |rs| && rs[i].id != "" && rs[i].id !in m
    requires forall j :: 0 <= j < i ==> rs[j].id != rs[i].id
    ensures rs[i].id in AddAll(m, rs) && AddAll(m, rs)[rs[i].id] == rs[i]
  {
    var n := |rs| - 1;
    var k := rs[i].id;
    if i < n {
      assert rs[..n][i] == rs[i];
      AddAllFirstWins(m, rs[..n], i);
    } else {
      AddAllKeys(m, rs[..n], k);
      assert forall j :: 0 <= j < n ==> rs[..n][j].id != k;
    }
  }

  /** The new ids are exactly the keys that were not there before, each
      listed once, so the dictionary grows by exactly their number. */
  lemma {:induction false} NewIdsExact(m: map<string, Raw>, rs: seq<Raw>)
    ensures forall x :: x in NewIds(m, rs) <==> x in AddAll(m, rs) && x !in m
    ensures forall i, j :: 0 <= i < j < |NewIds(m, rs)| ==> NewIds(m, rs)[i] != NewIds(m, rs)[j]
    ensures |AddAll(m, rs).Keys| == |m.Keys| + |NewIds(m, rs)|
  {
    if rs != [] {
      var n := |rs| - 1;
      NewIdsExact(m, rs[..n]);
      var prev := AddAll(m, rs[..n]);
      if rs[n].id != "" && rs[n].id !in prev {
        if rs[n].id in m {
          AddAllKeeps(m, rs[..n], rs[n].id);
        }
        assert AddAll(m, rs) == prev[rs[n].id := rs[n]];
        assert NewIds(m, rs) == NewIds(m, rs[..n]) + [rs[n].id];
        assert AddAll(m, rs).Keys == prev.Keys + {rs[n].id};
      } else {
        assert AddAll(m, rs) == prev;
        assert NewIds(m, rs) == NewIds(m, rs[..n]);
      }
    }
  }

  /** Adding two batches one after the other is adding their concatenation. */
  lemma {:induction false} AddAllConcat(m: map<string, Raw>, a: seq<Raw>, b: seq<Raw>)
    ensures AddAll(m, a + b) == AddAll(AddAll(m, a), b)
    ensures NewIds(m, a + b) == NewIds(m, a) + NewIds(AddAll(m, a), b)
  {
    if b == [] {
      assert a + b == a;
    } else {
      var n := |b| - 1;
      assert (a + b)[..|a + b| - 1] == a + b[..n];
      assert (a + b)[|a + b| - 1] == b[n];
      AddAllConcat(m, a, b[..n]);
    }
  }

  lemma {:induction false} FirstOccurrence(rs: seq<Raw>, k: string)
    requires exists i :: 0 <= i < |rs| && rs[i].id == k
    ensures exists i :: 0 <= i < |rs| && rs[i].id == k && forall j :: 0 <= j < i ==> rs[j].id != k
  {
    var i :| 0 <= i < |rs| && rs[i].id == k;
    FirstOccurrenceBelow(rs, k, i);
  }

  lemma {:induction false} FirstOccurrenceBelow(rs: seq<Raw>, k: string, i: nat)
    requires i < |rs| && rs[i].id == k
    ensures exists f :: 0 <= f <= i && rs[f].id == k && forall j :: 0 <= j < f ==> rs[j].id != k
    decreases i
  {
    if exists j :: 0 <= j < i && rs[j].id == k {
      var j :| 0 <= j < i && rs[j].id == k;
      FirstOccurrenceBelow(rs, k, j);
    } else {
      assert forall j :: 0 <= j < i ==> rs[j].id != k;
    }
  }


  /** A key the records added holds the first record received with that id. */
  lemma AddAllEntry(m: map<string, Raw>, rs: seq<Raw>, k: string)
    requires k in AddAll(m, rs) && k !in m
    ensures exists i :: 0 <= i < |rs| && rs[i].id == k && AddAll(m, rs)[k] == rs[i]
                        && forall j :: 0 <= j < i ==> rs[j].id != k
  {
    AddAllKeys(m, rs, k);
    FirstOccurrence(rs, k);
    var i :| 0 <= i < |rs| && rs[i].id == k && forall j :: 0 <= j < i ==> rs[j].id != k;
    AddAllFirstWins(m, rs, i);
  }

  /** The values of a dictionary in key-insertion order. */
  function Values(m: map<string, Raw>, keys: seq<string>): (r: seq<Raw>)
    requires forall i :: 0 <= i < |keys| ==> keys[i] in m
    ensures |r| == |keys|
    ensures forall i :: 0 <= i < |keys| ==> r[i] == m[keys[i]]
  {
    seq(|keys|, i requires 0 <= i < |keys| => m[keys[i]])
  }

  /** `list(all_raw.values())` once every record of `rs` has been offered to
      an empty dictionary. */
  function Collected(rs: seq<Raw>): (r: seq<Raw>)
    ensures |r| == |NewIds(map[], rs)|
  {
    NewIdsExact(map[], rs);
    Values(AddAll(map[], rs), NewIds(map[], rs))
  }

  /** Each collected record is the first one received with its id, its id is
      non-empty, and no id is collected twice. */
  lemma CollectedFirstSeen(rs: seq<Raw>, k: nat)
    requires k < |Collected(rs)|
    ensures var x := Collected(rs)[k];
            && x.id != ""
            && exists i :: 0 <= i < |rs| && rs[i] == x && forall j :: 0 <= j < i ==> rs[j].id != x.id
  {
    NewIdsExact(map[], rs);
    var id := NewIds(map[], rs)[k];
    AddAllEntry(map[], rs, id);
    AddAllKeys(map[], rs, id);
  }

  lemma CollectedDistinct(rs: seq<Raw>, a: nat, b: nat)
    requires a < b < |Collected(rs)|
    ensures Collected(rs)[a].id != Collected(rs)[b].id
  {
    NewIdsExact(map[], rs);
    var ids := NewIds(map[], rs);
    AddAllEntry(map[], rs, ids[a]);
    AddAllEntry(map[], rs, ids[b]);
  }

  /** Every record with a non-empty id is represented by a collected record
      with that id. */
  lemma CollectedComplete(rs: seq<Raw>, i: nat)
    requires i < |rs| && rs[i].id != ""
    ensures exists k :: 0 <= k < |Collected(rs)| && Collected(rs)[k].id == rs[i].id
  {
    NewIdsExact(map[], rs);
    var id := rs[i].id;
    AddAllKeys(map[], rs, id);
    AddAllEntry(map[], rs, id);
    var k :| 0 <= k < |NewIds(map[], rs)| && NewIds(map[], rs)[k] == id;
    assert Collected(rs)[k] == AddAll(map[], rs)[id];
  }

  // ---- `sorted()` of a set of country names ----

  predicate IsLeast(m: string, s: set<string>) {
    m in s && forall y :: y in s ==> LexLe(m, y)
  }

  lemma {:induction false} LeastExists(s: set<string>)
    requires s != {}
    ensures exists m :: IsLeast(m, s)
    decreases |s|
  {
    var x :| x in s;
    var rest := s - {x};
    if rest == {} {
      assert s == {x};
      assert IsLeast(x, s);
    } else {
      LeastExists(rest);
      var m :| IsLeast(m, rest);
      LexLessTotal(x, m);
      if LexLess(x, m) {
        forall y | y in s ensures LexLe(x, y) {
          if y != x && y != m {
            assert y in rest;
            LexLessTransitive(x, m, y);
          }
        }
        assert IsLeast(x, s);
      } else {
        assert IsLeast(m, s);
      }
    }
  }

  lemma LeastUnique(a: string, b: string, s: set<string>)
    requires IsLeast(a, s) && IsLeast(b, s)
    ensures a == b
  {
    if a != b {
      LexLessAsymmetric(a, b);
    }
  }

  predicate StrictlySorted(xs: seq<string>) {
    forall i, j :: 0 <= i < j < |xs| ==> LexLess(xs[i], xs[j])
  }

  /** Python's `sorted(s)` for a set of strings. */
  ghost function SortedList(s: set<string>): seq<string>
    decreases |s|
  {
    if s == {} then []
    else
      LeastExists(s);
      var m :| IsLeast(m, s);
      [m] + SortedList(s - {m})
  }

  /** The sorted list holds the set's names, each once, in increasing order. */
  lemma {:induction false} SortedListShape(s: set<string>)
    ensures StrictlySorted(SortedList(s))
    ensures forall x :: x in SortedList(s) <==> x in s
    decreases |s|
  {
    if s != {} {
      LeastExists(s);
      var m :| IsLeast(m, s);
      SortedListUnfold(s, m);
      SortedListShape(s - {m});
      var rest := SortedList(s - {m});
      assert forall j :: 0 <= j < |rest| ==> LexLess(m, rest[j]) by {
        forall j | 0 <= j < |rest| ensures LexLess(m, rest[j]) {
          assert rest[j] in s - {m};
        }
      }
    }
  }

  lemma SortedListUnfold(s: set<string>, m: string)
    requires IsLeast(m, s)
    ensures SortedList(s) == [m] + SortedList(s - {m})
  {
    forall m' | IsLeast(m', s) ensures m' == m {
      LeastUnique(m, m', s);
    }
  }

  /** `sorted(countries)`: the set's names, least first. */
  method SortCountries(s: set<string>) returns (xs: seq<string>)
    ensures xs == SortedList(s)
  {
    xs := [];
    var rest := s;
    while rest != {}
      invariant xs + SortedList(rest) == SortedList(s)
      decreases |rest|
    {
      LeastExists(rest);
      var m :| IsLeast(m, rest);
      SortedListUnfold(rest, m);
      ghost var tail := SortedList(rest - {m});
      assert xs + SortedList(rest) == (xs + [m]) + tail;
      xs := xs + [m];
      rest := rest - {m};
    }
    assert SortedList(rest) == [];
  }

  // ---- queries and answers ----

  /** The list `fetch_and_add` returns: the results of a 200 answer, [] for
      any other status (a transport error raises instead; it counts as no
      results here, which only matters for queries that are never sent). */
  function Answer(api: Api, q: Query): seq<Raw> {
    match api(q)
    case TransportError => []
    case Reply(status, results) => if status == 200 then results else []
  }

  function Answers(api: Api, qs: seq<Query>): seq<Raw> {
    if qs == [] then [] else Answers(api, qs[..|qs| - 1]) + Answer(api, qs[|qs| - 1])
  }

  lemma {:induction false} AnswersConcat(api: Api, a: seq<Query>, b: seq<Query>)
    ensures Answers(api, a + b) == Answers(api, a) + Answers(api, b)
  {
    if b == [] {
      assert a + b == a;
    } else {
      var n := |b| - 1;
      var ab := a + b;
      assert ab[..|ab| - 1] == a + b[..n];
      assert ab[|ab| - 1] == b[n];
      assert Answers(api, ab) == Answers(api, a + b[..n]) + Answer(api, b[n]);
      AnswersConcat(api, a, b[..n]);
      ConcatAssoc(Answers(api, a), Answers(api, b[..n]), Answer(api, b[n]));
    }
  }

  lemma ConcatAssoc(x: seq<Raw>, y: seq<Raw>, z: seq<Raw>)
    ensures (x + y) + z == x + (y + z)
  {
  }



  lemma AnswersStep(api: Api, qs: seq<Query>, i: nat)
    requires i < |qs|
    ensures Answers(api, qs[..i + 1]) == Answers(api, qs[..i]) + Answer(api, qs[i])
  {
    assert qs[..i + 1][..i] == qs[..i];
  }

  /** Some query of `qs` meets a transport error. */
  predicate Fails(api: Api, qs: seq<Query>) {
    exists i :: 0 <= i < |qs| && api(qs[i]).TransportError?
  }

  lemma FailsAt(api: Api, qs: seq<Query>, i: nat)
    requires i < |qs| && api(qs[i]).TransportError?
    ensures Fails(api, qs)
  {
  }

  lemma PassesStep(api: Api, qs: seq<Query>, i: nat)
    requires i < |qs| && !Fails(api, qs[..i]) && !api(qs[i]).TransportError?
    ensures !Fails(api, qs[..i + 1])
  {
    assert forall j :: 0 <= j < i ==> qs[..i + 1][j] == qs[..i][j];
  }

  lemma FailsConcat(api: Api, a: seq<Query>, b: seq<Query>)
    ensures Fails(api, a + b) <==> Fails(api, a) || Fails(api, b)
  {
    if Fails(api, a + b) {
      var i :| 0 <= i < |a + b| && api((a + b)[i]).TransportError?;
      if i >= |a| {
        assert b[i - |a|] == (a + b)[i];
      }
    }
    if Fails(api, a) {
      var i :| 0 <= i < |a| && api(a[i]).TransportError?;
      assert (a + b)[i] == a[i];
    }
    if Fails(api, b) {
      var i :| 0 <= i < |b| && api(b[i]).TransportError?;
      assert (a + b)[|a| + i] == b[i];
    }
  }

  /** The non-empty `country` values of some records. */
  function CountriesOf(rs: seq<Raw>): set<string> {
    set i | 0 <= i < |rs| && rs[i].country != "" :: rs[i].country
  }

  lemma CountriesOfConcat(a: seq<Raw>, b: seq<Raw>)
    ensures CountriesOf(a + b) == CountriesOf(a) + CountriesOf(b)
  {
    forall c | c in CountriesOf(a + b) ensures c in CountriesOf(a) + CountriesOf(b) {
      var i :| 0 <= i < |a + b| && (a + b)[i].country != "" && (a + b)[i].country == c;
      if i >= |a| {
        assert b[i - |a|] == (a + b)[i];
      }
    }
    forall c | c in CountriesOf(a) ensures c in CountriesOf(a + b) {
      var i :| 0 <= i < |a| && a[i].country != "" && a[i].country == c;
      assert (a + b)[i] == a[i];
    }
    forall c | c in CountriesOf(b) ensures c in CountriesOf(a + b) {
      var i :| 0 <= i < |b| && b[i].country != "" && b[i].country == c;
      assert (a + b)[|a| + i] == b[i];
    }
  }

  /** One query per value, each filtering on `key` alone. */
  function KeyQueries(key: string, values: seq<string>): (qs: seq<Query>)
    ensures |qs| == |values|
  {
    seq(|values|, i requires 0 <= i < |values| => map[key := values[i]])
  }

  function RaceTypeQueries(continent: string, raceTypes: seq<string>): (qs: seq<Query>)
    ensures |qs| == |raceTypes|
  {
    seq(|raceTypes|, i requires 0 <= i < |raceTypes| => map["continent" := continent, "raceType" := raceTypes[i]])
  }

  function CountryHalfQueries(countries: seq<string>): (qs: seq<Query>)
    ensures |qs| == |countries|
  {
    seq(|countries|, i requires 0 <= i < |countries| => map["country" := countries[i], "raceType" := "half_marathon"])
  }

  const SmallContinents: seq<string> := ["asia", "africa", "South America", "australia", "Antarctica"]
  const EuropeRaceTypes: seq<string> := ["full_marathon", "ultra_marathon", "custom"]
  const EuropeHalfSeed: Query := map["continent" := "europe", "raceType" := "half_marathon"]
  const NorthAmericaRaceTypes: seq<string> := ["full_marathon", "half_marathon", "ultra_marathon", "custom"]
  const LastQueries: seq<Query> := [map[], map["continent" := "Oceania"], map["continent" := "Central America"], map["continent" := "Middle East"]]

  /** The countries harvested in Europe: from the three race-type queries
      and the half-marathon seed. */
  function EuropeCountries(api: Api): set<string> {
    CountriesOf(Answers(api, RaceTypeQueries("europe", EuropeRaceTypes) + [EuropeHalfSeed]))
  }

  function NorthAmericaCountries(api: Api): set<string> {
    CountriesOf(Answers(api, RaceTypeQueries("North America", NorthAmericaRaceTypes)))
  }

  /** Every query of a run, in order, when no request raises: small
      continents; Europe by race type and the half-marathon seed; Europe's
      half marathons country by country; North America by race type; North
      America country by country; Europe country by country; the catch-all
      query and three more regions. */
  ghost function Plan(api: Api): seq<Query> {
    var eu := SortedList(EuropeCountries(api));
    var na := SortedList(NorthAmericaCountries(api));
    KeyQueries("continent", SmallContinents)
    + RaceTypeQueries("europe", EuropeRaceTypes) + [EuropeHalfSeed]
    + CountryHalfQueries(eu)
    + RaceTypeQueries("North America", NorthAmericaRaceTypes)
    + KeyQueries("country", na)
    + KeyQueries("country", eu)
    + LastQueries
  }


  /** A run that fails on a prefix of the queries fails. */
  lemma FailsPrefix(api: Api, a: seq<Query>, b: seq<Query>)
    requires a <= b && Fails(api, a)
    ensures Fails(api, b)
  {
    var i :| 0 <= i < |a| && api(a[i]).TransportError?;
    assert b[i] == a[i];
  }

  /** Bookkeeping for one more phase `qs` after the queries `done`. */
  lemma Extend(api: Api, d0: Dict, done: seq<Query>, qs: seq<Query>)
    ensures InsertAll(d0, Answers(api, done + qs)) == InsertAll(InsertAll(d0, Answers(api, done)), Answers(api, qs))
    ensures Fails(api, done + qs) <==> Fails(api, done) || Fails(api, qs)
  {
    AnswersConcat(api, done, qs);
    InsertAllConcat(d0, Answers(api, done), Answers(api, qs));
    FailsConcat(api, done, qs);
  }

  /** The queries of each finished phase are a prefix of the plan. */
  lemma PlanPrefixes(api: Api)
    ensures var eu := SortedList(EuropeCountries(api));
            var na := SortedList(NorthAmericaCountries(api));
            var p1 := KeyQueries("continent", SmallContinents);
            var p2 := p1 + RaceTypeQueries("europe", EuropeRaceTypes);
            var p3 := p2 + [EuropeHalfSeed];
            var p4 := p3 + CountryHalfQueries(eu);
            var p5 := p4 + RaceTypeQueries("North America", NorthAmericaRaceTypes);
            var p6 := p5 + KeyQueries("country", na);
            var p7 := p6 + KeyQueries("country", eu);
            && Plan(api) == p7 + LastQueries
            && p1 <= Plan(api) && p2 <= Plan(api) && p3 <= Plan(api) && p4 <= Plan(api)
            && p5 <= Plan(api) && p6 <= Plan(api) && p7 <= Plan(api)
  {
    var eu := SortedList(EuropeCountries(api));
    var na := SortedList(NorthAmericaCountries(api));
    var p1 := KeyQueries("continent", SmallContinents);
    var p2 := p1 + RaceTypeQueries("europe", EuropeRaceTypes);
    var p3 := p2 + [EuropeHalfSeed];
    var p4 := p3 + CountryHalfQueries(eu);
    var p5 := p4 + RaceTypeQueries("North America", NorthAmericaRaceTypes);
    var p6 := p5 + KeyQueries("country", na);
    var p7 := p6 + KeyQueries("country", eu);
    var plan := p7 + LastQueries;
    PrefixConcat(p7, LastQueries);
    PrefixTrans(p6, p7, plan);
    PrefixTrans(p5, p6, plan);
    PrefixTrans(p4, p5, plan);
    PrefixTrans(p3, p4, plan);
    PrefixTrans(p2, p3, plan);
    PrefixTrans(p1, p2, plan);
  }

  lemma PrefixConcat(a: seq<Query>, b: seq<Query>)
    ensures a <= a + b
  {
    assert (a + b)[..|a|] == a;
  }

  /** `a` is a prefix of `a + c`, which is a prefix of `b`. */
  lemma PrefixTrans(a: seq<Query>, ac: seq<Query>, b: seq<Query>)
    requires ac <= b && exists c :: ac == a + c
    ensures a <= b
  {
    assert b[..|a|] == ac[..|a|];
    var c :| ac == a + c;
    assert ac[..|a|] == a;
  }

  /** The European countries are those of the race-type answers and of the
      half-marathon seed. */
  lemma EuropeCountriesHarvested(api: Api)
    ensures EuropeCountries(api)
            == CountriesOf(Answers(api, RaceTypeQueries("europe", EuropeRaceTypes)))
               + CountriesOf(Answers(api, [EuropeHalfSeed]))
  {
    var types := RaceTypeQueries("europe", EuropeRaceTypes);
    AnswersConcat(api, types, [EuropeHalfSeed]);
    CountriesOfConcat(Answers(api, types), Answers(api, [EuropeHalfSeed]));
  }

  /** The state of `fetch_marathon_data` while it collects: the dictionary
      `all_raw`. */
  class Collector {
    const api: Api
    var allRaw: Dict

    constructor(api: Api)
      ensures this.api == api && allRaw == EmptyDict
    {
      this.api := api;
      allRaw := EmptyDict;
    }

    /** `fetch_and_add`: `failed` stands for the exception a transport error
        raises, which ends the whole run. */
    method FetchAndAdd(q: Query) returns (failed: bool, results: seq<Raw>, added: nat)
      modifies this
      ensures failed <==> api(q).TransportError?
      ensures failed ==> allRaw == old(allRaw)
      ensures !failed ==> && results == Answer(api, q)
                          && allRaw == InsertAll(old(allRaw), results)
                          && added == |allRaw.keys| - |old(allRaw).keys|
    {
      var reply := api(q);
      if reply.TransportError? {
        return true, [], 0;
      }
      failed := false;
      results := if reply.status != 200 then [] else reply.results;
      assert results == Answer(api, q);
      ghost var d0 := allRaw;
      added := 0;
      var i := 0;
      while i < |results|
        invariant 0 <= i <= |results|
        invariant allRaw == InsertAll(d0, results[..i])
        invariant added == |allRaw.keys| - |d0.keys|
      {
        var r := results[i];
        if r.id != "" && r.id !in allRaw.entries {
          allRaw := Dict(allRaw.entries[r.id := r], allRaw.keys + [r.id]);
          added := added + 1;
        }
        assert results[..i + 1][..i] == results[..i];
        i := i + 1;
      }
      assert results[..i] == results;
    }

    /** Adds the non-empty countries of `results` to `countries`. */
    static method Harvest(results: seq<Raw>, countries: set<string>) returns (more: set<string>)
      ensures more == countries + CountriesOf(results)
    {
      more := countries;
      var i := 0;
      while i < |results|
        invariant 0 <= i <= |results|
        invariant more == countries + CountriesOf(results[..i])
      {
        var c := results[i].country;
        CountriesOfConcat(results[..i], [results[i]]);
        assert results[..i + 1] == results[..i] + [results[i]];
        if c != "" {
          more := more + {c};
        }
        i := i + 1;
      }
      assert results[..i] == results;
    }

    /** The `i`-th request of a phase, on a dictionary that holds the
        answers to the requests before it. */
    method FetchNext(qs: seq<Query>, i: nat, ghost d0: Dict) returns (failed: bool, results: seq<Raw>)
      requires i < |qs| && allRaw == InsertAll(d0, Answers(api, qs[..i]))
      modifies this
      ensures failed <==> api(qs[i]).TransportError?
      ensures !failed ==> && results == Answer(api, qs[i])
                          && Answers(api, qs[..i + 1]) == Answers(api, qs[..i]) + results
                          && allRaw == InsertAll(d0, Answers(api, qs[..i + 1]))
    {
      var added;
      failed, results, added := FetchAndAdd(qs[i]);
      if !failed {
        AnswersStep(api, qs, i);
        InsertAllConcat(d0, Answers(api, qs[..i]), results);
      }
    }

    /** One phase: sends the queries in order and stops at the first
        transport error. */
    method FetchAll(qs: seq<Query>) returns (failed: bool)
      modifies this
      ensures failed <==> Fails(api, qs)
      ensures !failed ==> allRaw == InsertAll(old(allRaw), Answers(api, qs))
    {
      var i := 0;
      while i < |qs|
        invariant 0 <= i <= |qs|
        invariant allRaw == InsertAll(old(allRaw), Answers(api, qs[..i]))
        invariant !Fails(api, qs[..i])
      {
        var results;
        failed, results := FetchNext(qs, i, old(allRaw));
        if failed {
          FailsAt(api, qs, i);
          return;
        }
        PassesStep(api, qs, i);
        i := i + 1;
      }
      assert qs[..i] == qs;
      failed := false;
    }

    /** A phase that also gathers the non-empty countries of its answers. */
    method FetchAndHarvest(qs: seq<Query>) returns (failed: bool, countries: set<string>)
      modifies this
      ensures failed <==> Fails(api, qs)
      ensures !failed ==> && allRaw == InsertAll(old(allRaw), Answers(api, qs))
                          && countries == CountriesOf(Answers(api, qs))
    {
      countries := {};
      var i := 0;
      while i < |qs|
        invariant 0 <= i <= |qs|
        invariant allRaw == InsertAll(old(allRaw), Answers(api, qs[..i]))
        invariant !Fails(api, qs[..i])
        invariant countries == CountriesOf(Answers(api, qs[..i]))
      {
        var results;
        failed, results := FetchNext(qs, i, old(allRaw));
        if failed {
          FailsAt(api, qs, i);
          return;
        }
        PassesStep(api, qs, i);
        CountriesOfConcat(Answers(api, qs[..i]), results);
        assert CountriesOf(Answers(api, qs[..i + 1])) == countries + CountriesOf(results);
        countries := Harvest(results, countries);
        i := i + 1;
      }
      assert qs[..i] == qs;
      failed := false;
    }

    /** A phase after the queries `done`, stated on all the queries so far. */
    method Continue(qs: seq<Query>, ghost d0: Dict, ghost done: seq<Query>) returns (failed: bool)
      requires allRaw == InsertAll(d0, Answers(api, done)) && !Fails(api, done)
      modifies this
      ensures failed <==> Fails(api, done + qs)
      ensures !failed ==> allRaw == InsertAll(d0, Answers(api, done + qs))
    {
      failed := FetchAll(qs);
      Extend(api, d0, done, qs);
    }

    method ContinueHarvest(qs: seq<Query>, ghost d0: Dict, ghost done: seq<Query>) returns (failed: bool, countries: set<string>)
      requires allRaw == InsertAll(d0, Answers(api, done)) && !Fails(api, done)
      modifies this
      ensures failed <==> Fails(api, done + qs)
      ensures !failed ==> && allRaw == InsertAll(d0, Answers(api, done + qs))
                          && countries == CountriesOf(Answers(api, qs))
    {
      failed, countries := FetchAndHarvest(qs);
      Extend(api, d0, done, qs);
    }

    /** The seven phases of `fetch_marathon_data`, in order. `failed` is
        the first transport error, after which no further query is sent. */
    method Collect() returns (failed: bool)
      modifies this
      ensures failed <==> Fails(api, Plan(api))
      ensures !failed ==> allRaw == InsertAll(old(allRaw), Answers(api, Plan(api)))
    {
      PlanPrefixes(api);
      ghost var d0 := allRaw;
      var p1 := KeyQueries("continent", SmallContinents);
      failed := FetchAll(p1);
      if failed { FailsPrefix(api, p1, Plan(api)); return; }

      var euTypes := RaceTypeQueries("europe", EuropeRaceTypes);
      var eu, seedCountries;
      failed, eu := ContinueHarvest(euTypes, d0, p1);
      if failed { FailsPrefix(api, p1 + euTypes, Plan(api)); return; }
      ghost var p2 := p1 + euTypes;
      failed, seedCountries := ContinueHarvest([EuropeHalfSeed], d0, p2);
      if failed { FailsPrefix(api, p2 + [EuropeHalfSeed], Plan(api)); return; }
      ghost var p3 := p2 + [EuropeHalfSeed];
      eu := eu + seedCountries;
      EuropeCountriesHarvested(api);

      var euSorted := SortCountries(eu);
      var euHalf := CountryHalfQueries(euSorted);
      failed := Continue(euHalf, d0, p3);
      if failed { FailsPrefix(api, p3 + euHalf, Plan(api)); return; }
      ghost var p4 := p3 + euHalf;

      var naTypes := RaceTypeQueries("North America", NorthAmericaRaceTypes);
      var na;
      failed, na := ContinueHarvest(naTypes, d0, p4);
      if failed { FailsPrefix(api, p4 + naTypes, Plan(api)); return; }
      ghost var p5 := p4 + naTypes;

      var naSorted := SortCountries(na);
      var naAll := KeyQueries("country", naSorted);
      failed := Continue(naAll, d0, p5);
      if failed { FailsPrefix(api, p5 + naAll, Plan(api)); return; }
      ghost var p6 := p5 + naAll;

      euSorted := SortCountries(eu);
      var euAll := KeyQueries("country", euSorted);
      failed := Continue(euAll, d0, p6);
      if failed { FailsPrefix(api, p6 + euAll, Plan(api)); return; }
      ghost var p7 := p6 + euAll;

      failed := Continue(LastQueries, d0, p7);
    }
  }

  /** `list(all_raw.values())` once the records `rs` have been offered to
      an empty dictionary is `Collected(rs)`. */
  lemma InsertAllCollected(rs: seq<Raw>)
    ensures var d := InsertAll(EmptyDict, rs);
            && (forall i :: 0 <= i < |d.keys| ==> d.keys[i] in d.entries)
            && Values(d.entries, d.keys) == Collected(rs)
  {
    InsertAllSplits(EmptyDict, rs);
    assert [] + NewIds(map[], rs) == NewIds(map[], rs);
    NewIdsExact(map[], rs);
  }

  /** `fetch_marathon_data`: a transport error anywhere ends the run with no
      races; otherwise every collected record is parsed with one parser and
      the races already past are dropped. */
  method FetchMarathonData(api: Api, service: Service, today: Date, parseDate: string -> Option<Date>)
    returns (marathons: seq<Parsed>)
    ensures Fails(api, Plan(api)) ==> marathons == []
    ensures !Fails(api, Plan(api))
            ==> marathons == NormalizeAll(service, Collected(Answers(api, Plan(api))), today, parseDate)
  {
    var collector := new Collector(api);
    var failed := collector.Collect();
    if failed {
      return [];
    }
    InsertAllCollected(Answers(api, Plan(api)));
    var allResults := Values(collector.allRaw.entries, collector.allRaw.keys);
    if allResults == [] {
      return [];
    }
    var parser := new MarathonParser(service);
    marathons := parser.ParseAll(allResults, today, parseDate);
  }
}
