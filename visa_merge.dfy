/** The join of merge_visa_data.py `main`: index the visa table by upper-cased
    two-letter country code, then give every marathon record a `visa` field
    (visa-free days, or null) and count matched and unmatched records. File
    reading and writing are not modelled: the loaded JSON is an input and
    the document that would be written is the output. */
module VisaMerge {
  import opened TextUtil
  import opened Optional
  import VisaPeriod

  /** A value as produced by `json.load`. */
  datatype Json =
    | Null
    | Bool(b: bool)
    | Num(n: int)
    | Str(s: string)
    | Arr(items: seq<Json>)
    | Obj(fields: map<string, Json>)

  /** Python truthiness of a JSON value. */
  predicate Truthy(v: Json) {
    match v
    case Null => false
    case Bool(b) => b
    case Num(n) => n != 0
    case Str(s) => s != ""
    case Arr(xs) => xs != []
    case Obj(m) => m != map[]
  }

  /** One marathon record: a JSON object. */
  type Record = map<string, Json>

  /** One item of the visa table: its `country_iso_alp2` code ("" when the
      key is missing, null or empty) and its `gnrl_pspt_visa_cn` rule text
      ("" when missing). */
  datatype VisaEntry = VisaEntry(code: string, rule: string)

  /** The entry is indexed, and under key `k`. */
  predicate KeyedAs(e: VisaEntry, k: string) {
    e.code != "" && ToUpper(e.code) == k
  }

  /** The dictionary the indexing loop has built after `entries`: entries
      without a code are skipped, a later entry overwrites an earlier one. */
  function IndexOf(entries: seq<VisaEntry>): map<string, VisaEntry> {
    if entries == [] then map[]
    else
      var prev := IndexOf(entries[..|entries| - 1]);
      var e := entries[|entries| - 1];
      if e.code != "" then prev[ToUpper(e.code) := e] else prev
  }

  method BuildIndex(entries: seq<VisaEntry>) returns (index: map<string, VisaEntry>)
    ensures index == IndexOf(entries)
    ensures forall k :: k in index <==> exists j :: 0 <= j < |entries| && KeyedAs(entries[j], k)
  {
    index := map[];
    var i := 0;
    while i < |entries|
      invariant 0 <= i <= |entries|
      invariant index == IndexOf(entries[..i])
    {
      var entry := entries[i];
      if entry.code != "" {
        index := index[ToUpper(entry.code) := entry];
      }
      assert entries[..i + 1][..i] == entries[..i];
      i := i + 1;
    }
    assert entries[..i] == entries;
    forall k ensures k in index <==> exists j :: 0 <= j < |entries| && KeyedAs(entries[j], k) {
      if k in index {
        IndexLastWins(entries, k);
      } else {
        IndexComplete(entries, k);
      }
    }
  }

  /** Every indexed code has a key: the index misses no coded entry. */
  lemma {:induction false} IndexComplete(entries: seq<VisaEntry>, k: string)
    ensures (exists j :: 0 <= j < |entries| && KeyedAs(entries[j], k)) ==> k in IndexOf(entries)
  {
    if entries != [] {
      var init := entries[..|entries| - 1];
      IndexComplete(init, k);
      if exists j :: 0 <= j < |entries| && KeyedAs(entries[j], k) {
        var j :| 0 <= j < |entries| && KeyedAs(entries[j], k);
        if j < |entries| - 1 {
          assert init[j] == entries[j];
        }
      }
    }
  }

  /** A key of the index holds the LAST entry whose upper-cased code is that key. */
  lemma {:induction false} IndexLastWins(entries: seq<VisaEntry>, k: string)
    requires k in IndexOf(entries)
    ensures exists j :: 0 <= j < |entries| && KeyedAs(entries[j], k) && IndexOf(entries)[k] == entries[j]
                        && forall j' :: j < j' < |entries| ==> !KeyedAs(entries[j'], k)
  {
    var init := entries[..|entries| - 1];
    var e := entries[|entries| - 1];
    if KeyedAs(e, k) {
      assert IndexOf(entries)[k] == e;
    } else {
      IndexLastWins(init, k);
      var j :| 0 <= j < |init| && KeyedAs(init[j], k) && IndexOf(init)[k] == init[j]
               && forall j' :: j < j' < |init| ==> !KeyedAs(init[j'], k);
      assert entries[j] == init[j];
      assert forall j' :: j < j' < |entries| ==> !KeyedAs(entries[j'], k) by {
        forall j' | j < j' < |entries| ensures !KeyedAs(entries[j'], k) {
          if j' < |init| {
            assert entries[j'] == init[j'];
          }
        }
      }
    }
  }

  /** The source raises when a truthy `countryCode` is not a string (it calls
      `.upper()` on it); records that reach the loop satisfy this. */
  predicate CodeOk(rec: Record) {
    "countryCode" in rec && Truthy(rec["countryCode"]) ==> rec["countryCode"].Str?
  }

  /** The record has a country code and the index has an entry for it. */
  predicate Matched(rec: Record, index: map<string, VisaEntry>)
    requires CodeOk(rec)
  {
    "countryCode" in rec && Truthy(rec["countryCode"]) && ToUpper(rec["countryCode"].s) in index
  }

  /** The value written to `visa`. */
  function VisaValue(rec: Record, index: map<string, VisaEntry>): Json
    requires CodeOk(rec)
  {
    if Matched(rec, index) then
      match VisaPeriod.ParseVisaPeriod(index[ToUpper(rec["countryCode"].s)].rule)
      case Some(days) => Num(days)
      case None => Null
    else Null
  }

  /** The record after the loop body: a `visa` key, nothing else changed. */
  function WithVisa(rec: Record, index: map<string, VisaEntry>): (r: Record)
    requires CodeOk(rec)
    ensures r.Keys == rec.Keys + {"visa"}
    ensures forall k :: k in rec && k != "visa" ==> r[k] == rec[k]
    ensures r["visa"].Null? || (r["visa"].Num? && Matched(rec, index))
  {
    rec["visa" := VisaValue(rec, index)]
  }

  function CountMatched(recs: seq<Record>, index: map<string, VisaEntry>): (n: nat)
    requires forall i :: 0 <= i < |recs| ==> CodeOk(recs[i])
    ensures n <= |recs|
  {
    if recs == [] then 0
    else CountMatched(recs[..|recs| - 1], index) + (if Matched(recs[|recs| - 1], index) then 1 else 0)
  }

  /** The raw (not upper-cased) codes that found no entry. */
  function UnmatchedCodes(recs: seq<Record>, index: map<string, VisaEntry>): set<string>
    requires forall i :: 0 <= i < |recs| ==> CodeOk(recs[i])
  {
    set i | 0 <= i < |recs| && "countryCode" in recs[i] && Truthy(recs[i]["countryCode"])
                            && !Matched(recs[i], index) :: recs[i]["countryCode"].s
  }

  lemma UnmatchedStep(recs: seq<Record>, index: map<string, VisaEntry>, i: nat)
    requires i < |recs| && forall j :: 0 <= j < |recs| ==> CodeOk(recs[j])
    ensures UnmatchedCodes(recs[..i + 1], index) ==
            UnmatchedCodes(recs[..i], index) +
            (if "countryCode" in recs[i] && Truthy(recs[i]["countryCode"]) && !Matched(recs[i], index)
             then {recs[i]["countryCode"].s} else {})
  {
    var a := recs[..i + 1];
    assert forall j :: 0 <= j < i ==> a[j] == recs[..i][j];
  }

  lemma CountMatchedStep(recs: seq<Record>, index: map<string, VisaEntry>, i: nat)
    requires i < |recs| && forall j :: 0 <= j < |recs| ==> CodeOk(recs[j])
    ensures CountMatched(recs[..i + 1], index) ==
            CountMatched(recs[..i], index) + (if Matched(recs[i], index) then 1 else 0)
  {
    assert recs[..i + 1][..i] == recs[..i];
  }

  /** The body of the attach loop for one record: its new value, whether its
      code matched, and the code it adds to the unmatched ones. */
  method AttachOne(rec: Record, index: map<string, VisaEntry>)
    returns (updated: Record, hit: bool, missed: set<string>)
    requires CodeOk(rec)
    ensures updated == WithVisa(rec, index)
    ensures hit == Matched(rec, index)
    ensures missed == if "countryCode" in rec && Truthy(rec["countryCode"]) && !Matched(rec, index)
                      then {rec["countryCode"].s} else {}
  {
    missed := {};
    if !("countryCode" in rec && Truthy(rec["countryCode"])) {
      updated, hit := rec["visa" := Null], false;
    } else {
      var code := rec["countryCode"].s;
      var upper := ToUpper(code);
      if upper in index {
        var days := VisaPeriod.ParseVisaPeriod(index[upper].rule);
        updated, hit := rec["visa" := if days.Some? then Num(days.value) else Null], true;
      } else {
        updated, hit := rec["visa" := Null], false;
        missed := {code};
      }
    }
  }

  /** The attach loop of `main`: every record is updated in place. */
  method AttachVisa(marathons: array<Record>, index: map<string, VisaEntry>)
    returns (matched: nat, unmatched: nat, unmatchedCodes: set<string>)
    requires forall i :: 0 <= i < marathons.Length ==> CodeOk(marathons[i])
    modifies marathons
    ensures forall i :: 0 <= i < marathons.Length ==> CodeOk(old(marathons[i]))
    ensures forall i :: 0 <= i < marathons.Length ==> marathons[i] == WithVisa(old(marathons[i]), index)
    ensures matched == CountMatched(old(marathons[..]), index)
    ensures matched + unmatched == marathons.Length
    ensures unmatchedCodes == UnmatchedCodes(old(marathons[..]), index)
  {
    ghost var before := marathons[..];
    assert forall j :: 0 <= j < |before| ==> CodeOk(before[j]);
    matched, unmatched, unmatchedCodes := 0, 0, {};
    var i := 0;
    while i < marathons.Length
      invariant 0 <= i <= marathons.Length == |before|
      invariant forall j :: 0 <= j < |before| ==> CodeOk(before[j])
      invariant forall j :: i <= j < marathons.Length ==> marathons[j] == before[j]
      invariant forall j :: 0 <= j < i ==> marathons[j] == WithVisa(before[j], index)
      invariant matched == CountMatched(before[..i], index)
      invariant matched + unmatched == i
      invariant unmatchedCodes == UnmatchedCodes(before[..i], index)
    {
      UnmatchedStep(before, index, i);
      CountMatchedStep(before, index, i);
      var updated, hit, missed := AttachOne(marathons[i], index);
      ghost var mid := marathons[..];
      marathons[i] := updated;
      assert marathons[..] == mid[i := WithVisa(before[i], index)];
      if hit {
        matched := matched + 1;
      } else {
        unmatched := unmatched + 1;
      }
      unmatchedCodes := unmatchedCodes + missed;
      i := i + 1;
    }
    assert before[..i] == before;
  }

  /** Which top-level key holds the records: `marathons` is checked before
      `results`; neither means the shape is unknown. */
  function ContainerKey(doc: map<string, Json>): (key: Option<string>)
    ensures key.Some? ==> key.value in doc
    ensures key == Some("marathons") <==> "marathons" in doc
    ensures key == Some("results") <==> "results" in doc && "marathons" !in doc
    ensures key.None? <==> "marathons" !in doc && "results" !in doc
  {
    if "marathons" in doc then Some("marathons")
    else if "results" in doc then Some("results")
    else None
  }

  /** What the source needs of a document it can process: the container is a
      list of objects whose truthy country codes are strings (anything else
      makes it raise). */
  predicate Processable(doc: map<string, Json>) {
    ContainerKey(doc).Some? ==>
      var v := doc[ContainerKey(doc).value];
      && v.Arr?
      && forall i :: 0 <= i < |v.items| ==> v.items[i].Obj? && CodeOk(v.items[i].fields)
  }

  /** The objects of a container list, as records. */
  function RecordsOf(items: seq<Json>): (recs: seq<Record>)
    requires forall i :: 0 <= i < |items| ==> items[i].Obj?
    ensures |recs| == |items| && forall i :: 0 <= i < |items| ==> recs[i] == items[i].fields
  {
    seq(|items|, i requires 0 <= i < |items| => items[i].fields)
  }

  /** `main` after loading both files: None when the shape is unknown (nothing
      is written); otherwise the document to write back, which differs from the
      input only in the container, whose every record gained `visa`. */
  method MergeVisa(doc: map<string, Json>, entries: seq<VisaEntry>)
    returns (written: Option<map<string, Json>>, matched: nat, unmatched: nat)
    requires Processable(doc)
    ensures written.None? <==> ContainerKey(doc).None?
    ensures written.Some? ==>
      var key := ContainerKey(doc).value;
      var items := doc[key].items;
      && written.value.Keys == doc.Keys
      && (forall k :: k in doc && k != key ==> written.value[k] == doc[k])
      && written.value[key].Arr?
      && |written.value[key].items| == |items|
      && (forall i :: 0 <= i < |items| ==>
            written.value[key].items[i] == Obj(WithVisa(items[i].fields, IndexOf(entries))))
      && matched == CountMatched(RecordsOf(items), IndexOf(entries))
      && matched + unmatched == |items|
  {
    var key := ContainerKey(doc);
    if key.None? {
      return None, 0, 0;
    }
    var items := doc[key.value].items;
    var index := BuildIndex(entries);
    var records := new Record[|items|](i requires 0 <= i < |items| => items[i].fields);
    var codes;
    assert records[..] == RecordsOf(items);
    matched, unmatched, codes := AttachVisa(records, index);
    var updated := seq(records.Length, i requires 0 <= i < records.Length reads records => Obj(records[i]));
    written := Some(doc[key.value := Arr(updated)]);
  }
}
