/** The list page and the date filter of crawl_korea.py: event links are
    de-duplicated by the number in their `no=` parameter (the first link of
    an id decides, and an id is marked seen even when that link has no
    title), then events dated before today are dropped. */
module KoreaList {
  import opened TextUtil
  import opened Optional
  import KoreaFields

  /** `re.search(r"no=(\d+)", href)` from position `i`: the digits after the
      leftmost `no=` that is followed by a digit. */
  function IdFrom(href: string, i: nat): (r: Option<string>)
    requires i <= |href|
    ensures r.Some? ==> |r.value| >= 1 && IsDigits(r.value)
    decreases |href| - i
  {
    if i + 3 >= |href| then None
    else if OccursAt(href, "no=", i) && IsDigit(href[i + 3]) then Some(href[i + 3..DigitRunEnd(href, i + 3)])
    else IdFrom(href, i + 1)
  }

  /** `no=` followed by a digit starts at position `p` of `href`. */
  predicate IdAt(href: string, p: nat) {
    p + 3 < |href| && OccursAt(href, "no=", p) && IsDigit(href[p + 3])
  }

  /** `IdFrom` is the leftmost match of `no=(\d+)`: a result is the maximal
      digit run after the first `no=` from `i` that is followed by a digit,
      and there is no result exactly when no such `no=` exists. */
  lemma IdFromLeftmost(href: string, i: nat)
    requires i <= |href|
    ensures IdFrom(href, i).Some? ==>
              exists p :: i <= p && IdAt(href, p) && (forall q :: i <= q < p ==> !IdAt(href, q))
                          && IdFrom(href, i).value == href[p + 3..DigitRunEnd(href, p + 3)]
    ensures IdFrom(href, i).None? <==> forall p :: i <= p < |href| ==> !IdAt(href, p)
  {
    if IdFrom(href, i).Some? {
      var p := IdFromFirst(href, i);
    }
    IdFromNone(href, i);
  }

  /** The position of the match `IdFrom` finds. */
  lemma {:induction false} IdFromFirst(href: string, i: nat) returns (p: nat)
    requires i <= |href| && IdFrom(href, i).Some?
    ensures i <= p && IdAt(href, p) && (forall q :: i <= q < p ==> !IdAt(href, q))
    ensures IdFrom(href, i).value == href[p + 3..DigitRunEnd(href, p + 3)]
    decreases |href| - i
  {
    if IdAt(href, i) {
      p := i;
    } else {
      p := IdFromFirst(href, i + 1);
    }
  }

  lemma {:induction false} IdFromNone(href: string, i: nat)
    requires i <= |href|
    ensures IdFrom(href, i).None? <==> forall p :: i <= p < |href| ==> !IdAt(href, p)
    decreases |href| - i
  {
    if i + 3 < |href| && !IdAt(href, i) {
      IdFromNone(href, i + 1);
    }
  }

  /** A link on the list page: its `href`, its stripped text and the date
      text (`M/D` or "") read from its table row. The other columns of the
      row are carried through unchanged by the source and are not modelled. */
  datatype Link = Link(href: string, title: string, date: string)

  datatype Event = Event(id: string, title: string, date: string)

  function LinkId(link: Link): Option<string> {
    IdFrom(link.href, 0)
  }

  /** Link `k` is the first with its id. */
  predicate FirstOfId(links: seq<Link>, k: nat)
    requires k < |links|
  {
    LinkId(links[k]).Some? && forall j :: 0 <= j < k ==> LinkId(links[j]) != LinkId(links[k])
  }

  /** Link `k` produces an event: first of its id and titled. */
  predicate Emits(links: seq<Link>, k: nat)
    requires k < |links|
  {
    FirstOfId(links, k) && links[k].title != ""
  }

  function EventOf(link: Link): Event
    requires LinkId(link).Some?
  {
    Event(LinkId(link).value, link.title, link.date)
  }

  /** The events of `parse_list_page`, in link order. */
  function ListEvents(links: seq<Link>): seq<Event> {
    if links == [] then []
    else
      var n := |links| - 1;
      ListEvents(links[..n]) + (if Emits(links, n) then [EventOf(links[n])] else [])
  }

  /** The ids of the links before position `i`. */
  function SeenIds(links: seq<Link>, i: nat): set<string>
    requires i <= |links|
  {
    set j | 0 <= j < i && LinkId(links[j]).Some? :: LinkId(links[j]).value
  }

  lemma PrefixEmits(links: seq<Link>, i: nat)
    requires i < |links|
    ensures var p := links[..i + 1];
            (Emits(p, i) <==> Emits(links, i)) && p[..i] == links[..i]
  {
  }

  /** The loop of `parse_list_page` over the links. */
  method ParseListPage(links: seq<Link>) returns (events: seq<Event>)
    ensures events == ListEvents(links)
  {
    events := [];
    var seen: set<string> := {};
    var i := 0;
    while i < |links|
      invariant 0 <= i <= |links|
      invariant seen == SeenIds(links, i)
      invariant events == ListEvents(links[..i])
    {
      var link := links[i];
      var m := IdFrom(link.href, 0);
      PrefixEmits(links, i);
      if m.Some? {
        var eid := m.value;
        if eid !in seen {
          seen := seen + {eid};
          if link.title != "" {
            events := events + [Event(eid, link.title, link.date)];
          }
        } else {
          var j :| 0 <= j < i && LinkId(links[j]).Some? && LinkId(links[j]).value == eid;
        }
      }
      assert SeenIds(links, i + 1) == SeenIds(links, i) + (if m.Some? then {m.value} else {});
      i := i + 1;
    }
    assert links[..i] == links;
  }

  /** Every event comes from the first, titled link of its id. */
  lemma {:induction false} ListEventsFromFirstLinks(links: seq<Link>, e: Event)
    requires e in ListEvents(links)
    ensures exists k :: 0 <= k < |links| && Emits(links, k) && e == EventOf(links[k])
  {
    var n := |links| - 1;
    var init := links[..n];
    if e in ListEvents(init) {
      ListEventsFromFirstLinks(init, e);
      var k :| 0 <= k < |init| && Emits(init, k) && e == EventOf(init[k]);
      assert links[k] == init[k];
      assert forall j :: 0 <= j < k ==> links[j] == init[j];
    }
  }

  /** No id is emitted twice. */
  lemma {:induction false} ListIdsDistinct(links: seq<Link>)
    ensures forall a, b :: 0 <= a < b < |ListEvents(links)| ==> ListEvents(links)[a].id != ListEvents(links)[b].id
  {
    if links != [] {
      var n := |links| - 1;
      var init := links[..n];
      ListIdsDistinct(init);
      if Emits(links, n) {
        var prev := ListEvents(init);
        forall a | 0 <= a < |prev| ensures prev[a].id != LinkId(links[n]).value {
          assert prev[a] in prev;
          ListEventsFromFirstLinks(init, prev[a]);
          var k :| 0 <= k < |init| && Emits(init, k) && prev[a] == EventOf(init[k]);
          assert links[k] == init[k];
        }
      }
    }
  }

  /** A titled link that is the first of its id is emitted. */
  lemma {:induction false} ListEventsComplete(links: seq<Link>, k: nat)
    requires k < |links| && Emits(links, k)
    ensures EventOf(links[k]) in ListEvents(links)
  {
    var n := |links| - 1;
    var init := links[..n];
    if k < n {
      assert init[k] == links[k];
      assert forall j :: 0 <= j < k ==> init[j] == links[j];
      ListEventsComplete(init, k);
    }
  }

  /** An id whose first link has an empty title is never emitted, even when
      a later link with the same id has a title. */
  lemma ListIdHiddenByEmptyTitle(links: seq<Link>, k: nat)
    requires k < |links| && FirstOfId(links, k) && links[k].title == ""
    ensures forall e :: e in ListEvents(links) ==> e.id != LinkId(links[k]).value
  {
    forall e | e in ListEvents(links) ensures e.id != LinkId(links[k]).value {
      ListEventsFromFirstLinks(links, e);
      var m :| 0 <= m < |links| && Emits(links, m) && e == EventOf(links[m]);
    }
  }

  // ---- the date filter in `main` ----

  /** An event that passed the filter, with its `dateFormatted`. */
  datatype Dated = Dated(event: Event, dateFormatted: string)

  /** `normalize_date(ev["date"])` with the default year. */
  function FormattedDate(e: Event): string {
    KoreaFields.NormalizeDate(e.date, 2026)
  }

  /** Events whose `date` is on or after `today` (string order), each paired
      with that date. */
  function KeptBy(events: seq<Event>, today: string, date: Event -> string): seq<Dated> {
    if events == [] then []
    else
      var n := |events| - 1;
      var d := date(events[n]);
      KeptBy(events[..n], today, date) + (if LexLe(today, d) then [Dated(events[n], d)] else [])
  }

  /** Events whose normalized date is on or after `today` (string order). */
  function Upcoming(events: seq<Event>, today: string): seq<Dated> {
    KeptBy(events, today, FormattedDate)
  }

  lemma {:induction false} KeptBySound(events: seq<Event>, today: string, date: Event -> string, x: Dated)
    requires x in KeptBy(events, today, date)
    ensures x.event in events && x.dateFormatted == date(x.event) && LexLe(today, x.dateFormatted)
  {
    var n := |events| - 1;
    if x in KeptBy(events[..n], today, date) {
      KeptBySound(events[..n], today, date, x);
      assert x.event in events[..n];
    }
  }

  lemma {:induction false} KeptByComplete(events: seq<Event>, today: string, date: Event -> string, k: nat)
    requires k < |events|
    requires LexLe(today, date(events[k]))
    ensures Dated(events[k], date(events[k])) in KeptBy(events, today, date)
  {
    var n := |events| - 1;
    var init := events[..n];
    if k < n {
      assert init[k] == events[k];
      KeptByComplete(init, today, date, k);
    }
  }

  /** Only events dated on or after today are kept, each with its normalized date. */
  lemma UpcomingSound(events: seq<Event>, today: string, x: Dated)
    requires x in Upcoming(events, today)
    ensures x.event in events && x.dateFormatted == FormattedDate(x.event) && LexLe(today, x.dateFormatted)
  {
    KeptBySound(events, today, FormattedDate, x);
  }

  /** Every event dated on or after today is kept. */
  lemma UpcomingComplete(events: seq<Event>, today: string, k: nat)
    requires k < |events|
    requires LexLe(today, FormattedDate(events[k]))
    ensures Dated(events[k], FormattedDate(events[k])) in Upcoming(events, today)
  {
    KeptByComplete(events, today, FormattedDate, k);
  }

  /** The filter loop of `main`. */
  method FilterUpcoming(events: seq<Event>, today: string) returns (kept: seq<Dated>)
    ensures kept == Upcoming(events, today)
  {
    kept := [];
    var i := 0;
    while i < |events|
      invariant 0 <= i <= |events|
      invariant kept == Upcoming(events[..i], today)
    {
      var d := KoreaFields.NormalizeDate(events[i].date, 2026);
      assert d == FormattedDate(events[i]);
      if LexLe(today, d) {
        kept := kept + [Dated(events[i], d)];
      }
      assert events[..i + 1][..i] == events[..i];
      i := i + 1;
    }
    assert events[..i] == events;
  }

  /** An event without a date is dropped. */
  lemma UndatedDropped(events: seq<Event>, today: string, e: Event)
    requires today != "" && e.date == ""
    ensures forall k :: 0 <= k < |Upcoming(events, today)| ==> Upcoming(events, today)[k].event != e
  {
    assert KoreaFields.NormalizeDate("", 2026) == "";
    forall k | 0 <= k < |Upcoming(events, today)| ensures Upcoming(events, today)[k].event != e {
      UpcomingSound(events, today, Upcoming(events, today)[k]);
    }
  }
}
