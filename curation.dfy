/** Compilations of events (CompilationServiceImpl): creation with defaults, partial update,
    deletion, and the view-count enrichment of a compilation's event list. */
module Curation {
  import opened Domain
  import opened Repositories
  import opened EventMapper

  datatype NewCompilationDto = NewCompilationDto(pinned: Option<bool>, title: string, events: Option<seq<int>>)

  datatype UpdateCompilationRequest = UpdateCompilationRequest(
    pinned: Option<bool>, title: Option<string>, events: Option<seq<int>>)

  /** One entry of the statistics service's answer. */
  datatype ViewStats = ViewStats(app: string, uri: string, hits: int)

  /** The query sent to the statistics service: the window and the URIs, unique visits only. */
  datatype StatsQuery = StatsQuery(start: Time, end: Time, uris: seq<string>, unique: bool)

  const Int32Min: int := -0x8000_0000
  const Int32Max: int := 0x7fff_ffff

  /** The range of a Java `int`; entity ids are `Integer`s. */
  predicate IsInt32(n: int) {
    Int32Min <= n <= Int32Max
  }

  /** `order` lists every element of `s` exactly once: the iteration order of a hash set. */
  predicate Enumerates(order: seq<int>, s: set<int>) {
    && (forall i, j :: 0 <= i < j < |order| ==> order[i] != order[j])
    && (forall i :: 0 <= i < |order| ==> order[i] in s)
    && (forall id :: id in s ==> id in order)
  }

  /** `findAllById`: the stored events among the given ids. */
  function FindAllById(events: map<int, Event>, ids: seq<int>): set<int> {
    set id | id in ids && id in events
  }

  // ---------------------------------------------------------------- create

  /** `addCompilation` before the identity is assigned. The title is unique in the table, and
      the constraint violation on save is reported as CompilationAlreadyExists. */
  function NewCompilationOutcome(
    compilations: map<int, Compilation>, events: map<int, Event>, dto: NewCompilationDto
  ): (r: Result<Compilation>)
    ensures r.Err? <==> exists k :: k in compilations && compilations[k].title == dto.title
    ensures r.Err? ==> r.error == CompilationAlreadyExists
    ensures r.Ok? ==> r.value.id == None && r.value.title == dto.title
    ensures r.Ok? ==> (r.value.pinned <==> dto.pinned == Some(true))
    ensures r.Ok? && dto.events == None ==> r.value.events == {}
    ensures r.Ok? ==> r.value.events <= events.Keys
    ensures r.Ok? && dto.events.Some? ==>
      forall id :: id in r.value.events <==> id in dto.events.value && id in events
  {
    if exists k :: k in compilations && compilations[k].title == dto.title then Err(CompilationAlreadyExists)
    else
      var chosen := if dto.events.None? then {} else FindAllById(events, dto.events.value);
      Ok(Compilation(None, dto.pinned.GetOr(false), dto.title, chosen))
  }

  // ---------------------------------------------------------------- update

  /** The in-place edits of `updateCompilation`. `current` is the compilation's event ids in the
      iteration order of its event set; the set is replaced only when the requested id list is
      given and differs from `current` as a list. */
  function MergeCompilation(c: Compilation, p: UpdateCompilationRequest, events: map<int, Event>, current: seq<int>): (r: Compilation)
    ensures r.id == c.id
    ensures r.title == p.title.GetOr(c.title) && r.pinned == p.pinned.GetOr(c.pinned)
    ensures p.events.None? ==> r.events == c.events
    ensures r.events == c.events || (p.events.Some? && r.events == FindAllById(events, p.events.value))
    ensures c.events <= events.Keys ==> r.events <= events.Keys
  {
    var replaced := p.events.Some? && p.events.value != current;
    c.(title := p.title.GetOr(c.title),
       pinned := p.pinned.GetOr(c.pinned),
       events := if replaced then FindAllById(events, p.events.value) else c.events)
  }

  /** `updateCompilation`: a missing compilation is an error; otherwise the merged compilation. */
  function UpdateCompilationOutcome(
    compilations: map<int, Compilation>, events: map<int, Event>, compId: int,
    p: UpdateCompilationRequest, current: seq<int>
  ): (r: Result<Compilation>)
    ensures r.Err? <==> compId !in compilations
    ensures r.Err? ==> r.error == CompilationNotFound
    ensures r.Ok? ==> r.value.id == compilations[compId].id
    ensures r.Ok? ==> r.value.title == p.title.GetOr(compilations[compId].title)
    ensures r.Ok? ==> r.value.pinned == p.pinned.GetOr(compilations[compId].pinned)
    ensures r.Ok? && p.events.None? ==> r.value.events == compilations[compId].events
    ensures r.Ok? ==> r.value == MergeCompilation(compilations[compId], p, events, current)
    ensures (&& r.Ok? && p.events.Some?
             && Enumerates(current, compilations[compId].events) && compilations[compId].events <= events.Keys)
      ==> r.value.events == FindAllById(events, p.events.value)
  {
    if compId !in compilations then Err(CompilationNotFound)
    else
      var c := compilations[compId];
      var m := MergeCompilation(c, p, events, current);
      assert (p.events.Some? && Enumerates(current, c.events) && c.events <= events.Keys)
        ==> m.events == FindAllById(events, p.events.value) by {
        if p.events.Some? && Enumerates(current, c.events) && c.events <= events.Keys {
          UpdatedEventsAreRequested(c, p, events, current);
        }
      }
      Ok(m)
  }

  /** Whichever way the list comparison goes, the stored event set ends up as the stored events
      among the requested ids: comparing against the current list in iteration order only decides
      whether the set is rebuilt, not what it holds. */
  lemma {:induction false} UpdatedEventsAreRequested(
    c: Compilation, p: UpdateCompilationRequest, events: map<int, Event>, current: seq<int>)
    requires Enumerates(current, c.events) && c.events <= events.Keys
    requires p.events.Some?
    ensures MergeCompilation(c, p, events, current).events == FindAllById(events, p.events.value)
  {
    if p.events.value == current {
      forall id | id in c.events
        ensures id in FindAllById(events, p.events.value)
      {
        assert id in current;
      }
      forall id | id in FindAllById(events, p.events.value)
        ensures id in c.events
      {
        var i :| 0 <= i < |current| && current[i] == id;
      }
    }
  }

  // ---------------------------------------------------------------- delete

  /** `deleteCompilation`: the table without exactly that id, or CompilationNotFound. */
  function DeleteCompilationOutcome(compilations: map<int, Compilation>, compId: int): (r: Result<map<int, Compilation>>)
    ensures r.Err? <==> compId !in compilations
    ensures r.Err? ==> r.error == CompilationNotFound
    ensures r.Ok? ==> r.value.Keys == compilations.Keys - {compId}
    ensures r.Ok? ==> forall k :: k in r.value ==> r.value[k] == compilations[k]
  {
    if compId !in compilations then Err(CompilationNotFound)
    else Ok(compilations - {compId})
  }

  // ---------------------------------------------------------------- event URIs

  predicate IsDigit(c: char) {
    '0' <= c <= '9'
  }

  predicate AllDigits(s: string) {
    forall i :: 0 <= i < |s| ==> IsDigit(s[i])
  }

  function DigitChar(d: nat): (c: char)
    requires d < 10
    ensures IsDigit(c) && c as int - '0' as int == d
  {
    ('0' as int + d) as char
  }

  /** The decimal digits of `n`, most significant first, without leading zeros. */
  function Digits(n: nat): (r: string)
    ensures |r| >= 1 && AllDigits(r)
    ensures r[0] != '0' || n == 0
  {
    if n < 10 then [DigitChar(n)] else Digits(n / 10) + [DigitChar(n % 10)]
  }

  /** The value of a string of ASCII digits. */
  function DigitsValue(s: string): nat
    requires AllDigits(s)
  {
    if |s| == 0 then 0
    else
      assert IsDigit(s[|s| - 1]);
      DigitsValue(s[..|s| - 1]) * 10 + (s[|s| - 1] as int - '0' as int)
  }

  lemma {:induction false} DigitsRoundTrip(n: nat)
    ensures DigitsValue(Digits(n)) == n
  {
    if n >= 10 {
      var s := Digits(n);
      assert s[..|s| - 1] == Digits(n / 10);
      DigitsRoundTrip(n / 10);
    }
  }

  /** `Integer.toString`, which is what formatting an id with `%s` produces. */
  function DecimalString(n: int): string {
    if n < 0 then "-" + Digits(-n) else Digits(n)
  }

  /** The URI of an event's public page, as sent to the statistics service. */
  function EventUri(id: int): (r: string)
    ensures |r| > 8 && r[..8] == "/events/"
  {
    "/events/" + DecimalString(id)
  }

  /** `Integer.parseInt` in radix 10: an optional sign, at least one ASCII digit, and a value
      within 32 bits; anything else is a NumberFormatException. */
  function ParseInt(s: string): (r: Result<int>)
    ensures r.Ok? ==> IsInt32(r.value) && |s| >= 1
    ensures r.Err? ==> r.error == NumberFormat
    ensures AllDigits(s) && |s| >= 1 && DigitsValue(s) <= Int32Max ==> r == Ok(DigitsValue(s))
    ensures AllDigits(s) && |s| >= 1 && DigitsValue(s) > Int32Max ==> r == Err(NumberFormat)
    ensures |s| == 0 || s == "-" || s == "+" ==> r == Err(NumberFormat)
    ensures |s| >= 1 && !IsDigit(s[0]) && s[0] != '-' && s[0] != '+' ==> r == Err(NumberFormat)
    ensures |s| >= 1 && !AllDigits(s[1..]) ==> r == Err(NumberFormat)
    ensures |s| >= 2 && s[0] == '-' && AllDigits(s[1..]) ==>
      r == (if IsInt32(-(DigitsValue(s[1..]) as int)) then Ok(-(DigitsValue(s[1..]) as int)) else Err(NumberFormat))
    ensures |s| >= 2 && s[0] == '+' && AllDigits(s[1..]) ==>
      r == (if DigitsValue(s[1..]) <= Int32Max then Ok(DigitsValue(s[1..]) as int) else Err(NumberFormat))
  {
    var signed := |s| > 0 && (s[0] == '-' || s[0] == '+');
    var digits := if signed then s[1..] else s;
    if |digits| == 0 || !AllDigits(digits) then Err(NumberFormat)
    else
      var v := if signed && s[0] == '-' then -(DigitsValue(digits) as int) else DigitsValue(digits);
      if IsInt32(v) then Ok(v) else Err(NumberFormat)
  }

  /** `Integer.parseInt(uri.substring(8))`: a URI shorter than 8 characters fails in substring. */
  function ParseUriId(uri: string): (r: Result<int>)
    ensures |uri| < 8 <==> r == Err(StringIndexOutOfBounds)
    ensures r.Err? ==> r.error == StringIndexOutOfBounds || r.error == NumberFormat
  {
    if |uri| < 8 then Err(StringIndexOutOfBounds) else ParseInt(uri[8..])
  }

  lemma ParseNegative(d: string)
    requires AllDigits(d) && |d| >= 1 && IsInt32(-(DigitsValue(d) as int))
    ensures ParseInt("-" + d) == Ok(-(DigitsValue(d) as int))
  {
    var s := "-" + d;
    assert s[0] == '-' && s[1..] == d;
  }

  /** Reading the id back out of an event URI gives the id that was formatted into it. */
  lemma UriRoundTrip(id: int)
    requires IsInt32(id)
    ensures ParseUriId(EventUri(id)) == Ok(id)
  {
    var s := EventUri(id)[8..];
    if id < 0 {
      assert s == "-" + Digits(-id);
      DigitsRoundTrip(-id);
      ParseNegative(Digits(-id));
    } else {
      assert s == Digits(id);
      DigitsRoundTrip(id);
    }
  }

  /** The URIs of all events of a compilation, in iteration order; each one reads back to the
      id of its event. */
  function StatsUris(order: seq<int>): (r: seq<string>)
    ensures |r| == |order|
    ensures forall i :: 0 <= i < |r| && IsInt32(order[i]) ==> ParseUriId(r[i]) == Ok(order[i])
  {
    var uris := seq(|order|, i requires 0 <= i < |order| => EventUri(order[i]));
    assert forall i :: 0 <= i < |uris| && IsInt32(order[i]) ==> ParseUriId(uris[i]) == Ok(order[i]) by {
      forall i | 0 <= i < |uris| && IsInt32(order[i])
        ensures ParseUriId(uris[i]) == Ok(order[i])
      {
        UriRoundTrip(order[i]);
      }
    }
    uris
  }

  // ---------------------------------------------------------------- view counts

  /** The hits map filled from the statistics answer: each entry's URI is parsed back to an id,
      a later entry for the same id overwrites an earlier one, and the first unparsable URI fails. */
  function HitsFromStats(stats: seq<ViewStats>): (r: Result<map<int, int>>)
    ensures r.Err? ==> r.error == StringIndexOutOfBounds || r.error == NumberFormat
  {
    if |stats| == 0 then Ok(map[])
    else match HitsFromStats(stats[..|stats| - 1])
      case Err(e) => Err(e)
      case Ok(m) =>
        match ParseUriId(stats[|stats| - 1].uri)
        case Err(e) => Err(e)
        case Ok(id) => Ok(m[id := stats[|stats| - 1].hits])
  }

  /** The hits map fails exactly on the first entry whose URI does not parse. */
  lemma {:induction false} HitsFailOnFirstBadUri(stats: seq<ViewStats>)
    ensures HitsFromStats(stats).Ok? <==> forall i :: 0 <= i < |stats| ==> ParseUriId(stats[i].uri).Ok?
    ensures HitsFromStats(stats).Err? ==>
      exists i :: 0 <= i < |stats| && ParseUriId(stats[i].uri) == Err(HitsFromStats(stats).error)
        && forall j :: 0 <= j < i ==> ParseUriId(stats[j].uri).Ok?
  {
    HitsOkIffAllParse(stats);
    if |stats| > 0 {
      var n := |stats| - 1;
      var init := stats[..n];
      HitsFailOnFirstBadUri(init);
      var h := HitsFromStats(init);
      if h.Err? {
        assert HitsFromStats(stats) == h;
        var i :| 0 <= i < |init| && ParseUriId(init[i].uri) == Err(h.error)
          && forall j :: 0 <= j < i ==> ParseUriId(init[j].uri).Ok?;
        assert init[i] == stats[i];
        assert forall j :: 0 <= j < i ==> init[j] == stats[j];
      } else if ParseUriId(stats[n].uri).Err? {
        assert HitsFromStats(stats) == Err(ParseUriId(stats[n].uri).error);
        assert forall j :: 0 <= j < n ==> init[j] == stats[j];
      }
    }
  }

  lemma {:induction false} HitsOkIffAllParse(stats: seq<ViewStats>)
    ensures HitsFromStats(stats).Ok? <==> forall i :: 0 <= i < |stats| ==> ParseUriId(stats[i].uri).Ok?
  {
    if |stats| > 0 {
      var n := |stats| - 1;
      var init := stats[..n];
      HitsOkIffAllParse(init);
      assert forall i :: 0 <= i < n ==> init[i] == stats[i];
      var h := HitsFromStats(init);
      var p := ParseUriId(stats[n].uri);
      if h.Err? {
        assert HitsFromStats(stats).Err?;
      } else if p.Err? {
        assert HitsFromStats(stats).Err?;
      } else {
        assert HitsFromStats(stats) == Ok(h.value[p.value := stats[n].hits]);
      }
    }
  }

  /** The hits map has an entry for exactly the ids parsed from the answer. */
  lemma HitsKeys(stats: seq<ViewStats>)
    requires HitsFromStats(stats).Ok?
    ensures forall id :: id in HitsFromStats(stats).value <==>
      exists i :: 0 <= i < |stats| && ParseUriId(stats[i].uri) == Ok(id)
  {
    HitsKeysAreParsed(stats);
    forall id, i | 0 <= i < |stats| && ParseUriId(stats[i].uri) == Ok(id)
      ensures id in HitsFromStats(stats).value
    {
      ParsedIdIsKey(stats, i);
    }
  }

  lemma {:induction false} HitsKeysAreParsed(stats: seq<ViewStats>)
    requires HitsFromStats(stats).Ok?
    ensures forall id :: id in HitsFromStats(stats).value ==>
      exists i :: 0 <= i < |stats| && ParseUriId(stats[i].uri) == Ok(id)
  {
    if |stats| > 0 {
      var n := |stats| - 1;
      var init := stats[..n];
      HitsKeysAreParsed(init);
      var last := ParseUriId(stats[n].uri).value;
      forall id | id in HitsFromStats(stats).value
        ensures exists i :: 0 <= i < |stats| && ParseUriId(stats[i].uri) == Ok(id)
      {
        if id != last {
          var i :| 0 <= i < n && ParseUriId(init[i].uri) == Ok(id);
          assert init[i] == stats[i];
        }
      }
    }
  }

  lemma {:induction false} ParsedIdIsKey(stats: seq<ViewStats>, i: int)
    requires HitsFromStats(stats).Ok?
    requires 0 <= i < |stats| && ParseUriId(stats[i].uri).Ok?
    ensures ParseUriId(stats[i].uri).value in HitsFromStats(stats).value
  {
    var n := |stats| - 1;
    if i < n {
      var init := stats[..n];
      assert init[i] == stats[i];
      ParsedIdIsKey(init, i);
    }
  }

  /** An id's entry holds the hits of the last entry of the answer naming that id. */
  lemma {:induction false} HitsLastEntryWins(stats: seq<ViewStats>, i: int)
    requires HitsFromStats(stats).Ok?
    requires 0 <= i < |stats| && ParseUriId(stats[i].uri).Ok?
    requires forall j :: i < j < |stats| ==> ParseUriId(stats[j].uri) != ParseUriId(stats[i].uri)
    ensures ParseUriId(stats[i].uri).value in HitsFromStats(stats).value
    ensures HitsFromStats(stats).value[ParseUriId(stats[i].uri).value] == stats[i].hits
  {
    var n := |stats| - 1;
    if i < n {
      var init := stats[..n];
      HitsStep(stats);
      assert init[i] == stats[i];
      assert forall j :: i < j < n ==> init[j] == stats[j];
      HitsLastEntryWins(init, i);
    }
  }

  /** One step of the fold: a successful map is the previous map with the last entry put. */
  lemma HitsStep(stats: seq<ViewStats>)
    requires |stats| > 0 && HitsFromStats(stats).Ok?
    ensures HitsFromStats(stats[..|stats| - 1]).Ok? && ParseUriId(stats[|stats| - 1].uri).Ok?
    ensures HitsFromStats(stats).value ==
      HitsFromStats(stats[..|stats| - 1]).value[ParseUriId(stats[|stats| - 1].uri).value := stats[|stats| - 1].hits]
  {
  }

  /** Every listed id names a stored event that keeps the publication invariant. */
  predicate ListsStoredEvents(events: map<int, Event>, order: seq<int>) {
    forall i :: 0 <= i < |order| ==> order[i] in events && PublicationConsistent(events[order[i]])
  }

  /** The earliest publication time among the published events listed, if any: the start of the
      statistics window. */
  function EarliestPublished(events: map<int, Event>, order: seq<int>): (r: Option<Time>)
    requires ListsStoredEvents(events, order)
    ensures r.None? <==> forall i :: 0 <= i < |order| ==> events[order[i]].state != EventState.PUBLISHED
    ensures r.Some? ==> exists i :: 0 <= i < |order| && events[order[i]].publishedOn == r
    ensures r.Some? ==> forall i :: 0 <= i < |order| && events[order[i]].state == EventState.PUBLISHED ==>
      events[order[i]].publishedOn.Some? && r.value <= events[order[i]].publishedOn.value
  {
    if |order| == 0 then None
    else
      assert forall i :: 0 <= i < |order| - 1 ==> order[1..][i] == order[i + 1];
      var rest := EarliestPublished(events, order[1..]);
      var e := events[order[0]];
      assert PublicationConsistent(e);
      if e.state != EventState.PUBLISHED then rest
      else if rest.Some? && rest.value < e.publishedOn.value then rest
      else e.publishedOn
  }

  /** The events of a compilation as short DTOs, in iteration order: a published event carries
      its confirmed-request count and its views (0 when the statistics do not mention it);
      any other event carries 0 and 0. */
  function ShortDtos(
    events: map<int, Event>, requests: map<int, ParticipationRequest>, order: seq<int>, hits: map<int, int>
  ): (r: seq<EventShortDto>)
    requires forall i :: 0 <= i < |order| ==> order[i] in events
    ensures |r| == |order|
    ensures forall i :: 0 <= i < |r| ==> r[i] == EventToShortDto(events[order[i]], r[i].confirmedRequests, r[i].views)
    ensures forall i :: 0 <= i < |r| && events[order[i]].state != EventState.PUBLISHED ==>
      r[i].confirmedRequests == 0 && r[i].views == 0
    ensures forall i :: 0 <= i < |r| && events[order[i]].state == EventState.PUBLISHED ==>
      && r[i].confirmedRequests == CountByStatusAndEventId(requests, RequestStatus.CONFIRMED, order[i])
      && r[i].views == (if order[i] in hits then hits[order[i]] else 0)
  {
    seq(|order|, i requires 0 <= i < |order| =>
      var e := events[order[i]];
      if e.state == EventState.PUBLISHED then
        EventToShortDto(e, CountByStatusAndEventId(requests, RequestStatus.CONFIRMED, order[i]),
          if order[i] in hits then hits[order[i]] else 0)
      else EventToShortDto(e, 0, 0))
  }

  /** `getEventShortDtoList`: the statistics are consulted only when some event is published. */
  function ShortDtoListOutcome(
    events: map<int, Event>, requests: map<int, ParticipationRequest>, order: seq<int>, stats: seq<ViewStats>
  ): (r: Result<seq<EventShortDto>>)
    requires ListsStoredEvents(events, order)
    ensures r.Err? <==>
      && (exists i :: 0 <= i < |order| && events[order[i]].state == EventState.PUBLISHED)
      && (exists j :: 0 <= j < |stats| && ParseUriId(stats[j].uri).Err?)
    ensures r.Err? ==> r.error == StringIndexOutOfBounds || r.error == NumberFormat
    ensures r.Ok? ==> |r.value| == |order|
    ensures r.Ok? && EarliestPublished(events, order).None? ==> r.value == ShortDtos(events, requests, order, map[])
    ensures r.Ok? && EarliestPublished(events, order).Some? ==>
      HitsFromStats(stats).Ok? && r.value == ShortDtos(events, requests, order, HitsFromStats(stats).value)
  {
    HitsFailOnFirstBadUri(stats);
    if EarliestPublished(events, order).None? then Ok(ShortDtos(events, requests, order, map[]))
    else match HitsFromStats(stats)
      case Err(e) => Err(e)
      case Ok(hits) => Ok(ShortDtos(events, requests, order, hits))
  }

  /** With no published event the statistics answer is not read at all: every entry is 0. */
  lemma UnpublishedListIgnoresStats(
    events: map<int, Event>, requests: map<int, ParticipationRequest>, order: seq<int>, stats: seq<ViewStats>)
    requires ListsStoredEvents(events, order)
    requires forall i :: 0 <= i < |order| ==> events[order[i]].state != EventState.PUBLISHED
    ensures ShortDtoListOutcome(events, requests, order, stats).Ok?
    ensures var r := ShortDtoListOutcome(events, requests, order, stats).value;
      forall i :: 0 <= i < |r| ==> r[i].confirmedRequests == 0 && r[i].views == 0
  {
  }

  /** An answer that speaks only of the URIs that were asked for parses entry by entry back to
      the ids of the listed events. */
  lemma AnsweredUrisParse(order: seq<int>, stats: seq<ViewStats>)
    requires forall i :: 0 <= i < |order| ==> IsInt32(order[i])
    requires forall j :: 0 <= j < |stats| ==> exists i :: 0 <= i < |order| && stats[j].uri == EventUri(order[i])
    ensures forall j :: 0 <= j < |stats| ==>
      exists i :: 0 <= i < |order| && stats[j].uri == EventUri(order[i]) && ParseUriId(stats[j].uri) == Ok(order[i])
    ensures HitsFromStats(stats).Ok?
  {
    forall j | 0 <= j < |stats|
      ensures exists i :: 0 <= i < |order| && stats[j].uri == EventUri(order[i]) && ParseUriId(stats[j].uri) == Ok(order[i])
    {
      var i :| 0 <= i < |order| && stats[j].uri == EventUri(order[i]);
      UriRoundTrip(order[i]);
    }
    HitsFailOnFirstBadUri(stats);
  }

  /** When the statistics answer once for each URI that was asked for, a published event is shown
      with the hits reported for its own URI. */
  lemma ViewsOfReportedEvent(
    events: map<int, Event>, requests: map<int, ParticipationRequest>, order: seq<int>,
    stats: seq<ViewStats>, k: int, j: int)
    requires ListsStoredEvents(events, order)
    requires forall i :: 0 <= i < |order| ==> IsInt32(order[i])
    requires forall l :: 0 <= l < |stats| ==> exists i :: 0 <= i < |order| && stats[l].uri == EventUri(order[i])
    requires forall l, m :: 0 <= l < m < |stats| ==> stats[l].uri != stats[m].uri
    requires 0 <= k < |order| && events[order[k]].state == EventState.PUBLISHED
    requires 0 <= j < |stats| && stats[j].uri == EventUri(order[k])
    ensures ShortDtoListOutcome(events, requests, order, stats).Ok?
    ensures ShortDtoListOutcome(events, requests, order, stats).value[k].views == stats[j].hits
  {
    AnsweredUrisParse(order, stats);
    UriRoundTrip(order[k]);
    forall l | j < l < |stats|
      ensures ParseUriId(stats[l].uri) != ParseUriId(stats[j].uri)
    {
      var i :| 0 <= i < |order| && stats[l].uri == EventUri(order[i]) && ParseUriId(stats[l].uri) == Ok(order[i]);
    }
    HitsLastEntryWins(stats, j);
    var hits := HitsFromStats(stats).value;
    assert EarliestPublished(events, order).Some?;
    assert ShortDtoListOutcome(events, requests, order, stats) == Ok(ShortDtos(events, requests, order, hits));
  }

  /** A published event the statistics do not mention is shown with 0 views. */
  lemma ViewsOfUnreportedEvent(
    events: map<int, Event>, requests: map<int, ParticipationRequest>, order: seq<int>,
    stats: seq<ViewStats>, k: int)
    requires ListsStoredEvents(events, order)
    requires forall i :: 0 <= i < |order| ==> IsInt32(order[i])
    requires forall l :: 0 <= l < |stats| ==> exists i :: 0 <= i < |order| && stats[l].uri == EventUri(order[i])
    requires 0 <= k < |order| && events[order[k]].state == EventState.PUBLISHED
    requires forall l :: 0 <= l < |stats| ==> stats[l].uri != EventUri(order[k])
    ensures ShortDtoListOutcome(events, requests, order, stats).Ok?
    ensures ShortDtoListOutcome(events, requests, order, stats).value[k].views == 0
  {
    AnsweredUrisParse(order, stats);
    HitsKeys(stats);
  }

  class CompilationService {
    const db: Database

    constructor (db: Database)
      ensures this.db == db
    {
      this.db := db;
    }

    /** `addCompilation`: defaults filled in, the next identity assigned; a clash on the unique
        title rolls back and is reported as CompilationAlreadyExists. */
    method AddCompilation(dto: NewCompilationDto) returns (r: Result<Compilation>)
      requires db.Valid()
      modifies db`compilations, db`nextCompilationId
      ensures db.Valid()
      ensures match NewCompilationOutcome(old(db.compilations), db.events, dto)
        case Ok(c) =>
          var saved := c.(id := Some(old(db.nextCompilationId)));
          && r == Ok(saved)
          && old(db.nextCompilationId) !in old(db.compilations)
          && db.compilations == old(db.compilations)[old(db.nextCompilationId) := saved]
          && db.nextCompilationId == old(db.nextCompilationId) + 1
        case Err(err) =>
          r == Err(err) && db.compilations == old(db.compilations) && db.nextCompilationId == old(db.nextCompilationId)
    {
      var ids := dto.events;
      var chosen: set<int> := if ids.None? then {} else FindAllById(db.events, ids.value);
      var pinned := dto.pinned;
      if pinned.None? {
        pinned := Some(false);
      }
      if exists k :: k in db.compilations && db.compilations[k].title == dto.title {
        return Err(CompilationAlreadyExists);
      }
      var saved := Compilation(Some(db.nextCompilationId), pinned.value, dto.title, chosen);
      db.compilations := db.compilations[db.nextCompilationId := saved];
      db.nextCompilationId := db.nextCompilationId + 1;
      return Ok(saved);
    }

    /** `deleteCompilation`. */
    method DeleteCompilation(compId: int) returns (r: Result<()>)
      requires db.Valid()
      modifies db`compilations
      ensures db.Valid()
      ensures match DeleteCompilationOutcome(old(db.compilations), compId)
        case Ok(remaining) => r == Ok(()) && db.compilations == remaining
        case Err(err) => r == Err(err) && db.compilations == old(db.compilations)
    {
      if compId !in db.compilations {
        return Err(CompilationNotFound);
      }
      db.compilations := db.compilations - {compId};
      return Ok(());
    }

    /** `updateCompilation`; `current` is the compilation's event ids in its set's iteration order. */
    method UpdateCompilation(p: UpdateCompilationRequest, compId: int, current: seq<int>) returns (r: Result<Compilation>)
      requires db.Valid()
      requires compId in db.compilations ==> Enumerates(current, db.compilations[compId].events)
      modifies db`compilations
      ensures db.Valid()
      ensures match UpdateCompilationOutcome(old(db.compilations), db.events, compId, p, current)
        case Ok(c) => r == Ok(c) && db.compilations == old(db.compilations)[compId := c]
        case Err(err) => r == Err(err) && db.compilations == old(db.compilations)
    {
      var title := p.title;
      var pinned := p.pinned;
      var newEventIds := p.events;
      if compId !in db.compilations {
        return Err(CompilationNotFound);
      }
      var compilation := db.compilations[compId];
      if title.Some? {
        compilation := compilation.(title := title.value);
      }
      if pinned.Some? {
        compilation := compilation.(pinned := pinned.value);
      }
      if newEventIds.Some? {
        var oldEventIds := current;
        if newEventIds.value != oldEventIds {
          compilation := compilation.(events := FindAllById(db.events, newEventIds.value));
        }
      }
      db.compilations := db.compilations[compId := compilation];
      return Ok(compilation);
    }

    /** The hits loop of `getEventShortDtoList`. */
    method CollectHits(stats: seq<ViewStats>) returns (r: Result<map<int, int>>)
      ensures r == HitsFromStats(stats)
    {
      var hits: map<int, int> := map[];
      for i := 0 to |stats|
        invariant HitsFromStats(stats[..i]) == Ok(hits)
      {
        assert stats[..i + 1][..i] == stats[..i];
        var id := ParseUriId(stats[i].uri);
        if id.Err? {
          HitsErrorPersists(stats, i + 1);
          return Err(id.error);
        }
        hits := hits[id.value := stats[i].hits];
      }
      assert stats[..|stats|] == stats;
      return Ok(hits);
    }

    /** `getEventShortDtoList` for a compilation whose event set iterates as `order`, given the
        statistics service's answer `stats` at time `now`; `query` is the request sent to that
        service, if any. */
    method GetEventShortDtoList(compilation: Compilation, order: seq<int>, stats: seq<ViewStats>, now: Time)
      returns (r: Result<seq<EventShortDto>>, query: Option<StatsQuery>)
      requires db.Valid() && compilation.events <= db.events.Keys
      requires Enumerates(order, compilation.events)
      ensures ListsStoredEvents(db.events, order) && r == ShortDtoListOutcome(db.events, db.requests, order, stats)
      ensures query.Some? <==> exists i :: 0 <= i < |order| && db.events[order[i]].state == EventState.PUBLISHED
      ensures query.Some? ==> query == Some(StatsQuery(EarliestPublished(db.events, order).value, now, StatsUris(order), true))
    {
      assert forall i :: 0 <= i < |order| ==> order[i] in compilation.events;
      assert forall i :: 0 <= i < |order| ==> order[i] in db.events;
      var earliest := EarliestPublished(db.events, order);
      var hits: map<int, int> := map[];
      query := None;
      if earliest.Some? {
        var uris := StatsUris(order);
        query := Some(StatsQuery(earliest.value, now, uris, true));
        var collected := CollectHits(stats);
        if collected.Err? {
          return Err(collected.error), query;
        }
        hits := collected.value;
      }
      r := Ok(ShortDtos(db.events, db.requests, order, hits));
    }
  }

  /** Once a prefix of the answer fails to parse, the whole answer fails with the same error. */
  lemma {:induction false} HitsErrorPersists(stats: seq<ViewStats>, n: nat)
    requires n <= |stats| && HitsFromStats(stats[..n]).Err?
    ensures HitsFromStats(stats) == HitsFromStats(stats[..n])
    decreases |stats| - n
  {
    if n < |stats| {
      assert stats[..n + 1][..n] == stats[..n];
      HitsErrorPersists(stats, n + 1);
    } else {
      assert stats[..n] == stats;
    }
  }
}
