/** The four source adapters of scraping.py, over abstract pages: a
    Devpost tile or Hackathon.com card is a record of optional parts (a
    part is None when BeautifulSoup's find returns nothing), and an API
    body is the already decoded JSON. */
module Adapters {
  import opened Records
  import opened Scrolling

  /** A Selenium session: driver creation, page load or waiting may fail,
      and nothing in the adapter catches that, so the future raises. */
  datatype Browser<T> = BrowserFailed | Rendered(page: T)

  /** An HTTP call with `requests`: a network error, a bad status, a body
      that is not JSON or not of the expected shape all end in the
      adapter's own `except Exception` clause. */
  datatype Api<T> = Unavailable | Body(body: T)

  const DEVPOST_HOST := "https://devpost.com"
  const HACKATHON_COM_HOST := "https://www.hackathon.com"
  const DEVFOLIO_HACKATHONS := "https://devfolio.co/hackathons/"
  const ARROW := " → "

  // ---------------------------------------------------------------
  // Links and dates
  // ---------------------------------------------------------------

  /** str.startswith("/"); false on the empty string. */
  predicate StartsWithSlash(link: string)
  {
    |link| > 0 && link[0] == '/'
  }

  /** A link beginning with "/" is prefixed with the site's host; any
      other link is kept as it is. */
  function ResolveLink(host: string, link: string): (r: string)
    ensures StartsWithSlash(link) ==> r == host + link
    ensures |link| <= |r| && r[|r| - |link|..] == link
    ensures r == link <==> !StartsWithSlash(link) || host == []
    ensures host != [] && !StartsWithSlash(host) ==> !StartsWithSlash(r)
  {
    if StartsWithSlash(link) then host + link else link
  }

  /** Resolving an already resolved link changes nothing. */
  lemma ResolveLinkIdempotent(host: string, link: string)
    requires host != [] && !StartsWithSlash(host)
    ensures ResolveLink(host, ResolveLink(host, link)) == ResolveLink(host, link)
  {
  }

  /** f"{start} → {end}", as the Devfolio and MLH adapters build dates. */
  function DateRange(start: string, end: string): (range: string)
  {
    start + ARROW + end
  }

  /** Reads a date range back by splitting at its first arrow. */
  function SplitDateRange(s: string): (ends: Option<(string, string)>)
  {
    var i := FirstIndexOf(s, '→');
    if 1 <= i && i + 1 < |s| && s[i - 1] == ' ' && s[i + 1] == ' ' then Some((s[..i - 1], s[i + 2..]))
    else None
  }

  /** Round trip: both ends of the range are recoverable whenever the
      start holds no arrow of its own. */
  lemma DateRangeRoundTrip(start: string, end: string)
    requires '→' !in start
    ensures SplitDateRange(DateRange(start, end)) == Some((start, end))
  {
    var s := DateRange(start, end);
    assert s == (start + " ") + ['→'] + (" " + end);
    FirstIndexAfterPrefix(start + " ", '→', " " + end);
    var i := |start| + 1;
    assert s[..i - 1] == start;
    assert s[i + 2..] == end;
  }

  // ---------------------------------------------------------------
  // The append loops, as a specification
  // ---------------------------------------------------------------

  /** The list an adapter's loop builds: f(x) for each x in order, with
      the items f rejects (`continue`) left out. */
  function Collect<T, U>(xs: seq<T>, f: T -> Option<U>): (ys: seq<U>)
    ensures |ys| <= |xs|
    decreases |xs|
  {
    if xs == [] then []
    else
      Collect(xs[..|xs| - 1], f) + (match f(xs[|xs| - 1]) case Some(y) => [y] case None => [])
  }

  /** An item is collected exactly when some input yields it. */
  lemma {:induction false} CollectMembership<T, U>(xs: seq<T>, f: T -> Option<U>, y: U)
    ensures y in Collect(xs, f) <==> exists i :: 0 <= i < |xs| && f(xs[i]) == Some(y)
    decreases |xs|
  {
    if xs != [] {
      var rest := xs[..|xs| - 1];
      CollectMembership(rest, f, y);
      assert forall i :: 0 <= i < |rest| ==> rest[i] == xs[i];
    }
  }

  /** Nothing is collected exactly when every input is rejected. */
  lemma {:induction false} CollectEmpty<T, U>(xs: seq<T>, f: T -> Option<U>)
    ensures Collect(xs, f) == [] <==> forall i :: 0 <= i < |xs| ==> f(xs[i]).None?
    decreases |xs|
  {
    if xs != [] {
      var rest := xs[..|xs| - 1];
      CollectEmpty(rest, f);
      assert forall i :: 0 <= i < |rest| ==> rest[i] == xs[i];
    }
  }

  // ---------------------------------------------------------------
  // Devpost (Selenium page, scrolled until stagnant)
  // ---------------------------------------------------------------

  /** <a class="flex-row">: its href attribute may be absent. */
  datatype LinkTag = LinkTag(href: Option<string>)

  /** One div.hackathon-tile: the texts of h3.mb-4 and
      div.submission-period, and the link tag, each when found. */
  datatype Tile = Tile(title: Option<string>, period: Option<string>, link: Option<LinkTag>)

  /** What the browser session shows: the height read before scrolling,
      one observation per scroll round, and the tiles of the final page. */
  datatype DevpostPage = DevpostPage(initialHeight: int, observations: seq<Observation>, tiles: seq<Tile>)

  /** The record one tile yields. A tile lacking its title, period or
      link tag is skipped; a link tag without href makes
      `None.startswith` raise, and the per-tile handler skips it too. */
  function DevpostTile(t: Tile): (r: Option<Record>)
    ensures r.Some? <==> t.title.Some? && t.period.Some? && t.link.Some? && t.link.value.href.Some?
    ensures r.Some? ==> r.value.title == t.title && r.value.date == t.period.value
    ensures r.Some? ==> r.value.link == Some(ResolveLink(DEVPOST_HOST, t.link.value.href.value))
    ensures r.Some? ==> r.value.link.Some? && !StartsWithSlash(r.value.link.value)
  {
    if t.title.None? || t.period.None? || t.link.None? then None
    else
      match t.link.value.href
      case None => None
      case Some(href) => Some(Record(t.title, t.period.value, Some(ResolveLink(DEVPOST_HOST, href))))
  }

  /** The Devpost future: None while the scroll loop has not stopped
      within the observations given (the real loop keeps polling). */
  function DevpostRun(page: Browser<DevpostPage>): (run: Option<Outcome>)
    ensures run == Some(Raised) <==> page.BrowserFailed?
    ensures run.None? <==> page.Rendered? && Scroll(Start(page.page.initialHeight), page.page.observations).consumed == |page.page.observations|
                                         && Scroll(Start(page.page.initialHeight), page.page.observations).state.stagnant < STAGNANT_LIMIT
  {
    match page
    case BrowserFailed => Some(Raised)
    case Rendered(p) =>
      ScrollStopsOnlyAtLimit(Start(p.initialHeight), p.observations);
      if Scroll(Start(p.initialHeight), p.observations).state.stagnant >= STAGNANT_LIMIT
      then Some(Completed(Collect(p.tiles, DevpostTile)))
      else None
  }

  /** Every Devpost record comes from a complete tile and has a link that
      does not begin with "/". */
  lemma DevpostRecordsComplete(tiles: seq<Tile>, r: Record)
    ensures r in Collect(tiles, DevpostTile) <==> exists i :: 0 <= i < |tiles| && DevpostTile(tiles[i]) == Some(r)
    ensures r in Collect(tiles, DevpostTile) ==> r.title.Some? && r.link.Some? && !StartsWithSlash(r.link.value)
  {
    CollectMembership(tiles, DevpostTile, r);
  }

  /** scrape_devpost. */
  method ScrapeDevpost(page: Browser<DevpostPage>) returns (run: Option<Outcome>)
    ensures run == DevpostRun(page)
  {
    match page
    case BrowserFailed =>
      run := Some(Raised);
    case Rendered(p) =>
      var tileCount, rounds, stopped := FastScrollDevpost(p.initialHeight, p.observations);
      if !stopped {
        run := None;
        return;
      }
      var hackathons: seq<Record> := [];
      for i := 0 to |p.tiles|
        invariant hackathons == Collect(p.tiles[..i], DevpostTile)
      {
        assert p.tiles[..i + 1][..i] == p.tiles[..i];
        var tile := p.tiles[i];
        if tile.title.None? || tile.period.None? || tile.link.None? {
          continue;
        }
        if tile.link.value.href.None? {
          continue;
        }
        var link := tile.link.value.href.value;
        if StartsWithSlash(link) {
          link := DEVPOST_HOST + link;
        }
        hackathons := hackathons + [Record(tile.title, tile.period.value, Some(link))];
      }
      assert p.tiles[..|p.tiles|] == p.tiles;
      run := Some(Completed(hackathons));
  }

  // ---------------------------------------------------------------
  // Devfolio (GraphQL API)
  // ---------------------------------------------------------------

  /** A JSON object member: absent (h[key] raises KeyError), null, or text. */
  datatype JsonField = Absent | Null | Text(text: string)

  /** One element of data["data"]["hackathons"]. */
  datatype DevfolioHackathon = DevfolioHackathon(title: JsonField, slug: JsonField, startsAt: JsonField, endsAt: JsonField)

  /** A present member inside an f-string: null prints as "None". */
  function Render(f: JsonField): (s: string)
    requires !f.Absent?
    ensures f.Text? ==> s == f.text
    ensures f.Null? ==> s == "None"
  {
    if f.Null? then "None" else f.text
  }

  /** A present member stored as a value: null stays None. */
  function Value(f: JsonField): (o: Option<string>)
    requires !f.Absent?
    ensures o.None? <==> f.Null?
    ensures Show(o) == Render(f)
  {
    if f.Null? then None else Some(f.text)
  }

  predicate HasAllKeys(h: DevfolioHackathon)
  {
    !h.title.Absent? && !h.slug.Absent? && !h.startsAt.Absent? && !h.endsAt.Absent?
  }

  /** The record one hackathon yields, or None when a key lookup raises. */
  function DevfolioRecord(h: DevfolioHackathon): (r: Option<Record>)
    ensures r.Some? <==> HasAllKeys(h)
    ensures r.Some? ==> r.value.title == Value(h.title)
    ensures r.Some? ==> r.value.link.Some? && DEVFOLIO_HACKATHONS <= r.value.link.value
                        && r.value.link.value[|DEVFOLIO_HACKATHONS|..] == Render(h.slug)
  {
    if !HasAllKeys(h) then None
    else Some(Record(Value(h.title), DateRange(Render(h.startsAt), Render(h.endsAt)), Some(DEVFOLIO_HACKATHONS + Render(h.slug))))
  }

  /** A Devfolio date splits back into starts_at and ends_at whenever
      starts_at holds no arrow. */
  lemma DevfolioDateRoundTrip(h: DevfolioHackathon)
    requires HasAllKeys(h) && '→' !in Render(h.startsAt)
    ensures SplitDateRange(DevfolioRecord(h).value.date) == Some((Render(h.startsAt), Render(h.endsAt)))
  {
    DateRangeRoundTrip(Render(h.startsAt), Render(h.endsAt));
  }

  /** The loop over all hackathons: the full list, or None when some
      element lacks a key (then the partial list is abandoned). */
  function DevfolioAll(items: seq<DevfolioHackathon>): (r: Option<seq<Record>>)
    ensures r.Some? <==> forall i :: 0 <= i < |items| ==> HasAllKeys(items[i])
    ensures r.Some? ==> |r.value| == |items| &&
                        forall i :: 0 <= i < |items| ==> DevfolioRecord(items[i]) == Some(r.value[i])
    decreases |items|
  {
    if items == [] then Some([])
    else
      var rest := items[..|items| - 1];
      assert forall i :: 0 <= i < |rest| ==> rest[i] == items[i];
      match DevfolioAll(rest)
      case None => None
      case Some(rs) =>
        match DevfolioRecord(items[|items| - 1])
        case None => None
        case Some(r) => Some(rs + [r])
  }

  /** One more round of the Devfolio loop: a complete element appends its
      record, an element missing a key abandons the list. */
  lemma DevfolioAllExtend(items: seq<DevfolioHackathon>, i: nat)
    requires i < |items|
    ensures DevfolioAll(items[..i]).Some? && HasAllKeys(items[i]) ==>
              DevfolioAll(items[..i + 1]) == Some(DevfolioAll(items[..i]).value + [DevfolioRecord(items[i]).value])
    ensures !HasAllKeys(items[i]) ==> DevfolioAll(items[..i + 1]).None?
  {
    assert items[..i + 1][..i] == items[..i];
  }

  /** scrape_devfolio's result: every failure, including one missing key
      in any element, becomes the empty list. */
  function DevfolioResult(resp: Api<seq<DevfolioHackathon>>): (rs: seq<Record>)
    ensures resp.Unavailable? ==> rs == []
    ensures resp.Body? && (exists i :: 0 <= i < |resp.body| && !HasAllKeys(resp.body[i])) ==> rs == []
    ensures resp.Body? && (forall i :: 0 <= i < |resp.body| ==> HasAllKeys(resp.body[i])) ==>
              |rs| == |resp.body| && forall i :: 0 <= i < |resp.body| ==> DevfolioRecord(resp.body[i]) == Some(rs[i])
  {
    match resp
    case Unavailable => []
    case Body(items) =>
      match DevfolioAll(items)
      case None => []
      case Some(rs) => rs
  }

  /** scrape_devfolio. */
  method ScrapeDevfolio(resp: Api<seq<DevfolioHackathon>>) returns (hackathons: seq<Record>)
    ensures hackathons == DevfolioResult(resp)
  {
    match resp
    case Unavailable =>
      return [];
    case Body(items) =>
      hackathons := [];
      for i := 0 to |items|
        invariant DevfolioAll(items[..i]) == Some(hackathons)
      {
        DevfolioAllExtend(items, i);
        var h := items[i];
        if h.slug.Absent? || h.startsAt.Absent? || h.endsAt.Absent? || h.title.Absent? {
          return [];
        }
        var link := DEVFOLIO_HACKATHONS + Render(h.slug);
        var date := Render(h.startsAt) + ARROW + Render(h.endsAt);
        hackathons := hackathons + [Record(Value(h.title), date, Some(link))];
      }
      assert items[..|items|] == items;
  }

  // ---------------------------------------------------------------
  // MLH (JSON API)
  // ---------------------------------------------------------------

  /** One event read with dict.get: a missing or null member is None. */
  datatype MlhEvent = MlhEvent(name: Option<string>, startDate: Option<string>, endDate: Option<string>, eventLink: Option<string>)

  /** The decoded body; events is None when the "events" key is absent. */
  datatype MlhBody = MlhBody(events: Option<seq<MlhEvent>>)

  /** The record one event yields: name and link as they are, the date
      from both ends rendered as text. */
  function MlhRecord(e: MlhEvent): (r: Record)
    ensures r.title == e.name && r.link == e.eventLink
  {
    Record(e.name, DateRange(Show(e.startDate), Show(e.endDate)), e.eventLink)
  }

  /** An MLH date splits back into the rendered start and end dates
      whenever the start holds no arrow. */
  lemma MlhDateRoundTrip(e: MlhEvent)
    requires '→' !in Show(e.startDate)
    ensures SplitDateRange(MlhRecord(e).date) == Some((Show(e.startDate), Show(e.endDate)))
  {
    DateRangeRoundTrip(Show(e.startDate), Show(e.endDate));
  }

  /** The loop over the events: one record per event, in order. */
  function MlhRecords(events: seq<MlhEvent>): (rs: seq<Record>)
    ensures |rs| == |events|
    ensures forall i :: 0 <= i < |events| ==> rs[i] == MlhRecord(events[i])
    decreases |events|
  {
    if events == [] then []
    else
      var rest := events[..|events| - 1];
      var rs := MlhRecords(rest);
      assert forall i :: 0 <= i < |rest| ==> rest[i] == events[i] && rs[i] == MlhRecord(events[i]);
      rs + [MlhRecord(events[|events| - 1])]
  }

  /** scrape_mlh's result: data.get("events", []) makes a missing list
      empty, and every failure becomes the empty list. */
  function MlhResult(resp: Api<MlhBody>): (rs: seq<Record>)
    ensures resp.Unavailable? || resp.body.events.None? ==> rs == []
    ensures resp.Body? && resp.body.events.Some? ==>
              |rs| == |resp.body.events.value| && forall i :: 0 <= i < |rs| ==> rs[i] == MlhRecord(resp.body.events.value[i])
  {
    match resp
    case Unavailable => []
    case Body(body) =>
      match body.events
      case None => []
      case Some(events) => MlhRecords(events)
  }

  /** scrape_mlh. */
  method ScrapeMlh(resp: Api<MlhBody>) returns (hackathons: seq<Record>)
    ensures hackathons == MlhResult(resp)
  {
    if resp.Unavailable? {
      return [];
    }
    var events := if resp.body.events.Some? then resp.body.events.value else [];
    hackathons := [];
    for i := 0 to |events|
      invariant hackathons == MlhRecords(events[..i])
    {
      assert events[..i + 1][..i] == events[..i];
      var event := events[i];
      hackathons := hackathons + [Record(event.name, Show(event.startDate) + ARROW + Show(event.endDate), event.eventLink)];
    }
    assert events[..|events|] == events;
  }

  // ---------------------------------------------------------------
  // Hackathon.com (Selenium page)
  // ---------------------------------------------------------------

  /** One div.date--start or div.date--end: its three sub-divs' texts. */
  datatype DateBlock = DateBlock(title: Option<string>, day: Option<string>, month: Option<string>)

  /** a.ht-eb-card__title: its text and its href attribute, if any. */
  datatype TitleAnchor = TitleAnchor(text: string, href: Option<string>)

  /** One div.ht-eb-card. */
  datatype Card = Card(anchor: Option<TitleAnchor>, dates: seq<DateBlock>)

  /** "title day month" for a block whose three parts are all present. */
  function BlockText(b: DateBlock): (r: Option<string>)
    ensures r.Some? <==> b.title.Some? && b.day.Some? && b.month.Some?
    ensures r.Some? ==> |r.value| >= 2
    ensures r.Some? ==> r.value == JoinSpace([b.title.value, b.day.value, b.month.value])
  {
    if b.title.Some? && b.day.Some? && b.month.Some? then
      var parts := [b.title.value, b.day.value, b.month.value];
      assert parts[..2][..1] == [b.title.value];
      assert JoinSpace(parts[..2]) == b.title.value + " " + b.day.value;
      Some(b.title.value + " " + b.day.value + " " + b.month.value)
    else None
  }

  /** " ".join(parts). */
  function JoinSpace(parts: seq<string>): (s: string)
    ensures |parts| == 1 ==> s == parts[0]
    ensures (forall i :: 0 <= i < |parts| ==> parts[i] != []) ==> (s == [] <==> parts == [])
    decreases |parts|
  {
    if parts == [] then ""
    else if |parts| == 1 then parts[0]
    else JoinSpace(parts[..|parts| - 1]) + " " + parts[|parts| - 1]
  }

  /** Joining two non-empty lists of parts puts one space between their
      joins. */
  lemma {:induction false} JoinSpaceAppend(a: seq<string>, b: seq<string>)
    requires a != [] && b != []
    ensures JoinSpace(a + b) == JoinSpace(a) + " " + JoinSpace(b)
    decreases |b|
  {
    var ab := a + b;
    var last := b[|b| - 1];
    assert ab[|ab| - 1] == last;
    if |b| == 1 {
      assert ab[..|ab| - 1] == a;
      assert JoinSpace(b) == last;
    } else {
      var b' := b[..|b| - 1];
      assert ab[..|ab| - 1] == a + b';
      calc {
        JoinSpace(ab);
        JoinSpace(a + b') + " " + last;
        { JoinSpaceAppend(a, b'); }
        JoinSpace(a) + " " + JoinSpace(b') + " " + last;
        JoinSpace(a) + " " + (JoinSpace(b') + " " + last);
        JoinSpace(a) + " " + JoinSpace(b);
      }
    }
  }

  /** The loop over a concatenation collects the two parts in turn. */
  lemma {:induction false} CollectAppend<T, U>(a: seq<T>, b: seq<T>, f: T -> Option<U>)
    ensures Collect(a + b, f) == Collect(a, f) + Collect(b, f)
    decreases |b|
  {
    if b == [] {
      assert a + b == a;
    } else {
      var b' := b[..|b| - 1];
      assert (a + b)[..|a + b| - 1] == a + b';
      CollectAppend(a, b', f);
    }
  }

  /** A card's date: the complete blocks, space-joined. */
  function CardDate(dates: seq<DateBlock>): (date: string)
  {
    JoinSpace(Collect(dates, BlockText))
  }

  /** A card with one complete block is dated "title day month". */
  lemma CardDateOfBlock(b: DateBlock)
    requires b.title.Some? && b.day.Some? && b.month.Some?
    ensures CardDate([b]) == b.title.value + " " + b.day.value + " " + b.month.value
  {
    assert [b][..0] == [];
  }

  /** Dates of consecutive blocks are joined by one space when both runs
      hold a complete block; a run without one adds nothing. */
  lemma CardDateAppend(d1: seq<DateBlock>, d2: seq<DateBlock>)
    ensures CardDate(d1) != [] && CardDate(d2) != [] ==> CardDate(d1 + d2) == CardDate(d1) + " " + CardDate(d2)
    ensures CardDate(d2) == [] ==> CardDate(d1 + d2) == CardDate(d1)
    ensures CardDate(d1) == [] ==> CardDate(d1 + d2) == CardDate(d2)
  {
    var p1, p2 := Collect(d1, BlockText), Collect(d2, BlockText);
    CollectAppend(d1, d2, BlockText);
    CardDateEmptyIff(d1);
    CardDateEmptyIff(d2);
    CollectEmpty(d1, BlockText);
    CollectEmpty(d2, BlockText);
    if p1 != [] && p2 != [] {
      JoinSpaceAppend(p1, p2);
    } else if p2 == [] {
      assert p1 + p2 == p1;
    } else {
      assert p1 + p2 == p2;
    }
  }

  /** The date is empty exactly when no block of the card is complete. */
  lemma CardDateEmptyIff(dates: seq<DateBlock>)
    ensures CardDate(dates) == [] <==> forall i :: 0 <= i < |dates| ==> BlockText(dates[i]).None?
  {
    var parts := Collect(dates, BlockText);
    forall k | 0 <= k < |parts|
      ensures parts[k] != []
    {
      CollectMembership(dates, BlockText, parts[k]);
    }
    CollectEmpty(dates, BlockText);
  }

  /** The record one card yields; a card without title anchor is skipped,
      and so is one whose anchor has no href (`None.startswith` raises). */
  function CardRecord(c: Card): (r: Option<Record>)
    ensures r.Some? <==> c.anchor.Some? && c.anchor.value.href.Some?
    ensures r.Some? ==> r.value.title == Some(c.anchor.value.text) && r.value.date == CardDate(c.dates)
    ensures r.Some? ==> r.value.link == Some(ResolveLink(HACKATHON_COM_HOST, c.anchor.value.href.value))
    ensures r.Some? ==> r.value.link.Some? && !StartsWithSlash(r.value.link.value)
  {
    match c.anchor
    case None => None
    case Some(a) =>
      match a.href
      case None => None
      case Some(href) => Some(Record(Some(a.text), CardDate(c.dates), Some(ResolveLink(HACKATHON_COM_HOST, href))))
  }

  /** The Hackathon.com future. */
  function HackathonComRun(page: Browser<seq<Card>>): (o: Outcome)
    ensures o.Raised? <==> page.BrowserFailed?
  {
    match page
    case BrowserFailed => Raised
    case Rendered(cards) => Completed(Collect(cards, CardRecord))
  }

  /** Every Hackathon.com record comes from a card with a linked title
      anchor and has a link that does not begin with "/". */
  lemma HackathonComRecordsComplete(cards: seq<Card>, r: Record)
    ensures r in Collect(cards, CardRecord) <==> exists i :: 0 <= i < |cards| && CardRecord(cards[i]) == Some(r)
    ensures r in Collect(cards, CardRecord) ==> r.title.Some? && r.link.Some? && !StartsWithSlash(r.link.value)
  {
    CollectMembership(cards, CardRecord, r);
  }

  /** scrape_hackathon_com. */
  method ScrapeHackathonCom(page: Browser<seq<Card>>) returns (outcome: Outcome)
    ensures outcome == HackathonComRun(page)
  {
    if page.BrowserFailed? {
      return Raised;
    }
    var cards := page.page;
    var hackathons: seq<Record> := [];
    for i := 0 to |cards|
      invariant hackathons == Collect(cards[..i], CardRecord)
    {
      assert cards[..i + 1][..i] == cards[..i];
      var card := cards[i];
      if card.anchor.None? {
        continue;
      }
      var title := card.anchor.value.text;
      if card.anchor.value.href.None? {
        continue;
      }
      var link := card.anchor.value.href.value;
      if StartsWithSlash(link) {
        link := HACKATHON_COM_HOST + link;
      }
      var dateStrs: seq<string> := [];
      for j := 0 to |card.dates|
        invariant dateStrs == Collect(card.dates[..j], BlockText)
      {
        assert card.dates[..j + 1][..j] == card.dates[..j];
        var d := card.dates[j];
        if d.title.Some? && d.day.Some? && d.month.Some? {
          dateStrs := dateStrs + [d.title.value + " " + d.day.value + " " + d.month.value];
        }
      }
      assert card.dates[..|card.dates|] == card.dates;
      var date := JoinSpace(dateStrs);
      hackathons := hackathons + [Record(Some(title), date, Some(link))];
    }
    assert cards[..|cards|] == cards;
    outcome := Completed(hackathons);
  }
}
