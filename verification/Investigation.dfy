/** Building an investigation bundle: from one selector, follow every correlation through both services' audit
    logs until nothing new turns up or a limit is reached. */
module Investigation {
  import opened Collections

  datatype Service = ControlPlane | GithubController

  datatype Field = DeliveryId | ControllerId | ActionId | RuntimeEventId | SessionId | MessageId | WriteId | TriggerRef

  datatype Link = Link(field: Field, value: string)

  datatype Record = Record(eventId: string, correlation: map<Field, string>, body: string)

  /** A record as one service holds it. */
  datatype Entry = Entry(service: Service, record: Record)

  datatype GapKind = QueryFailed | NoEvents | ExpansionLimited | EventLimit

  datatype Gap = Gap(service: Option<Service>, kind: GapKind, correlation: Option<Link>)

  datatype ReadResult = ReadResult(records: seq<Record>, ok: bool)

  const SERVICES := [ControlPlane, GithubController]
  const FIELDS := [DeliveryId, ControllerId, ActionId, RuntimeEventId, SessionId, MessageId, WriteId, TriggerRef]
  const MAX_CORRELATION_QUERIES := 128
  const MAX_BUNDLE_EVENTS := 20000

  predicate Matches(r: Record, link: Link) {
    link.field in r.correlation && r.correlation[link.field] == link.value
  }

  function LinksAmong(r: Record, fields: seq<Field>): (links: seq<Link>)
    ensures forall l :: l in links <==> l.field in fields && Matches(r, l)
  {
    if fields == [] then []
    else (if fields[0] in r.correlation then [Link(fields[0], r.correlation[fields[0]])] else [])
         + LinksAmong(r, fields[1..])
  }

  lemma AllFields()
    ensures forall f: Field :: f in FIELDS
  {
    forall f: Field ensures f in FIELDS {
      match f
      case DeliveryId => assert FIELDS[0] == f;
      case ControllerId => assert FIELDS[1] == f;
      case ActionId => assert FIELDS[2] == f;
      case RuntimeEventId => assert FIELDS[3] == f;
      case SessionId => assert FIELDS[4] == f;
      case MessageId => assert FIELDS[5] == f;
      case WriteId => assert FIELDS[6] == f;
      case TriggerRef => assert FIELDS[7] == f;
    }
  }

  /** All eight correlations a record carries. */
  function CorrelationLinks(r: Record): (links: seq<Link>)
    ensures forall l :: l in links <==> Matches(r, l)
  {
    AllFields();
    LinksAmong(r, FIELDS)
  }

  // ---- what a complete bundle is ----

  /** Holds every match of the selector and, with an entry, every entry sharing a correlation with it. */
  ghost predicate Closed(entries: set<Entry>, logs: set<Entry>, selector: Link) {
    && (forall e :: e in logs && Matches(e.record, selector) ==> e in entries)
    && (forall e, d, link :: e in entries && d in logs && Matches(e.record, link) && Matches(d.record, link) ==>
          d in entries)
  }

  /** Nothing in the bundle could be left out of a closed set. */
  ghost predicate Necessary(entries: set<Entry>, logs: set<Entry>, selector: Link) {
    forall closed: set<Entry> :: Closed(closed, logs, selector) ==> entries <= closed
  }

  // ---- what the services promise ----

  predicate UniqueIds(logs: set<Entry>) {
    forall a, b :: a in logs && b in logs && a.service == b.service && a.record.eventId == b.record.eventId ==> a == b
  }

  /** A read returns only matching records of that service, and all of them unless it reports an error. */
  ghost predicate Faithful(fetch: (Service, Link) -> ReadResult, logs: set<Entry>) {
    forall s, l ::
      && (forall r :: r in fetch(s, l).records ==> Entry(s, r) in logs && Matches(r, l))
      && (fetch(s, l).ok ==> forall e :: e in logs && e.service == s && Matches(e.record, l) ==>
            e.record in fetch(s, l).records)
  }

  // ---- adding what one read returned ----

  type Bundle = map<(Service, string), Record>

  ghost function Entries(events: Bundle): set<Entry> {
    set k | k in events :: Entry(k.0, events[k])
  }

  predicate KeyedByIds(events: Bundle) {
    forall k :: k in events ==> events[k].eventId == k.1
  }

  ghost predicate CoversLinks(links: seq<Link>, r: Record) {
    forall l :: Matches(r, l) ==> l in links
  }

  /** The bundle grew only by the given records of one service, and every correlation of a new record is pending. */
  ghost predicate Added(service: Service, records: seq<Record>, events: Bundle, events': Bundle, pending: seq<Link>,
                        pending': seq<Link>) {
    && |events'| <= MAX_BUNDLE_EVENTS && KeyedByIds(events')
    && (forall k :: k in events ==> k in events' && events'[k] == events[k])
    && (forall k :: k in events' && k !in events ==>
          k.0 == service && events'[k] in records && CoversLinks(pending', events'[k]))
    && pending <= pending'
    && (forall l :: l in pending' && l !in pending ==> exists k :: k in events' && Matches(events'[k], l))
    && (|events'| > |events| || (events' == events && pending' == pending))
  }

  predicate HasAll(service: Service, records: seq<Record>, events: Bundle) {
    forall r :: r in records ==> (service, r.eventId) in events
  }

  method AddEvents(service: Service, records: seq<Record>, events: Bundle, pending: seq<Link>)
    returns (events': Bundle, pending': seq<Link>, limit: bool)
    requires |events| <= MAX_BUNDLE_EVENTS && KeyedByIds(events)
    ensures Added(service, records, events, events', pending, pending')
    ensures limit <==> !HasAll(service, records, events')
    ensures limit ==> |events'| == MAX_BUNDLE_EVENTS
  {
    hide Added, HasAll, KeyedByIds;
    events', pending', limit := events, pending, false;
    AddedNothing(service, records, events, pending);
    for i := 0 to |records|
      invariant Added(service, records, events, events', pending, pending') && |events'| <= MAX_BUNDLE_EVENTS
      invariant if limit then |events'| == MAX_BUNDLE_EVENTS && Lacks(service, records, events')
                else HasAll(service, records[..i], events')
    {
      var key := (service, records[i].eventId);
      HasOneMore(service, records, i, events');
      if key !in events' {
        if |events'| >= MAX_BUNDLE_EVENTS {
          limit := true;
          assert records[i] in records;
        } else {
          var links := CorrelationLinks(records[i]);
          AddRecord(service, records, events, events', pending, pending', records[i]);
          events' := events'[key := records[i]];
          pending' := pending' + links;
        }
      }
    }
    assert records[..|records|] == records;
    LacksIsNotAll(service, records, events');
  }

  ghost predicate Lacks(service: Service, records: seq<Record>, events: Bundle) {
    exists r :: r in records && (service, r.eventId) !in events
  }

  lemma LacksIsNotAll(service: Service, records: seq<Record>, events: Bundle)
    ensures Lacks(service, records, events) <==> !HasAll(service, records, events)
  {
  }

  lemma AddedNothing(service: Service, records: seq<Record>, events: Bundle, pending: seq<Link>)
    requires |events| <= MAX_BUNDLE_EVENTS && KeyedByIds(events)
    ensures Added(service, records, events, events, pending, pending) && HasAll(service, records[..0], events)
  {
  }

  /** Having all of a prefix and the next record is having all of the longer prefix, also once more is added. */
  lemma HasOneMore(service: Service, records: seq<Record>, i: nat, events: Bundle)
    requires i < |records|
    ensures HasAll(service, records[..i], events) && (service, records[i].eventId) in events ==>
              HasAll(service, records[..i + 1], events)
    ensures HasAll(service, records[..i], events) ==>
              HasAll(service, records[..i + 1], events[(service, records[i].eventId) := records[i]])
  {
    assert records[..i + 1] == records[..i] + [records[i]];
  }

  lemma AddRecord(service: Service, records: seq<Record>, e: Bundle, e1: Bundle, p: seq<Link>, p1: seq<Link>, r: Record)
    requires Added(service, records, e, e1, p, p1) && r in records && (service, r.eventId) !in e1
             && |e1| < MAX_BUNDLE_EVENTS
    ensures Added(service, records, e, e1[(service, r.eventId) := r], p, p1 + CorrelationLinks(r))
    ensures |e1[(service, r.eventId) := r]| == |e1| + 1
  {
    var key := (service, r.eventId);
    var e2, p2 := e1[key := r], p1 + CorrelationLinks(r);
    hide CorrelationLinks;
    forall l | l in p2 && l !in p ensures exists k :: k in e2 && Matches(e2[k], l) {
      if l in p1 {
        var k :| k in e1 && Matches(e1[k], l);
        assert k in e2 && e2[k] == e1[k];
      } else {
        assert Matches(e2[key], l);
      }
    }
    assert forall k :: k in e1 ==> k in e2 && e2[k] == e1[k];
  }

  // ---- asking both services for one correlation ----

  predicate Reported(gaps: seq<Gap>, kind: GapKind) {
    exists i :: 0 <= i < |gaps| && gaps[i].kind == kind
  }

  /** What querying `link` may have done to the bundle. */
  ghost predicate Expanded(events: Bundle, events': Bundle, pending: seq<Link>, pending': seq<Link>, link: Link,
                           fetch: (Service, Link) -> ReadResult) {
    && |events'| <= MAX_BUNDLE_EVENTS && KeyedByIds(events')
    && (forall k :: k in events ==> k in events' && events'[k] == events[k])
    && (forall k :: k in events' && k !in events ==>
          events'[k] in fetch(k.0, link).records && CoversLinks(pending', events'[k]))
    && pending <= pending'
    && (forall l :: l in pending' && l !in pending ==> exists k :: k in events' && Matches(events'[k], l))
    && (|events'| > |events| || (events' == events && pending' == pending))
  }

  lemma ExpandMore(e: Bundle, e1: Bundle, e2: Bundle, p: seq<Link>, p1: seq<Link>, p2: seq<Link>, link: Link,
                   fetch: (Service, Link) -> ReadResult, s: Service)
    requires Expanded(e, e1, p, p1, link, fetch) && Added(s, fetch(s, link).records, e1, e2, p1, p2)
    ensures Expanded(e, e2, p, p2, link, fetch)
  {
    forall l | l in p2 && l !in p ensures exists k :: k in e2 && Matches(e2[k], l) {
      if l in p1 {
        var k :| k in e1 && Matches(e1[k], l);
        assert k in e2 && Matches(e2[k], l);
      }
    }
  }

  /** The gap one read leaves, if any. */
  function GapOf(service: Service, link: Link, result: ReadResult): seq<Gap> {
    if !result.ok then [Gap(Some(service), QueryFailed, Some(link))]
    else if result.records == [] then [Gap(Some(service), NoEvents, Some(link))]
    else []
  }

  lemma ReportedMore(gaps: seq<Gap>, more: seq<Gap>, kind: GapKind)
    ensures Reported(gaps + more, kind) <==> Reported(gaps, kind) || Reported(more, kind)
  {
    if Reported(gaps, kind) { var n :| 0 <= n < |gaps| && gaps[n].kind == kind; assert (gaps + more)[n].kind == kind; }
    if Reported(more, kind) { var n :| 0 <= n < |more|
                              && more[n].kind == kind; assert (gaps + more)[|gaps| + n].kind == kind; }
  }

  /** The audit interfaces of both services, which note every read made of them. */
  class AuditReader {
    const fetch: (Service, Link) -> ReadResult
    var trail: seq<(Service, Link)>

    constructor (fetch: (Service, Link) -> ReadResult)
      ensures this.fetch == fetch && trail == []
    {
      this.fetch, trail := fetch, [];
    }

    method Fetch(service: Service, link: Link) returns (result: ReadResult)
      modifies this
      ensures result == fetch(service, link) && trail == old(trail) + [(service, link)]
    {
      trail := trail + [(service, link)];
      result := fetch(service, link);
    }
  }

  function BothReads(link: Link): seq<(Service, Link)> {
    [(ControlPlane, link), (GithubController, link)]
  }

  function BothGaps(link: Link, fetch: (Service, Link) -> ReadResult): seq<Gap> {
    GapOf(ControlPlane, link, fetch(ControlPlane, link)) + GapOf(GithubController, link, fetch(GithubController, link))
  }

  /** One read and what it adds to a bundle that this link may already have expanded. */
  method QueryOne(service: Service, link: Link, reader: AuditReader, ghost first: Bundle, events: Bundle,
                  ghost waiting: seq<Link>, pending: seq<Link>)
    returns (events': Bundle, pending': seq<Link>, found: seq<Gap>, limit: bool)
    requires |events| <= MAX_BUNDLE_EVENTS && KeyedByIds(events)
    requires Expanded(first, events, waiting, pending, link, reader.fetch)
    modifies reader
    ensures reader.trail == old(reader.trail) + [(service, link)]
    ensures Expanded(first, events', waiting, pending', link, reader.fetch)
    ensures |events'| <= MAX_BUNDLE_EVENTS && KeyedByIds(events')
    ensures found == GapOf(service, link, reader.fetch(service, link))
    ensures limit <==> !HasAll(service, reader.fetch(service, link).records, events')
    ensures limit ==> |events'| == MAX_BUNDLE_EVENTS
    ensures |events| == MAX_BUNDLE_EVENTS ==> events' == events
    ensures forall t, rs :: HasAll(t, rs, events) ==> HasAll(t, rs, events')
  {
    hide Added, Expanded, HasAll;
    var result := reader.Fetch(service, link);
    found := GapOf(service, link, result);
    events', pending', limit := AddEvents(service, result.records, events, pending);
    ExpandMore(first, events, events', waiting, pending, pending', link, reader.fetch, service);
    StillHasAll(events, events', service, result.records, pending, pending');
    FullStays(service, result.records, events, events', pending, pending');
    ExpandedBounds(first, events', waiting, pending', link, reader.fetch);
  }

  lemma FullStays(service: Service, records: seq<Record>, e: Bundle, e': Bundle, p: seq<Link>, p': seq<Link>)
    requires Added(service, records, e, e', p, p')
    ensures |e| == MAX_BUNDLE_EVENTS ==> e' == e
  {
  }

  /** Some service returned a record for the link that is not in the bundle. */
  ghost predicate Misses(events: Bundle, link: Link, fetch: (Service, Link) -> ReadResult) {
    exists s :: !HasAll(s, fetch(s, link).records, events)
  }

  method QueryServices(link: Link, reader: AuditReader, events: Bundle, pending: seq<Link>, gaps: seq<Gap>)
    returns (events': Bundle, pending': seq<Link>, gaps': seq<Gap>, limit: bool)
    requires |events| <= MAX_BUNDLE_EVENTS && KeyedByIds(events)
    modifies reader
    ensures reader.trail == old(reader.trail) + BothReads(link)
    ensures Expanded(events, events', pending, pending', link, reader.fetch)
    ensures gaps' == gaps + BothGaps(link, reader.fetch)
    ensures limit <==> Misses(events', link, reader.fetch)
    ensures limit ==> |events'| == MAX_BUNDLE_EVENTS
  {
    hide Expanded, HasAll, KeyedByIds, GapsOver, ReadsOver, Held, BothGaps, BothReads, Misses;
    ghost var fetch := reader.fetch;
    events', pending', gaps', limit := events, pending, gaps, false;
    ExpandedRefl(events, pending, link, fetch);
    OverNone(link, fetch, events);
    for i := 0 to |SERVICES|
      invariant reader.trail == old(reader.trail) + ReadsOver(SERVICES[..i], link)
      invariant Expanded(events, events', pending, pending', link, fetch)
      invariant |events'| <= MAX_BUNDLE_EVENTS && KeyedByIds(events')
      invariant gaps' == gaps + GapsOver(SERVICES[..i], link, fetch)
      invariant if limit then |events'| == MAX_BUNDLE_EVENTS && Misses(events', link, fetch)
                else Held(SERVICES[..i], link, fetch, events')
    {
      ghost var before := events';
      var found, more;
      events', pending', found, more := QueryOne(SERVICES[i], link, reader, events, events', pending, pending');
      OverMore(SERVICES[..i], SERVICES[i], link, fetch, before, events');
      if more { MissesOne(SERVICES[i], events', link, fetch); }
      assert SERVICES[..i + 1] == SERVICES[..i] + [SERVICES[i]];
      gaps', limit := gaps' + found, limit || more;
    }
    assert SERVICES[..|SERVICES|] == SERVICES;
    OverBoth(link, fetch, events');
  }

  lemma MissesOne(s: Service, events: Bundle, link: Link, fetch: (Service, Link) -> ReadResult)
    requires !HasAll(s, fetch(s, link).records, events)
    ensures Misses(events, link, fetch)
  {
  }

  function ReadsOver(services: seq<Service>, link: Link): seq<(Service, Link)> {
    if services == [] then [] else ReadsOver(services[..|services| - 1], link) + [(services[|services| - 1], link)]
  }

  function GapsOver(services: seq<Service>, link: Link, fetch: (Service, Link) -> ReadResult): seq<Gap> {
    if services == [] then []
    else
      var last := services[|services| - 1];
      GapsOver(services[..|services| - 1], link, fetch) + GapOf(last, link, fetch(last, link))
  }

  /** What these services returned is in the bundle. */
  ghost predicate Held(services: seq<Service>, link: Link, fetch: (Service, Link) -> ReadResult, events: Bundle) {
    forall s :: s in services ==> HasAll(s, fetch(s, link).records, events)
  }

  lemma OverNone(link: Link, fetch: (Service, Link) -> ReadResult, events: Bundle)
    ensures ReadsOver(SERVICES[..0], link) == [] && GapsOver(SERVICES[..0], link, fetch) == []
    ensures Held(SERVICES[..0], link, fetch, events)
  {
  }

  lemma OverMore(services: seq<Service>, s: Service, link: Link, fetch: (Service, Link) -> ReadResult, e: Bundle,
                 e': Bundle)
    requires forall t, rs :: HasAll(t, rs, e) ==> HasAll(t, rs, e')
    ensures ReadsOver(services + [s], link) == ReadsOver(services, link) + [(s, link)]
    ensures GapsOver(services + [s], link, fetch) == GapsOver(services, link, fetch) + GapOf(s, link, fetch(s, link))
    ensures Held(services, link, fetch, e) && HasAll(s, fetch(s, link).records, e') ==>
              Held(services + [s], link, fetch, e')
  {
    hide HasAll, GapOf;
    assert (services + [s])[..|services|] == services;
  }

  lemma OverBoth(link: Link, fetch: (Service, Link) -> ReadResult, events: Bundle)
    ensures ReadsOver(SERVICES, link) == BothReads(link) && GapsOver(SERVICES, link, fetch) == BothGaps(link, fetch)
    ensures Held(SERVICES, link, fetch, events) ==> !Misses(events, link, fetch)
  {
    hide HasAll, GapOf;
    OverNone(link, fetch, events);
    OverMore([], ControlPlane, link, fetch, events, events);
    OverMore([ControlPlane], GithubController, link, fetch, events, events);
    assert SERVICES[..0] == [] && [] + [ControlPlane] == [ControlPlane]
           && SERVICES == [ControlPlane] + [GithubController];
    forall s ensures s in SERVICES {
      match s
      case ControlPlane => assert SERVICES[0] == s;
      case GithubController => assert SERVICES[1] == s;
    }
  }

  lemma ExpandedRefl(e: Bundle, p: seq<Link>, link: Link, fetch: (Service, Link) -> ReadResult)
    requires |e| <= MAX_BUNDLE_EVENTS && KeyedByIds(e)
    ensures Expanded(e, e, p, p, link, fetch)
  {
  }

  lemma ExpandedBounds(e: Bundle, e': Bundle, p: seq<Link>, p': seq<Link>, link: Link,
                       fetch: (Service, Link) -> ReadResult)
    requires Expanded(e, e', p, p', link, fetch)
    ensures |e'| <= MAX_BUNDLE_EVENTS && KeyedByIds(e')
  {
  }

  lemma StillHasAll(e: Bundle, e': Bundle, s: Service, records: seq<Record>, p: seq<Link>, p': seq<Link>)
    requires Added(s, records, e, e', p, p')
    ensures forall t, rs :: HasAll(t, rs, e) ==> HasAll(t, rs, e')
  {
  }

  // ---- the worklist ----

  ghost predicate Good(fetch: (Service, Link) -> ReadResult, logs: set<Entry>) {
    Faithful(fetch, logs) && UniqueIds(logs)
  }

  /** Everything collected was stored by a service and belongs to every closed set. */
  ghost predicate Sound(events: Bundle, logs: set<Entry>, selector: Link) {
    Entries(events) <= logs && Necessary(Entries(events), logs, selector)
  }

  /** Every correlation of a collected record has been asked for or is waiting. */
  ghost predicate Tracked(events: Bundle, pending: seq<Link>, queried: set<Link>) {
    forall k, l :: k in events && Matches(events[k], l) ==> l in queried || l in pending
  }

  ghost predicate Carried(events: Bundle, l: Link) {
    exists k :: k in events && Matches(events[k], l)
  }

  ghost predicate AllCarried(events: Bundle, pending: seq<Link>) {
    forall l :: l in pending ==> Carried(events, l)
  }

  /** Every stored match of every correlation asked for has been collected. */
  ghost predicate Answered(events: Bundle, queried: set<Link>, logs: set<Entry>) {
    forall l, e :: l in queried && e in logs && Matches(e.record, l) ==> e in Entries(events)
  }

  lemma ExpandSound(e: Bundle, e': Bundle, p: seq<Link>, p': seq<Link>, link: Link,
                    fetch: (Service, Link) -> ReadResult, logs: set<Entry>, selector: Link)
    requires Expanded(e, e', p, p', link, fetch) && Good(fetch, logs) && Sound(e, logs, selector)
             && (link == selector || Carried(e, link))
    ensures Sound(e', logs, selector)
  {
    forall x | x in Entries(e') ensures x in Entries(e) || (x in logs && Matches(x.record, link)) {
      var k :| k in e' && x == Entry(k.0, e'[k]);
      if k !in e { assert e'[k] in fetch(k.0, link).records; }
    }
    forall closed: set<Entry> | Closed(closed, logs, selector) ensures Entries(e') <= closed {
      assert Entries(e) <= closed;
      if link != selector {
        var k :| k in e && Matches(e[k], link);
        assert Entry(k.0, e[k]) in Entries(e);
      }
    }
  }

  lemma ExpandAnswered(e: Bundle, e': Bundle, p: seq<Link>, p': seq<Link>, link: Link,
                       fetch: (Service, Link) -> ReadResult, logs: set<Entry>, selector: Link, queried: set<Link>)
    requires Expanded(e, e', p, p', link, fetch) && Good(fetch, logs) && Sound(e', logs, selector)
             && Answered(e, queried, logs)
    requires forall s :: fetch(s, link).ok && HasAll(s, fetch(s, link).records, e')
    ensures Answered(e', queried + {link}, logs)
  {
    forall l, x | l in queried + {link} && x in logs && Matches(x.record, l) ensures x in Entries(e') {
      if l in queried {
        assert x in Entries(e);
        var k :| k in e && x == Entry(k.0, e[k]);
        assert k in e' && x == Entry(k.0, e'[k]);
      } else {
        var s := x.service;
        assert x.record in fetch(s, link).records;
        var k := (s, x.record.eventId);
        assert k in e' && Entry(s, e'[k]) in Entries(e');
      }
    }
  }

  lemma ExpandTracked(e: Bundle, e': Bundle, p: seq<Link>, p': seq<Link>, link: Link,
                      fetch: (Service, Link) -> ReadResult, queried: set<Link>)
    requires Expanded(e, e', p, p', link, fetch) && Tracked(e, [link] + p, queried) && AllCarried(e, p)
    ensures Tracked(e', p', queried + {link}) && AllCarried(e', p')
  {
    forall k, l | k in e' && Matches(e'[k], l) ensures l in queried + {link} || l in p' {
      if k in e { assert l in queried || l in [link] + p; }
    }
    forall l | l in p' ensures Carried(e', l) {
      if l in p {
        assert Carried(e, l);
        var k :| k in e && Matches(e[k], l);
        assert k in e';
      }
    }
  }

  lemma DrainedIsClosed(events: Bundle, queried: set<Link>, logs: set<Entry>, selector: Link)
    requires Tracked(events, [], queried) && Answered(events, queried, logs) && selector in queried
    ensures Closed(Entries(events), logs, selector)
  {
    forall e, d, link | e in Entries(events) && d in logs && Matches(e.record, link) && Matches(d.record, link)
        ensures d in Entries(events) {
      var k :| k in events && e == Entry(k.0, events[k]);
      assert link in queried;
    }
  }

  /** No gap says that something may be missing. */
  predicate Clean(gaps: seq<Gap>) {
    !Reported(gaps, QueryFailed) && !Reported(gaps, ExpansionLimited) && !Reported(gaps, EventLimit)
  }

  lemma GapsTell(gaps: seq<Gap>, link: Link, fetch: (Service, Link) -> ReadResult)
    ensures Clean(gaps + BothGaps(link, fetch)) ==> Clean(gaps) && forall s :: fetch(s, link).ok
  {
    var a, b := GapOf(ControlPlane, link, fetch(ControlPlane, link)),
                GapOf(GithubController, link, fetch(GithubController, link));
    assert gaps + BothGaps(link, fetch) == gaps + a + b;
    forall kind ensures Reported(gaps + a + b, kind) <==>
      Reported(gaps, kind) || Reported(a, kind) || Reported(b, kind) {
      ReportedMore(gaps, a, kind);
      ReportedMore(gaps + a, b, kind);
    }
    forall s ensures fetch(s, link).ok || Reported(a, QueryFailed) || Reported(b, QueryFailed) {
      if !fetch(s, link).ok {
        match s
        case ControlPlane => assert a[0].kind == QueryFailed;
        case GithubController => assert b[0].kind == QueryFailed;
      }
    }
  }

  // ---- what was asked ----

  function Reads(asked: seq<Link>): seq<(Service, Link)> {
    if asked == [] then [] else Reads(asked[..|asked| - 1]) + BothReads(asked[|asked| - 1])
  }

  function AskedGaps(asked: seq<Link>, fetch: (Service, Link) -> ReadResult): seq<Gap> {
    if asked == [] then [] else AskedGaps(asked[..|asked| - 1], fetch) + BothGaps(asked[|asked| - 1], fetch)
  }

  lemma AskedMore(asked: seq<Link>, link: Link, fetch: (Service, Link) -> ReadResult)
    ensures Reads(asked + [link]) == Reads(asked) + BothReads(link)
    ensures AskedGaps(asked + [link], fetch) == AskedGaps(asked, fetch) + BothGaps(link, fetch)
  {
    assert (asked + [link])[..|asked|] == asked;
  }

  /** The gap a read leaves: it failed, or it worked and found nothing. */
  ghost predicate LeftBy(g: Gap, s: Service, l: Link, fetch: (Service, Link) -> ReadResult) {
    || (!fetch(s, l).ok && g == Gap(Some(s), QueryFailed, Some(l)))
    || (fetch(s, l).ok && fetch(s, l).records == [] && g == Gap(Some(s), NoEvents, Some(l)))
  }

  lemma BothGapsExact(link: Link, fetch: (Service, Link) -> ReadResult, g: Gap)
    ensures g in BothGaps(link, fetch) <==> LeftBy(g, ControlPlane, link, fetch)
                                            || LeftBy(g, GithubController, link, fetch)
  {
  }

  /** The gaps of the reads are exactly those the reads left. */
  lemma {:induction false} GapsExact(asked: seq<Link>, fetch: (Service, Link) -> ReadResult, g: Gap)
    ensures g in AskedGaps(asked, fetch) <==> exists s, l :: l in asked && LeftBy(g, s, l, fetch)
  {
    hide LeftBy, BothGaps;
    if asked != [] {
      var front, last := asked[..|asked| - 1], asked[|asked| - 1];
      GapsExact(front, fetch, g);
      BothGapsExact(last, fetch, g);
      assert asked == front + [last];
      forall s | LeftBy(g, s, last, fetch) ensures g in BothGaps(last, fetch) {
        match s
        case ControlPlane =>
        case GithubController =>
      }
    }
  }

  /** Links asked for once each are read once each from either service. */
  lemma {:induction false} ReadsOnce(asked: seq<Link>)
    requires Distinct(asked)
    ensures Distinct(Reads(asked)) && forall r :: r in Reads(asked) <==> r.1 in asked
  {
    if asked != [] {
      var front, last := asked[..|asked| - 1], asked[|asked| - 1];
      ReadsOnce(front);
      assert asked == front + [last] && last !in front;
      var before, more := Reads(front), BothReads(last);
      forall r ensures r in Reads(asked) <==> r.1 in asked {
        if r.1 == last { assert more[0] == (ControlPlane, last)
                         && more[1] == (GithubController,
                                        last); match r.0 case ControlPlane => case GithubController => }
      }
      forall i, j | 0 <= i < j < |Reads(asked)| ensures Reads(asked)[i] != Reads(asked)[j] {
        if i < |before| <= j { assert before[i] in before && Reads(asked)[j].1 == last; }
      }
    }
  }

  /** Every record of the bundle was returned by a read of a link that was asked for. */
  ghost predicate FromReads(events: Bundle, asked: seq<Link>, fetch: (Service, Link) -> ReadResult) {
    forall k :: k in events ==> exists l :: l in asked && events[k] in fetch(k.0, l).records
  }

  lemma FromMoreReads(e: Bundle, e': Bundle, p: seq<Link>, p': seq<Link>, link: Link, asked: seq<Link>,
                      fetch: (Service, Link) -> ReadResult)
    requires Expanded(e, e', p, p', link, fetch) && FromReads(e, asked, fetch)
    ensures FromReads(e', asked + [link], fetch)
  {
    forall k | k in e' ensures exists l :: l in asked + [link] && e'[k] in fetch(k.0, l).records {
      if k in e {
        var l :| l in asked && e[k] in fetch(k.0, l).records;
        assert l in asked + [link];
      } else {
        assert link in asked + [link];
      }
    }
  }

  /** The gaps beyond those of the trail: only that a limit was hit. */
  predicate OnlyLimits(tail: seq<Gap>) {
    forall i :: 0 <= i < |tail| ==> tail[i].kind.ExpansionLimited? || tail[i].kind.EventLimit?
  }

  /** What the bundle is known to hold, given what was asked and what is pending. */
  ghost predicate Knows(events: Bundle, pending: seq<Link>, queried: set<Link>, gaps: seq<Gap>, limit: bool,
                        fetch: (Service, Link) -> ReadResult, logs: set<Entry>, selector: Link) {
    && Tracked(events, pending, queried) && AllCarried(events, pending) && selector in queried
    && (Good(fetch, logs) ==> Sound(events, logs, selector))
    && (Good(fetch, logs) && Clean(gaps) && !limit ==> Answered(events, queried, logs))
  }

  /** What was asked accounts for the gaps and for every record. */
  ghost predicate Ledger(asked: seq<Link>, queried: set<Link>, events: Bundle, gaps: seq<Gap>,
                         fetch: (Service, Link) -> ReadResult, selector: Link) {
    && Distinct(asked) && asked != [] && asked[0] == selector && (forall l :: l in asked <==> l in queried)
    && gaps == AskedGaps(asked, fetch) && FromReads(events, asked, fetch)
  }

  /** A record returned for something asked is not in the bundle. */
  ghost predicate Missing(events: Bundle, asked: seq<Link>, fetch: (Service, Link) -> ReadResult) {
    exists l :: l in asked && Misses(events, l, fetch)
  }

  /** Everything asked for is the selector or a correlation of a collected record. */
  ghost predicate Pursued(events: Bundle, asked: seq<Link>, selector: Link) {
    forall l :: l in asked ==> l == selector || Carried(events, l)
  }

  /** A correlation of a collected record was not asked for. */
  ghost predicate Unfollowed(events: Bundle, asked: seq<Link>) {
    exists l :: Carried(events, l) && l !in asked
  }

  /** The event limit was hit exactly when something returned is missing, and then the bundle is full. */
  ghost predicate Filled(events: Bundle, asked: seq<Link>, limit: bool, fetch: (Service, Link) -> ReadResult,
                         selector: Link) {
    (limit <==> Missing(events, asked, fetch)) && (limit ==> |events| == MAX_BUNDLE_EVENTS)
    && Pursued(events, asked, selector)
  }

  lemma FilledFirst(events: Bundle, limit: bool, selector: Link, fetch: (Service, Link) -> ReadResult)
    requires (limit <==> Misses(events, selector, fetch)) && (limit ==> |events| == MAX_BUNDLE_EVENTS)
    ensures Filled(events, [selector], limit, fetch, selector)
  {
    hide Misses, Carried;
  }

  lemma FilledMore(e: Bundle, e': Bundle, p: seq<Link>, p': seq<Link>, asked: seq<Link>, limit: bool, more: bool,
                   link: Link, fetch: (Service, Link) -> ReadResult, selector: Link)
    requires Expanded(e, e', p, p', link, fetch) && Filled(e, asked, limit, fetch, selector) && Carried(e, link)
    requires (more <==> Misses(e', link, fetch)) && (more ==> |e'| == MAX_BUNDLE_EVENTS)
    ensures Filled(e', asked + [link], limit || more, fetch, selector)
  {
    ExpandKeeps(e, e', p, p', link, fetch);
    hide Expanded, Misses, Carried;
    assert forall l :: l in asked + [link] <==> l in asked || l == link;
  }

  lemma ExpandKeeps(e: Bundle, e': Bundle, p: seq<Link>, p': seq<Link>, link: Link,
                    fetch: (Service, Link) -> ReadResult)
    requires Expanded(e, e', p, p', link, fetch)
    ensures |e| == MAX_BUNDLE_EVENTS ==> e' == e
    ensures forall l :: Carried(e, l) ==> Carried(e', l)
    ensures forall l :: Misses(e', l, fetch) ==> Misses(e, l, fetch)
  {
    forall l | Carried(e, l) ensures Carried(e', l) {
      var k :| k in e && Matches(e[k], l);
      assert k in e' && Matches(e'[k], l);
    }
    forall l | Misses(e', l, fetch) ensures Misses(e, l, fetch) {
      var s :| !HasAll(s, fetch(s, l).records, e');
      assert !HasAll(s, fetch(s, l).records, e);
    }
  }

  lemma NextIsCarried(events: Bundle, pending: seq<Link>, queried: set<Link>, gaps: seq<Gap>, limit: bool,
                      fetch: (Service, Link) -> ReadResult, logs: set<Entry>, selector: Link)
    requires Knows(events, pending, queried, gaps, limit, fetch, logs, selector)
    ensures pending != [] ==> Carried(events, pending[0])
    ensures pending == [] ==> forall l :: Carried(events, l) ==> l in queried
  {
    hide Sound, Good, Clean, Answered;
  }

  lemma Followed(events: Bundle, asked: seq<Link>, queried: set<Link>, gaps: seq<Gap>,
                 fetch: (Service, Link) -> ReadResult, selector: Link)
    requires Ledger(asked, queried, events, gaps, fetch, selector)
    ensures Unfollowed(events, asked) <==> exists l :: Carried(events, l) && l !in queried
  {
    hide Carried, FromReads, Distinct, AskedGaps;
  }

  /** The whole investigation. Every correlation is read at most once from either service, and gaps and records are
      those of the reads; the bundle holds nothing that a closed set could do without; and, when no gap reports a
      failed query or a limit, it is itself closed, hence the least closed set. */
  method Investigate(selector: Link, reader: AuditReader, ghost logs: set<Entry>)
    returns (events: Bundle, gaps: seq<Gap>, ghost asked: seq<Link>, ghost tail: seq<Gap>)
    modifies reader
    ensures |events| <= MAX_BUNDLE_EVENTS && KeyedByIds(events)
    ensures Distinct(asked) && 0 < |asked| <= 1 + MAX_CORRELATION_QUERIES && asked[0] == selector
    ensures reader.trail == old(reader.trail) + Reads(asked) && Distinct(Reads(asked))
    ensures gaps == AskedGaps(asked, reader.fetch) + tail && OnlyLimits(tail) && FromReads(events, asked, reader.fetch)
    ensures Good(reader.fetch, logs) ==> Sound(events, logs, selector)
    ensures Good(reader.fetch, logs) && Clean(gaps) ==> Closed(Entries(events), logs, selector)
    ensures Pursued(events, asked, selector)
    ensures Reported(tail, EventLimit) <==> Missing(events, asked, reader.fetch)
    ensures Reported(tail, EventLimit) ==> |events| == MAX_BUNDLE_EVENTS
    ensures Reported(tail, ExpansionLimited) <==> Unfollowed(events, asked)
    ensures Reported(tail, ExpansionLimited) ==> |asked| == 1 + MAX_CORRELATION_QUERIES
  {
    hide Expanded, Knows, Ledger, Good, Sound, Closed, Clean, HasAll, KeyedByIds, BothGaps, BothReads, Reads,
    AskedGaps, FromReads, Misses, Missing, Pursued, Unfollowed, Carried, Reported, Filled;
    ghost var fetch := reader.fetch;
    var limit, pending;
    assert KeyedByIds(map[]) by { StartFacts(logs, selector); }
    events, pending, gaps, limit := QueryServices(selector, reader, map[], [], []);
    FirstQuery(events, pending, gaps, limit, selector, fetch, logs);
    FirstLedger(events, pending, gaps, selector, fetch);
    FilledFirst(events, limit, selector, fetch);
    var queried, expansions := {selector}, 0;
    asked, tail := [selector], [];
    while pending != []
      invariant |events| <= MAX_BUNDLE_EVENTS && KeyedByIds(events)
      invariant Ledger(asked, queried, events, gaps, fetch, selector)
                && |asked| == 1 + expansions <= 1 + MAX_CORRELATION_QUERIES
      invariant reader.trail == old(reader.trail) + Reads(asked)
      invariant Knows(events, pending, queried, gaps, limit, fetch, logs, selector)
      invariant Filled(events, asked, limit, fetch, selector)
      decreases MAX_BUNDLE_EVENTS - |events|, |pending|
    {
      var link, rest := pending[0], pending[1..];
      NextIsCarried(events, pending, queried, gaps, limit, fetch, logs, selector);
      assert pending == [link] + rest;
      if link in queried {
        KnowsWithout(events, link, rest, queried, gaps, limit, fetch, logs, selector);
        pending := rest;
        continue;
      }
      if expansions >= MAX_CORRELATION_QUERIES {
        tail := [Gap(None, ExpansionLimited, Some(link))];
        break;
      }
      expansions := expansions + 1;
      var events', pending', gaps', more := QueryServices(link, reader, events, rest, gaps);
      NextQuery(events, events', rest, pending', gaps, gaps', limit, more, link, selector, fetch, logs, queried);
      FilledMore(events, events', rest, pending', asked, limit, more, link, fetch, selector);
      LedgerMore(asked, queried, events, events', rest, pending', gaps, gaps', link, fetch, selector);
      events, pending, gaps, limit := events', pending', gaps', limit || more;
      queried, asked := queried + {link}, asked + [link];
    }
    KnowsInTheEnd(events, pending, queried, gaps, limit, fetch, logs, selector);
    LedgerInTheEnd(asked, queried, events, gaps, fetch, selector);
    NextIsCarried(events, pending, queried, gaps, limit, fetch, logs, selector);
    Followed(events, asked, queried, gaps, fetch, selector);
    FilledInTheEnd(events, asked, limit, fetch, selector);
    ReportedTail(if pending == [] then None else Some(pending[0]), limit);
    if pending != [] {
      gaps := gaps + [Gap(None, ExpansionLimited, Some(pending[0]))];
      LimitTells(gaps, ExpansionLimited);
    }
    if limit {
      tail := tail + [Gap(None, EventLimit, None)];
      gaps := gaps + [Gap(None, EventLimit, None)];
      LimitTells(gaps, EventLimit);
    }
    assert tail == LimitGaps(if pending == [] then None else Some(pending[0]), limit);
  }

  lemma FilledInTheEnd(events: Bundle, asked: seq<Link>, limit: bool, fetch: (Service, Link) -> ReadResult,
                       selector: Link)
    requires Filled(events, asked, limit, fetch, selector)
    ensures (limit <==> Missing(events, asked, fetch)) && (limit ==> |events| == MAX_BUNDLE_EVENTS)
    ensures Pursued(events, asked, selector)
  {
    hide Missing, Pursued;
  }

  /** The gaps the limits leave at the end. */
  function LimitGaps(next: Option<Link>, limit: bool): seq<Gap> {
    (if next.Some? then [Gap(None, ExpansionLimited, next)] else [])
    + (if limit then [Gap(None, EventLimit, None)] else [])
  }

  lemma ReportedTail(next: Option<Link>, limit: bool)
    ensures var tail := LimitGaps(next, limit);
            (Reported(tail, ExpansionLimited) <==> next.Some?) && (Reported(tail, EventLimit) <==> limit)
  {
    var tail := LimitGaps(next, limit);
    if next.Some? { assert tail[0].kind == ExpansionLimited; }
    if limit { assert tail[|tail| - 1].kind == EventLimit; }
  }

  lemma KnowsWithout(events: Bundle, link: Link, rest: seq<Link>, queried: set<Link>, gaps: seq<Gap>, limit: bool,
                     fetch: (Service, Link) -> ReadResult, logs: set<Entry>, selector: Link)
    requires Knows(events, [link] + rest, queried, gaps, limit, fetch, logs, selector) && link in queried
    ensures Knows(events, rest, queried, gaps, limit, fetch, logs, selector)
  {
    hide Matches, Sound, Answered, Good, Clean;
  }

  lemma KnowsInTheEnd(events: Bundle, pending: seq<Link>, queried: set<Link>, gaps: seq<Gap>, limit: bool,
                      fetch: (Service, Link) -> ReadResult, logs: set<Entry>, selector: Link)
    requires Knows(events, pending, queried, gaps, limit, fetch, logs, selector)
    ensures Good(fetch, logs) ==> Sound(events, logs, selector)
    ensures Good(fetch, logs) && Clean(gaps) && !limit && pending == [] ==> Closed(Entries(events), logs, selector)
  {
    hide Sound, Good, Clean, Closed, Tracked, AllCarried, Answered;
    if Good(fetch, logs) && Clean(gaps) && !limit && pending == [] {
      DrainedIsClosed(events, queried, logs, selector);
    }
  }

  lemma FirstLedger(events: Bundle, pending: seq<Link>, gaps: seq<Gap>, selector: Link,
                    fetch: (Service, Link) -> ReadResult)
    requires Expanded(map[], events, [], pending, selector, fetch) && gaps == [] + BothGaps(selector, fetch)
    ensures Ledger([selector], {selector}, events, gaps, fetch, selector) && Reads([selector]) == BothReads(selector)
  {
    NothingAsked(fetch);
    AskedMore([], selector, fetch);
    assert [] + [selector] == [selector];
    FromMoreReads(map[], events, [], pending, selector, [], fetch);
    hide Expanded, FromReads, AskedGaps, BothGaps;
  }

  lemma LedgerMore(asked: seq<Link>, queried: set<Link>, e: Bundle, e': Bundle, p: seq<Link>, p': seq<Link>,
                   gaps: seq<Gap>, gaps': seq<Gap>,
                   link: Link, fetch: (Service, Link) -> ReadResult, selector: Link)
    requires Ledger(asked, queried, e, gaps, fetch, selector) && Expanded(e, e', p, p', link, fetch)
    requires link !in queried && gaps' == gaps + BothGaps(link, fetch)
    ensures Ledger(asked + [link], queried + {link}, e', gaps', fetch, selector)
            && Reads(asked + [link]) == Reads(asked) + BothReads(link)
  {
    AskedMore(asked, link, fetch);
    FromMoreReads(e, e', p, p', link, asked, fetch);
    DistinctMore(asked, link);
    hide Expanded, FromReads, AskedGaps, BothGaps, BothReads, Distinct, Reads;
  }

  lemma DistinctMore(asked: seq<Link>, link: Link)
    ensures Distinct(asked) && link !in asked ==> Distinct(asked + [link])
  {
  }

  lemma LedgerInTheEnd(asked: seq<Link>, queried: set<Link>, events: Bundle, gaps: seq<Gap>,
                       fetch: (Service, Link) -> ReadResult, selector: Link)
    requires Ledger(asked, queried, events, gaps, fetch, selector)
    ensures Distinct(asked) && asked != [] && asked[0] == selector && Distinct(Reads(asked))
    ensures gaps == AskedGaps(asked, fetch) && FromReads(events, asked, fetch)
  {
    ReadsOnce(asked);
  }

  lemma NothingAsked(fetch: (Service, Link) -> ReadResult)
    ensures Reads([]) == [] && AskedGaps([], fetch) == [] && FromReads(map[], [], fetch)
  {
  }

  lemma StartFacts(logs: set<Entry>, selector: Link)
    ensures KeyedByIds(map[]) && Tracked(map[], [], {}) && Tracked(map[], [selector], {}) && AllCarried(map[], [])
    ensures Answered(map[], {}, logs) && Sound(map[], logs, selector)
  {
    assert Entries(map[]) == {};
  }

  lemma LimitTells(gaps: seq<Gap>, kind: GapKind)
    requires gaps != [] && gaps[|gaps| - 1].kind == kind && kind in {ExpansionLimited, EventLimit}
    ensures !Clean(gaps)
  {
    assert Reported(gaps, kind);
  }

  lemma FirstQuery(events: Bundle, pending: seq<Link>, gaps: seq<Gap>, limit: bool, selector: Link,
                   fetch: (Service, Link) -> ReadResult, logs: set<Entry>)
    requires Expanded(map[], events, [], pending, selector, fetch)
    requires gaps == [] + BothGaps(selector, fetch)
    requires limit <==> Misses(events, selector, fetch)
    ensures |events| <= MAX_BUNDLE_EVENTS && KeyedByIds(events)
    ensures Knows(events, pending, {selector}, gaps, limit, fetch, logs, selector)
  {
    StartFacts(logs, selector);
    hide Tracked, AllCarried, Sound, Answered, Good, Clean, HasAll, GapOf;
    assert [selector] + [] == [selector] && {} + {selector} == {selector};
    ExpandTracked(map[], events, [], pending, selector, fetch, {});
    if Good(fetch, logs) {
      ExpandSound(map[], events, [], pending, selector, fetch, logs, selector);
      GapsTell([], selector, fetch);
      if Clean(gaps) && !limit {
        ExpandAnswered(map[], events, [], pending, selector, fetch, logs, selector, {});
      }
    }
  }

  lemma NextQuery(e: Bundle, e': Bundle, p: seq<Link>, p': seq<Link>, gaps: seq<Gap>, gaps': seq<Gap>, limit: bool,
                  more: bool,
                  link: Link, selector: Link, fetch: (Service, Link) -> ReadResult, logs: set<Entry>,
                  queried: set<Link>)
    requires Expanded(e, e', p, p', link, fetch) && Knows(e, [link] + p, queried, gaps, limit, fetch, logs, selector)
    requires gaps' == gaps + BothGaps(link, fetch)
    requires more <==> Misses(e', link, fetch)
    ensures |e'| <= MAX_BUNDLE_EVENTS && KeyedByIds(e')
    ensures Knows(e', p', queried + {link}, gaps', limit || more, fetch, logs, selector)
    ensures |e'| > |e| || (e' == e && p' == p)
  {
    HeadCarried(e, link, p);
    hide Tracked, AllCarried, Carried, Sound, Answered, Good, Clean, HasAll, GapOf;
    ExpandTracked(e, e', p, p', link, fetch, queried);
    if Good(fetch, logs) {
      ExpandSound(e, e', p, p', link, fetch, logs, selector);
      GapsTell(gaps, link, fetch);
      if Clean(gaps') && !(limit || more) {
        ExpandAnswered(e, e', p, p', link, fetch, logs, selector, queried);
      }
    }
  }

  lemma HeadCarried(events: Bundle, link: Link, rest: seq<Link>)
    requires AllCarried(events, [link] + rest)
    ensures Carried(events, link) && AllCarried(events, rest)
  {
    assert link in [link] + rest && forall l :: l in rest ==> l in [link] + rest;
  }
}
