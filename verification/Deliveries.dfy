/**
From the clients to the tables: rows stored by devices that rotate their sessions as
SessionRuns has them are rows MessageRuns keeps readable, if no message takes more
than a day from the moment its session was judged usable to its storing.
*/
module Deliveries {
  import opened Text
  import opened CanonicalJson
  import opened Messages
  import opened Erase
  import opened Retention
  import opened ClientSessions
  import opened SessionRuns
  import MessageRuns

  // Whose device it is, what its client did, and how far the server's clock, in
  // microseconds, is ahead of the device's.
  datatype Device = Device(address: string, events: seq<SessionRuns.Event>, skew: int)

  predicate Runs(d: Device) { SessionRuns.Legal(SessionRuns.Initial(), d.events) }

  function LogOf(d: Device): seq<Entry>
    requires Runs(d)
  {
    Whole(SessionRuns.Run(SessionRuns.Initial(), d.events))
  }

  // `groupConversationId`; a direct conversation is named by the partner's address.
  function ConversationOf(kind: Kind, target: string): string {
    if kind.Dm? then target else "group_" + target
  }

  // The row a send leaves, if its POST is made: stored at most `delay` later.
  predicate StoredFrom(r: Row, d: Device, e: Entry, delay: int) {
    && !e.fate.Aborted?
    && r.sender == d.address && SessionOf(r) == Some(Session(d.address, e.s.sid))
    && r.kind.Group? == e.s.rq.ToGroup?
    && r.target.Some? && e.s.rq.conv == ConversationOf(r.kind, r.target.value)
    && (MessageRuns.Keyed(r) <==> e.s.keys.Some? && e.s.keys.value != map[])
    && 0 <= r.createdAt - d.skew - 1000 * e.s.at <= delay
  }

  // A device's clock does not run backwards from send to send.
  predicate Forward(log: seq<Entry>) { forall i, j :: 0 <= i < j < |log| ==> log[i].s.at <= log[j].s.at }

  predicate ShareNoSession(d: Device, d': Device)
    requires Runs(d) && Runs(d')
  {
    forall i, j :: 0 <= i < |LogOf(d)| && 0 <= j < |LogOf(d')| ==> LogOf(d)[i].s.sid != LogOf(d')[j].s.sid
  }

  predicate Comes(r: Row, d: Device, delay: int)
    requires Runs(d)
  {
    exists i :: 0 <= i < |LogOf(d)| && StoredFrom(r, d, LogOf(d)[i], delay)
  }

  // Every row with a session was sent by one of these devices, and no two of them
  // draw one session id for one account.
  predicate Sends(devices: set<Device>, sent: seq<Row>, delay: int) {
    && (forall d :: d in devices ==> Runs(d) && Forward(LogOf(d)))
    && (forall d, d' :: d in devices && d' in devices && d != d' && d.address == d'.address ==> ShareNoSession(d, d'))
    && (forall r :: r in sent && SessionOf(r).Some? ==> exists d :: d in devices && Comes(r, d, delay))
  }

  // ---- One session in one log ----

  lemma OneMintPerId(log: seq<Entry>, j: nat, k: nat)
    requires Disciplined(log) && j < |log| && k < |log| && log[j].s.sid == log[k].s.sid
    requires log[j].s.keys.Some? && log[k].s.keys.Some?
    ensures j == k
  {
  }

  // The messages under one id go to one conversation and begin within a day.
  lemma OneIdOneSession(log: seq<Entry>, i: nat, j: nat)
    requires Disciplined(log) && Forward(log) && i < |log| && j < |log| && log[i].s.sid == log[j].s.sid
    ensures OneSession(log[i].s, log[j].s) && log[i].s.at - log[j].s.at < SESSION_MAX_AGE
  {
    var m := MintOf(log, i);
    var k := MintOf(log, j);
    OneMintPerId(log, m, k);
  }

  // ---- From logs to rows ----

  function Span(delay: int): int { DAY - 1000 + delay }

  lemma SameDevice(devices: set<Device>, sent: seq<Row>, delay: int, a: Row, b: Row)
    returns (d: Device, i: nat, j: nat)
    requires Sends(devices, sent, delay) && a in sent && b in sent && SameSession(a, b)
    ensures d in devices && i < |LogOf(d)| && j < |LogOf(d)|
    ensures StoredFrom(a, d, LogOf(d)[i], delay) && StoredFrom(b, d, LogOf(d)[j], delay)
  {
    d :| d in devices && Comes(a, d, delay);
    var d' :| d' in devices && Comes(b, d', delay);
    i :| 0 <= i < |LogOf(d)| && StoredFrom(a, d, LogOf(d)[i], delay);
    j :| 0 <= j < |LogOf(d')| && StoredFrom(b, d', LogOf(d')[j], delay);
    assert LogOf(d)[i].s.sid == LogOf(d')[j].s.sid;
    assert d == d' || ShareNoSession(d, d');
  }

  lemma PairConforms(d: Device, delay: int, a: Row, b: Row, i: nat, j: nat)
    requires Runs(d) && Forward(LogOf(d)) && i < |LogOf(d)| && j < |LogOf(d)|
    requires StoredFrom(a, d, LogOf(d)[i], delay) && StoredFrom(b, d, LogOf(d)[j], delay) && SameSession(a, b)
    ensures a.target == b.target && b.createdAt - a.createdAt <= Span(delay)
  {
    EveryRunIsDisciplined(d.events);
    OneIdOneSession(LogOf(d), j, i);
    if a.kind.Group? {
      assert ConversationOf(Group, a.target.value)[6..] == a.target.value;
      assert ConversationOf(Group, b.target.value)[6..] == b.target.value;
    }
  }

  // Main result: what such devices send conforms: the rows of a session go to one
  // place, stamped less than a day and the delay apart.
  lemma DevicesConform(devices: set<Device>, sent: seq<Row>, delay: int)
    requires Sends(devices, sent, delay)
    ensures MessageRuns.Conforming(sent, Span(delay))
  {
    forall a, b | a in sent && b in sent && SameSession(a, b)
      ensures a.target == b.target && b.createdAt - a.createdAt <= Span(delay)
    {
      var d, i, j := SameDevice(devices, sent, delay, a, b);
      PairConforms(d, delay, a, b, i, j);
    }
  }

  // ---- Messages stay readable, from end to end ----

  // A run of the tables from empty, fed by such devices, whose purges keep what is
  // younger than a session can span.
  predicate Fed(c: Crypto, clock: int, es: seq<MessageRuns.Timed>, devices: set<Device>, delay: int) {
    && MessageRuns.Legal(c, MessageRuns.Initial(clock), es)
    && Sends(devices, MessageRuns.Run(c, MessageRuns.Initial(clock), es).sent, delay) && delay <= DAY
    && forall i :: 0 <= i < |es| ==> MessageRuns.PurgesNoShorterThan(es[i], Span(delay))
  }

  // Main result: over any run of the tables, each stored message has every row that
  // carries a key of its session stored beside it, unchanged.
  lemma SentStaysReadable(
    c: Crypto, clock: int, es: seq<MessageRuns.Timed>, devices: set<Device>, delay: int, o: Row, r: Row)
    requires Fed(c, clock, es, devices, delay)
    requires var w := MessageRuns.Run(c, MessageRuns.Initial(clock), es);
      o in w.sent && MessageRuns.Keyed(o) && r in w.rows && SameSession(o, r)
    ensures MessageRuns.Kept(c, MessageRuns.Run(c, MessageRuns.Initial(clock), es).rows, o)
  {
    DevicesConform(devices, MessageRuns.Run(c, MessageRuns.Initial(clock), es).sent, delay);
    MessageRuns.MessagesStayReadable(c, clock, es, Span(delay), o, r);
  }

  // An acknowledged send is stored.
  predicate Acknowledged(devices: set<Device>, sent: seq<Row>, delay: int)
    requires forall d :: d in devices ==> Runs(d)
  {
    forall d, i :: d in devices && 0 <= i < |LogOf(d)| && LogOf(d)[i].fate.Delivered? ==>
      exists o :: o in sent && StoredFrom(o, d, LogOf(d)[i], delay)
  }

  // A group message has someone to read it.
  predicate HasReaders(rq: Request) { rq.ToGroup? ==> PairsOf(rq.gated) != {} }

  lemma MintHasWraps(a: Request, b: Request)
    requires SessionRuns.Sane(a) && SessionRuns.Sane(b) && a.ToGroup? == b.ToGroup? && Wanted(a) == Wanted(b)
    requires HasReaders(b)
    ensures Envelope(a) != map[]
  {
    if a.ToGroup? {
      SameGroupKeys(a, b);
      var pair :| pair in PairsOf(b.gated);
      assert pair in MapPairs(Envelope(a));
    } else {
      assert "recip" in Envelope(a);
    }
  }

  // The row that carries the key of message i, which has none of its own.
  lemma OpenerSent(devices: set<Device>, sent: seq<Row>, delay: int, d: Device, i: nat) returns (o: Row)
    requires Sends(devices, sent, delay) && Acknowledged(devices, sent, delay)
    requires d in devices && i < |LogOf(d)| && LogOf(d)[i].s.keys.None?
    requires MintPosted(LogOf(d), i) && HasReaders(LogOf(d)[i].s.rq)
    ensures o in sent && MessageRuns.Keyed(o) && SessionOf(o) == Some(Session(d.address, LogOf(d)[i].s.sid))
    ensures o.kind.Group? == LogOf(d)[i].s.rq.ToGroup?
  {
    var log := LogOf(d);
    EveryRunIsDisciplined(d.events);
    var j := MintOf(log, i);
    MintHasWraps(log[j].s.rq, log[i].s.rq);
    assert log[j].fate.Delivered?;
    o :| o in sent && StoredFrom(o, d, log[j], delay);
  }

  // And a stored row of its session that carries a key says the POST was made.
  lemma KeyedMeansPosted(devices: set<Device>, sent: seq<Row>, delay: int, d: Device, i: nat, s: Row, o: Row)
    requires Sends(devices, sent, delay) && d in devices && i < |LogOf(d)| && StoredFrom(s, d, LogOf(d)[i], delay)
    requires s in sent && o in sent && MessageRuns.Keyed(o) && SameSession(o, s)
    ensures MintPosted(LogOf(d), i)
  {
    var d', k, i' := SameDevice(devices, sent, delay, o, s);
    assert LogOf(d)[i].s.sid == LogOf(d')[i'].s.sid;
    assert d == d' || ShareNoSession(d, d');
    var log := LogOf(d);
    EveryRunIsDisciplined(d.events);
    forall j | 0 <= j < |log| && OneSession(log[j].s, log[i].s) && log[j].s.keys.Some? ensures !log[j].fate.Aborted? {
      OneMintPerId(log, j, k);
    }
  }

  ghost predicate HasKeyBeside(rows: seq<Row>, r: Row) { exists o :: o in rows && MessageRuns.Keyed(o) && SameSession(o, r) }

  // Main result: a stored message that carries no key has a row of its session with
  // one stored beside it, if and only if the send that minted the session got as far
  // as the POST.
  lemma KeylessHasItsKey(
    c: Crypto, clock: int, es: seq<MessageRuns.Timed>, devices: set<Device>, delay: int, d: Device, i: nat, s: Row, r: Row)
    requires Fed(c, clock, es, devices, delay)
    requires var w := MessageRuns.Run(c, MessageRuns.Initial(clock), es);
      Acknowledged(devices, w.sent, delay) && s in w.sent && r in w.rows && Evolved(c, s, r)
    requires d in devices && i < |LogOf(d)| && LogOf(d)[i].s.keys.None? && HasReaders(LogOf(d)[i].s.rq)
    requires StoredFrom(s, d, LogOf(d)[i], delay)
    ensures HasKeyBeside(MessageRuns.Run(c, MessageRuns.Initial(clock), es).rows, r) <==> MintPosted(LogOf(d), i)
  {
    var w := MessageRuns.Run(c, MessageRuns.Initial(clock), es);
    EvolvedKeepsSession(c, s, r);
    if MintPosted(LogOf(d), i) {
      var o := OpenerSent(devices, w.sent, delay, d, i);
      SentStaysReadable(c, clock, es, devices, delay, o, r);
      var o' :| o' in w.rows && Evolved(c, o, o');
      EvolvedKeepsSession(c, o, o');
    }
    if HasKeyBeside(w.rows, r) {
      var o :| o in w.rows && MessageRuns.Keyed(o) && SameSession(o, r);
      var so := SentRowOf(c, clock, es, o);
      EvolvedKeepsSession(c, so, o);
      KeyedMeansPosted(devices, w.sent, delay, d, i, s, so);
    }
  }

  lemma SentRowOf(c: Crypto, clock: int, es: seq<MessageRuns.Timed>, r: Row) returns (s: Row)
    requires MessageRuns.Legal(c, MessageRuns.Initial(clock), es)
    requires r in MessageRuns.Run(c, MessageRuns.Initial(clock), es).rows
    ensures s in MessageRuns.Run(c, MessageRuns.Initial(clock), es).sent && Evolved(c, s, r)
  {
    MessageRuns.WellFormedRun(c, MessageRuns.Initial(clock), es);
    s :| s in MessageRuns.Run(c, MessageRuns.Initial(clock), es).sent && Evolved(c, s, r);
  }
}
