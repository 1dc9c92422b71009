/**
Runs of the messenger client: sends one at a time, as the interface allows. A send
can end in three ways: the server takes the message, the POST fails, or something
before the POST fails, such as a signature the user declines. Invalidations and
adopted keys come in between, even between a send and its end.
*/
module SessionRuns {
  import opened Text
  import opened Lists
  import opened ClientSessions

  // How far a send got. `Aborted` ended after its session and sequence number were
  // fixed and before the POST, `Failed` in the POST.
  datatype Fate = Waiting | Aborted | Failed | Delivered

  datatype Entry = Entry(s: Sent, fate: Fate)

  // `log` holds the ended sends in order; `used` every session id ever drawn.
  datatype World = World(client: Client, log: seq<Entry>, pending: Option<Sent>, used: set<string>)

  datatype Event =
    | Begin(rq: Request)
    | Abort
    | Answer(delivered: bool)
    | Drop(conv: string)
    | Learn(keys: map<string, nat>)

  function Initial(): World { World(Client(map[], map[], map[], map[], map[]), [], None, {}) }

  predicate Sane(rq: Request) {
    && ':' !in rq.freshSid
    && (rq.ToGroup? ==> Spelled(rq.gated) && OneRowEach(rq.gated))
    && (rq.ToPartner? ==> '|' !in rq.recip)
  }

  predicate Enabled(w: World, e: Event) {
    match e
    case Begin(rq) => w.pending.None? && rq.freshSid !in w.used && Sane(rq)
    case Answer(_) => w.pending.Some?
    case Abort => w.pending.Some?
    case _ => true
  }

  function Step(w: World, e: Event): World
    requires Enabled(w, e)
  {
    match e
    case Begin(rq) =>
      var (c, s) := Open(w.client, rq);
      World(c, w.log, Some(s), w.used + {rq.freshSid})
    case Abort => World(w.client, w.log + [Entry(w.pending.value, Aborted)], None, w.used)
    case Answer(delivered) =>
      var s := w.pending.value;
      World(Settle(w.client, s, delivered), w.log + [Entry(s, if delivered then Delivered else Failed)], None, w.used)
    case Drop(conv) => w.(client := Invalidate(w.client, conv))
    case Learn(keys) => w.(client := Adopt(w.client, keys))
  }

  predicate Legal(w: World, es: seq<Event>)
    decreases |es|
  {
    es == [] || (Enabled(w, es[0]) && Legal(Step(w, es[0]), es[1..]))
  }

  function Run(w: World, es: seq<Event>): World
    requires Legal(w, es)
    decreases |es|
  {
    if es == [] then w else Run(Step(w, es[0]), es[1..])
  }

  // ---- What the client's log obeys ----

  predicate OneSession(a: Sent, b: Sent) { a.rq.conv == b.rq.conv && a.sid == b.sid }

  // o is the send that minted the session e is sent under: the same session key,
  // wrapped for the same members or partner keys, begun less than a day before.
  predicate MintedBy(o: Sent, e: Sent) {
    && OneSession(o, e) && o.keys.Some? && o.sealed == e.sealed
    && o.rq.ToGroup? == e.rq.ToGroup? && Wanted(o.rq) == Wanted(e.rq)
    && e.at - o.at < SESSION_MAX_AGE
  }

  // Send j minted the session of send i, and its POST did not fail.
  predicate IsMint(log: seq<Entry>, i: nat, j: nat)
    requires i < |log|
  {
    j < i && MintedBy(log[j].s, log[i].s) && (log[j].fate.Aborted? || log[j].fate.Delivered?)
  }

  // A reader of message i can have its key: a message that carries it was delivered.
  ghost predicate HasOpener(log: seq<Entry>, i: nat)
    requires i < |log|
  {
    exists j :: 0 <= j < i && MintedBy(log[j].s, log[i].s) && log[j].fate.Delivered?
  }

  // The send that minted the session of message i got as far as the POST.
  predicate MintPosted(log: seq<Entry>, i: nat)
    requires i < |log|
  {
    forall j :: 0 <= j < |log| && OneSession(log[j].s, log[i].s) && log[j].s.keys.Some? ==> !log[j].fate.Aborted?
  }

  ghost predicate Disciplined(log: seq<Entry>) {
    && (forall i :: 0 <= i < |log| ==> Sane(log[i].s.rq) && log[i].s.seqNo < SESSION_MAX_MESSAGES)
    && (forall i, j :: 0 <= i < j < |log| && OneSession(log[i].s, log[j].s) ==> log[i].s.seqNo < log[j].s.seqNo)
    && (forall i :: 0 <= i < |log| && log[i].s.keys.None? ==> exists j: nat :: IsMint(log, i, j))
    && (forall i :: 0 <= i < |log| && log[i].s.keys.Some? ==> log[i].s.keys.value == Envelope(log[i].s.rq))
    && (forall i, j :: 0 <= i < j < |log| && log[j].s.keys.Some? ==> log[i].s.sid != log[j].s.sid)
  }

  // The client's records about a session agree with its opening message.
  predicate Tracks(c: Client, id: string, o: Sent) {
    && id in c.sessionKeys && c.sessionKeys[id] == o.sealed
    && (id in c.groupMembers ==> o.rq.ToGroup? && c.groupMembers[id] == Wanted(o.rq))
    && (id in c.dmKeys ==> o.rq.ToPartner? && c.dmKeys[id] == Wanted(o.rq))
    && (id in c.sendState ==> c.sendState[id].startedAt == o.at)
  }

  predicate Mints(log: seq<Entry>, j: nat, conv: string, sid: string) {
    j < |log| && log[j].s.rq.conv == conv && log[j].s.sid == sid && log[j].s.keys.Some? && !log[j].fate.Failed?
  }

  ghost predicate ActiveOk(c: Client, log: seq<Entry>, conv: string)
    requires conv in c.activeIds
  {
    var sid := c.activeIds[conv];
    && (exists j: nat :: Mints(log, j, conv, sid) && Tracks(c, KeyId(conv, sid), log[j].s))
    && NextAbove(c, log, conv, sid)
  }

  predicate NextAbove(c: Client, log: seq<Entry>, conv: string, sid: string) {
    KeyId(conv, sid) in c.sendState ==>
      forall k :: 0 <= k < |log| && log[k].s.rq.conv == conv && log[k].s.sid == sid ==>
        log[k].s.seqNo < c.sendState[KeyId(conv, sid)].next
  }

  // Nothing is recorded yet under an id that was never drawn.
  ghost predicate Untouched(c: Client, used: set<string>) {
    forall conv, sid :: ':' !in sid && sid !in used ==>
      KeyId(conv, sid) !in c.groupMembers && KeyId(conv, sid) !in c.dmKeys
  }

  predicate Drawn(c: Client, log: seq<Entry>, used: set<string>) {
    && (forall sid :: sid in used ==> ':' !in sid)
    && (forall conv :: conv in c.activeIds ==> c.activeIds[conv] in used)
    && (forall i :: 0 <= i < |log| ==> log[i].s.sid in used)
  }

  // Only the last send can be on its way.
  predicate Ended(log: seq<Entry>, waiting: bool) {
    forall i :: 0 <= i < |log| && log[i].fate.Waiting? ==> waiting && i == |log| - 1
  }

  ghost predicate Good(c: Client, log: seq<Entry>, waiting: bool, used: set<string>) {
    && Ended(log, waiting) && Disciplined(log) && Drawn(c, log, used) && Untouched(c, used)
    && forall conv :: conv in c.activeIds ==> ActiveOk(c, log, conv)
  }

  function Whole(w: World): seq<Entry> {
    w.log + (if w.pending.Some? then [Entry(w.pending.value, Waiting)] else [])
  }

  ghost predicate Invariant(w: World) { Good(w.client, Whole(w), w.pending.Some?, w.used) }

  // ---- The log grows by one send ----

  lemma MintKept(log: seq<Entry>, log': seq<Entry>, i: nat)
    requires i < |log| <= |log'| && log'[i].s == log[i].s && forall k :: 0 <= k < i ==> log'[k] == log[k]
    requires exists j: nat :: IsMint(log, i, j)
    ensures exists j: nat :: IsMint(log', i, j)
  {
    var j: nat :| IsMint(log, i, j);
    assert IsMint(log', i, j);
  }

  lemma DisciplinedReuse(log: seq<Entry>, s: Sent, j: nat)
    requires Disciplined(log) && Sane(s.rq) && s.seqNo < SESSION_MAX_MESSAGES && s.keys.None?
    requires forall k :: 0 <= k < |log| && OneSession(log[k].s, s) ==> log[k].s.seqNo < s.seqNo
    requires j < |log| && MintedBy(log[j].s, s) && (log[j].fate.Aborted? || log[j].fate.Delivered?)
    ensures Disciplined(log + [Entry(s, Waiting)])
  {
    var log' := log + [Entry(s, Waiting)];
    forall i | 0 <= i < |log'| && log'[i].s.keys.None? ensures exists j: nat :: IsMint(log', i, j) {
      if i < |log| {
        MintKept(log, log', i);
      } else {
        assert IsMint(log', i, j);
      }
    }
  }

  lemma DisciplinedMint(log: seq<Entry>, s: Sent)
    requires Disciplined(log) && Sane(s.rq) && s.seqNo < SESSION_MAX_MESSAGES
    requires s.keys == Some(Envelope(s.rq))
    requires forall k :: 0 <= k < |log| ==> log[k].s.sid != s.sid
    ensures Disciplined(log + [Entry(s, Waiting)])
  {
    var log' := log + [Entry(s, Waiting)];
    forall i | 0 <= i < |log'| && log'[i].s.keys.None? ensures exists j: nat :: IsMint(log', i, j) {
      MintKept(log, log', i);
    }
  }

  lemma DisciplinedEnd(log: seq<Entry>, s: Sent, fate: Fate)
    requires Disciplined(log + [Entry(s, Waiting)])
    ensures Disciplined(log + [Entry(s, fate)])
  {
    var log0, log' := log + [Entry(s, Waiting)], log + [Entry(s, fate)];
    assert forall i :: 0 <= i < |log0| ==> log'[i].s == log0[i].s && (i < |log| ==> log'[i] == log0[i]);
    forall i | 0 <= i < |log'| && log'[i].s.keys.None? ensures exists j: nat :: IsMint(log', i, j) {
      MintKept(log0, log', i);
    }
  }

  // ---- Beginning a send ----

  // Another conversation's records are left alone.
  lemma OtherActive(c: Client, c': Client, log: seq<Entry>, s: Sent, conv: string)
    requires conv in c.activeIds && conv in c'.activeIds && c.activeIds[conv] == c'.activeIds[conv]
    requires ActiveOk(c, log, conv)
    requires s.rq.conv != conv || s.sid != c.activeIds[conv]
    requires forall o :: Tracks(c, KeyId(conv, c.activeIds[conv]), o) ==> Tracks(c', KeyId(conv, c.activeIds[conv]), o)
    requires var id := KeyId(conv, c.activeIds[conv]);
      id in c'.sendState ==> id in c.sendState && c'.sendState[id].next == c.sendState[id].next
    ensures ActiveOk(c', log + [Entry(s, Waiting)], conv)
  {
    var sid := c.activeIds[conv];
    var j: nat :| Mints(log, j, conv, sid) && Tracks(c, KeyId(conv, sid), log[j].s);
    assert Mints(log + [Entry(s, Waiting)], j, conv, sid);
  }

  lemma IdsApart(c: Client, log: seq<Entry>, used: set<string>, conv: string, conv': string, sid': string)
    requires Drawn(c, log, used) && conv in c.activeIds && ':' !in sid'
    requires conv != conv' || c.activeIds[conv] != sid'
    ensures KeyId(conv, c.activeIds[conv]) != KeyId(conv', sid')
  {
    if KeyId(conv, c.activeIds[conv]) == KeyId(conv', sid') {
      KeyIdInjective(conv, c.activeIds[conv], conv', sid');
    }
  }

  lemma ReuseOwn(c: Client, log: seq<Entry>, rq: Request)
    requires Reuses(c, rq) && ActiveOk(c, log, rq.conv)
    ensures ActiveOk(Open(c, rq).0, log + [Entry(Open(c, rq).1, Waiting)], rq.conv)
  {
    var (c', s) := Open(c, rq);
    var sid, log' := c.activeIds[rq.conv], log + [Entry(s, Waiting)];
    var j: nat :| Mints(log, j, rq.conv, sid) && Tracks(c, KeyId(rq.conv, sid), log[j].s);
    assert Mints(log', j, rq.conv, sid) && Tracks(c', KeyId(rq.conv, sid), log'[j].s);
  }

  lemma ReuseLog(c: Client, log: seq<Entry>, used: set<string>, rq: Request)
    requires Reuses(c, rq) && ActiveOk(c, log, rq.conv) && Drawn(c, log, used)
    requires Ended(log, false) && Disciplined(log) && Sane(rq)
    ensures Disciplined(log + [Entry(Open(c, rq).1, Waiting)])
  {
    var sid := c.activeIds[rq.conv];
    var j: nat :| Mints(log, j, rq.conv, sid) && Tracks(c, KeyId(rq.conv, sid), log[j].s);
    DisciplinedReuse(log, Open(c, rq).1, j);
  }

  lemma ReuseOther(c: Client, log: seq<Entry>, used: set<string>, rq: Request, conv: string)
    requires Reuses(c, rq) && Drawn(c, log, used)
    requires conv != rq.conv && conv in c.activeIds && ActiveOk(c, log, conv)
    ensures ActiveOk(Open(c, rq).0, log + [Entry(Open(c, rq).1, Waiting)], conv)
  {
    IdsApart(c, log, used, conv, rq.conv, c.activeIds[rq.conv]);
    OtherActive(c, Open(c, rq).0, log, Open(c, rq).1, conv);
  }

  lemma MintOther(c: Client, log: seq<Entry>, used: set<string>, rq: Request, conv: string)
    requires !Reuses(c, rq) && Sane(rq) && Drawn(c, log, used)
    requires conv != rq.conv && conv in c.activeIds && ActiveOk(c, log, conv)
    ensures ActiveOk(Open(c, rq).0, log + [Entry(Open(c, rq).1, Waiting)], conv)
  {
    IdsApart(c, log, used, conv, rq.conv, rq.freshSid);
    OtherActive(c, Open(c, rq).0, log, Open(c, rq).1, conv);
  }

  lemma BeginReuse(c: Client, log: seq<Entry>, used: set<string>, rq: Request)
    requires Good(c, log, false, used) && Reuses(c, rq) && Sane(rq)
    ensures Good(Open(c, rq).0, log + [Entry(Open(c, rq).1, Waiting)], true, used + {rq.freshSid})
  {
    var (c', s) := Open(c, rq);
    assert ActiveOk(c, log, rq.conv);
    ReuseLog(c, log, used, rq);
    forall conv | conv in c'.activeIds ensures ActiveOk(c', log + [Entry(s, Waiting)], conv) {
      if conv == rq.conv {
        ReuseOwn(c, log, rq);
      } else {
        ReuseOther(c, log, used, rq, conv);
      }
    }
  }

  lemma UntouchedMint(c: Client, used: set<string>, rq: Request)
    requires Untouched(c, used) && Sane(rq)
    ensures Untouched(Mint(c, rq), used + {rq.freshSid})
  {
    var c' := Mint(c, rq);
    forall conv, sid | ':' !in sid && sid !in used + {rq.freshSid}
      ensures KeyId(conv, sid) !in c'.groupMembers && KeyId(conv, sid) !in c'.dmKeys
    {
      if KeyId(conv, sid) == KeyId(rq.conv, rq.freshSid) {
        KeyIdInjective(conv, sid, rq.conv, rq.freshSid);
      }
    }
  }

  lemma MintTracks(c: Client, used: set<string>, rq: Request)
    requires !Reuses(c, rq) && Untouched(c, used) && Sane(rq) && rq.freshSid !in used
    ensures Tracks(Open(c, rq).0, KeyId(rq.conv, rq.freshSid), Open(c, rq).1)
  {
    var id := KeyId(rq.conv, rq.freshSid);
    assert id !in c.groupMembers && id !in c.dmKeys;
  }

  lemma MintOwn(c: Client, log: seq<Entry>, used: set<string>, rq: Request)
    requires !Reuses(c, rq) && Drawn(c, log, used) && Untouched(c, used) && Sane(rq) && rq.freshSid !in used
    ensures ActiveOk(Open(c, rq).0, log + [Entry(Open(c, rq).1, Waiting)], rq.conv)
  {
    var (c', s) := Open(c, rq);
    var log' := log + [Entry(s, Waiting)];
    MintTracks(c, used, rq);
    assert Mints(log', |log|, rq.conv, rq.freshSid) && Tracks(c', KeyId(rq.conv, rq.freshSid), log'[|log|].s);
  }

  lemma BeginMint(c: Client, log: seq<Entry>, used: set<string>, rq: Request)
    requires Good(c, log, false, used) && !Reuses(c, rq) && Sane(rq) && rq.freshSid !in used
    ensures Good(Open(c, rq).0, log + [Entry(Open(c, rq).1, Waiting)], true, used + {rq.freshSid})
  {
    var (c', s) := Open(c, rq);
    DisciplinedMint(log, s);
    UntouchedMint(c, used, rq);
    forall conv | conv in c'.activeIds ensures ActiveOk(c', log + [Entry(s, Waiting)], conv) {
      if conv == rq.conv {
        MintOwn(c, log, used, rq);
      } else {
        MintOther(c, log, used, rq, conv);
      }
    }
  }

  // ---- The end of a send ----

  // The client after a send has met its fate.
  function After(c: Client, s: Sent, fate: Fate): Client
    requires !fate.Waiting?
  {
    if fate.Aborted? then c else Settle(c, s, fate.Delivered?)
  }

  lemma EndActive(c: Client, log: seq<Entry>, s: Sent, fate: Fate, conv: string)
    requires !fate.Waiting?
    requires conv in c.activeIds && ActiveOk(c, log + [Entry(s, Waiting)], conv)
    requires conv in After(c, s, fate).activeIds
    ensures ActiveOk(After(c, s, fate), log + [Entry(s, fate)], conv)
  {
    var log0, log', c' := log + [Entry(s, Waiting)], log + [Entry(s, fate)], After(c, s, fate);
    var sid := c.activeIds[conv];
    assert forall i :: 0 <= i < |log0| ==> log'[i].s == log0[i].s;
    var j: nat :| Mints(log0, j, conv, sid) && Tracks(c, KeyId(conv, sid), log0[j].s);
    assert j < |log| ==> log0[j] == log[j] == log'[j];
    assert Mints(log', j, conv, sid) && Tracks(c', KeyId(conv, sid), log'[j].s);
  }

  lemma EndGood(c: Client, log: seq<Entry>, s: Sent, fate: Fate, used: set<string>)
    requires !fate.Waiting?
    requires Good(c, log + [Entry(s, Waiting)], true, used)
    ensures Good(After(c, s, fate), log + [Entry(s, fate)], false, used)
  {
    DisciplinedEnd(log, s, fate);
    var log0, log' := log + [Entry(s, Waiting)], log + [Entry(s, fate)];
    assert forall i :: 0 <= i < |log0| ==> log'[i].s == log0[i].s && (i < |log| ==> log'[i] == log0[i]);
    forall conv | conv in After(c, s, fate).activeIds ensures ActiveOk(After(c, s, fate), log', conv) {
      EndActive(c, log, s, fate, conv);
    }
  }

  // ---- Invalidation and adoption ----

  lemma DropGood(c: Client, log: seq<Entry>, waiting: bool, used: set<string>, conv: string)
    requires Good(c, log, waiting, used)
    ensures Good(Invalidate(c, conv), log, waiting, used)
  {
    forall k | k in Invalidate(c, conv).activeIds ensures ActiveOk(Invalidate(c, conv), log, k) {
      assert ActiveOk(c, log, k);
      var sid := c.activeIds[k];
      var j: nat :| Mints(log, j, k, sid) && Tracks(c, KeyId(k, sid), log[j].s);
      assert Tracks(Invalidate(c, conv), KeyId(k, sid), log[j].s);
    }
  }

  lemma LearnGood(c: Client, log: seq<Entry>, waiting: bool, used: set<string>, keys: map<string, nat>)
    requires Good(c, log, waiting, used)
    ensures Good(Adopt(c, keys), log, waiting, used)
  {
    forall k | k in Adopt(c, keys).activeIds ensures ActiveOk(Adopt(c, keys), log, k) {
      assert ActiveOk(c, log, k);
      var sid := c.activeIds[k];
      var j: nat :| Mints(log, j, k, sid) && Tracks(c, KeyId(k, sid), log[j].s);
      assert Tracks(Adopt(c, keys), KeyId(k, sid), log[j].s);
    }
  }

  lemma InvariantStep(w: World, e: Event)
    requires Invariant(w) && Enabled(w, e)
    ensures Invariant(Step(w, e))
  {
    match e
    case Begin(rq) =>
      assert Whole(w) == w.log;
      if Reuses(w.client, rq) {
        BeginReuse(w.client, w.log, w.used, rq);
      } else {
        BeginMint(w.client, w.log, w.used, rq);
      }
    case Abort =>
      EndGood(w.client, w.log, w.pending.value, Aborted, w.used);
      assert Whole(Step(w, e)) == Step(w, e).log;
    case Answer(delivered) =>
      EndGood(w.client, w.log, w.pending.value, if delivered then Delivered else Failed, w.used);
      assert Whole(Step(w, e)) == Step(w, e).log;
    case Drop(conv) => DropGood(w.client, Whole(w), w.pending.Some?, w.used, conv);
    case Learn(keys) => LearnGood(w.client, Whole(w), w.pending.Some?, w.used, keys);
  }

  lemma {:induction false} InvariantRun(w: World, es: seq<Event>)
    requires Invariant(w) && Legal(w, es)
    ensures Invariant(Run(w, es))
    decreases |es|
  {
    if es != [] {
      InvariantStep(w, es[0]);
      InvariantRun(Step(w, es[0]), es[1..]);
    }
  }

  // Main result: over any run, sequence numbers within a session rise and stay
  // below 100; a message without keys follows the send that minted its session,
  // under the same session key for the same recipients less than 24 hours before,
  // whose POST did not fail; and no session is minted twice.
  lemma EveryRunIsDisciplined(es: seq<Event>)
    requires Legal(Initial(), es)
    ensures Disciplined(Whole(Run(Initial(), es)))
  {
    InvariantRun(Initial(), es);
  }

  // ---- What a session is limited to ----

  function InSession(conv: string, sid: string): Entry -> bool {
    (e: Entry) => e.s.rq.conv == conv && e.s.sid == sid
  }

  // Numbers that rise from `low` and stay below `bound` are at most that many.
  lemma {:induction false} RisingCount(log: seq<Entry>, conv: string, sid: string, low: nat, bound: nat)
    requires low <= bound
    requires forall i :: 0 <= i < |log| && InSession(conv, sid)(log[i]) ==> low <= log[i].s.seqNo < bound
    requires forall i, j :: 0 <= i < j < |log| && InSession(conv, sid)(log[i]) && InSession(conv, sid)(log[j]) ==>
               log[i].s.seqNo < log[j].s.seqNo
    ensures |Filter(InSession(conv, sid), log)| <= bound - low
  {
    if log != [] {
      RisingCount(log[1..], conv, sid, if InSession(conv, sid)(log[0]) then log[0].s.seqNo + 1 else low, bound);
    }
  }

  // No message of the session is begun a day or more after the session was.
  predicate WithinADay(log: seq<Entry>, conv: string, sid: string) {
    forall i, j :: 0 <= i < |log| && 0 <= j < |log| ==>
      InSession(conv, sid)(log[i]) && InSession(conv, sid)(log[j]) && log[j].s.keys.Some? ==>
        log[i].s.at - log[j].s.at < 86400000
  }

  // What `SessionUsable` is for: over any run no session carries more than 100
  // messages, and none of them is begun 24 hours or more after the session was.
  lemma SessionsAreBounded(es: seq<Event>, conv: string, sid: string)
    requires Legal(Initial(), es)
    ensures var log := Whole(Run(Initial(), es));
      |Filter(InSession(conv, sid), log)| <= 100 && WithinADay(log, conv, sid)
  {
    var log := Whole(Run(Initial(), es));
    EveryRunIsDisciplined(es);
    RisingCount(log, conv, sid, 0, SESSION_MAX_MESSAGES);
    forall i, j | 0 <= i < |log| && 0 <= j < |log|
      && InSession(conv, sid)(log[i]) && InSession(conv, sid)(log[j]) && log[j].s.keys.Some?
      ensures log[i].s.at - log[j].s.at < SESSION_MAX_AGE
    {
      if i != j {
        var k := MintOf(log, i);
        OneMint(log, j, k);
      }
    }
  }

  // ---- Whether a session's key ever reached the server ----

  // The send that minted the session of message i: itself, or one before it.
  predicate Carries(log: seq<Entry>, i: nat, j: nat)
    requires i < |log|
  {
    j <= i && OneSession(log[j].s, log[i].s) && log[j].s.sealed == log[i].s.sealed && log[j].s.keys.Some?
  }

  lemma MintOf(log: seq<Entry>, i: nat) returns (j: nat)
    requires Disciplined(log) && i < |log|
    ensures Carries(log, i, j) && log[j].s.keys == Some(Envelope(log[j].s.rq))
    ensures log[i].s.at - log[j].s.at < SESSION_MAX_AGE
    ensures log[j].s.rq.ToGroup? == log[i].s.rq.ToGroup? && Wanted(log[j].s.rq) == Wanted(log[i].s.rq)
    ensures Sane(log[i].s.rq) && Sane(log[j].s.rq)
    ensures log[i].s.keys.None? ==> IsMint(log, i, j)
  {
    j := i;
    if log[i].s.keys.None? {
      j :| IsMint(log, i, j);
    }
  }

  lemma OneMint(log: seq<Entry>, j: nat, k: nat)
    requires Disciplined(log) && j < |log| && k < |log| && OneSession(log[j].s, log[k].s)
    requires log[j].s.keys.Some? && log[k].s.keys.Some?
    ensures j == k
  {
  }

  lemma OpenedIfPosted(log: seq<Entry>, i: nat)
    requires Disciplined(log) && i < |log| && log[i].s.keys.None?
    ensures HasOpener(log, i) <==> MintPosted(log, i)
  {
    var j := MintOf(log, i);
    if HasOpener(log, i) {
      var o :| 0 <= o < i && MintedBy(log[o].s, log[i].s) && log[o].fate.Delivered?;
      forall k | 0 <= k < |log| && OneSession(log[k].s, log[i].s) && log[k].s.keys.Some? ensures !log[k].fate.Aborted? {
        OneMint(log, o, k);
      }
    }
  }

  // Main result: over any run, a delivered message of its session carried the key
  // of a message without keys if and only if the send that minted the session got
  // as far as the POST.
  lemma OpenedIffMintPosted(es: seq<Event>, i: nat)
    requires Legal(Initial(), es)
    requires i < |Whole(Run(Initial(), es))| && Whole(Run(Initial(), es))[i].s.keys.None?
    ensures var log := Whole(Run(Initial(), es)); HasOpener(log, i) <==> MintPosted(log, i)
  {
    EveryRunIsDisciplined(es);
    OpenedIfPosted(Whole(Run(Initial(), es)), i);
  }

  lemma RunCons(w: World, e: Event, es: seq<Event>)
    requires Enabled(w, e) && Legal(Step(w, e), es)
    ensures Legal(w, [e] + es) && Run(w, [e] + es) == Run(Step(w, e), es)
  {
    assert ([e] + es)[1..] == es;
  }

  // Both sides fail when the signature of the first message is declined and the
  // user sends again: the second message is delivered under a key that was not.
  lemma DeclinedSignatureStrandsTheKey()
    ensures var first := ToPartner("bob", "k", None, 0, 0, "s", 7);
      var again := ToPartner("bob", "k", None, 1, 1, "t", 8);
      var es := [Begin(first), Abort, Begin(again), Answer(true)];
      && Legal(Initial(), es)
      && var log := Whole(Run(Initial(), es));
         |log| == 2 && log[1].fate.Delivered? && log[1].s.keys.None? && log[1].s.seqNo == 1 && !HasOpener(log, 1)
  {
    var first, again := ToPartner("bob", "k", None, 0, 0, "s", 7), ToPartner("bob", "k", None, 1, 1, "t", 8);
    var w1 := Step(Initial(), Begin(first));
    var w2 := Step(w1, Abort);
    assert Reuses(w2.client, again);
    var w3 := Step(w2, Begin(again));
    var w4 := Step(w3, Answer(true));
    RunCons(w3, Answer(true), []);
    RunCons(w2, Begin(again), [Answer(true)]);
    RunCons(w1, Abort, [Begin(again), Answer(true)]);
    RunCons(Initial(), Begin(first), [Abort, Begin(again), Answer(true)]);
    assert Whole(w4)[0].fate.Aborted?;
  }

  // ---- For whom a session's key was wrapped ----

  lemma SameGroupKeys(a: Request, b: Request)
    requires a.ToGroup? && b.ToGroup? && Sane(a) && Sane(b) && Wanted(a) == Wanted(b)
    ensures MapPairs(Envelope(a)) == PairsOf(b.gated)
  {
    SafeSetDecides(a.gated, b.gated);
    WrapItems(a.gated);
  }

  // The wraps of message i's session lie with the server once it is delivered:
  // in the message itself, or in an earlier one if its POST was made.
  ghost predicate WrapsDelivered(log: seq<Entry>, i: nat, j: nat)
    requires i < |log| && j < |log|
  {
    j < i ==> (log[j].fate.Delivered? <==> MintPosted(log, i))
  }

  lemma CarrierDelivered(log: seq<Entry>, i: nat, j: nat)
    requires Disciplined(log) && i < |log| && Carries(log, i, j) && (log[i].s.keys.None? ==> IsMint(log, i, j))
    ensures WrapsDelivered(log, i, j)
  {
    if j < i {
      OpenedIfPosted(log, i);
      if HasOpener(log, i) {
        var o :| 0 <= o < i && MintedBy(log[o].s, log[i].s) && log[o].fate.Delivered?;
        OneMint(log, o, j);
      }
    }
  }

  // Main result: every group message, minting or not, goes out under a session
  // whose wrapped (address, key) pairs are those the gate passed at that send; they
  // were delivered before it exactly if the minting send got as far as the POST.
  lemma WrappedForTheGatedSet(es: seq<Event>, i: nat) returns (j: nat)
    requires Legal(Initial(), es)
    requires i < |Whole(Run(Initial(), es))| && Whole(Run(Initial(), es))[i].s.rq.ToGroup?
    ensures var log := Whole(Run(Initial(), es));
      && Carries(log, i, j) && WrapsDelivered(log, i, j)
      && var keys, gated := log[j].s.keys.value, log[i].s.rq.gated;
         && (forall m :: m in gated ==> m.address in keys && keys[m.address] == m.key.GetOr(""))
         && (forall a :: a in keys ==> exists m :: m in gated && m.address == a)
  {
    var log := Whole(Run(Initial(), es));
    EveryRunIsDisciplined(es);
    j := MintOf(log, i);
    CarrierDelivered(log, i, j);
    SameGroupKeys(log[j].s.rq, log[i].s.rq);
    PairsMean(log[j].s.keys.value, log[i].s.rq.gated);
  }

  lemma PairsMean(keys: map<string, string>, gated: seq<Member>)
    requires MapPairs(keys) == PairsOf(gated)
    ensures forall m :: m in gated ==> m.address in keys && keys[m.address] == m.key.GetOr("")
    ensures forall a :: a in keys ==> exists m :: m in gated && m.address == a
  {
    forall m | m in gated ensures m.address in keys && keys[m.address] == m.key.GetOr("") {
      assert (m.address, m.key.GetOr("")) in PairsOf(gated);
    }
    forall a | a in keys ensures exists m :: m in gated && m.address == a {
      assert (a, keys[a]) in MapPairs(keys);
    }
  }

  // The same for a partner: "recip" is wrapped to the partner's key at that send,
  // "sender" to one's own if there is one, and nothing else is in the map.
  lemma WrappedForThePartner(es: seq<Event>, i: nat) returns (j: nat)
    requires Legal(Initial(), es)
    requires i < |Whole(Run(Initial(), es))| && Whole(Run(Initial(), es))[i].s.rq.ToPartner?
    ensures var log := Whole(Run(Initial(), es));
      && Carries(log, i, j) && WrapsDelivered(log, i, j)
      && var keys, rq := log[j].s.keys.value, log[i].s.rq;
         && "recip" in keys && keys["recip"] == rq.recip
         && ("sender" in keys <==> rq.mine.Some? && rq.mine.value != "")
         && ("sender" in keys ==> keys["sender"] == rq.mine.value)
         && keys.Keys <= {"recip", "sender"}
  {
    var log := Whole(Run(Initial(), es));
    EveryRunIsDisciplined(es);
    j := MintOf(log, i);
    CarrierDelivered(log, i, j);
    SamePartnerKeys(log[j].s.rq, log[i].s.rq);
    PartnerEnvelope(log[i].s.rq);
  }

  lemma PartnerEnvelope(rq: Request)
    requires rq.ToPartner?
    ensures var keys := Envelope(rq);
      && "recip" in keys && keys["recip"] == rq.recip
      && ("sender" in keys <==> rq.mine.Some? && rq.mine.value != "")
      && ("sender" in keys ==> keys["sender"] == rq.mine.value)
      && keys.Keys <= {"recip", "sender"}
  {
    assert "recip"[0] != "sender"[0];
  }

  lemma SamePartnerKeys(a: Request, b: Request)
    requires a.ToPartner? && b.ToPartner? && Sane(a) && Sane(b) && Wanted(a) == Wanted(b)
    ensures Envelope(a) == Envelope(b)
  {
    SplitFirst(a.recip, a.mine.GetOr(""), b.recip, b.mine.GetOr(""), '|');
  }
}
