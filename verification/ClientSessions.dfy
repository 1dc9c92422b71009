/**
The sending half of the messenger client: which session a message goes out under,
when a new one is minted, and what every run of sends, failures, invalidations and
adopted keys keeps. Wrapping a session key is modelled by the key it is wrapped to.
*/
module ClientSessions {
  import opened Text
  import opened Lists

  const SESSION_MAX_MESSAGES: nat := 100
  // Milliseconds, as `Date.now()` counts them.
  const SESSION_MAX_AGE: int := 24 * 60 * 60 * 1000

  // ---- Names ----

  function KeyId(conv: string, sid: string): string { conv + ":" + sid }

  lemma LastColon(conv: string, sid: string, conv': string, sid': string)
    requires ':' !in sid' && KeyId(conv, sid) == KeyId(conv', sid')
    ensures |conv| <= |conv'|
  {
    var s, s' := conv + ":" + sid, conv' + ":" + sid';
    assert s[|conv|] == s'[|conv|];
  }

  // A session id is a UUID, so the last colon ends the conversation.
  lemma KeyIdInjective(conv: string, sid: string, conv': string, sid': string)
    requires ':' !in sid && ':' !in sid' && KeyId(conv, sid) == KeyId(conv', sid')
    ensures conv == conv' && sid == sid'
  {
    LastColon(conv, sid, conv', sid');
    LastColon(conv', sid', conv, sid);
    var s := KeyId(conv, sid);
    assert s[..|conv|] == conv && s[|conv| + 1..] == sid;
    assert s[..|conv'|] == conv' && s[|conv'| + 1..] == sid';
  }

  // ---- The attestation gate ----

  datatype Member = Member(address: string, key: Option<string>)

  // The verdicts of the trust store: the attestation of a contact's key, and
  // whether that key differs from the one last confirmed.
  datatype Trust = Trust(me: string, verified: Member -> bool, changed: Member -> bool)

  datatype Reason = Attestation | KeyChanged

  datatype Exclusion = Exclusion(member: Member, reason: Reason)

  function HasKey(): Member -> bool { (m: Member) => m.key.GetOr("") != "" }

  predicate Passes(t: Trust, m: Member) { t.verified(m) && (m.address == Lower(t.me) || !t.changed(m)) }

  function Safe(t: Trust): Member -> bool { (m: Member) => m.key.GetOr("") != "" && Passes(t, m) }

  function Refused(t: Trust): Member -> bool { (m: Member) => m.key.GetOr("") != "" && !Passes(t, m) }

  predicate Explains(t: Trust, members: seq<Member>, excluded: seq<Exclusion>) {
    && |excluded| == |members|
    && forall i :: 0 <= i < |members| ==>
         && excluded[i].member == members[i]
         && (excluded[i].reason == Attestation <==> !t.verified(members[i]))
  }

  lemma ExplainsSnoc(t: Trust, members: seq<Member>, excluded: seq<Exclusion>, m: Member, reason: Reason)
    requires Explains(t, members, excluded) && (reason == Attestation <==> !t.verified(m))
    ensures Explains(t, members + [m], excluded + [Exclusion(m, reason)])
  {
  }

  method GateGroupMembers(t: Trust, members: seq<Member>) returns (safe: seq<Member>, excluded: seq<Exclusion>)
    ensures safe == Filter(Safe(t), members)
    ensures Explains(t, Filter(Refused(t), members), excluded)
  {
    safe, excluded := [], [];
    for i := 0 to |members|
      invariant safe == Filter(Safe(t), members[..i])
      invariant Explains(t, Filter(Refused(t), members[..i]), excluded)
    {
      var m := members[i];
      FilterSnoc(Safe(t), members, i);
      FilterSnoc(Refused(t), members, i);
      if m.key.GetOr("") == "" {
        continue;
      }
      if !t.verified(m) {
        ExplainsSnoc(t, Filter(Refused(t), members[..i]), excluded, m, Attestation);
        excluded := excluded + [Exclusion(m, Attestation)];
      } else if m.address != Lower(t.me) && t.changed(m) {
        ExplainsSnoc(t, Filter(Refused(t), members[..i]), excluded, m, KeyChanged);
        excluded := excluded + [Exclusion(m, KeyChanged)];
      } else {
        safe := safe + [m];
      }
    }
    assert members[..|members|] == members;
  }

  // Only a member whose key is attested is wrapped to, and, but for oneself, only while
  // that key is the one last confirmed.
  lemma GatePasses(t: Trust, members: seq<Member>, m: Member)
    ensures m in Filter(Safe(t), members) <==>
      && m in members && m.key.Some? && m.key.value != ""
      && t.verified(m) && (t.changed(m) ==> m.address == Lower(t.me))
  {
  }

  // Members without a key count as neither; the others are wrapped to or refused.
  lemma GateSplits(t: Trust, members: seq<Member>)
    ensures |Filter(Safe(t), members)| + |Filter(Refused(t), members)| == |Filter(HasKey(), members)|
  {
    var keyed := Filter(HasKey(), members);
    FilterTwice(Safe(t), HasKey(), Safe(t), members);
    FilterTwice(Refused(t), HasKey(), Refused(t), members);
    FilterSplit(Safe(t), Refused(t), keyed);
  }

  // ---- The set a group session was wrapped for, as one string ----

  function PairText(m: Member): string { m.address + ":" + m.key.GetOr("") }

  function Join(xs: seq<string>): string {
    if xs == [] then "" else if |xs| == 1 then xs[0] else xs[0] + "," + Join(xs[1..])
  }

  // `safeSet`
  function SafeSet(ms: seq<Member>): string { Join(SortStrings(Map(PairText, ms))) }

  function PairsOf(ms: seq<Member>): set<(string, string)> { set m | m in ms :: (m.address, m.key.GetOr("")) }

  // A verified attestation names an address and a key in hex, so neither can hold
  // a separator.
  predicate Spelled(ms: seq<Member>) {
    forall m :: m in ms ==> ':' !in m.address && ',' !in m.address && ',' !in m.key.GetOr("")
  }

  predicate OneRowEach(ms: seq<Member>) {
    forall i, j :: 0 <= i < j < |ms| ==> ms[i].address != ms[j].address
  }

  predicate Segments(xs: seq<string>) { forall i :: 0 <= i < |xs| ==> xs[i] != "" && ',' !in xs[i] }

  // What follows the first segment and its comma, once a comma ends the text.
  function AfterFirst(xs: seq<string>): string
    requires xs != []
  {
    if |xs| == 1 then "" else Join(xs[1..]) + ","
  }

  lemma FirstSegment(xs: seq<string>)
    requires xs != []
    ensures Join(xs) + "," == xs[0] + "," + AfterFirst(xs)
  {
    if |xs| > 1 {
      assert xs[0] + "," + Join(xs[1..]) + "," == xs[0] + "," + (Join(xs[1..]) + ",");
    } else {
      assert xs[0] + "," + "" == xs[0] + ",";
    }
  }

  lemma {:induction false} JoinInjective(xs: seq<string>, ys: seq<string>)
    requires Segments(xs) && Segments(ys) && Join(xs) == Join(ys)
    ensures xs == ys
  {
    if xs != [] && ys != [] {
      FirstSegment(xs);
      FirstSegment(ys);
      SplitFirst(xs[0], AfterFirst(xs), ys[0], AfterFirst(ys), ',');
      if |xs| > 1 && |ys| > 1 {
        var rest := AfterFirst(xs);
        assert rest[..|rest| - 1] == Join(xs[1..]) && rest[..|rest| - 1] == Join(ys[1..]);
        JoinInjective(xs[1..], ys[1..]);
      }
      assert |xs| > 1 ==> xs == [xs[0]] + xs[1..];
      assert |ys| > 1 ==> ys == [ys[0]] + ys[1..];
    }
  }

  lemma PairTextInjective(a: Member, b: Member)
    requires ':' !in a.address && ':' !in b.address && PairText(a) == PairText(b)
    ensures a.address == b.address && a.key.GetOr("") == b.key.GetOr("")
  {
    SplitFirst(a.address, a.key.GetOr(""), b.address, b.key.GetOr(""), ':');
  }

  lemma PairSegments(ms: seq<Member>)
    requires Spelled(ms)
    ensures Segments(SortStrings(Map(PairText, ms)))
  {
    var sorted := SortStrings(Map(PairText, ms));
    forall i | 0 <= i < |sorted| ensures sorted[i] != "" && ',' !in sorted[i] {
      assert sorted[i] in multiset(Map(PairText, ms));
      var k :| 0 <= k < |ms| && PairText(ms[k]) == sorted[i];
      assert ms[k] in ms;
    }
  }

  lemma PairTextIn(ms: seq<Member>, text: string) returns (m: Member)
    requires text in multiset(Map(PairText, ms))
    ensures m in ms && PairText(m) == text
  {
    var k :| 0 <= k < |ms| && PairText(ms[k]) == text;
    m := ms[k];
  }

  lemma PairsWithin(xs: seq<Member>, ys: seq<Member>)
    requires Spelled(xs) && Spelled(ys) && multiset(Map(PairText, xs)) == multiset(Map(PairText, ys))
    ensures PairsOf(xs) <= PairsOf(ys)
  {
    forall m | m in xs ensures (m.address, m.key.GetOr("")) in PairsOf(ys) {
      var m' := PairTextIn(ys, PairText(m));
      PairTextInjective(m, m');
    }
  }

  // Equal strings mean the same members under the same keys.
  lemma SafeSetDecides(xs: seq<Member>, ys: seq<Member>)
    requires Spelled(xs) && Spelled(ys) && SafeSet(xs) == SafeSet(ys)
    ensures PairsOf(xs) == PairsOf(ys)
  {
    PairSegments(xs);
    PairSegments(ys);
    JoinInjective(SortStrings(Map(PairText, xs)), SortStrings(Map(PairText, ys)));
    SortDecides(Map(PairText, xs), Map(PairText, ys));
    PairsWithin(xs, ys);
    PairsWithin(ys, xs);
  }

  lemma TextsApart(xs: seq<Member>)
    requires Spelled(xs) && OneRowEach(xs)
    ensures NoRepeats(Map(PairText, xs))
  {
    var texts := Map(PairText, xs);
    forall i, j | 0 <= i < j < |texts| ensures texts[i] != texts[j] {
      assert xs[i] in xs && xs[j] in xs;
      if texts[i] == texts[j] { PairTextInjective(xs[i], xs[j]); }
    }
  }

  lemma TextsWithin(xs: seq<Member>, ys: seq<Member>)
    requires PairsOf(xs) <= PairsOf(ys)
    ensures SetOf(Map(PairText, xs)) <= SetOf(Map(PairText, ys))
  {
    forall t | t in Map(PairText, xs) ensures t in Map(PairText, ys) {
      var i :| 0 <= i < |xs| && PairText(xs[i]) == t;
      assert (xs[i].address, xs[i].key.GetOr("")) in PairsOf(ys);
      var m :| m in ys && m.address == xs[i].address && m.key.GetOr("") == xs[i].key.GetOr("");
      var k :| 0 <= k < |ys| && ys[k] == m;
      assert Map(PairText, ys)[k] == t;
    }
  }

  // And the same members under the same keys give one string, in whatever order.
  lemma SafeSetForgetsOrder(xs: seq<Member>, ys: seq<Member>)
    requires Spelled(xs) && Spelled(ys) && OneRowEach(xs) && OneRowEach(ys) && PairsOf(xs) == PairsOf(ys)
    ensures SafeSet(xs) == SafeSet(ys)
  {
    TextsApart(xs);
    TextsApart(ys);
    TextsWithin(xs, ys);
    TextsWithin(ys, xs);
    SortDecidesSets(Map(PairText, xs), Map(PairText, ys));
  }

  // The `wrappedKeys` a loop over the safe members fills in.
  function WrapFor(ms: seq<Member>): map<string, string> {
    if ms == [] then map[]
    else WrapFor(ms[..|ms| - 1])[ms[|ms| - 1].address := ms[|ms| - 1].key.GetOr("")]
  }

  // The (address, key) pairs an envelope wraps to.
  function MapPairs(m: map<string, string>): set<(string, string)> { set a | a in m :: (a, m[a]) }

  lemma AddedPair(m: map<string, string>, k: string, v: string)
    requires k !in m
    ensures MapPairs(m[k := v]) == MapPairs(m) + {(k, v)}
  {
    var m' := m[k := v];
    forall a | a in m' ensures (a, m'[a]) in MapPairs(m) + {(k, v)} {
    }
    forall a | a in m ensures (a, m[a]) in MapPairs(m') {
      assert m'[a] == m[a];
    }
    assert k in m' && m'[k] == v;
  }

  lemma {:induction false} WrapItems(ms: seq<Member>)
    requires OneRowEach(ms)
    ensures MapPairs(WrapFor(ms)) == PairsOf(ms)
    ensures forall a :: a in WrapFor(ms) <==> exists m :: m in ms && m.address == a
  {
    if ms != [] {
      var init, last := ms[..|ms| - 1], ms[|ms| - 1];
      WrapItems(init);
      assert ms == init + [last];
      assert last.address !in WrapFor(init);
      assert PairsOf(ms) == PairsOf(init) + {(last.address, last.key.GetOr(""))};
      AddedPair(WrapFor(init), last.address, last.key.GetOr(""));
    }
  }

  method WrapKeys(ms: seq<Member>) returns (wrapped: map<string, string>)
    ensures wrapped == WrapFor(ms)
  {
    wrapped := map[];
    for i := 0 to |ms|
      invariant wrapped == WrapFor(ms[..i])
    {
      assert ms[..i + 1][..i] == ms[..i];
      wrapped := wrapped[ms[i].address := ms[i].key.GetOr("")];
    }
    assert ms[..|ms|] == ms;
  }

  // ---- The client's state ----

  datatype SendState = SendState(next: nat, startedAt: int)

  datatype Client = Client(
    sendState: map<string, SendState>,
    groupMembers: map<string, string>,
    dmKeys: map<string, string>,
    sessionKeys: map<string, nat>,
    activeIds: map<string, string>)

  // What one send brings: the conversation, whom it would wrap for, the time its
  // session is judged and the time a new one would start, and fresh randomness.
  datatype Request =
    | ToGroup(conv: string, gated: seq<Member>, checkedAt: int, startedAt: int, freshSid: string, freshKey: nat)
    | ToPartner(conv: string, recip: string, mine: Option<string>, checkedAt: int, startedAt: int, freshSid: string, freshKey: nat)

  function Wanted(rq: Request): string {
    match rq
    case ToGroup(_, gated, _, _, _, _) => SafeSet(gated)
    case ToPartner(_, recip, mine, _, _, _, _) => recip + "|" + mine.GetOr("")
  }

  function Envelope(rq: Request): map<string, string> {
    match rq
    case ToGroup(_, gated, _, _, _, _) => WrapFor(gated)
    case ToPartner(_, recip, mine, _, _, _, _) =>
      if mine.GetOr("") == "" then map["recip" := recip] else map["recip" := recip, "sender" := mine.value]
  }

  function Recorded(c: Client, rq: Request): map<string, string> {
    if rq.ToGroup? then c.groupMembers else c.dmKeys
  }

  // A message handed to the server. `sealed` is the session key it is encrypted
  // under; `at` is when its session was judged usable, or started.
  datatype Sent = Sent(
    rq: Request, sid: string, seqNo: nat, at: int, keys: Option<map<string, string>>, sealed: nat)

  predicate Usable(c: Client, id: string, now: int) {
    id in c.sendState && c.sendState[id].next < SESSION_MAX_MESSAGES && now - c.sendState[id].startedAt < SESSION_MAX_AGE
  }

  predicate Reuses(c: Client, rq: Request) {
    && rq.conv in c.activeIds
    && var id := KeyId(rq.conv, c.activeIds[rq.conv]);
       id in c.sessionKeys && Usable(c, id, rq.checkedAt) && id in Recorded(c, rq) && Recorded(c, rq)[id] == Wanted(rq)
  }

  function Mint(c: Client, rq: Request): Client {
    var id := KeyId(rq.conv, rq.freshSid);
    Client(
      c.sendState[id := SendState(0, rq.startedAt)],
      if rq.ToGroup? then c.groupMembers[id := Wanted(rq)] else c.groupMembers,
      if rq.ToGroup? then c.dmKeys else c.dmKeys[id := Wanted(rq)],
      c.sessionKeys[id := rq.freshKey],
      c.activeIds[rq.conv := rq.freshSid])
  }

  function Issue(c: Client, id: string): Client
    requires id in c.sendState
  {
    c.(sendState := c.sendState[id := c.sendState[id].(next := c.sendState[id].next + 1)])
  }

  // Everything a send does up to the POST.
  function Open(c: Client, rq: Request): (Client, Sent) {
    if Reuses(c, rq) then
      var sid := c.activeIds[rq.conv];
      var id := KeyId(rq.conv, sid);
      (Issue(c, id), Sent(rq, sid, c.sendState[id].next, rq.checkedAt, None, c.sessionKeys[id]))
    else
      var minted, id := Mint(c, rq), KeyId(rq.conv, rq.freshSid);
      (Issue(minted, id), Sent(rq, rq.freshSid, 0, rq.startedAt, Some(Envelope(rq)), rq.freshKey))
  }

  // Everything it does after the server's answer.
  function Settle(c: Client, s: Sent, delivered: bool): Client {
    if delivered || s.keys.None? then c
    else c.(sendState := c.sendState - {KeyId(s.rq.conv, s.sid)}, activeIds := c.activeIds - {s.rq.conv})
  }

  function Invalidate(c: Client, conv: string): Client { c.(activeIds := c.activeIds - {conv}) }

  // Keys unwrapped from history: they never replace one that is already cached.
  function Adopt(c: Client, keys: map<string, nat>): Client { c.(sessionKeys := keys + c.sessionKeys) }

  class Messenger {
    var sendState: map<string, SendState>
    var groupMembers: map<string, string>
    var dmKeys: map<string, string>
    var sessionKeys: map<string, nat>
    var activeIds: map<string, string>

    function State(): Client
      reads this
    {
      Client(sendState, groupMembers, dmKeys, sessionKeys, activeIds)
    }

    constructor ()
      ensures State() == Client(map[], map[], map[], map[], map[])
    {
      sendState, groupMembers, dmKeys, sessionKeys, activeIds := map[], map[], map[], map[], map[];
    }

    predicate SessionUsable(id: string, now: int)
      reads this
    {
      Usable(State(), id, now)
    }

    method StartSession(id: string, now: int)
      modifies this`sendState
      ensures sendState == old(sendState)[id := SendState(0, now)]
    {
      sendState := sendState[id := SendState(0, now)];
    }

    method NextSeq(id: string) returns (seqNo: nat)
      requires id in sendState
      modifies this`sendState
      ensures seqNo == old(sendState)[id].next
      ensures State() == Issue(old(State()), id)
    {
      seqNo := sendState[id].next;
      sendState := sendState[id := sendState[id].(next := seqNo + 1)];
    }

    method AbandonSession(conv: string, id: string)
      modifies this`sendState, this`activeIds
      ensures sendState == old(sendState) - {id} && activeIds == old(activeIds) - {conv}
    {
      sendState := sendState - {id};
      if conv in activeIds {
        activeIds := activeIds - {conv};
      }
    }

    method InvalidateGroupSession(conv: string)
      modifies this`activeIds
      ensures State() == Invalidate(old(State()), conv)
    {
      activeIds := activeIds - {conv};
    }

    method AdoptSessions(keys: map<string, nat>)
      modifies this`sessionKeys
      ensures State() == Adopt(old(State()), keys)
    {
      sessionKeys := keys + sessionKeys;
    }

    // The first half of `sendGroupMessage`, for a channel with these members.
    method OpenGroup(t: Trust, members: seq<Member>, conv: string, checkedAt: int, startedAt: int, freshSid: string, freshKey: nat)
      returns (s: Sent)
      modifies this
      ensures (State(), s)
           == Open(old(State()), ToGroup(conv, Filter(Safe(t), members), checkedAt, startedAt, freshSid, freshKey))
    {
      var safe, _ := GateGroupMembers(t, members);
      var rq := ToGroup(conv, safe, checkedAt, startedAt, freshSid, freshKey);
      var safeSet := SafeSet(safe);
      var sid, sKey := "", None;
      if conv in activeIds {
        sid := activeIds[conv];
        var id := KeyId(conv, sid);
        sKey := if id in sessionKeys then Some(sessionKeys[id]) else None;
        if sKey.Some? && !(id in groupMembers && groupMembers[id] == safeSet) { sKey := None; }
        if sKey.Some? && !SessionUsable(id, checkedAt) { sKey := None; }
      }
      assert sKey.Some? <==> Reuses(State(), rq);
      var keys, at := None, checkedAt;
      if sKey.None? {
        sid, sKey, at := freshSid, Some(freshKey), startedAt;
        var wrapped := WrapKeys(safe);
        keys := Some(wrapped);
        var id := KeyId(conv, sid);
        groupMembers := groupMembers[id := safeSet];
        sessionKeys := sessionKeys[id := freshKey];
        activeIds := activeIds[conv := sid];
        StartSession(id, startedAt);
      }
      var seqNo := NextSeq(KeyId(conv, sid));
      s := Sent(rq, sid, seqNo, at, keys, sKey.value);
    }

    // The first half of `sendMessage`, past the checks that refuse the partner.
    method OpenPartner(conv: string, recip: string, mine: Option<string>, checkedAt: int, startedAt: int, freshSid: string, freshKey: nat)
      returns (s: Sent)
      modifies this
      ensures (State(), s) == Open(old(State()), ToPartner(conv, recip, mine, checkedAt, startedAt, freshSid, freshKey))
    {
      var rq := ToPartner(conv, recip, mine, checkedAt, startedAt, freshSid, freshKey);
      var wrappedFor := recip + "|" + mine.GetOr("");
      var sid, sKey := "", None;
      if conv in activeIds {
        sid := activeIds[conv];
        var id := KeyId(conv, sid);
        sKey := if id in sessionKeys then Some(sessionKeys[id]) else None;
        if sKey.Some? && !SessionUsable(id, checkedAt) { sKey := None; }
        if sKey.Some? && !(id in dmKeys && dmKeys[id] == wrappedFor) { sKey := None; }
      }
      var keys, at := None, checkedAt;
      if sKey.None? {
        sid, sKey, at := freshSid, Some(freshKey), startedAt;
        keys := Some(Envelope(rq));
        var id := KeyId(conv, sid);
        dmKeys := dmKeys[id := wrappedFor];
        sessionKeys := sessionKeys[id := freshKey];
        activeIds := activeIds[conv := sid];
        StartSession(id, startedAt);
      }
      var seqNo := NextSeq(KeyId(conv, sid));
      s := Sent(rq, sid, seqNo, at, keys, sKey.value);
    }

    // The second half of either send.
    method Answered(s: Sent, delivered: bool)
      modifies this
      ensures State() == Settle(old(State()), s, delivered)
    {
      if !delivered && s.keys.Some? {
        AbandonSession(s.rq.conv, KeyId(s.rq.conv, s.sid));
      }
    }
  }
}
