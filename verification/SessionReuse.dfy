/**
When a message goes out under the session of the one before it, and when under a
new one: exactly, and whatever happened before.
*/
module SessionReuse {
  import opened Text
  import opened Lists
  import opened ClientSessions
  import opened SessionRuns

  // Everyone in the first list is in the second under the same key.
  predicate Within(xs: seq<Member>, ys: seq<Member>) {
    forall x :: x in xs ==> exists y :: y in ys && y.address == x.address && y.key.GetOr("") == x.key.GetOr("")
  }

  // Two requests that would wrap a session key for the same people under the same keys.
  predicate SameRecipients(a: Request, b: Request) {
    || (a.ToPartner? && b.ToPartner? && a.recip == b.recip && a.mine.GetOr("") == b.mine.GetOr(""))
    || (a.ToGroup? && b.ToGroup? && Within(a.gated, b.gated) && Within(b.gated, a.gated))
  }

  lemma SamePairs(xs: seq<Member>, ys: seq<Member>)
    ensures Within(xs, ys) <==> PairsOf(xs) <= PairsOf(ys)
  {
    if PairsOf(xs) <= PairsOf(ys) {
      forall x | x in xs ensures exists y :: y in ys && y.address == x.address && y.key.GetOr("") == x.key.GetOr("") {
        assert (x.address, x.key.GetOr("")) in PairsOf(ys);
      }
    }
  }

  lemma SameWanted(a: Request, b: Request)
    requires Sane(a) && Sane(b) && a.ToGroup? == b.ToGroup?
    ensures Wanted(a) == Wanted(b) <==> SameRecipients(a, b)
  {
    if a.ToPartner? {
      if Wanted(a) == Wanted(b) { SplitFirst(a.recip, a.mine.GetOr(""), b.recip, b.mine.GetOr(""), '|'); }
    } else {
      SamePairs(a.gated, b.gated);
      SamePairs(b.gated, a.gated);
      if Wanted(a) == Wanted(b) { SafeSetDecides(a.gated, b.gated); }
      if SameRecipients(a, b) { SafeSetForgetsOrder(a.gated, b.gated); }
    }
  }

  // How a send ended: the server's answer, or given up before the POST.
  predicate Ends(e: Event) { e.Answer? || e.Abort? }

  // The session key of the first message was lost in its POST.
  predicate Lost(s: Sent, end: Event) { s.keys.Some? && end == Answer(false) }

  // What the client sends for rq in a state.
  function Next(w: World, rq: Request): Sent { Open(w.client, rq).1 }

  predicate Fresh(s: Sent, rq: Request) {
    s.sid == rq.freshSid && s.seqNo == 0 && s.at == rq.startedAt && s.keys.Some? && s.sealed == rq.freshKey
  }

  predicate Follows(s: Sent, o: Sent) {
    s.sid == o.sid && s.seqNo == o.seqNo + 1 && s.keys.None? && s.sealed == o.sealed
  }

  // What the client has on record about the session of message a, minted by o.
  predicate OnRecord(c: Client, rq: Request, a: Sent, o: Sent) {
    var id := KeyId(rq.conv, a.sid);
    && rq.conv in c.activeIds && c.activeIds[rq.conv] == a.sid
    && id in c.sessionKeys && c.sessionKeys[id] == a.sealed
    && id in c.sendState && c.sendState[id] == SendState(a.seqNo + 1, o.at)
    && id in Recorded(c, rq) && Recorded(c, rq)[id] == Wanted(rq)
  }

  // o is the send that minted the session of a.
  predicate Opened(o: Sent, a: Sent) {
    o.keys.Some? && OneSession(o, a) && o.sealed == a.sealed && (a.keys.Some? ==> o == a)
  }

  lemma OpenerOf(w: World, rq: Request) returns (o: Sent)
    requires Invariant(w) && Enabled(w, Begin(rq))
    ensures Opened(o, Next(w, rq)) && OnRecord(Step(w, Begin(rq)).client, rq, Next(w, rq), o)
  {
    if Reuses(w.client, rq) {
      assert Whole(w) == w.log && ActiveOk(w.client, w.log, rq.conv);
      var sid := w.client.activeIds[rq.conv];
      var j: nat :| Mints(w.log, j, rq.conv, sid) && Tracks(w.client, KeyId(rq.conv, sid), w.log[j].s);
      o := w.log[j].s;
    } else {
      o := Next(w, rq);
    }
  }

  lemma Reopened(c: Client, rq: Request, a: Sent, o: Sent, next: Request)
    requires OnRecord(c, rq, a, o) && rq.conv == next.conv && rq.ToGroup? == next.ToGroup? && Sane(rq) && Sane(next)
    ensures var b := Open(c, next).1;
      if SameRecipients(rq, next) && a.seqNo < 99 && next.checkedAt - o.at < 86400000 then Follows(b, a) else Fresh(b, next)
  {
    SameWanted(rq, next);
  }

  // Main result: after any run, the next message of a conversation follows the one
  // just ended under its session, with the next number and without keys, if and only
  // if the session's key was not lost in its POST, the recipients and their keys are
  // the same, the session has carried fewer than 100 messages, and it was begun less
  // than 24 hours before; otherwise it starts a session of its own. `o` minted the
  // session of the first of the two.
  lemma NextFollowsExactly(es: seq<Event>, first: Request, end: Event, next: Request) returns (o: Sent)
    requires Legal(Initial(), es) && Ends(end) && first.conv == next.conv && first.ToGroup? == next.ToGroup?
    requires Enabled(Run(Initial(), es), Begin(first))
    requires Enabled(Step(Step(Run(Initial(), es), Begin(first)), end), Begin(next))
    ensures var w := Run(Initial(), es);
      var a := Next(w, first);
      var b := Next(Step(Step(w, Begin(first)), end), next);
      && Opened(o, a)
      && if !Lost(a, end) && SameRecipients(first, next) && a.seqNo < 99 && next.checkedAt - o.at < 86400000
         then Follows(b, a) else Fresh(b, next)
  {
    InvariantRun(Initial(), es);
    o := FollowsExactly(Run(Initial(), es), first, end, next);
  }

  lemma FollowsExactly(w: World, first: Request, end: Event, next: Request) returns (o: Sent)
    requires Invariant(w) && Ends(end) && first.conv == next.conv && first.ToGroup? == next.ToGroup?
    requires Enabled(w, Begin(first)) && Enabled(Step(Step(w, Begin(first)), end), Begin(next))
    ensures var a := Next(w, first);
      var b := Next(Step(Step(w, Begin(first)), end), next);
      && Opened(o, a)
      && if !Lost(a, end) && SameRecipients(first, next) && a.seqNo < 99 && next.checkedAt - o.at < 86400000
         then Follows(b, a) else Fresh(b, next)
  {
    o := OpenerOf(w, first);
    EndLeaves(w, first, end);
    if Lost(Next(w, first), end) {
      DroppedMints(Step(Step(w, Begin(first)), end), first.conv, next);
    } else {
      Reopened(Step(w, Begin(first)).client, first, Next(w, first), o, next);
    }
  }

  lemma EndLeaves(w: World, rq: Request, end: Event)
    requires Enabled(w, Begin(rq)) && Ends(end)
    ensures var w1 := Step(w, Begin(rq));
      if Lost(Next(w, rq), end) then rq.conv !in Step(w1, end).client.activeIds else Step(w1, end).client == w1.client
  {
  }

  // What interrupts a conversation: with no active session the next message mints.
  lemma DroppedMints(w: World, conv: string, next: Request)
    requires next.conv == conv
    ensures Fresh(Next(Step(w, Drop(conv)), next), next)
    ensures conv !in w.client.activeIds ==> Fresh(Next(w, next), next)
  {
  }

  // What does not: keys unwrapped from history replace none that is held and start
  // no session, so over any run the next message is the one that was due.
  lemma LearningChangesNoSend(es: seq<Event>, keys: map<string, nat>, next: Request)
    requires Legal(Initial(), es)
    ensures Next(Step(Run(Initial(), es), Learn(keys)), next) == Next(Run(Initial(), es), next)
  {
    InvariantRun(Initial(), es);
    LearnedUnsent(Run(Initial(), es), keys, next);
  }

  lemma LearnedUnsent(w: World, keys: map<string, nat>, next: Request)
    requires Invariant(w)
    ensures Next(Step(w, Learn(keys)), next) == Next(w, next)
  {
    if next.conv in w.client.activeIds { ActiveHeld(w, next.conv); }
    LearnsOnly(w, keys);
    AdoptedUnsent(w.client, keys, next);
  }

  lemma LearnsOnly(w: World, keys: map<string, nat>)
    ensures Step(w, Learn(keys)).client == Adopt(w.client, keys)
  {
  }

  lemma ActiveHeld(w: World, conv: string)
    requires Invariant(w) && conv in w.client.activeIds
    ensures KeyId(conv, w.client.activeIds[conv]) in w.client.sessionKeys
  {
    assert ActiveOk(w.client, Whole(w), conv);
  }

  lemma AdoptedUnsent(c: Client, keys: map<string, nat>, rq: Request)
    requires rq.conv in c.activeIds ==> KeyId(rq.conv, c.activeIds[rq.conv]) in c.sessionKeys
    ensures Open(Adopt(c, keys), rq).1 == Open(c, rq).1
  {
  }

  lemma AdoptedKeys(c: Client, keys: map<string, nat>, id: string)
    ensures var held := Adopt(c, keys).sessionKeys;
      && (id in held <==> id in c.sessionKeys || id in keys)
      && (id in c.sessionKeys ==> held[id] == c.sessionKeys[id])
      && (id in keys && id !in c.sessionKeys ==> held[id] == keys[id])
    ensures Adopt(c, keys) == c.(sessionKeys := Adopt(c, keys).sessionKeys)
  {
  }
}
