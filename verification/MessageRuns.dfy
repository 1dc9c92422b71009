/**
Whole runs of the message tables: sends, rounds of redactions, final deletes,
channels torn down and purges, in any interleaving. In particular another send
may come between the round that found nothing left and the delete it decided on.
*/
module MessageRuns {
  import opened Text
  import opened CanonicalJson
  import opened Lists
  import opened Messages
  import opened Erase
  import opened Retention
  import opened MessageStore

  datatype Event =
    | Send(row: Row)
    | Redact(address: string, subs: seq<Submitted>, scope: Scope)
    | FinishErase(address: string, scope: Scope)
    | CloseChannels(channels: set<string>)
    | Purge(days: nat)

  datatype Timed = Timed(at: int, event: Event)

  // `sent` is every row ever stored, as it was sent; `closed` the channels torn down.
  datatype World = World(rows: seq<Row>, sent: seq<Row>, closed: set<string>, clock: int)

  function Initial(clock: int): World { World([], [], {}, clock) }

  predicate InClosed(closed: set<string>, r: Row) { r.kind.Group? && r.target.Some? && r.target.value in closed }

  // Ids are issued in order and never again, rows are stamped when they are
  // stored, and nothing is sent into a channel that is gone.
  predicate Enabled(w: World, e: Timed) {
    && w.clock <= e.at
    && (e.event.Send? ==>
          var r := e.event.row;
          && r.createdAt == e.at && !InClosed(w.closed, r)
          && forall s :: s in w.sent && s.kind == r.kind ==> s.id < r.id)
  }

  function Step(c: Crypto, w: World, e: Timed): World {
    match e.event
    case Send(row) => w.(rows := w.rows + [row], sent := w.sent + [row], clock := e.at)
    case Redact(address, subs, scope) => w.(rows := Round(c, w.rows, address, subs, scope), clock := e.at)
    case FinishErase(address, scope) => w.(rows := DeleteOwn(w.rows, address, scope), clock := e.at)
    case CloseChannels(channels) =>
      w.(rows := TearDown(w.rows, channels), closed := w.closed + channels, clock := e.at)
    case Purge(days) => w.(rows := Purged(w.rows, CutoffAt(e.at, days)), clock := e.at)
  }

  predicate Legal(c: Crypto, w: World, es: seq<Timed>)
    decreases |es|
  {
    es == [] || (Enabled(w, es[0]) && Legal(c, Step(c, w, es[0]), es[1..]))
  }

  function Run(c: Crypto, w: World, es: seq<Timed>): World
    decreases |es|
  {
    if es == [] then w else Run(c, Step(c, w, es[0]), es[1..])
  }

  // ---- What every step keeps ----

  ghost predicate Sourced(c: Crypto, sent: seq<Row>, r: Row) { exists s :: s in sent && Evolved(c, s, r) }

  ghost predicate WellFormed(c: Crypto, w: World) {
    && Ordered(w.rows) && Ordered(w.sent)
    && (forall r :: r in w.rows ==> Sourced(c, w.sent, r))
    && (forall r :: r in w.sent ==> r.createdAt <= w.clock)
  }

  lemma RedactKeepsForm(c: Crypto, w: World, e: Timed)
    requires WellFormed(c, w) && Enabled(w, e) && e.event.Redact?
    ensures WellFormed(c, Step(c, w, e))
  {
    var after := Step(c, w, e).rows;
    RoundKeepsOrder(c, w.rows, e.event.address, e.event.subs, e.event.scope);
    forall r | r in after ensures Sourced(c, w.sent, r) {
      var i :| 0 <= i < |after| && after[i] == r;
      RoundEvolves(c, w.rows, e.event.address, e.event.subs, e.event.scope, i);
      assert w.rows[i] in w.rows;
      var s :| s in w.sent && Evolved(c, s, w.rows[i]);
      EvolvedTransitive(c, s, w.rows[i], r);
    }
  }

  lemma RoundEvolves(c: Crypto, rows: seq<Row>, address: string, subs: seq<Submitted>, scope: Scope, i: nat)
    requires Ordered(rows) && i < |rows|
    ensures Evolved(c, rows[i], Round(c, rows, address, subs, scope)[i])
  {
    if VerifyAll(c, rows, address, subs, scope).Pending? {
      RoundEffect(c, rows, address, subs, scope, i);
    }
  }

  lemma DeleteKeepsForm(c: Crypto, w: World, w': World, p: Row -> bool)
    requires WellFormed(c, w) && w'.rows == Filter(p, w.rows) && w'.sent == w.sent && w.clock <= w'.clock
    ensures WellFormed(c, w')
  {
    FilterOrdered(p, w.rows);
  }

  lemma SendKeepsForm(c: Crypto, w: World, e: Timed)
    requires WellFormed(c, w) && Enabled(w, e) && e.event.Send?
    ensures WellFormed(c, Step(c, w, e))
  {
    var w', n := Step(c, w, e), e.event.row;
    forall r | r in w.rows && r.kind == n.kind ensures r.id < n.id {
      var s :| s in w.sent && Evolved(c, s, r);
    }
    assert forall i :: 0 <= i < |w.rows| ==> w.rows[i] in w.rows;
    assert forall i :: 0 <= i < |w.sent| ==> w.sent[i] in w.sent;
    forall r | r in w'.rows ensures Sourced(c, w'.sent, r) {
      if r in w.rows {
        var s :| s in w.sent && Evolved(c, s, r);
        assert s in w'.sent;
      } else {
        assert r == n && n in w'.sent && Evolved(c, n, r);
      }
    }
  }

  lemma WellFormedStep(c: Crypto, w: World, e: Timed)
    requires WellFormed(c, w) && Enabled(w, e)
    ensures WellFormed(c, Step(c, w, e))
  {
    var w' := Step(c, w, e);
    match e.event
    case Send(_) => SendKeepsForm(c, w, e);
    case Redact(_, _, _) => RedactKeepsForm(c, w, e);
    case FinishErase(address, scope) => DeleteKeepsForm(c, w, w', Survives(address, scope));
    case CloseChannels(channels) => DeleteKeepsForm(c, w, w', OutsideChannels(channels));
    case Purge(days) => DeleteKeepsForm(c, w, w', Stays(w.rows, CutoffAt(e.at, days)));
  }

  lemma {:induction false} WellFormedRun(c: Crypto, w: World, es: seq<Timed>)
    requires WellFormed(c, w) && Legal(c, w, es)
    ensures WellFormed(c, Run(c, w, es))
    decreases |es|
  {
    if es != [] {
      WellFormedStep(c, w, es[0]);
      WellFormedRun(c, Step(c, w, es[0]), es[1..]);
    }
  }

  // ---- No run loses or alters a wrapped session key ----

  predicate Keyed(r: Row) { r.content.Readable? && Truthy(r.content.p.keys) }

  // The events that may take a row that carries a key away.
  predicate Takes(e: Timed, r: Row) {
    || (e.event.CloseChannels? && InClosed(e.event.channels, r))
    || (e.event.Purge? && e.at - r.createdAt > e.event.days * 86400000000)
  }

  ghost predicate Kept(c: Crypto, rows: seq<Row>, r: Row) { exists r' :: r' in rows && Evolved(c, r, r') }

  // One step leaves a stored row with the same envelope, or deletes it; and one
  // with a key only if the step takes it.
  lemma StepKeeps(c: Crypto, w: World, e: Timed, r: Row)
    requires WellFormed(c, w) && Enabled(w, e) && r in w.rows && Keyed(r) && !Takes(e, r)
    ensures Kept(c, Step(c, w, e).rows, r)
  {
    var rows' := Step(c, w, e).rows;
    if e.event.Redact? {
      var i :| 0 <= i < |w.rows| && w.rows[i] == r;
      RoundEvolves(c, w.rows, e.event.address, e.event.subs, e.event.scope, i);
      assert rows'[i] in rows';
    } else {
      assert r in rows' && Evolved(c, r, r);
    }
  }

  // A send stores its row beside those there are.
  lemma SendStores(c: Crypto, w: World, e: Timed)
    requires e.event.Send?
    ensures Step(c, w, e).rows == w.rows + [e.event.row] && e.event.row in Step(c, w, e).rows
  {
  }

  // The end of its author's erase takes a message that carries no key.
  predicate Erases(e: Timed, r: Row) {
    e.event.FinishErase? && e.event.address == r.sender && Scoped(e.event.scope, r) && r.content.Readable? && !Keyed(r)
  }

  lemma StepKeepsAny(c: Crypto, w: World, e: Timed, r: Row)
    requires WellFormed(c, w) && Enabled(w, e) && r in w.rows && !Takes(e, r) && !Erases(e, r)
    ensures Kept(c, Step(c, w, e).rows, r)
  {
    if Keyed(r) {
      StepKeeps(c, w, e, r);
    } else if e.event.Redact? {
      var i :| 0 <= i < |w.rows| && w.rows[i] == r;
      RoundEvolves(c, w.rows, e.event.address, e.event.subs, e.event.scope, i);
      assert Step(c, w, e).rows[i] in Step(c, w, e).rows;
    } else {
      assert r in Step(c, w, e).rows && Evolved(c, r, r);
    }
  }

  // Main result: over any run a stored message is still there, as itself or redacted by
  // its author, unless its channel was torn down, a purge took it at its age, or, where it
  // carries no key, its author erased it.
  lemma {:induction false} NothingElseIsLost(c: Crypto, w: World, es: seq<Timed>, r: Row)
    requires WellFormed(c, w) && Legal(c, w, es) && r in w.rows
    requires forall i :: 0 <= i < |es| ==> !Takes(es[i], r) && !Erases(es[i], r)
    ensures Kept(c, Run(c, w, es).rows, r)
    decreases |es|
  {
    if es == [] {
      assert Evolved(c, r, r);
    } else {
      StepKeepsAny(c, w, es[0], r);
      WellFormedStep(c, w, es[0]);
      var next :| next in Step(c, w, es[0]).rows && Evolved(c, r, next);
      forall i | 0 <= i < |es[1..]| ensures !Takes(es[1..][i], next) && !Erases(es[1..][i], next) {
        assert es[1..][i] == es[i + 1];
      }
      NothingElseIsLost(c, Step(c, w, es[0]), es[1..], next);
      var last :| last in Run(c, w, es).rows && Evolved(c, next, last);
      EvolvedTransitive(c, r, next, last);
    }
  }

  lemma StepEvolves(c: Crypto, w: World, e: Timed, r: Row, r': Row)
    requires WellFormed(c, w) && Enabled(w, e)
    requires r in w.rows && r' in Step(c, w, e).rows && IdOf(r) == IdOf(r')
    ensures Evolved(c, r, r')
  {
    var rows' := Step(c, w, e).rows;
    WellFormedStep(c, w, e);
    if e.event.Redact? {
      var i :| 0 <= i < |w.rows| && w.rows[i] == r;
      RoundEvolves(c, w.rows, e.event.address, e.event.subs, e.event.scope, i);
      assert rows'[i] in rows';
      OneRowPerId(rows', rows'[i], r');
    } else if e.event.Send? {
      assert r in rows';
      OneRowPerId(rows', r, r');
    } else {
      OneRowPerId(w.rows, r, r');
    }
  }

  // A step brings no id back: what it stores is stored already, or newly sent.
  lemma StepStores(c: Crypto, w: World, e: Timed, s: Row)
    requires WellFormed(c, w) && Enabled(w, e) && s in w.sent && !Holds(w.rows, IdOf(s))
    ensures !Holds(Step(c, w, e).rows, IdOf(s))
  {
    var rows' := Step(c, w, e).rows;
    if e.event.Redact? {
      forall i | 0 <= i < |rows'| ensures IdOf(rows'[i]) != IdOf(s) {
        RoundEvolves(c, w.rows, e.event.address, e.event.subs, e.event.scope, i);
        assert w.rows[i] in w.rows;
      }
    }
  }

  lemma {:induction false} GoneStaysGone(c: Crypto, w: World, es: seq<Timed>, s: Row)
    requires WellFormed(c, w) && Legal(c, w, es) && s in w.sent && !Holds(w.rows, IdOf(s))
    ensures !Holds(Run(c, w, es).rows, IdOf(s))
    decreases |es|
  {
    if es != [] {
      WellFormedStep(c, w, es[0]);
      StepStores(c, w, es[0], s);
      GoneStaysGone(c, Step(c, w, es[0]), es[1..], s);
    }
  }

  // Main result: over any run, the row an id names stays one row. Its key,
  // session, position, sender and conversation never change, and all it can lose
  // is its ciphertext, to a redaction its author's signature covers.
  lemma {:induction false} RunEvolves(c: Crypto, w: World, es: seq<Timed>, r: Row, r': Row)
    requires WellFormed(c, w) && Legal(c, w, es)
    requires r in w.rows && r' in Run(c, w, es).rows && IdOf(r) == IdOf(r')
    ensures Evolved(c, r, r')
    decreases |es|
  {
    if es == [] {
      OneRowPerId(w.rows, r, r');
    } else {
      var next := Step(c, w, es[0]);
      WellFormedStep(c, w, es[0]);
      if Holds(next.rows, IdOf(r)) {
        var r1 :| r1 in next.rows && IdOf(r1) == IdOf(r);
        StepEvolves(c, w, es[0], r, r1);
        RunEvolves(c, next, es[1..], r1, r');
        EvolvedTransitive(c, r, r1, r');
      } else {
        var s :| s in w.sent && Evolved(c, s, r);
        assert s in next.sent;
        GoneStaysGone(c, next, es[1..], s);
      }
    }
  }

  predicate Taken(es: seq<Timed>, r: Row) { exists i :: 0 <= i < |es| && Takes(es[i], r) }

  // Main result: whatever happens, in whatever order, a stored row that carries a
  // wrapped key is there at the end with the same key, session, position, sender
  // and conversation, unless its channel was torn down or it outlived a purge's
  // retention period.
  lemma {:induction false} NoRunLosesAKey(c: Crypto, w: World, es: seq<Timed>, r: Row)
    requires WellFormed(c, w) && Legal(c, w, es) && r in w.rows && Keyed(r)
    ensures Kept(c, Run(c, w, es).rows, r) || Taken(es, r)
    decreases |es|
  {
    if es == [] {
      assert Evolved(c, r, r);
    } else if Takes(es[0], r) {
    } else {
      WellFormedStep(c, w, es[0]);
      StepKeeps(c, w, es[0], r);
      var next := Step(c, w, es[0]);
      var r' :| r' in next.rows && Evolved(c, r, r');
      NoRunLosesAKey(c, next, es[1..], r');
      if Taken(es[1..], r') {
        var i :| 0 <= i < |es| - 1 && Takes(es[1..][i], r');
        assert Takes(es[i + 1], r);
      } else {
        var last :| last in Run(c, next, es[1..]).rows && Evolved(c, r', last);
        EvolvedTransitive(c, r, r', last);
      }
    }
  }

  // So a redactable row no signature can be made for stays as it is, and keeps every
  // erase that covers it from finishing, until its channel goes or a purge takes it.
  lemma UnspellableRemains(c: Crypto, w: World, es: seq<Timed>, r: Row)
    requires WellFormed(c, w) && Legal(c, w, es) && r in w.rows && IsRedactable(r) && !Spellable(r)
    ensures r in Run(c, w, es).rows || Taken(es, r)
  {
    NoRunLosesAKey(c, w, es, r);
  }

  // ---- A stored message always has its session's key stored ----

  // How clients send: the rows of a session go to one place and are stamped at
  // most `span` apart.
  predicate Conforming(sent: seq<Row>, span: int) {
    forall a, b :: a in sent && b in sent && SameSession(a, b) ==>
      a.target == b.target && b.createdAt - a.createdAt <= span
  }

  predicate PurgesNoShorterThan(e: Timed, span: int) { e.event.Purge? ==> span <= e.event.days * DAY }

  // A key-bearing row that is no longer stored is past being sent under: its
  // channel is closed, or its session's time is over.
  predicate Over(w: World, span: int, o: Row) { InClosed(w.closed, o) || o.createdAt + span < w.clock }

  ghost predicate KeysStored(c: Crypto, w: World, span: int) {
    && (forall o :: o in w.sent && Keyed(o) ==> Kept(c, w.rows, o) || Over(w, span, o))
    && (forall o, r :: o in w.sent && r in w.rows && Keyed(o) && SameSession(o, r) ==> Kept(c, w.rows, o))
  }

  lemma TakenIsOver(c: Crypto, w: World, e: Timed, span: int, o: Row, o': Row)
    requires Enabled(w, e) && PurgesNoShorterThan(e, span) && Evolved(c, o, o') && Takes(e, o')
    ensures Over(Step(c, w, e), span, o)
  {
  }

  // The first half of the invariant, over one step.
  lemma KeptOrOver(c: Crypto, w: World, e: Timed, span: int, o: Row)
    requires WellFormed(c, w) && Enabled(w, e) && KeysStored(c, w, span) && PurgesNoShorterThan(e, span)
    requires o in Step(c, w, e).sent && Keyed(o)
    ensures Kept(c, Step(c, w, e).rows, o) || Over(Step(c, w, e), span, o)
  {
    if o !in w.sent {
      assert o in Step(c, w, e).rows && Evolved(c, o, o);
    } else if Kept(c, w.rows, o) {
      var o' :| o' in w.rows && Evolved(c, o, o');
      if Takes(e, o') {
        TakenIsOver(c, w, e, span, o, o');
      } else {
        StepKeeps(c, w, e, o');
        var o'' :| o'' in Step(c, w, e).rows && Evolved(c, o', o'');
        EvolvedTransitive(c, o, o', o'');
      }
    } else {
    }
  }

  // A row stored after a step was stored before, or is the one being sent.
  lemma Predecessor(c: Crypto, w: World, e: Timed, r: Row) returns (r0: Row)
    requires WellFormed(c, w) && Enabled(w, e) && r in Step(c, w, e).rows
    ensures (e.event.Send? && r == e.event.row) || (r0 in w.rows && Evolved(c, r0, r))
    ensures !e.event.Redact? ==> r0 == r
  {
    r0 := r;
    if e.event.Redact? {
      var rows' := Step(c, w, e).rows;
      var i :| 0 <= i < |rows'| && rows'[i] == r;
      RoundEvolves(c, w.rows, e.event.address, e.event.subs, e.event.scope, i);
      r0 := w.rows[i];
    }
  }

  lemma SourcedSession(c: Crypto, w: World, r: Row) returns (s: Row)
    requires WellFormed(c, w) && r in w.rows
    ensures s in w.sent && Evolved(c, s, r) && SessionOf(s) == SessionOf(r)
  {
    s :| s in w.sent && Evolved(c, s, r);
  }

  // Stored rows of one session go to one place and lie no further apart than sent ones.
  lemma StoredConforms(c: Crypto, w: World, span: int, o: Row, r: Row)
    requires WellFormed(c, w) && o in w.rows && r in w.rows && SameSession(o, r)
    requires Conforming(w.sent, span) && span <= SESSION_GRACE
    ensures o.target == r.target && Within(o, r, SESSION_GRACE) && Within(r, o, SESSION_GRACE)
  {
    var so := SourcedSession(c, w, o);
    var sr := SourcedSession(c, w, r);
    assert SameSession(so, sr) && SameSession(sr, so);
  }

  // No step takes the key of a session and leaves one of its messages.
  lemma TakenTogether(c: Crypto, w: World, e: Timed, o: Row, r: Row)
    requires o in w.rows && r in w.rows && SameSession(o, r) && o.target == r.target
    requires Within(o, r, SESSION_GRACE) && Within(r, o, SESSION_GRACE)
    requires e.event.CloseChannels? || e.event.Purge?
    requires r in Step(c, w, e).rows
    ensures o in Step(c, w, e).rows
  {
    if e.event.Purge? {
      SessionsGoWhole(w.rows, CutoffAt(e.at, e.event.days), o, r);
    }
  }

  lemma StoredKeyStays(c: Crypto, w: World, e: Timed, span: int, o: Row, r0: Row, r: Row)
    requires WellFormed(c, w) && Enabled(w, e) && Conforming(w.sent, span) && span <= SESSION_GRACE
    requires o in w.rows && r0 in w.rows && Keyed(o) && SameSession(o, r0)
    requires r in Step(c, w, e).rows && (!e.event.Redact? ==> r0 == r)
    ensures Kept(c, Step(c, w, e).rows, o)
  {
    if e.event.CloseChannels? || e.event.Purge? {
      StoredConforms(c, w, span, o, r);
      TakenTogether(c, w, e, o, r);
      assert Evolved(c, o, o);
    } else {
      StepKeeps(c, w, e, o);
    }
  }

  lemma OldKeyStays(c: Crypto, w: World, e: Timed, span: int, o: Row, r0: Row, r: Row)
    requires WellFormed(c, w) && Enabled(w, e) && Conforming(w.sent, span) && span <= SESSION_GRACE
    requires Kept(c, w.rows, o) && r0 in w.rows && Keyed(o) && SameSession(o, r0)
    requires r in Step(c, w, e).rows && (!e.event.Redact? ==> r0 == r)
    ensures Kept(c, Step(c, w, e).rows, o)
  {
    var o' :| o' in w.rows && Evolved(c, o, o');
    EvolvedKeepsSession(c, o, o');
    StoredKeyStays(c, w, e, span, o', r0, r);
  }

  lemma SessionKept(c: Crypto, w: World, span: int, o: Row, r: Row)
    requires KeysStored(c, w, span) && o in w.sent && r in w.rows && Keyed(o) && SameSession(o, r)
    ensures Kept(c, w.rows, o)
  {
  }

  lemma KeyStaysOtherwise(c: Crypto, w: World, e: Timed, span: int, o: Row, r: Row)
    requires WellFormed(c, w) && Enabled(w, e) && KeysStored(c, w, span)
    requires Conforming(w.sent, span) && span <= SESSION_GRACE
    requires o in w.sent && r in Step(c, w, e).rows && Keyed(o) && SameSession(o, r)
    requires !(e.event.Send? && r == e.event.row)
    ensures Kept(c, Step(c, w, e).rows, o)
  {
    var r0 := Predecessor(c, w, e, r);
    EvolvedKeepsSession(c, r0, r);
    SessionKept(c, w, span, o, r0);
    OldKeyStays(c, w, e, span, o, r0, r);
  }

  // The second half, over one step.
  lemma KeyStays(c: Crypto, w: World, e: Timed, span: int, o: Row, r: Row)
    requires WellFormed(c, w) && Enabled(w, e) && KeysStored(c, w, span) && PurgesNoShorterThan(e, span)
    requires Conforming(Step(c, w, e).sent, span) && span <= SESSION_GRACE
    requires o in Step(c, w, e).sent && r in Step(c, w, e).rows && Keyed(o) && SameSession(o, r)
    ensures Kept(c, Step(c, w, e).rows, o)
  {
    if o !in w.sent {
      SentIsStored(c, w, e, o);
    } else if e.event.Send? && r == e.event.row {
      KeptOrOver(c, w, e, span, o);
    } else {
      KeyStaysOtherwise(c, w, e, span, o, r);
    }
  }

  lemma SentIsStored(c: Crypto, w: World, e: Timed, o: Row)
    requires o in Step(c, w, e).sent && o !in w.sent
    ensures Kept(c, Step(c, w, e).rows, o)
  {
    assert o in Step(c, w, e).rows && Evolved(c, o, o);
  }

  lemma KeysStoredStep(c: Crypto, w: World, e: Timed, span: int)
    requires WellFormed(c, w) && Enabled(w, e) && KeysStored(c, w, span) && PurgesNoShorterThan(e, span)
    requires Conforming(Step(c, w, e).sent, span) && span <= SESSION_GRACE
    ensures KeysStored(c, Step(c, w, e), span)
  {
    var w' := Step(c, w, e);
    forall o | o in w'.sent && Keyed(o) ensures Kept(c, w'.rows, o) || Over(w', span, o) {
      KeptOrOver(c, w, e, span, o);
    }
    forall o, r | o in w'.sent && r in w'.rows && Keyed(o) && SameSession(o, r) ensures Kept(c, w'.rows, o) {
      KeyStays(c, w, e, span, o, r);
    }
  }

  lemma {:induction false} SentGrows(c: Crypto, w: World, es: seq<Timed>)
    ensures forall r :: r in w.sent ==> r in Run(c, w, es).sent
    decreases |es|
  {
    if es != [] {
      SentGrows(c, Step(c, w, es[0]), es[1..]);
    }
  }

  lemma {:induction false} KeysStoredRun(c: Crypto, w: World, es: seq<Timed>, span: int)
    requires WellFormed(c, w) && Legal(c, w, es) && KeysStored(c, w, span)
    requires Conforming(Run(c, w, es).sent, span) && span <= SESSION_GRACE
    requires forall i :: 0 <= i < |es| ==> PurgesNoShorterThan(es[i], span)
    ensures WellFormed(c, Run(c, w, es)) && KeysStored(c, Run(c, w, es), span)
    decreases |es|
  {
    if es != [] {
      var next := Step(c, w, es[0]);
      SentGrows(c, next, es[1..]);
      WellFormedStep(c, w, es[0]);
      KeysStoredStep(c, w, es[0], span);
      KeysStoredRun(c, next, es[1..], span);
    }
  }

  // Main result: over any run from an empty table, if sessions span at most the
  // grace and at most the retention period of every purge, each stored message
  // has every key-bearing row of its session stored beside it, unchanged.
  lemma MessagesStayReadable(c: Crypto, clock: int, es: seq<Timed>, span: int, o: Row, r: Row)
    requires Legal(c, Initial(clock), es)
    requires Conforming(Run(c, Initial(clock), es).sent, span) && span <= SESSION_GRACE
    requires forall i :: 0 <= i < |es| ==> PurgesNoShorterThan(es[i], span)
    requires o in Run(c, Initial(clock), es).sent && Keyed(o)
    requires r in Run(c, Initial(clock), es).rows && SameSession(o, r)
    ensures Kept(c, Run(c, Initial(clock), es).rows, o)
  {
    KeysStoredRun(c, Initial(clock), es, span);
  }
}
