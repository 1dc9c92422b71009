/**
The age-based purge. A session goes as a whole: a row past the cutoff stays while
any row of its session, in the same table, is younger than the cutoff plus a grace.
*/
module Retention {
  import opened Text
  import opened CanonicalJson
  import opened Lists
  import opened Messages
  import opened Erase

  // Time in microseconds, the resolution of a stored timestamp.
  const HOUR: int := 3600000000
  const DAY: int := 24 * HOUR
  const SESSION_GRACE: int := 48 * HOUR

  datatype Session = Session(sender: string, sid: string)

  // `_session_of`
  function SessionOf(r: Row): Option<Session> {
    if r.content.Readable? && r.content.p.sid.Str? && r.content.p.sid.s != ""
    then Some(Session(r.sender, r.content.p.sid.s))
    else None
  }

  predicate SameSession(a: Row, b: Row) { a.kind == b.kind && SessionOf(a).Some? && SessionOf(a) == SessionOf(b) }

  function CutoffAt(now: int, days: nat): int { now - days * DAY }

  // Sessions with a row just past the cutoff.
  function Protected(rows: seq<Row>, kind: Kind, cutoff: int): set<Session> {
    set r | r in rows && r.kind == kind && cutoff <= r.createdAt < cutoff + SESSION_GRACE && SessionOf(r).Some?
      :: SessionOf(r).value
  }

  function Stays(rows: seq<Row>, cutoff: int): Row -> bool {
    (r: Row) => r.createdAt >= cutoff || (SessionOf(r).Some? && SessionOf(r).value in Protected(rows, r.kind, cutoff))
  }

  // `purge_expired_messages`, on both tables.
  function Purged(rows: seq<Row>, cutoff: int): seq<Row> { Filter(Stays(rows, cutoff), rows) }

  // ---- One table at a time, as the purge computes it ----

  const BATCH: nat := 500

  function Doomed(kind: Kind, cutoff: int, shielded: set<Session>): Row -> bool {
    (r: Row) => r.kind == kind && r.createdAt < cutoff && !(SessionOf(r).Some? && SessionOf(r).value in shielded)
  }

  function StaysInTable(rows: seq<Row>, kind: Kind, cutoff: int): Row -> bool {
    (r: Row) => r.kind != kind || Stays(rows, cutoff)(r)
  }

  function NotListed(kind: Kind, ids: seq<nat>): Row -> bool { (r: Row) => !(r.kind == kind && r.id in ids) }

  function IdsOf(rs: seq<Row>): (ids: seq<nat>)
    ensures |ids| == |rs| && forall i :: 0 <= i < |rs| ==> ids[i] == rs[i].id
  {
    if rs == [] then [] else [rs[0].id] + IdsOf(rs[1..])
  }

  method CollectProtected(rows: seq<Row>, kind: Kind, cutoff: int) returns (shielded: set<Session>)
    ensures shielded == Protected(rows, kind, cutoff)
  {
    shielded := {};
    for i := 0 to |rows|
      invariant shielded == Protected(rows[..i], kind, cutoff)
    {
      var r := rows[i];
      assert forall x :: x in rows[..i + 1] <==> x in rows[..i] || x == r;
      if r.kind == kind && cutoff <= r.createdAt < cutoff + SESSION_GRACE {
        var session := SessionOf(r);
        if session.Some? {
          shielded := shielded + {session.value};
        }
      }
    }
    assert rows[..|rows|] == rows;
  }

  method CollectDoomed(rows: seq<Row>, kind: Kind, cutoff: int, shielded: set<Session>) returns (doomed: seq<nat>)
    ensures doomed == IdsOf(Filter(Doomed(kind, cutoff, shielded), rows))
  {
    doomed := [];
    for i := 0 to |rows|
      invariant doomed == IdsOf(Filter(Doomed(kind, cutoff, shielded), rows[..i]))
    {
      FilterSnoc(Doomed(kind, cutoff, shielded), rows, i);
      if Doomed(kind, cutoff, shielded)(rows[i]) {
        doomed := doomed + [rows[i].id];
      }
    }
    assert rows[..|rows|] == rows;
  }

  method DeleteInBatches(rows: seq<Row>, kind: Kind, doomed: seq<nat>) returns (left: seq<Row>)
    ensures left == Filter(NotListed(kind, doomed), rows)
  {
    left := rows;
    var start := 0;
    FilterAll(NotListed(kind, doomed[..0]), rows);
    while start < |doomed|
      invariant 0 <= start <= |doomed|
      invariant left == Filter(NotListed(kind, doomed[..start]), rows)
    {
      var end := if start + BATCH < |doomed| then start + BATCH else |doomed|;
      assert doomed[..end] == doomed[..start] + doomed[start..end];
      FilterTwice(NotListed(kind, doomed[start..end]), NotListed(kind, doomed[..start]), NotListed(kind, doomed[..end]), rows);
      left := Filter(NotListed(kind, doomed[start..end]), left);
      start := end;
    }
    assert doomed[..|doomed|] == doomed;
  }

  lemma DoomedOrStays(rows: seq<Row>, kind: Kind, cutoff: int, r: Row)
    ensures Doomed(kind, cutoff, Protected(rows, kind, cutoff))(r) != StaysInTable(rows, kind, cutoff)(r)
  {
    if r.kind == kind {
      var shielded := Protected(rows, r.kind, cutoff);
      assert Stays(rows, cutoff)(r)
          == (r.createdAt >= cutoff || (SessionOf(r).Some? && SessionOf(r).value in shielded));
    }
  }

  lemma DoomedIds(rows: seq<Row>, kind: Kind, cutoff: int, ids: seq<nat>)
    requires Ordered(rows)
    requires ids == IdsOf(Filter(Doomed(kind, cutoff, Protected(rows, kind, cutoff)), rows))
    ensures Filter(NotListed(kind, ids), rows) == Filter(StaysInTable(rows, kind, cutoff), rows)
  {
    var doomed := Filter(Doomed(kind, cutoff, Protected(rows, kind, cutoff)), rows);
    forall r | r in rows ensures NotListed(kind, ids)(r) == StaysInTable(rows, kind, cutoff)(r) {
      DoomedOrStays(rows, kind, cutoff, r);
      if r.kind == kind && r.id in ids {
        var i :| 0 <= i < |ids| && ids[i] == r.id;
        assert doomed[i] in doomed;
        OneRowPerId(rows, r, doomed[i]);
      }
    }
    FilterAgree(NotListed(kind, ids), StaysInTable(rows, kind, cutoff), rows);
  }

  lemma StaysByProtected(rows: seq<Row>, rows': seq<Row>, cutoff: int, r: Row)
    requires Protected(rows, r.kind, cutoff) == Protected(rows', r.kind, cutoff)
    ensures Stays(rows, cutoff)(r) == Stays(rows', cutoff)(r)
  {
  }

  lemma BothTables(rows: seq<Row>, cutoff: int)
    ensures var first := Filter(StaysInTable(rows, Dm, cutoff), rows);
      Filter(StaysInTable(first, Group, cutoff), first) == Purged(rows, cutoff)
  {
    var first := Filter(StaysInTable(rows, Dm, cutoff), rows);
    assert Protected(first, Group, cutoff) == Protected(rows, Group, cutoff);
    forall r | r in rows
      ensures Stays(rows, cutoff)(r) == (StaysInTable(first, Group, cutoff)(r) && StaysInTable(rows, Dm, cutoff)(r))
    {
      if r.kind == Group {
        StaysByProtected(rows, first, cutoff, r);
      }
    }
    FilterTwice(StaysInTable(first, Group, cutoff), StaysInTable(rows, Dm, cutoff), Stays(rows, cutoff), rows);
  }

  // The rows of one table the purge deletes, counted as `len(doomed)` does.
  method PurgeTable(rows: seq<Row>, kind: Kind, cutoff: int) returns (left: seq<Row>, deleted: nat)
    requires Ordered(rows)
    ensures left == Filter(StaysInTable(rows, kind, cutoff), rows)
    ensures deleted == |rows| - |left|
  {
    var shielded := CollectProtected(rows, kind, cutoff);
    var doomed := CollectDoomed(rows, kind, cutoff, shielded);
    left := DeleteInBatches(rows, kind, doomed);
    DoomedIds(rows, kind, cutoff, doomed);
    forall r | r in rows ensures Doomed(kind, cutoff, shielded)(r) != StaysInTable(rows, kind, cutoff)(r) {
      DoomedOrStays(rows, kind, cutoff, r);
    }
    FilterSplit(Doomed(kind, cutoff, shielded), StaysInTable(rows, kind, cutoff), rows);
    deleted := |doomed|;
  }

  // ---- What a purge keeps ----

  // a and b, of one session, are sent at most `span` apart.
  predicate Within(a: Row, b: Row, span: int) { SameSession(a, b) ==> b.createdAt - a.createdAt <= span }

  predicate Paced(rows: seq<Row>, span: int) { forall a, b :: a in rows && b in rows ==> Within(a, b, span) }

  // A purge at `now` of what is kept for `days`.
  function PurgedAt(rows: seq<Row>, now: int, days: nat): seq<Row> { Purged(rows, CutoffAt(now, days)) }

  // The session id a row's payload carries, when it carries one.
  predicate Carries(r: Row, sid: string) { sid != "" && r.content.Readable? && r.content.p.sid == Str(sid) }

  // A row that is past the retention period by less than 48 hours short of it, in
  // the same table, from the same sender and under the same session id.
  ghost predicate Shields(s: Row, r: Row, now: int, days: nat) {
    && s.kind == r.kind && s.sender == r.sender && (exists sid :: Carries(s, sid) && Carries(r, sid))
    && days * 86400000000 - 172800000000 < now - s.createdAt <= days * 86400000000
  }

  // Main result: a row stays if and only if it is no older than the retention period,
  // or some row of its session is no older and will be past it within 48 hours. Ages
  // and periods are in microseconds.
  lemma PurgeExactly(rows: seq<Row>, now: int, days: nat, r: Row)
    ensures r in PurgedAt(rows, now, days) <==>
      r in rows && (now - r.createdAt <= days * 86400000000 || exists s :: s in rows && Shields(s, r, now, days))
    ensures Ordered(rows) ==> Ordered(PurgedAt(rows, now, days))
  {
    var cutoff := CutoffAt(now, days);
    if Ordered(rows) { FilterOrdered(Stays(rows, cutoff), rows); }
    if exists s :: s in rows && Shields(s, r, now, days) {
      var s :| s in rows && Shields(s, r, now, days);
      assert SessionOf(s).value in Protected(rows, r.kind, cutoff);
    }
    if SessionOf(r).Some? && SessionOf(r).value in Protected(rows, r.kind, cutoff) {
      var s :| s in rows && s.kind == r.kind && cutoff <= s.createdAt < cutoff + SESSION_GRACE && SessionOf(s) == SessionOf(r);
      assert Carries(s, r.content.p.sid.s) && Carries(r, r.content.p.sid.s);
      assert Shields(s, r, now, days);
    }
  }

  // What follows for ages: nothing as young as the period goes, a row without a session
  // goes as soon as it is older, and where the messages of a session are at most `span` apart
  // nothing outlives it by more than that span.
  lemma PurgeBounds(rows: seq<Row>, days: nat, now: int, span: int)
    requires Paced(rows, span)
    ensures forall r :: r in rows && now - r.createdAt <= days * 86400000000 ==> r in PurgedAt(rows, now, days)
    ensures forall r :: r in rows && (forall sid :: !Carries(r, sid)) ==>
      (r in PurgedAt(rows, now, days) <==> now - r.createdAt <= days * 86400000000)
    ensures forall r :: r in PurgedAt(rows, now, days) ==>
      now - r.createdAt <= days * 86400000000 || now - r.createdAt <= days * 86400000000 + span
  {
    forall r | r in PurgedAt(rows, now, days) && now - r.createdAt > days * 86400000000
      ensures now - r.createdAt <= days * 86400000000 + span
    {
      PurgeExactly(rows, now, days, r);
      var s :| s in rows && Shields(s, r, now, days);
      assert Within(r, s, span);
    }
    forall r | r in rows
      ensures now - r.createdAt <= days * 86400000000 ==> r in PurgedAt(rows, now, days)
      ensures r in PurgedAt(rows, now, days) && (forall sid :: !Carries(r, sid)) ==> now - r.createdAt <= days * 86400000000
    {
      PurgeExactly(rows, now, days, r);
    }
  }

  // Main result: the rows of a session go together or stay together.
  lemma SessionsGoWhole(rows: seq<Row>, cutoff: int, a: Row, b: Row)
    requires a in rows && b in rows && SameSession(a, b)
    requires Within(a, b, 172800000000) && Within(b, a, 172800000000)
    ensures a in Purged(rows, cutoff) <==> b in Purged(rows, cutoff)
  {
  }

  // A longer session can lose the row that carries its key.
  lemma LongSessionLosesItsKey(cutoff: int)
    ensures exists rows, opener, later ::
      && opener in rows && later in rows && SameSession(opener, later) && IsRedactable(opener)
      && later.createdAt - opener.createdAt == 172800000001
      && opener !in Purged(rows, cutoff) && later in Purged(rows, cutoff)
  {
    var opener := SentRow(Dm, 1, SomeAddress(), cutoff - 1, 0, Null);
    var later := SentRow(Dm, 2, SomeAddress(), cutoff + SESSION_GRACE, 1, Null);
    SentRowRedactable(Dm, 1, SomeAddress(), cutoff - 1, 0, Null);
    var rows := [opener, later];
    assert opener in rows && later in rows;
    assert opener !in Purged(rows, cutoff) && later in Purged(rows, cutoff);
  }

  // ---- A redaction moves no row between sessions ----

  lemma EvolvedKeepsSession(c: Crypto, a: Row, b: Row)
    requires Evolved(c, a, b)
    ensures SessionOf(a) == SessionOf(b) && a.kind == b.kind && a.createdAt == b.createdAt
  {
  }

  // A change to contents that keeps ids, before or after a selection that
  // depends on nothing it changes.
  lemma {:induction false} FilterMap(f: Row -> Row, p: Row -> bool, q: Row -> bool, xs: seq<Row>)
    requires forall x :: x in xs ==> p(x) == q(f(x))
    ensures Filter(q, Map(f, xs)) == Map(f, Filter(p, xs))
  {
    if xs != [] {
      assert xs[0] in xs;
      FilterMap(f, p, q, xs[1..]);
      var rest := Filter(p, xs[1..]);
      if p(xs[0]) {
        assert Filter(p, xs)[1..] == rest;
        assert Map(f, xs)[1..] == Map(f, xs[1..]);
      }
    }
  }

  predicate KeepsSessions(change: Change, rows: seq<Row>) {
    forall r :: r in rows && IdOf(r) == change.id ==> SessionOf(r) == SessionOf(r.(content := change.content))
  }

  lemma PurgeRewrite(change: Change, rows: seq<Row>, cutoff: int)
    requires KeepsSessions(change, rows)
    ensures Purged(Map(Rewrite(change), rows), cutoff) == Map(Rewrite(change), Purged(rows, cutoff))
  {
    var after := Map(Rewrite(change), rows);
    forall r | r in rows ensures Stays(rows, cutoff)(r) == Stays(after, cutoff)(Rewrite(change)(r)) {
      var i :| 0 <= i < |rows| && rows[i] == r;
    }
    FilterMap(Rewrite(change), Stays(rows, cutoff), Stays(after, cutoff), rows);
  }

  predicate AllKeepSessions(changes: seq<Change>, rows: seq<Row>) {
    forall i :: 0 <= i < |changes| ==> KeepsSessions(changes[i], rows)
  }

  lemma {:induction false} PurgeApply(rows: seq<Row>, changes: seq<Change>, cutoff: int)
    requires AllKeepSessions(changes, rows)
    ensures Purged(Apply(rows, changes), cutoff) == Apply(Purged(rows, cutoff), changes)
    decreases |changes|
  {
    if changes != [] {
      var after := Map(Rewrite(changes[0]), rows);
      PurgeRewrite(changes[0], rows, cutoff);
      forall i | 0 <= i < |changes| - 1 ensures KeepsSessions(changes[1..][i], after) {
      }
      PurgeApply(after, changes[1..], cutoff);
    }
  }

  // A purge leaves the same rows whether the verified redactions of a round are
  // written before it or after it.
  lemma RedactionCommutesWithPurge(c: Crypto, rows: seq<Row>, address: string, subs: seq<Submitted>, scope: Scope, cutoff: int)
    requires Ordered(rows) && VerifyAll(c, rows, address, subs, scope).Pending?
    ensures Purged(Round(c, rows, address, subs, scope), cutoff)
         == Apply(Purged(rows, cutoff), VerifyAll(c, rows, address, subs, scope).changes)
  {
    var changes := VerifyAll(c, rows, address, subs, scope).changes;
    VerifyAllSound(c, rows, address, subs, scope);
    PurgeApply(rows, changes, cutoff);
  }

  // ---- A whole round against a purge ----

  // The submissions that still name a row after the purge.
  predicate NamesSurvivor(rows: seq<Row>, cutoff: int, sub: Submitted) {
    ParseKey(sub.key).Some? && exists r :: r in rows && IdOf(r) == ParseKey(sub.key).value && Stays(rows, cutoff)(r)
  }

  // A verdict depends on the table only through the row it finds.
  lemma VerdictByFind(c: Crypto, rows: seq<Row>, rows': seq<Row>, address: string, sub: Submitted, scope: Scope)
    requires ParseKey(sub.key).Some? ==>
      Find(rows', ParseKey(sub.key).value, address) in {None, Find(rows, ParseKey(sub.key).value, address)}
    ensures VerifyOne(c, rows', address, sub, scope).Verified?
       <==> && VerifyOne(c, rows, address, sub, scope).Verified?
            && Find(rows', ParseKey(sub.key).value, address).Some?
    ensures VerifyOne(c, rows', address, sub, scope).Verified? ==>
      VerifyOne(c, rows', address, sub, scope) == VerifyOne(c, rows, address, sub, scope)
  {
  }

  lemma SurvivorFound(rows: seq<Row>, cutoff: int, address: string, sub: Submitted)
    requires Ordered(rows) && ParseKey(sub.key).Some? && Find(rows, ParseKey(sub.key).value, address).Some?
    ensures Find(Purged(rows, cutoff), ParseKey(sub.key).value, address).Some? <==> NamesSurvivor(rows, cutoff, sub)
  {
    var id := ParseKey(sub.key).value;
    if NamesSurvivor(rows, cutoff, sub) {
      var r :| r in rows && IdOf(r) == id && Stays(rows, cutoff)(r);
      OneRowPerId(rows, r, Find(rows, id, address).value);
    }
  }

  lemma VerifyOneAfterPurge(c: Crypto, rows: seq<Row>, address: string, sub: Submitted, scope: Scope, cutoff: int)
    requires Ordered(rows)
    ensures VerifyOne(c, rows, address, sub, scope).Verified? && NamesSurvivor(rows, cutoff, sub) ==>
      VerifyOne(c, Purged(rows, cutoff), address, sub, scope) == VerifyOne(c, rows, address, sub, scope)
    ensures !(VerifyOne(c, rows, address, sub, scope).Verified? && NamesSurvivor(rows, cutoff, sub)) ==>
      VerifyOne(c, Purged(rows, cutoff), address, sub, scope).Refused?
  {
    VerdictByFind(c, rows, Purged(rows, cutoff), address, sub, scope);
    if VerifyOne(c, rows, address, sub, scope).Verified? {
      SurvivorFound(rows, cutoff, address, sub);
    }
  }

  lemma {:induction false} ApplyNothing(rows: seq<Row>, changes: seq<Change>)
    requires forall i, r :: 0 <= i < |changes| && r in rows ==> IdOf(r) != changes[i].id
    ensures Apply(rows, changes) == rows
    decreases |changes|
  {
    if changes != [] {
      var after := Map(Rewrite(changes[0]), rows);
      forall i | 0 <= i < |rows| ensures after[i] == rows[i] {
        assert rows[i] in rows;
      }
      assert after == rows;
      ApplyNothing(rows, changes[1..]);
    }
  }

  predicate AllSurvive(rows: seq<Row>, cutoff: int, subs: seq<Submitted>) {
    forall i :: 0 <= i < |subs| ==> NamesSurvivor(rows, cutoff, subs[i])
  }

  predicate NoneSurvive(rows: seq<Row>, cutoff: int, subs: seq<Submitted>) {
    forall i :: 0 <= i < |subs| ==> !NamesSurvivor(rows, cutoff, subs[i])
  }

  lemma RoundAfterPurge(c: Crypto, rows: seq<Row>, address: string, subs: seq<Submitted>, scope: Scope, cutoff: int)
    requires Ordered(rows)
    ensures VerifyAll(c, Purged(rows, cutoff), address, subs, scope).Pending?
       <==> VerifyAll(c, rows, address, subs, scope).Pending? && AllSurvive(rows, cutoff, subs)
    ensures VerifyAll(c, Purged(rows, cutoff), address, subs, scope).Pending? ==>
      VerifyAll(c, Purged(rows, cutoff), address, subs, scope) == VerifyAll(c, rows, address, subs, scope)
  {
    var before, after := VerifyAll(c, rows, address, subs, scope), VerifyAll(c, Purged(rows, cutoff), address, subs, scope);
    VerifyAllIff(c, rows, address, subs, scope);
    VerifyAllIff(c, Purged(rows, cutoff), address, subs, scope);
    forall i | 0 <= i < |subs| {
      VerifyOneAfterPurge(c, rows, address, subs[i], scope, cutoff);
    }
    if before.Pending? && after.Pending? {
      forall i | 0 <= i < |subs| ensures before.changes[i] == after.changes[i] {
        VerifyAllAt(c, rows, address, subs, scope, i);
        VerifyAllAt(c, Purged(rows, cutoff), address, subs, scope, i);
      }
      assert before.changes == after.changes;
    }
  }

  // Main result: a round and a purge commute exactly when the round is refused
  // anyway, or the purge spares all the rows it names, or none of them.
  lemma RoundCommutesWithPurge(c: Crypto, rows: seq<Row>, address: string, subs: seq<Submitted>, scope: Scope, cutoff: int)
    requires Ordered(rows)
    ensures Round(c, Purged(rows, cutoff), address, subs, scope) == Purged(Round(c, rows, address, subs, scope), cutoff)
       <==> (VerifyAll(c, rows, address, subs, scope).Rejected?
             || AllSurvive(rows, cutoff, subs) || NoneSurvive(rows, cutoff, subs))
  {
    RoundAfterPurge(c, rows, address, subs, scope, cutoff);
    if VerifyAll(c, rows, address, subs, scope).Pending? {
      RedactionCommutesWithPurge(c, rows, address, subs, scope, cutoff);
      if !AllSurvive(rows, cutoff, subs) {
        if NoneSurvive(rows, cutoff, subs) {
          NothingToRedact(c, rows, address, subs, scope, cutoff);
        } else {
          SurvivorRedacted(c, rows, address, subs, scope, cutoff);
        }
      }
    }
  }

  // Two messages of one session, a microsecond too far apart for a purge to spare
  // the first for the second.
  function Straddling(cutoff: int): seq<Row> {
    [SentRow(Dm, 1, SomeAddress(), cutoff - 1, 0, Null),
     SentRow(Dm, 2, SomeAddress(), cutoff + SESSION_GRACE, 1, Null)]
  }

  // A round that names them both lands before the purge and is refused after it.
  lemma StraddlingRound(c: Crypto, sign: string -> string, cutoff: int)
    requires HoldsKey(c, SomeAddress(), sign)
    ensures var rows := Straddling(cutoff);
      var subs := ClientRound(c, sign, rows, SomeAddress(), Everything);
      && VerifyAll(c, rows, SomeAddress(), subs, Everything).Pending?
      && Round(c, Purged(rows, cutoff), SomeAddress(), subs, Everything)
           != Purged(Round(c, rows, SomeAddress(), subs, Everything), cutoff)
  {
    var rows := Straddling(cutoff);
    var subs := ClientRound(c, sign, rows, SomeAddress(), Everything);
    StraddlingLeft(cutoff);
    ClientRoundLands(c, sign, rows, SomeAddress(), Everything);
    assert !Stays(rows, cutoff)(rows[0]) && Stays(rows, cutoff)(rows[1]);
    forall i | 0 <= i < 2 ensures ParseKey(subs[i].key) == Some(IdOf(rows[i])) {
      KeyNamesItsRow(IdOf(rows[i]));
    }
    assert rows[1] in Purged(rows, cutoff) && NamesSurvivor(rows, cutoff, subs[1]);
    assert !NamesSurvivor(rows, cutoff, subs[0]);
    RoundCommutesWithPurge(c, rows, SomeAddress(), subs, Everything, cutoff);
  }

  lemma StraddlingLeft(cutoff: int)
    ensures var rows := Straddling(cutoff);
      Ordered(rows) && Left(rows, SomeAddress(), Everything) == rows && AllSpellable(rows, SomeAddress(), Everything)
  {
    var rows := Straddling(cutoff);
    SentRowRedactable(Dm, 1, SomeAddress(), cutoff - 1, 0, Null);
    SentRowRedactable(Dm, 2, SomeAddress(), cutoff + SESSION_GRACE, 1, Null);
    SpellableMeans(rows[0]);
    SpellableMeans(rows[1]);
    FilterAll(LeftOf(Dm, SomeAddress(), Everything), rows);
    FilterNone(LeftOf(Group, SomeAddress(), Everything), rows);
    assert forall r :: r in rows ==> r == rows[0] || r == rows[1];
  }

  lemma NothingToRedact(c: Crypto, rows: seq<Row>, address: string, subs: seq<Submitted>, scope: Scope, cutoff: int)
    requires Ordered(rows) && VerifyAll(c, rows, address, subs, scope).Pending? && NoneSurvive(rows, cutoff, subs)
    ensures Apply(Purged(rows, cutoff), VerifyAll(c, rows, address, subs, scope).changes) == Purged(rows, cutoff)
  {
    var changes := VerifyAll(c, rows, address, subs, scope).changes;
    VerifyAllSound(c, rows, address, subs, scope);
    forall i, r | 0 <= i < |changes| && r in Purged(rows, cutoff) ensures IdOf(r) != changes[i].id {
      assert ParseKey(subs[i].key) == Some(changes[i].id);
      assert !NamesSurvivor(rows, cutoff, subs[i]);
    }
    ApplyNothing(Purged(rows, cutoff), changes);
  }

  lemma SurvivorRedacted(c: Crypto, rows: seq<Row>, address: string, subs: seq<Submitted>, scope: Scope, cutoff: int)
    requires Ordered(rows) && VerifyAll(c, rows, address, subs, scope).Pending? && !NoneSurvive(rows, cutoff, subs)
    ensures Purged(Round(c, rows, address, subs, scope), cutoff) != Purged(rows, cutoff)
  {
    var k :| 0 <= k < |subs| && NamesSurvivor(rows, cutoff, subs[k]);
    var r :| r in rows && IdOf(r) == ParseKey(subs[k].key).value && Stays(rows, cutoff)(r);
    assert r in Purged(rows, cutoff) && Submits(subs, IdOf(r));
    var after := Round(c, rows, address, subs, scope);
    var i :| 0 <= i < |rows| && rows[i] == r;
    RoundEffect(c, rows, address, subs, scope, i);
    forall j | 0 <= j < |after| ensures after[j] != r {
      RoundEffect(c, rows, address, subs, scope, j);
    }
    assert r !in after;
  }
}
