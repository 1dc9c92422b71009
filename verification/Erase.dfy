/**
Erasing one's own messages: rounds of author-signed redactions until none that
holds both a session key and its ciphertext is left, then a positively computed
delete. Here as functions on the table; MessageStore.dfy has the walks and
requests that compute them.
*/
module Erase {
  import opened Text
  import opened CanonicalJson
  import opened SignedBodies
  import opened Lists
  import opened Messages

  const MAX_REDACTIONS_PER_DELETE: nat := 1000

  // ---- What is left to redact, and the manifest ----

  function LeftOf(kind: Kind, address: string, scope: Scope): Row -> bool {
    (r: Row) => r.kind == kind && r.sender == address && Scoped(scope, r) && IsRedactable(r)
  }

  function Redactable(): Row -> bool { (r: Row) => IsRedactable(r) }

  // The rows `redactable_messages` lists and `redaction_keys` names, in walk order.
  function Left(rows: seq<Row>, address: string, scope: Scope): (left: seq<Row>)
    ensures forall r :: r in left <==> r in rows && Mine(address, scope)(r) && IsRedactable(r)
  {
    var dm, grp := Filter(LeftOf(Dm, address, scope), rows), Filter(LeftOf(Group, address, scope), rows);
    assert forall r :: r in dm + grp <==> r in dm || r in grp;
    dm + grp
  }

  lemma LeftIsFilteredWalk(rows: seq<Row>, address: string, scope: Scope)
    ensures Left(rows, address, scope) == Filter(Redactable(), Walk(rows, address, scope))
  {
    FilterTwice(Redactable(), Own(Dm, address, scope), LeftOf(Dm, address, scope), rows);
    FilterTwice(Redactable(), Own(Group, address, scope), LeftOf(Group, address, scope), rows);
    FilterAppend(Redactable(), Filter(Own(Dm, address, scope), rows), Filter(Own(Group, address, scope), rows));
  }

  function RedactionKeys(rows: seq<Row>, address: string, scope: Scope): set<string> {
    set r | r in Left(rows, address, scope) :: RedactionKey(IdOf(r))
  }

  lemma KeysDistinct(a: Row, b: Row)
    requires RedactionKey(IdOf(a)) == RedactionKey(IdOf(b))
    ensures IdOf(a) == IdOf(b)
  {
    KeyNamesItsRow(IdOf(a));
    KeyNamesItsRow(IdOf(b));
  }

  predicate DistinctIds(rs: seq<Row>) {
    forall i, j :: 0 <= i < j < |rs| ==> IdOf(rs[i]) != IdOf(rs[j])
  }

  lemma {:induction false} KeyCount(rs: seq<Row>)
    requires DistinctIds(rs)
    ensures |set r | r in rs :: RedactionKey(IdOf(r))| == |rs|
  {
    if rs != [] {
      var tail := set r | r in rs[1..] :: RedactionKey(IdOf(r));
      KeyCount(rs[1..]);
      var head := RedactionKey(IdOf(rs[0]));
      if head in tail {
        var r :| r in rs[1..] && RedactionKey(IdOf(r)) == head;
        KeysDistinct(r, rs[0]);
        assert false;
      }
      assert (set r | r in rs :: RedactionKey(IdOf(r))) == {head} + tail;
    }
  }

  lemma TablesDistinct(dm: seq<Row>, grp: seq<Row>)
    requires Ordered(dm) && Ordered(grp)
    requires (forall r :: r in dm ==> r.kind == Dm) && (forall r :: r in grp ==> r.kind == Group)
    ensures DistinctIds(dm + grp)
  {
    assert forall i :: 0 <= i < |dm| ==> dm[i] in dm;
    assert forall i :: 0 <= i < |grp| ==> grp[i] in grp;
  }

  lemma LeftDistinct(rows: seq<Row>, address: string, scope: Scope)
    requires Ordered(rows)
    ensures DistinctIds(Left(rows, address, scope))
  {
    FilterOrdered(LeftOf(Dm, address, scope), rows);
    FilterOrdered(LeftOf(Group, address, scope), rows);
    TablesDistinct(Filter(LeftOf(Dm, address, scope), rows), Filter(LeftOf(Group, address, scope), rows));
  }

  // The set of keys counts the manifest: `len(redaction_keys)` is what is left.
  lemma RemainingCount(rows: seq<Row>, address: string, scope: Scope)
    requires Ordered(rows)
    ensures |RedactionKeys(rows, address, scope)| == |Left(rows, address, scope)|
  {
    LeftDistinct(rows, address, scope);
    KeyCount(Left(rows, address, scope));
  }

  // ---- One signed redaction ----

  function ConvOf(r: Row): string {
    if r.kind.Dm? then Lower(r.target.GetOr("")) else r.target.GetOr("")
  }

  function GidOf(r: Row): string { if r.kind.Dm? then "" else r.target.GetOr("") }

  function TargetJson(r: Row): Json { if r.target.Some? then Str(r.target.value) else Null }

  // The payload declares a group it was not delivered under.
  predicate WrongGroup(r: Row)
    requires r.content.Readable?
  {
    r.kind.Group? && Truthy(r.content.p.gid) && r.content.p.gid != TargetJson(r)
  }

  function SignedGid(r: Row): string
    requires r.content.Readable?
  {
    if r.kind.Group? && Truthy(r.content.p.gid) && r.content.p.gid.Str? then r.content.p.gid.s else GidOf(r)
  }

  function RedactionStatement(r: Row): Statement
    requires r.content.Readable?
  {
    var p := r.content.p;
    Message(r.sender, ConvOf(r), SignedGid(r), p.sid, p.ts, p.seqNo, Redacted, p.keys)
  }

  // `_redacted_content`: everything but the ciphertext and the signature is copied.
  function RedactedContent(r: Row, signature: string): Content
    requires r.content.Readable?
  {
    Readable(r.content.p.(ct := Null, sig := Str(signature),
                          gid := if r.kind.Group? then Str(SignedGid(r)) else Null))
  }

  datatype Refusal = NotAnId | NotYours | OutOfScope | NotRedactable | ForeignGroup | Unsignable | BadSignature

  datatype Attempt = Refused(why: Refusal) | Verified(change: Change)

  datatype Change = Change(id: RowId, content: Content)

  datatype Submitted = Submitted(key: string, signature: string)

  // The caller's row under an id, if any.
  function Find(rows: seq<Row>, id: RowId, address: string): (r: Option<Row>)
    ensures r.Some? ==> r.value in rows && IdOf(r.value) == id && r.value.sender == address
    ensures r.None? ==> forall x :: x in rows ==> IdOf(x) != id || x.sender != address
  {
    if rows == [] then None
    else if IdOf(rows[0]) == id && rows[0].sender == address then Some(rows[0])
    else
      assert forall x :: x in rows <==> x == rows[0] || x in rows[1..];
      Find(rows[1..], id, address)
  }

  // `_redactable_row` and the body of the loop in `_verified_redactions`.
  function VerifyOne(c: Crypto, rows: seq<Row>, address: string, sub: Submitted, scope: Scope): Attempt {
    match ParseKey(sub.key)
    case None => Refused(NotAnId)
    case Some(id) =>
      match Find(rows, id, address)
      case None => Refused(NotYours)
      case Some(r) =>
        if !InScope(scope, r) then Refused(OutOfScope)
        else if !IsRedactable(r) then Refused(NotRedactable)
        else if WrongGroup(r) then Refused(ForeignGroup)
        else
          match Body(c.sha, RedactionStatement(r))
          case None => Refused(Unsignable)
          case Some(body) =>
            if !c.verify(c.keyOf(address), body, sub.signature) then Refused(BadSignature)
            else Verified(Change(id, RedactedContent(r, sub.signature)))
  }

  // `_verified_redactions`: every one verified before any is applied.
  datatype Batch = Rejected(why: Refusal) | Pending(changes: seq<Change>)

  // Asked in turn, and refused at the first refusal.
  function AskAll(check: Submitted -> Attempt, subs: seq<Submitted>): (b: Batch)
    ensures b.Pending? ==> |b.changes| == |subs|
  {
    if subs == [] then Pending([])
    else
      match check(subs[0])
      case Refused(why) => Rejected(why)
      case Verified(change) =>
        match AskAll(check, subs[1..]) {
          case Rejected(why) => Rejected(why)
          case Pending(changes) => Pending([change] + changes)
        }
  }

  lemma {:induction false} AskAllAt(check: Submitted -> Attempt, subs: seq<Submitted>, i: nat)
    requires AskAll(check, subs).Pending? && i < |subs|
    ensures check(subs[i]) == Verified(AskAll(check, subs).changes[i])
  {
    if i > 0 {
      AskAllAt(check, subs[1..], i - 1);
    }
  }

  lemma {:induction false} AskAllIff(check: Submitted -> Attempt, subs: seq<Submitted>)
    ensures AskAll(check, subs).Pending? <==> forall i :: 0 <= i < |subs| ==> check(subs[i]).Verified?
  {
    if AskAll(check, subs).Pending? {
      forall i | 0 <= i < |subs| { AskAllAt(check, subs, i); }
    } else if check(subs[0]).Verified? {
      AskAllIff(check, subs[1..]);
    }
  }

  function Check(c: Crypto, rows: seq<Row>, address: string, scope: Scope): Submitted -> Attempt {
    (sub: Submitted) => VerifyOne(c, rows, address, sub, scope)
  }

  function VerifyAll(c: Crypto, rows: seq<Row>, address: string, subs: seq<Submitted>, scope: Scope): (b: Batch)
    ensures b.Pending? ==> |b.changes| == |subs|
  {
    AskAll(Check(c, rows, address, scope), subs)
  }

  function Rewrite(change: Change): Row -> Row {
    (r: Row) => if IdOf(r) == change.id then r.(content := change.content) else r
  }

  function Apply(rows: seq<Row>, changes: seq<Change>): (r: seq<Row>)
    ensures |r| == |rows|
    decreases |changes|
  {
    if changes == [] then rows else Apply(Map(Rewrite(changes[0]), rows), changes[1..])
  }

  // ---- What a landed round does to each row ----

  // A redaction that stands on the stored row alone: a reader rebuilding the
  // body from it finds the author's signature over exactly that.
  predicate SelfVerifies(c: Crypto, r: Row) {
    && IsRedacted(r)
    && r.content.p.sig.Str?
    && Body(c.sha, RedactionStatement(r)).Some?
    && c.verify(c.keyOf(r.sender), Body(c.sha, RedactionStatement(r)).value, r.content.p.sig.s)
  }

  // What no redaction may touch: whose it is, where it was delivered, and the
  // session key with its position in the session.
  predicate SameEnvelope(a: Row, b: Row) {
    && a.kind == b.kind && a.id == b.id && a.sender == b.sender
    && a.target == b.target && a.createdAt == b.createdAt
    && a.content.Readable? == b.content.Readable?
    && (a.content.Readable? && b.content.Readable? ==>
          && a.content.p.v == b.content.p.v
          && a.content.p.sid == b.content.p.sid
          && a.content.p.ts == b.content.p.ts
          && a.content.p.seqNo == b.content.p.seqNo
          && a.content.p.keys == b.content.p.keys)
  }

  // The rows a signature can be made for. A redactable row outside this refuses
  // every round that names it.
  predicate Spellable(r: Row) {
    IsRedactable(r) && !WrongGroup(r) && Accepted(RedactionStatement(r))
  }

  // How a row may differ after any number of redactions.
  predicate Evolved(c: Crypto, a: Row, b: Row) {
    SameEnvelope(a, b) && (a == b || (Spellable(a) && SelfVerifies(c, b)))
  }

  lemma EvolvedTransitive(c: Crypto, x: Row, y: Row, z: Row)
    requires Evolved(c, x, y) && Evolved(c, y, z)
    ensures Evolved(c, x, z)
  {
  }

  // The change a submission makes when it names row r.
  predicate RedactsRow(c: Crypto, address: string, scope: Scope, r: Row, change: Change) {
    && IdOf(r) == change.id && r.sender == address && InScope(scope, r) && IsRedactable(r) && !WrongGroup(r)
    && Evolved(c, r, r.(content := change.content))
    && IsRedacted(r.(content := change.content))
  }

  lemma RedactionSelfVerifies(c: Crypto, r: Row, signature: string)
    requires IsRedactable(r) && !WrongGroup(r)
    requires Body(c.sha, RedactionStatement(r)).Some?
    requires c.verify(c.keyOf(r.sender), Body(c.sha, RedactionStatement(r)).value, signature)
    ensures Evolved(c, r, r.(content := RedactedContent(r, signature)))
    ensures IsRedacted(r.(content := RedactedContent(r, signature)))
  {
    var r' := r.(content := RedactedContent(r, signature));
    assert SignedGid(r') == SignedGid(r);
    assert RedactionStatement(r') == RedactionStatement(r);
  }

  lemma VerifiedRedacts(c: Crypto, rows: seq<Row>, address: string, sub: Submitted, scope: Scope)
    requires VerifyOne(c, rows, address, sub, scope).Verified?
    ensures exists r :: r in rows && ParseKey(sub.key) == Some(IdOf(r))
                && RedactsRow(c, address, scope, r, VerifyOne(c, rows, address, sub, scope).change)
  {
    var r := Find(rows, ParseKey(sub.key).value, address).value;
    RedactionSelfVerifies(c, r, sub.signature);
    assert RedactsRow(c, address, scope, r, VerifyOne(c, rows, address, sub, scope).change);
  }

  predicate Names(changes: seq<Change>, id: RowId) { exists i :: 0 <= i < |changes| && changes[i].id == id }

  // Every pending change is one some row of the table may undergo.
  predicate Sound(c: Crypto, rows: seq<Row>, address: string, scope: Scope, changes: seq<Change>) {
    forall i :: 0 <= i < |changes| ==> exists r :: r in rows && RedactsRow(c, address, scope, r, changes[i])
  }

  // Submission i, verified against the table, is change i.
  lemma VerifyAllAt(c: Crypto, rows: seq<Row>, address: string, subs: seq<Submitted>, scope: Scope, i: nat)
    requires VerifyAll(c, rows, address, subs, scope).Pending? && i < |subs|
    ensures VerifyOne(c, rows, address, subs[i], scope) == Verified(VerifyAll(c, rows, address, subs, scope).changes[i])
  {
    AskAllAt(Check(c, rows, address, scope), subs, i);
  }

  lemma VerifyAllSound(c: Crypto, rows: seq<Row>, address: string, subs: seq<Submitted>, scope: Scope)
    requires VerifyAll(c, rows, address, subs, scope).Pending?
    ensures Sound(c, rows, address, scope, VerifyAll(c, rows, address, subs, scope).changes)
    ensures forall i :: 0 <= i < |subs| ==>
      ParseKey(subs[i].key) == Some(VerifyAll(c, rows, address, subs, scope).changes[i].id)
  {
    var changes := VerifyAll(c, rows, address, subs, scope).changes;
    forall i | 0 <= i < |subs|
      ensures exists r :: r in rows && RedactsRow(c, address, scope, r, changes[i])
      ensures ParseKey(subs[i].key) == Some(changes[i].id)
    {
      VerifyAllAt(c, rows, address, subs, scope, i);
      VerifiedRedacts(c, rows, address, subs[i], scope);
    }
  }

  // The content the last change naming an id gives it.
  function Last(changes: seq<Change>, id: RowId): (r: Option<Content>)
    ensures r.Some? <==> Names(changes, id)
    ensures r.Some? ==> Change(id, r.value) in changes
  {
    if changes == [] then None
    else
      var n := |changes| - 1;
      assert forall i :: 0 <= i < |changes| ==> (i == n || changes[i] == changes[..n][i]);
      if changes[n].id == id then Some(changes[n].content)
      else
        assert Names(changes[..n], id) ==> Names(changes, id);
        Last(changes[..n], id)
  }

  lemma {:induction false} LastOfCons(changes: seq<Change>, id: RowId)
    requires changes != []
    ensures Last(changes, id) == if Last(changes[1..], id).Some? then Last(changes[1..], id)
                                 else if changes[0].id == id then Some(changes[0].content) else None
  {
    var n := |changes| - 1;
    if n > 0 {
      assert changes[1..][..n - 1] == changes[..n][1..];
      LastOfCons(changes[..n], id);
    }
  }

  // A round is one pass over the table: each row gets its last change, or nothing.
  lemma {:induction false} ApplyPointwise(rows: seq<Row>, changes: seq<Change>)
    ensures forall i :: 0 <= i < |rows| ==>
      Apply(rows, changes)[i] ==
        (match Last(changes, IdOf(rows[i])) case None => rows[i] case Some(t) => rows[i].(content := t))
    decreases |changes|
  {
    if changes != [] {
      var rows' := Map(Rewrite(changes[0]), rows);
      ApplyPointwise(rows', changes[1..]);
      forall i | 0 <= i < |rows|
        ensures Apply(rows, changes)[i] ==
          (match Last(changes, IdOf(rows[i])) case None => rows[i] case Some(t) => rows[i].(content := t))
      {
        LastOfCons(changes, IdOf(rows[i]));
        assert IdOf(rows'[i]) == IdOf(rows[i]);
      }
    }
  }

  // ---- One round ----

  // The table after a round; a refused round changes nothing.
  function Round(c: Crypto, rows: seq<Row>, address: string, subs: seq<Submitted>, scope: Scope): (r: seq<Row>)
    ensures |r| == |rows|
  {
    match VerifyAll(c, rows, address, subs, scope)
    case Rejected(_) => rows
    case Pending(changes) => Apply(rows, changes)
  }

  predicate Submits(subs: seq<Submitted>, id: RowId) {
    exists i :: 0 <= i < |subs| && ParseKey(subs[i].key) == Some(id)
  }

  function Unsubmitted(subs: seq<Submitted>): Row -> bool { (r: Row) => !Submits(subs, IdOf(r)) }

  // A sound change that names a row is one that row may undergo.
  lemma SoundAtRow(c: Crypto, rows: seq<Row>, address: string, scope: Scope, changes: seq<Change>, j: nat, r: Row)
    requires Ordered(rows) && r in rows && Sound(c, rows, address, scope, changes) && j < |changes| && changes[j].id == IdOf(r)
    ensures RedactsRow(c, address, scope, r, changes[j])
  {
    var r' :| r' in rows && RedactsRow(c, address, scope, r', changes[j]);
    OneRowPerId(rows, r, r');
  }

  // What a pass of sound changes does to row i.
  lemma ChangeEffect(c: Crypto, rows: seq<Row>, address: string, scope: Scope, changes: seq<Change>, i: nat)
    requires Ordered(rows) && i < |rows| && Sound(c, rows, address, scope, changes)
    ensures var before, after := rows[i], Apply(rows, changes)[i];
      if Names(changes, IdOf(before)) then
        && before.sender == address && InScope(scope, before) && IsRedactable(before)
        && IsRedacted(after) && Evolved(c, before, after)
      else after == before
  {
    ApplyPointwise(rows, changes);
    var id := IdOf(rows[i]);
    if Names(changes, id) {
      var content := Last(changes, id).value;
      var j :| 0 <= j < |changes| && changes[j] == Change(id, content);
      SoundAtRow(c, rows, address, scope, changes, j, rows[i]);
    }
  }

  // What a landed round does to row i: the rows it names become self-verifying
  // redactions of themselves, every other row is untouched.
  lemma RoundEffect(c: Crypto, rows: seq<Row>, address: string, subs: seq<Submitted>, scope: Scope, i: nat)
    requires Ordered(rows) && i < |rows| && VerifyAll(c, rows, address, subs, scope).Pending?
    ensures var before, after := rows[i], Round(c, rows, address, subs, scope)[i];
      if Submits(subs, IdOf(before)) then
        && before.sender == address && InScope(scope, before) && IsRedactable(before)
        && IsRedacted(after) && Evolved(c, before, after)
      else after == before
  {
    var changes := VerifyAll(c, rows, address, subs, scope).changes;
    VerifyAllSound(c, rows, address, subs, scope);
    ChangeEffect(c, rows, address, scope, changes, i);
    SubmittedAreNamed(subs, changes, IdOf(rows[i]));
  }

  lemma SubmittedAreNamed(subs: seq<Submitted>, changes: seq<Change>, id: RowId)
    requires |changes| == |subs|
    requires forall i :: 0 <= i < |subs| ==> ParseKey(subs[i].key) == Some(changes[i].id)
    ensures Submits(subs, id) <==> Names(changes, id)
  {
    if Names(changes, id) {
      var k :| 0 <= k < |changes| && changes[k].id == id;
      assert ParseKey(subs[k].key) == Some(id);
    }
  }

  lemma RoundKeepsOrder(c: Crypto, rows: seq<Row>, address: string, subs: seq<Submitted>, scope: Scope)
    requires Ordered(rows)
    ensures Ordered(Round(c, rows, address, subs, scope))
  {
    if VerifyAll(c, rows, address, subs, scope).Pending? {
      forall i | 0 <= i < |rows| ensures IdOf(Round(c, rows, address, subs, scope)[i]) == IdOf(rows[i]) {
        RoundEffect(c, rows, address, subs, scope, i);
      }
    }
  }

  function LeftUnsubmitted(kind: Kind, address: string, scope: Scope, subs: seq<Submitted>): Row -> bool {
    (r: Row) => LeftOf(kind, address, scope)(r) && Unsubmitted(subs)(r)
  }

  // Main result: a landed round shrinks what is left by exactly the rows it names.
  lemma LeftAfterRound(c: Crypto, rows: seq<Row>, address: string, subs: seq<Submitted>, scope: Scope)
    requires Ordered(rows) && VerifyAll(c, rows, address, subs, scope).Pending?
    ensures Left(Round(c, rows, address, subs, scope), address, scope)
         == Filter(Unsubmitted(subs), Left(rows, address, scope))
  {
    var after := Round(c, rows, address, subs, scope);
    forall i | 0 <= i < |rows|
      ensures IsRedactable(after[i]) == (IsRedactable(rows[i]) && !Submits(subs, IdOf(rows[i])))
      ensures !Submits(subs, IdOf(rows[i])) ==> after[i] == rows[i]
    {
      RoundEffect(c, rows, address, subs, scope, i);
    }
    LeftOfAfterRound(rows, after, Dm, address, scope, subs);
    LeftOfAfterRound(rows, after, Group, address, scope, subs);
    FilterAppend(Unsubmitted(subs), Filter(LeftOf(Dm, address, scope), rows), Filter(LeftOf(Group, address, scope), rows));
  }

  lemma LeftOfAfterRound(rows: seq<Row>, after: seq<Row>, kind: Kind, address: string, scope: Scope, subs: seq<Submitted>)
    requires |after| == |rows|
    requires forall i :: 0 <= i < |rows| ==>
      && IsRedactable(after[i]) == (IsRedactable(rows[i]) && !Submits(subs, IdOf(rows[i])))
      && (!Submits(subs, IdOf(rows[i])) ==> after[i] == rows[i])
    ensures Filter(LeftOf(kind, address, scope), after)
         == Filter(Unsubmitted(subs), Filter(LeftOf(kind, address, scope), rows))
  {
    FilterThrough(LeftOf(kind, address, scope), LeftUnsubmitted(kind, address, scope, subs), rows, after);
    FilterTwice(Unsubmitted(subs), LeftOf(kind, address, scope), LeftUnsubmitted(kind, address, scope, subs), rows);
  }

  // ---- When a round is accepted ----

  // A signature that redacts r.
  predicate Answers(c: Crypto, r: Row, signature: string)
    requires r.content.Readable?
  {
    && !WrongGroup(r)
    && Body(c.sha, RedactionStatement(r)).Some?
    && c.verify(c.keyOf(r.sender), Body(c.sha, RedactionStatement(r)).value, signature)
  }

  predicate GoodSubmission(c: Crypto, left: seq<Row>, sub: Submitted) {
    exists r :: r in left && r.content.Readable? && ParseKey(sub.key) == Some(IdOf(r)) && Answers(c, r, sub.signature)
  }

  lemma AcceptedOne(c: Crypto, rows: seq<Row>, address: string, sub: Submitted, scope: Scope)
    requires Ordered(rows) && (scope == Everything || scope.key != "")
    ensures VerifyOne(c, rows, address, sub, scope).Verified? <==> GoodSubmission(c, Left(rows, address, scope), sub)
  {
    ScopesAgree(scope);
    if ParseKey(sub.key).Some? {
      var id := ParseKey(sub.key).value;
      forall r | r in Left(rows, address, scope) && IdOf(r) == id
        ensures Find(rows, id, address) == Some(r)
      {
        OneRowPerId(rows, r, Find(rows, id, address).value);
      }
    }
  }

  lemma VerifyAllIff(c: Crypto, rows: seq<Row>, address: string, subs: seq<Submitted>, scope: Scope)
    ensures VerifyAll(c, rows, address, subs, scope).Pending?
       <==> forall i :: 0 <= i < |subs| ==> VerifyOne(c, rows, address, subs[i], scope).Verified?
  {
    AskAllIff(Check(c, rows, address, scope), subs);
    forall i | 0 <= i < |subs|
      ensures Check(c, rows, address, scope)(subs[i]) == VerifyOne(c, rows, address, subs[i], scope)
    {
    }
  }

  // A round is accepted whole exactly when every key names a row that is left,
  // under any spelling, and every signature covers that row's redacted form.
  lemma RoundAccepted(c: Crypto, rows: seq<Row>, address: string, subs: seq<Submitted>, scope: Scope)
    requires Ordered(rows) && (scope == Everything || scope.key != "")
    ensures VerifyAll(c, rows, address, subs, scope).Pending?
       <==> forall i :: 0 <= i < |subs| ==> GoodSubmission(c, Left(rows, address, scope), subs[i])
  {
    VerifyAllIff(c, rows, address, subs, scope);
    forall i | 0 <= i < |subs|
      ensures VerifyOne(c, rows, address, subs[i], scope).Verified? <==> GoodSubmission(c, Left(rows, address, scope), subs[i])
    {
      AcceptedOne(c, rows, address, subs[i], scope);
    }
  }

  // ---- Counting: keys submitted against rows redacted ----

  function ParsedIds(subs: seq<Submitted>): (ids: seq<Option<RowId>>)
    ensures |ids| == |subs| && forall i :: 0 <= i < |subs| ==> ids[i] == ParseKey(subs[i].key)
  {
    if subs == [] then [] else [ParseKey(subs[0].key)] + ParsedIds(subs[1..])
  }

  ghost function Distinct(ids: seq<Option<RowId>>): set<Option<RowId>> { set id | id in ids }

  predicate OneSpellingEach(ids: seq<Option<RowId>>) {
    forall i, j :: 0 <= i < j < |ids| ==> ids[i] != ids[j]
  }

  lemma DistinctCons(ids: seq<Option<RowId>>)
    requires ids != []
    ensures Distinct(ids) == {ids[0]} + Distinct(ids[1..])
    ensures OneSpellingEach(ids) <==> ids[0] !in ids[1..] && OneSpellingEach(ids[1..])
  {
    assert forall j :: 1 <= j < |ids| ==> ids[j] == ids[1..][j - 1];
    if ids[0] in ids[1..] {
      var j :| 0 <= j < |ids| - 1 && ids[1..][j] == ids[0];
      assert ids[j + 1] == ids[0];
    }
  }

  lemma {:induction false} DistinctCount(ids: seq<Option<RowId>>)
    ensures |Distinct(ids)| <= |ids|
    ensures |Distinct(ids)| == |ids| <==> OneSpellingEach(ids)
  {
    if ids != [] {
      DistinctCount(ids[1..]);
      DistinctCons(ids);
      if ids[0] in ids[1..] {
        assert Distinct(ids) == Distinct(ids[1..]);
      }
    }
  }

  function SubmittedRows(subs: seq<Submitted>): Row -> bool { (r: Row) => Submits(subs, IdOf(r)) }

  lemma {:induction false} IdCount(rs: seq<Row>)
    requires DistinctIds(rs)
    ensures |set r | r in rs :: Some(IdOf(r))| == |rs|
  {
    if rs != [] {
      var tail := set r | r in rs[1..] :: Some(IdOf(r));
      IdCount(rs[1..]);
      assert (set r | r in rs :: Some(IdOf(r))) == {Some(IdOf(rs[0]))} + tail;
      assert forall r :: r in rs[1..] ==> IdOf(r) != IdOf(rs[0]);
    }
  }

  lemma {:induction false} FilterDistinct(p: Row -> bool, rs: seq<Row>)
    requires DistinctIds(rs)
    ensures DistinctIds(Filter(p, rs))
  {
    if rs != [] {
      FilterDistinct(p, rs[1..]);
      var tail := Filter(p, rs[1..]);
      forall j | 0 <= j < |tail| ensures IdOf(tail[j]) != IdOf(rs[0]) {
        assert tail[j] in rs[1..];
      }
    }
  }

  lemma SubmittedIds(c: Crypto, left: seq<Row>, subs: seq<Submitted>)
    requires forall i :: 0 <= i < |subs| ==> GoodSubmission(c, left, subs[i])
    ensures Distinct(ParsedIds(subs)) == set r | r in Filter(SubmittedRows(subs), left) :: Some(IdOf(r))
  {
    var ids, named := ParsedIds(subs), Filter(SubmittedRows(subs), left);
    forall id | id in Distinct(ids) ensures exists r :: r in named && Some(IdOf(r)) == id {
      var i :| 0 <= i < |ids| && ids[i] == id;
      assert GoodSubmission(c, left, subs[i]);
      var r :| r in left && r.content.Readable? && ParseKey(subs[i].key) == Some(IdOf(r)) && Answers(c, r, subs[i].signature);
      assert Submits(subs, IdOf(r)) && r in named;
    }
    forall r | r in named ensures Some(IdOf(r)) in Distinct(ids) {
      var i :| 0 <= i < |subs| && ParseKey(subs[i].key) == Some(IdOf(r));
      assert ids[i] == Some(IdOf(r));
    }
  }

  // The rows a landed round redacts are the distinct ids its keys parse to.
  lemma RowsRedacted(c: Crypto, rows: seq<Row>, address: string, subs: seq<Submitted>, scope: Scope)
    requires Ordered(rows) && (scope == Everything || scope.key != "")
    requires VerifyAll(c, rows, address, subs, scope).Pending?
    ensures |Left(rows, address, scope)| - |Left(Round(c, rows, address, subs, scope), address, scope)|
         == |Distinct(ParsedIds(subs))|
  {
    var left := Left(rows, address, scope);
    LeftAfterRound(c, rows, address, subs, scope);
    FilterSplit(SubmittedRows(subs), Unsubmitted(subs), left);
    LeftDistinct(rows, address, scope);
    FilterDistinct(SubmittedRows(subs), left);
    IdCount(Filter(SubmittedRows(subs), left));
    RoundAccepted(c, rows, address, subs, scope);
    SubmittedIds(c, left, subs);
  }

  // A landed round reports the number of keys. That is the number of rows it
  // redacted if and only if no row is named under two spellings.
  lemma ReportedCount(c: Crypto, rows: seq<Row>, address: string, subs: seq<Submitted>, scope: Scope)
    requires Ordered(rows) && (scope == Everything || scope.key != "")
    requires VerifyAll(c, rows, address, subs, scope).Pending?
    ensures |VerifyAll(c, rows, address, subs, scope).changes|
         == |Left(rows, address, scope)| - |Left(Round(c, rows, address, subs, scope), address, scope)|
       <==> OneSpellingEach(ParsedIds(subs))
  {
    RowsRedacted(c, rows, address, subs, scope);
    DistinctCount(ParsedIds(subs));
  }

  // "dm:7" and "dm:07" are two keys and one row.
  lemma TwoSpellingsOneRow()
    ensures "dm:7" != "dm:07" && ParseKey("dm:7") == ParseKey("dm:07") == Some(RowId(Dm, 7))
  {
    IndexOfColon("dm", "7");
    IndexOfColon("dm", "07");
    assert "dm" + ":" + "7" == "dm:7" && "dm" + ":" + "07" == "dm:07";
    assert "dm:7"[3..] == "7" && "dm:07"[3..] == "07";
    assert "dm:7"[..2] == "dm" && "dm:07"[..2] == "dm";
    assert "07"[..1] == "0" && "7"[..0] == "" && "0"[..0] == "";
    assert NatValue("0") == 0;
  }

  // ---- Finishing ----

  // In the row's own terms: the positions fit a double, the addresses are
  // addresses, and a group payload names the group it was delivered under.
  lemma SpellableMeans(r: Row)
    requires IsRedactable(r)
    ensures Spellable(r) <==>
      && r.content.p.ts.n < 9007199254740992 && r.content.p.seqNo.n < 9007199254740992
      && IsValidAddress(r.sender)
      && (IsValidAddress(ConvOf(r)) || IsSignedIdentifier(ConvOf(r)))
      && (r.kind.Group? ==>
            && (Truthy(r.content.p.gid) ==> r.content.p.gid == TargetJson(r))
            && (GidOf(r) != "" ==> IsSignedIdentifier(GidOf(r))))
  {
  }

  predicate AllSpellable(rows: seq<Row>, address: string, scope: Scope) {
    forall r :: r in Left(rows, address, scope) ==> Spellable(r)
  }

  function SomeAddress(): string { seq(96, (i: nat) => '0') }

  function SomeEnvelope(): Json { Obj(Member("recip", Obj(Member("v", Num(5), NoMembers)), NoMembers)) }

  // A message that mints a session, as a client could have sent it.
  function SentRow(kind: Kind, id: nat, target: string, createdAt: int, ts: int, gid: Json): Row {
    Row(kind, id, SomeAddress(), Some(target), createdAt,
        Readable(Payload(Num(1), Str("s"), Num(ts), Num(0), SomeEnvelope(), Str("x"), gid, Str(""))))
  }

  lemma SentRowRedactable(kind: Kind, id: nat, target: string, createdAt: int, ts: int, gid: Json)
    requires ts >= 0
    ensures IsRedactable(SentRow(kind, id, target, createdAt, ts, gid))
    ensures IsValidAddress(SomeAddress()) && Lower(SomeAddress()) == SomeAddress()
  {
    var fields := Member("v", Num(5), NoMembers);
    assert IsAscii("v") && SmallInt(Num(5)) && WrappedFields(NoMembers) && WrappedFields(fields);
    assert IsAscii("recip") && EnvelopeEntries(NoMembers);
    assert EnvelopeEntries(Member("recip", Obj(fields), NoMembers));
  }

  // A stamp one past the last integer a double keeps apart makes a redactable row
  // no signature can be made for; so does a group other than the channel's own.
  lemma UnspellableRows()
    ensures IsRedactable(SentRow(Dm, 1, SomeAddress(), 0, TWO_53, Null))
    ensures !Spellable(SentRow(Dm, 1, SomeAddress(), 0, TWO_53, Null))
    ensures Spellable(SentRow(Dm, 1, SomeAddress(), 0, TWO_53 - 1, Null))
    ensures IsRedactable(SentRow(Group, 1, "here", 0, 0, Str("there")))
    ensures !Spellable(SentRow(Group, 1, "here", 0, 0, Str("there")))
    ensures Spellable(SentRow(Group, 1, "here", 0, 0, Str("here")))
  {
    SentRowRedactable(Dm, 1, SomeAddress(), 0, TWO_53, Null);
    SentRowRedactable(Dm, 1, SomeAddress(), 0, TWO_53 - 1, Null);
    SentRowRedactable(Group, 1, "here", 0, 0, Str("there"));
    SentRowRedactable(Group, 1, "here", 0, 0, Str("here"));
    SpellableMeans(SentRow(Dm, 1, SomeAddress(), 0, TWO_53, Null));
    SpellableMeans(SentRow(Dm, 1, SomeAddress(), 0, TWO_53 - 1, Null));
    SpellableMeans(SentRow(Group, 1, "here", 0, 0, Str("there")));
    SpellableMeans(SentRow(Group, 1, "here", 0, 0, Str("here")));
  }

  // An unspellable row survives every round.
  lemma UnspellableStays(c: Crypto, rows: seq<Row>, address: string, subs: seq<Submitted>, scope: Scope, r: Row)
    requires Ordered(rows) && (scope == Everything || scope.key != "")
    requires r in Left(rows, address, scope) && !Spellable(r)
    ensures r in Left(Round(c, rows, address, subs, scope), address, scope)
  {
    if VerifyAll(c, rows, address, subs, scope).Pending? {
      LeftAfterRound(c, rows, address, subs, scope);
      RoundAccepted(c, rows, address, subs, scope);
      if Submits(subs, IdOf(r)) {
        var i :| 0 <= i < |subs| && ParseKey(subs[i].key) == Some(IdOf(r));
        var r' :| r' in Left(rows, address, scope) && r'.content.Readable?
          && ParseKey(subs[i].key) == Some(IdOf(r')) && Answers(c, r', subs[i].signature);
        OneRowPerId(rows, r, r');
        assert false;
      }
    }
  }

  // A client that holds the identity key signs whatever body it is asked to.
  ghost predicate HoldsKey(c: Crypto, address: string, sign: string -> string) {
    forall body :: c.verify(c.keyOf(address), body, sign(body))
  }

  function SubmissionFor(c: Crypto, sign: string -> string): Row -> Submitted {
    (r: Row) => Submitted(
      RedactionKey(IdOf(r)),
      if r.content.Readable? then sign(Body(c.sha, RedactionStatement(r)).GetOr("")) else "")
  }

  function RoundSize(left: nat): nat { if left < MAX_REDACTIONS_PER_DELETE then left else MAX_REDACTIONS_PER_DELETE }

  // The round such a client sends: the first rows of the manifest, up to the cap.
  function ClientRound(c: Crypto, sign: string -> string, rows: seq<Row>, address: string, scope: Scope): seq<Submitted> {
    var left := Left(rows, address, scope);
    Map(SubmissionFor(c, sign), left[..RoundSize(|left|)])
  }

  lemma ClientSubmission(c: Crypto, sign: string -> string, address: string, left: seq<Row>, r: Row)
    requires HoldsKey(c, address, sign) && r in left && r.sender == address && Spellable(r)
    ensures GoodSubmission(c, left, SubmissionFor(c, sign)(r))
  {
    KeyNamesItsRow(IdOf(r));
  }

  lemma ClientRoundLands(c: Crypto, sign: string -> string, rows: seq<Row>, address: string, scope: Scope)
    requires Ordered(rows) && (scope == Everything || scope.key != "")
    requires HoldsKey(c, address, sign) && AllSpellable(rows, address, scope)
    ensures VerifyAll(c, rows, address, ClientRound(c, sign, rows, address, scope), scope).Pending?
  {
    var left := Left(rows, address, scope);
    var subs := ClientRound(c, sign, rows, address, scope);
    var page := left[..RoundSize(|left|)];
    forall i | 0 <= i < |subs| ensures GoodSubmission(c, left, subs[i]) {
      assert page[i] in left;
      ClientSubmission(c, sign, address, left, page[i]);
    }
    RoundAccepted(c, rows, address, subs, scope);
  }

  lemma PageSubmits(c: Crypto, sign: string -> string, left: seq<Row>, n: nat, i: nat)
    requires DistinctIds(left) && n <= |left| && i < |left|
    ensures Submits(Map(SubmissionFor(c, sign), left[..n]), IdOf(left[i])) <==> i < n
  {
    var subs := Map(SubmissionFor(c, sign), left[..n]);
    forall k | 0 <= k < n ensures ParseKey(subs[k].key) == Some(IdOf(left[k])) {
      assert left[..n][k] == left[k];
      KeyNamesItsRow(IdOf(left[k]));
    }
    if i < n {
      assert ParseKey(subs[i].key) == Some(IdOf(left[i]));
    }
  }

  // One full round takes the first rows of the manifest off it.
  lemma ClientRoundProgress(c: Crypto, sign: string -> string, rows: seq<Row>, address: string, scope: Scope)
    requires Ordered(rows) && (scope == Everything || scope.key != "")
    requires HoldsKey(c, address, sign) && AllSpellable(rows, address, scope)
    ensures var next := Round(c, rows, address, ClientRound(c, sign, rows, address, scope), scope);
      var left := Left(rows, address, scope);
      && Ordered(next) && AllSpellable(next, address, scope)
      && Left(next, address, scope) == left[RoundSize(|left|)..]
  {
    var left := Left(rows, address, scope);
    var subs := ClientRound(c, sign, rows, address, scope);
    ClientRoundLands(c, sign, rows, address, scope);
    RoundKeepsOrder(c, rows, address, subs, scope);
    LeftAfterRound(c, rows, address, subs, scope);
    LeftDistinct(rows, address, scope);
    forall i | 0 <= i < |left| ensures Unsubmitted(subs)(left[i]) == (RoundSize(|left|) <= i) {
      PageSubmits(c, sign, left, RoundSize(|left|), i);
    }
    FilterDrop(Unsubmitted(subs), left, RoundSize(|left|));
  }

  // How many requests such a client makes until one is answered "finished".
  ghost function RoundsToFinish(c: Crypto, sign: string -> string, rows: seq<Row>, address: string, scope: Scope): nat
    requires Ordered(rows) && (scope == Everything || scope.key != "")
    requires HoldsKey(c, address, sign) && AllSpellable(rows, address, scope)
    decreases |Left(rows, address, scope)|
  {
    var next := Round(c, rows, address, ClientRound(c, sign, rows, address, scope), scope);
    ClientRoundProgress(c, sign, rows, address, scope);
    if Left(next, address, scope) == [] then 1 else 1 + RoundsToFinish(c, sign, next, address, scope)
  }

  // Main result: with no new sends, C carriers take max(1, ceil(C/1000)) rounds.
  lemma {:induction false} ErasesInRounds(c: Crypto, sign: string -> string, rows: seq<Row>, address: string, scope: Scope)
    requires Ordered(rows) && (scope == Everything || scope.key != "")
    requires HoldsKey(c, address, sign) && AllSpellable(rows, address, scope)
    ensures var carriers := |Left(rows, address, scope)|;
            RoundsToFinish(c, sign, rows, address, scope) == if carriers == 0 then 1 else (carriers + 999) / 1000
    decreases |Left(rows, address, scope)|
  {
    var next := Round(c, rows, address, ClientRound(c, sign, rows, address, scope), scope);
    ClientRoundProgress(c, sign, rows, address, scope);
    if Left(next, address, scope) != [] {
      ErasesInRounds(c, sign, next, address, scope);
    }
  }

  // ---- When an erase can finish at all ----

  // The table after a series of rounds, with nothing sent in between.
  function Rounds(c: Crypto, rows: seq<Row>, address: string, batches: seq<seq<Submitted>>, scope: Scope): seq<Row>
    decreases |batches|
  {
    if batches == [] then rows else Rounds(c, Round(c, rows, address, batches[0], scope), address, batches[1..], scope)
  }

  lemma {:induction false} UnspellableOutlasts(
    c: Crypto, rows: seq<Row>, address: string, batches: seq<seq<Submitted>>, scope: Scope, r: Row)
    requires Ordered(rows) && (scope == Everything || scope.key != "")
    requires r in Left(rows, address, scope) && !Spellable(r)
    ensures r in Left(Rounds(c, rows, address, batches, scope), address, scope)
    decreases |batches|
  {
    if batches != [] {
      UnspellableStays(c, rows, address, batches[0], scope, r);
      RoundKeepsOrder(c, rows, address, batches[0], scope);
      UnspellableOutlasts(c, Round(c, rows, address, batches[0], scope), address, batches[1..], scope, r);
    }
  }

  // Batches within the cap that leave nothing to redact.
  ghost predicate Finishes(c: Crypto, rows: seq<Row>, address: string, batches: seq<seq<Submitted>>, scope: Scope) {
    && (forall i :: 0 <= i < |batches| ==> |batches[i]| <= MAX_REDACTIONS_PER_DELETE)
    && Left(Rounds(c, rows, address, batches, scope), address, scope) == []
  }

  lemma {:induction false} ClientFinishes(c: Crypto, sign: string -> string, rows: seq<Row>, address: string, scope: Scope)
    returns (batches: seq<seq<Submitted>>)
    requires Ordered(rows) && (scope == Everything || scope.key != "")
    requires HoldsKey(c, address, sign) && AllSpellable(rows, address, scope)
    ensures Finishes(c, rows, address, batches, scope)
    decreases |Left(rows, address, scope)|
  {
    batches := [];
    if Left(rows, address, scope) != [] {
      var subs := ClientRound(c, sign, rows, address, scope);
      ClientRoundProgress(c, sign, rows, address, scope);
      var rest := ClientFinishes(c, sign, Round(c, rows, address, subs, scope), address, scope);
      batches := [subs] + rest;
      assert batches[1..] == rest;
    }
  }

  // Main result: for a client that holds its key, some series of rounds leaves
  // nothing to redact if and only if every row that is left is spellable.
  lemma FinishesIffSpellable(c: Crypto, sign: string -> string, rows: seq<Row>, address: string, scope: Scope)
    requires Ordered(rows) && (scope == Everything || scope.key != "")
    requires HoldsKey(c, address, sign)
    ensures (exists batches :: Finishes(c, rows, address, batches, scope)) <==> AllSpellable(rows, address, scope)
  {
    if AllSpellable(rows, address, scope) {
      var batches := ClientFinishes(c, sign, rows, address, scope);
    } else {
      var r :| r in Left(rows, address, scope) && !Spellable(r);
      forall batches ensures !Finishes(c, rows, address, batches, scope) {
        UnspellableOutlasts(c, rows, address, batches, scope, r);
      }
    }
  }

  // ---- The final delete ----

  function Survives(address: string, scope: Scope): Row -> bool {
    (r: Row) => !(r.sender == address && Scoped(scope, r) && IsDeletable(r))
  }

  // `delete_own_messages`
  function DeleteOwn(rows: seq<Row>, address: string, scope: Scope): seq<Row> {
    Filter(Survives(address, scope), rows)
  }

  function MineAnd(address: string, scope: Scope, fate: Row -> bool): Row -> bool {
    (r: Row) => r.sender == address && Scoped(scope, r) && fate(r)
  }

  function NotMine(address: string, scope: Scope): Row -> bool {
    (r: Row) => !(r.sender == address && Scoped(scope, r))
  }

  function CountMine(rows: seq<Row>, address: string, scope: Scope, fate: Row -> bool): nat {
    |Filter(MineAnd(address, scope, fate), rows)|
  }

  // `kept_messages`
  function KeptCount(rows: seq<Row>, address: string, scope: Scope): nat {
    CountMine(rows, address, scope, IsKept)
  }

  lemma {:induction false} FatesCount(rows: seq<Row>, address: string, scope: Scope)
    ensures |Filter(Mine(address, scope), rows)|
         == CountMine(rows, address, scope, IsDeletable) + CountMine(rows, address, scope, IsRedactable)
          + CountMine(rows, address, scope, IsKept) + CountMine(rows, address, scope, IsRedacted)
  {
    if rows != [] {
      FatesCount(rows[1..], address, scope);
      OneFate(rows[0]);
    }
  }

  lemma NothingLeft(rows: seq<Row>, address: string, scope: Scope)
    requires Left(rows, address, scope) == []
    ensures forall r :: r in rows && Mine(address, scope)(r) ==> !IsRedactable(r)
    ensures CountMine(rows, address, scope, IsRedactable) == 0
  {
    forall r | r in rows && Mine(address, scope)(r) ensures !IsRedactable(r) {
      assert IsRedactable(r) ==> r in Left(rows, address, scope);
    }
    var listed := Filter(MineAnd(address, scope, IsRedactable), rows);
    assert forall r :: r in listed ==> r in rows && Mine(address, scope)(r) && IsRedactable(r);
    if listed != [] {
      assert listed[0] in listed;
    }
  }

  // Main result: at the fixed point one's messages in scope split exactly into
  // the deleted, the redacted and the kept; the survivors still holding content
  // are the kept ones; every other row is untouched.
  lemma EraseAccounting(rows: seq<Row>, address: string, scope: Scope)
    requires Left(rows, address, scope) == []
    ensures var after := DeleteOwn(rows, address, scope);
      && |rows| - |after| == CountMine(rows, address, scope, IsDeletable)
      && |Filter(Mine(address, scope), rows)|
           == |rows| - |after| + CountMine(rows, address, scope, IsRedacted) + KeptCount(rows, address, scope)
      && CountMine(after, address, scope, HoldsContent) == KeptCount(rows, address, scope)
      && Filter(NotMine(address, scope), after) == Filter(NotMine(address, scope), rows)
  {
    var after := DeleteOwn(rows, address, scope);
    FatesCount(rows, address, scope);
    NothingLeft(rows, address, scope);
    FilterSplit(MineAnd(address, scope, IsDeletable), Survives(address, scope), rows);
    forall r | r in rows
      ensures MineAnd(address, scope, IsKept)(r) == (MineAnd(address, scope, HoldsContent)(r) && Survives(address, scope)(r))
    {
      if Mine(address, scope)(r) {
        assert IsKept(r) == (HoldsContent(r) && !IsDeletable(r));
      }
    }
    FilterTwice(MineAnd(address, scope, HoldsContent), Survives(address, scope), MineAnd(address, scope, IsKept), rows);
    FilterTwice(NotMine(address, scope), Survives(address, scope), NotMine(address, scope), rows);
  }
}
