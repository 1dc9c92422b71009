/**
The message tables and the requests that walk and change them: the manifest, the
counts, a round of redactions, and the two erases that drive it.
*/
module MessageStore {
  import opened Challenges
  import opened Text
  import opened CanonicalJson
  import opened SignedBodies
  import opened Lists
  import opened Messages
  import opened Erase
  import opened Retention
  import opened Pages

  // ---- The manifest ----

  datatype Entry = Entry(id: RowId, key: string, conv: string, gid: string, sid: Json, ts: Json, seqNo: Json, keys: Json)

  function EntryOf(r: Row): Entry
    requires r.content.Readable?
  {
    var p := r.content.p;
    Entry(IdOf(r), RedactionKey(IdOf(r)), ConvOf(r), GidOf(r), p.sid, p.ts, p.seqNo, p.keys)
  }

  function Entries(rs: seq<Row>): (es: seq<Entry>)
    requires forall r :: r in rs ==> r.content.Readable?
    ensures |es| == |rs| && forall i :: 0 <= i < |rs| ==> es[i] == EntryOf(rs[i])
  {
    if rs == [] then [] else [EntryOf(rs[0])] + Entries(rs[1..])
  }

  // The pages of the manifest, put together, name exactly the keys a round may.
  lemma ManifestCovers(rows: seq<Row>, address: string, scope: Scope, limit: nat, n: nat)
    requires limit >= 1 && n * limit >= |Left(rows, address, scope)|
    ensures FirstPages(Left(rows, address, scope), limit, n) == Left(rows, address, scope)
    ensures (set r | r in FirstPages(Left(rows, address, scope), limit, n) :: RedactionKey(IdOf(r)))
         == RedactionKeys(rows, address, scope)
  {
    PagesCover(Left(rows, address, scope), limit, n);
  }

  // ---- Counting along the walk ----

  lemma {:induction false} WalkCount(rows: seq<Row>, address: string, scope: Scope, fate: Row -> bool)
    ensures |Filter(fate, Walk(rows, address, scope))| == CountMine(rows, address, scope, fate)
  {
    var dm, grp := Filter(Own(Dm, address, scope), rows), Filter(Own(Group, address, scope), rows);
    FilterAppend(fate, dm, grp);
    WalkCountSplit(rows, address, scope, fate);
  }

  lemma {:induction false} WalkCountSplit(rows: seq<Row>, address: string, scope: Scope, fate: Row -> bool)
    ensures |Filter(fate, Filter(Own(Dm, address, scope), rows))| + |Filter(fate, Filter(Own(Group, address, scope), rows))|
         == |Filter(MineAnd(address, scope, fate), rows)|
  {
    if rows != [] {
      WalkCountSplit(rows[1..], address, scope, fate);
      var r := rows[0];
      FilterAppend(fate, if Own(Dm, address, scope)(r) then [r] else [], Filter(Own(Dm, address, scope), rows[1..]));
      FilterAppend(fate, if Own(Group, address, scope)(r) then [r] else [], Filter(Own(Group, address, scope), rows[1..]));
    }
  }

  // ---- Submissions in the order they are verified ----

  function InsertSubmitted(x: Submitted, xs: seq<Submitted>): (r: seq<Submitted>)
    ensures multiset(r) == multiset{x} + multiset(xs)
  {
    if xs == [] || Le(x.key, xs[0].key) then [x] + xs
    else
      assert xs == [xs[0]] + xs[1..];
      [xs[0]] + InsertSubmitted(x, xs[1..])
  }

  // `sorted(signatures)`, each key with its signature.
  function SortSubmitted(xs: seq<Submitted>): (r: seq<Submitted>)
    ensures multiset(r) == multiset(xs) && |r| == |xs|
  {
    if xs == [] then []
    else
      assert xs == [xs[0]] + xs[1..];
      assert |InsertSubmitted(xs[0], SortSubmitted(xs[1..]))| == |multiset{xs[0]} + multiset(xs[1..])|;
      InsertSubmitted(xs[0], SortSubmitted(xs[1..]))
  }

  function KeysOf(subs: seq<Submitted>): (ks: seq<string>)
    ensures |ks| == |subs| && forall i :: 0 <= i < |subs| ==> ks[i] == subs[i].key
  {
    if subs == [] then [] else [subs[0].key] + KeysOf(subs[1..])
  }

  lemma KeysCons(x: Submitted, xs: seq<Submitted>)
    ensures KeysOf([x] + xs) == [x.key] + KeysOf(xs)
  {
    assert ([x] + xs)[0] == x && ([x] + xs)[1..] == xs;
  }

  lemma {:induction false} InsertedKeys(x: Submitted, xs: seq<Submitted>)
    ensures KeysOf(InsertSubmitted(x, xs)) == InsertString(x.key, KeysOf(xs))
  {
    if xs == [] || Le(x.key, xs[0].key) {
      KeysCons(x, xs);
    } else {
      InsertedKeys(x, xs[1..]);
      KeysCons(xs[0], InsertSubmitted(x, xs[1..]));
      assert KeysOf(xs)[1..] == KeysOf(xs[1..]);
    }
  }

  lemma {:induction false} SortedKeys(xs: seq<Submitted>)
    ensures KeysOf(SortSubmitted(xs)) == SortStrings(KeysOf(xs))
  {
    if xs != [] {
      SortedKeys(xs[1..]);
      InsertedKeys(xs[0], SortSubmitted(xs[1..]));
      assert KeysOf(xs)[1..] == KeysOf(xs[1..]);
    }
  }

  // Submissions are verified in ascending order of their keys.
  lemma SubmittedAscend(xs: seq<Submitted>)
    ensures Ascending(KeysOf(SortSubmitted(xs)))
  {
    SortedKeys(xs);
    SortAscending(KeysOf(xs));
  }

  // ---- Requests ----

  datatype Mode = Leave | EraseAll

  datatype EraseRequest = EraseRequest(
    nonce: string, origin: string, deployment: string, signature: string, redactions: seq<Submitted>)

  datatype Outcome =
    | Denied(status: nat)
    | Redacting(redacted: nat, remaining: nat)
    | Finished(redacted: nat, deleted: nat, kept: nat)

  datatype Landing = NotLanded(why: Refusal) | Landed(count: nat)

  // The table a request's round leaves behind.
  function RoundOf(c: Crypto, rows: seq<Row>, address: string, req: EraseRequest, scope: Scope): seq<Row> {
    Round(c, rows, address, SortSubmitted(req.redactions), scope)
  }

  // The statement authorizing a request, over exactly the keys it carries.
  function AccountStatement(req: EraseRequest, mode: Mode): Statement {
    Deletion(req.nonce, if mode == Leave then "leave" else "erase", KeysOf(req.redactions), req.origin, req.deployment)
  }

  function ConversationStatement(req: EraseRequest, kind: Kind, conversation: string): Statement {
    ConversationErase(req.nonce, KindText(kind), conversation, KeysOf(req.redactions), req.origin, req.deployment)
  }

  predicate Authorizes(c: Crypto, address: string, st: Statement, signature: string) {
    Body(c.sha, st).Some? && c.verify(c.keyOf(address), Body(c.sha, st).value, signature)
  }

  // Every submission names a row that is left and signs its redacted form.
  predicate RoundStands(c: Crypto, rows: seq<Row>, address: string, scope: Scope, subs: seq<Submitted>) {
    forall sub :: sub in subs ==> GoodSubmission(c, Left(rows, address, scope), sub)
  }

  lemma SameMembers<T>(xs: seq<T>, ys: seq<T>)
    requires multiset(xs) == multiset(ys)
    ensures forall x :: x in xs <==> x in ys
  {
    forall x ensures x in xs <==> x in ys {
      assert x in xs <==> x in multiset(xs);
      assert x in ys <==> x in multiset(ys);
    }
  }

  lemma StandsAlike(c: Crypto, rows: seq<Row>, address: string, scope: Scope, xs: seq<Submitted>, ys: seq<Submitted>)
    requires forall sub :: sub in xs <==> sub in ys
    ensures RoundStands(c, rows, address, scope, xs) <==> RoundStands(c, rows, address, scope, ys)
  {
  }

  lemma SortedStands(c: Crypto, rows: seq<Row>, address: string, subs: seq<Submitted>, scope: Scope)
    requires Ordered(rows) && (scope == Everything || scope.key != "")
    ensures VerifyAll(c, rows, address, SortSubmitted(subs), scope).Pending? <==> RoundStands(c, rows, address, scope, subs)
  {
    var sorted := SortSubmitted(subs);
    RoundAccepted(c, rows, address, sorted, scope);
    SameMembers(subs, sorted);
    StandsAlike(c, rows, address, scope, subs, sorted);
  }

  // A dictionary of the submissions is as long as their list exactly if no key repeats.
  lemma {:induction false} KeysCounted(keys: seq<string>)
    ensures |set k | k in keys| <= |keys|
    ensures |set k | k in keys| == |keys| <==> NoRepeats(keys)
  {
    if keys != [] {
      KeysCounted(keys[1..]);
      OneMoreKey(keys);
      RepeatedHead(keys);
    }
  }

  lemma OneMoreKey(keys: seq<string>)
    requires keys != []
    ensures |set k | k in keys| == |set k | k in keys[1..]| + (if keys[0] in keys[1..] then 0 else 1)
  {
    var rest := set k | k in keys[1..];
    assert keys == [keys[0]] + keys[1..];
    assert (set k | k in keys) == {keys[0]} + rest;
    assert keys[0] in keys[1..] ==> (set k | k in keys) == rest;
  }

  lemma RepeatedHead(keys: seq<string>)
    requires keys != []
    ensures NoRepeats(keys) <==> keys[0] !in keys[1..] && NoRepeats(keys[1..])
  {
    assert forall j :: 1 <= j < |keys| ==> keys[1..][j - 1] == keys[j];
    assert forall j :: 0 <= j < |keys| - 1 ==> keys[1..][j] == keys[j + 1];
  }

  // Rows of channels torn down because their last member left.
  function OutsideChannels(channels: set<string>): Row -> bool {
    (r: Row) => !(r.kind.Group? && r.target.Some? && r.target.value in channels)
  }

  function TearDown(rows: seq<Row>, channels: set<string>): seq<Row> {
    Filter(OutsideChannels(channels), rows)
  }

  // Exactly the group messages of those channels go.
  lemma TearDownExactly(rows: seq<Row>, channels: set<string>, r: Row)
    ensures r in TearDown(rows, channels) <==> r in rows && !(r.kind == Group && exists c :: c in channels && r.target == Some(c))
  {
  }

  // ---- The loops ----

  method CountKept(walk: seq<Row>) returns (kept: nat)
    ensures kept == |Filter(IsKept, walk)|
  {
    kept := 0;
    for i := 0 to |walk|
      invariant kept == |Filter(IsKept, walk[..i])|
    {
      FilterSnoc(IsKept, walk, i);
      if walk[i].content.Unreadable? {
        kept := kept + 1;
      } else if IsCarrier(walk[i]) && !IsSignable(walk[i].content.p) {
        kept := kept + 1;
      }
    }
    assert walk[..|walk|] == walk;
  }

  method CollectDeletable(walk: seq<Row>) returns (ids: set<RowId>, count: nat)
    ensures ids == set r | r in walk && IsDeletable(r) :: IdOf(r)
    ensures count == |Filter(IsDeletable, walk)|
  {
    ids, count := {}, 0;
    for i := 0 to |walk|
      invariant ids == set r | r in walk[..i] && IsDeletable(r) :: IdOf(r)
      invariant count == |Filter(IsDeletable, walk[..i])|
    {
      FilterSnoc(IsDeletable, walk, i);
      assert forall r :: r in walk[..i + 1] <==> r in walk[..i] || r == walk[i];
      if IsDeletable(walk[i]) {
        ids, count := ids + {IdOf(walk[i])}, count + 1;
      }
    }
    assert walk[..|walk|] == walk;
  }

  // Every redaction is verified before any is applied.
  method VerifyEach(c: Crypto, rows: seq<Row>, address: string, subs: seq<Submitted>, scope: Scope) returns (batch: Batch)
    ensures batch == VerifyAll(c, rows, address, subs, scope)
  {
    batch := AskEach(Check(c, rows, address, scope), subs);
  }

  method AskEach(check: Submitted -> Attempt, subs: seq<Submitted>) returns (batch: Batch)
    ensures batch == AskAll(check, subs)
  {
    var pending: seq<Change> := [];
    for i := 0 to |subs|
      invariant AskAll(check, subs) == Resume(pending, AskAll(check, subs[i..]))
    {
      assert subs[i..][1..] == subs[i + 1..];
      var attempt := check(subs[i]);
      if attempt.Refused? { return Rejected(attempt.why); }
      pending := pending + [attempt.change];
    }
    batch := Pending(pending);
  }

  method ApplyEach(rows: seq<Row>, changes: seq<Change>) returns (after: seq<Row>)
    ensures after == Apply(rows, changes)
  {
    after := rows;
    for i := 0 to |changes|
      invariant after == Apply(rows, changes[..i])
    {
      ApplySnoc(rows, changes, i);
      after := Map(Rewrite(changes[i]), after);
    }
    assert changes[..|changes|] == changes;
  }

  class Store {
    const c: Crypto
    // Origins and deployments this server answers for.
    const served: (string, string) -> bool
    var rows: seq<Row>
    var nonces: map<string, Nonce>

    ghost predicate Valid()
      reads this
    {
      Ordered(rows)
    }

    constructor (c: Crypto, served: (string, string) -> bool)
      ensures Valid() && rows == [] && nonces == map[] && this.c == c && this.served == served
    {
      this.c, this.served := c, served;
      rows, nonces := [], map[];
    }

    // One page of the manifest.
    method RedactableMessages(address: string, limit: nat, offset: nat, scope: Scope) returns (manifest: seq<Entry>)
      ensures manifest == Entries(Window(Left(rows, address, scope), offset, if limit == 0 then 1 else limit))
    {
      LeftIsFilteredWalk(rows, address, scope);
      var page := StreamPage(Redactable(), Walk(rows, address, scope), limit, offset);
      manifest := Entries(page);
    }

    // Own messages an erase will leave holding their content.
    method KeptMessages(address: string, scope: Scope) returns (kept: nat)
      ensures kept == KeptCount(rows, address, scope)
    {
      kept := CountKept(Walk(rows, address, scope));
      WalkCount(rows, address, scope, IsKept);
    }

    // Collects what is provably safe to delete, then deletes it by id.
    method DeleteOwnMessages(address: string, scope: Scope) returns (deleted: nat)
      requires Valid()
      modifies this`rows
      ensures Valid()
      ensures rows == DeleteOwn(old(rows), address, scope)
      ensures deleted == CountMine(old(rows), address, scope, IsDeletable)
    {
      var deletable;
      deletable, deleted := CollectDeletable(Walk(rows, address, scope));
      WalkCount(rows, address, scope, IsDeletable);
      DeletableIds(rows, address, scope, deletable);
      FilterOrdered(NotIn(deletable), rows);
      rows := Filter(NotIn(deletable), rows);
    }

    // One round: verify every redaction, then write them all, or none.
    method ApplyRedactions(address: string, subs: seq<Submitted>, scope: Scope) returns (landing: Landing)
      requires Valid()
      modifies this`rows
      ensures Valid()
      ensures rows == Round(c, old(rows), address, SortSubmitted(subs), scope)
      ensures landing.Landed? <==> VerifyAll(c, old(rows), address, SortSubmitted(subs), scope).Pending?
      ensures landing.Landed? ==> landing.count == |subs|
    {
      var sorted := SortSubmitted(subs);
      RoundKeepsOrder(c, rows, address, sorted, scope);
      var batch := VerifyEach(c, rows, address, sorted, scope);
      if batch.Rejected? { return NotLanded(batch.why); }
      rows := ApplyEach(rows, batch.changes);
      landing := Landed(|batch.changes|);
    }

    // One purge of both tables; the counts are what it reports per kind.
    method PurgeExpiredMessages(days: nat, now: int) returns (dm: nat, grp: nat)
      requires Valid()
      modifies this`rows
      ensures Valid()
      ensures rows == PurgedAt(old(rows), now, days)
      ensures dm + grp == |old(rows)| - |rows|
    {
      var cutoff := CutoffAt(now, days);
      BothTables(rows, cutoff);
      FilterOrdered(StaysInTable(rows, Dm, cutoff), rows);
      FilterOrdered(Stays(rows, cutoff), rows);
      var left;
      left, dm := PurgeTable(rows, Dm, cutoff);
      rows, grp := PurgeTable(left, Group, cutoff);
    }

    // `get_nonce` for an address already normalized; the draw is one no row holds.
    method IssueNonce(address: string, nonce: string, now: int)
      requires nonce !in nonces
      modifies this`nonces
      ensures Some(nonces) == Issue(old(nonces), address, nonce, now)
    {
      var kept := map n | n in nonces && nonces[n].expires > now :: nonces[n];
      nonces := kept[nonce := Nonce(address, now + CHALLENGE_LIFETIME_MS)];
    }

    // Consume a live challenge; it stays spent whatever happens next.
    method ClaimNonce(address: string, nonce: string, now: int) returns (won: bool)
      modifies this`nonces
      ensures won == Live(old(nonces), address, nonce, now)
      ensures nonces == Spend(old(nonces), address, nonce, now)
    {
      won := Live(nonces, address, nonce, now);
      if won { nonces := nonces - {nonce}; }
    }

    // One request of a conversation erase.
    method EraseConversation(address: string, kind: Kind, conversation: string, req: EraseRequest, now: int) returns (out: Outcome)
      requires Valid()
      modifies this
      ensures Valid()
      ensures nonces == if ScopeOf(kind, conversation).Some? then Spend(old(nonces), address, req.nonce, now) else old(nonces)
      ensures !out.Denied? <==>
        && ScopeOf(kind, conversation).Some?
        && Live(old(nonces), address, req.nonce, now) && NoRepeats(KeysOf(req.redactions))
        && served(req.origin, req.deployment)
        && Authorizes(c, address, ConversationStatement(req, kind, ScopeOf(kind, conversation).value.key), req.signature)
        && RoundStands(c, old(rows), address, ScopeOf(kind, conversation).value, req.redactions)
      ensures out.Denied? ==> rows == old(rows)
      ensures out.Denied? ==>
        out.status ==
          if ScopeOf(kind, conversation).None? || !Live(old(nonces), address, req.nonce, now)
             || !NoRepeats(KeysOf(req.redactions)) || !served(req.origin, req.deployment) then 400
          else
            var st := ConversationStatement(req, kind, ScopeOf(kind, conversation).value.key);
            if Accepted(st) && !Authorizes(c, address, st, req.signature) then 401 else 400
      ensures !out.Denied? ==>
        var scope := ScopeOf(kind, conversation).value;
        var landed := RoundOf(c, old(rows), address, req, scope);
        && out.redacted == |req.redactions|
        && (if out.Redacting? then
              rows == landed && out.remaining == |Left(landed, address, scope)| > 0
            else
              && Left(landed, address, scope) == []
              && rows == DeleteOwn(landed, address, scope)
              && out.deleted == CountMine(landed, address, scope, IsDeletable)
              && out.kept == KeptCount(landed, address, scope))
    {
      var s := ScopeOf(kind, conversation);
      if s.None? { return Denied(400); }
      var scope := s.value;
      var won := ClaimNonce(address, req.nonce, now);
      if !won { return Denied(400); }
      KeysCounted(KeysOf(req.redactions));
      if |set k | k in KeysOf(req.redactions)| != |req.redactions| { return Denied(400); }
      if !served(req.origin, req.deployment) { return Denied(400); }
      var body := Body(c.sha, ConversationStatement(req, kind, scope.key));
      if body.None? { return Denied(400); }
      if !c.verify(c.keyOf(address), body.value, req.signature) { return Denied(401); }

      SortedStands(c, rows, address, req.redactions, scope);
      var landing := ApplyRedactions(address, req.redactions, scope);
      if landing.NotLanded? { return Denied(400); }
      RemainingCount(rows, address, scope);
      var remaining := |RedactionKeys(rows, address, scope)|;
      if remaining != 0 { return Redacting(landing.count, remaining); }
      var kept := KeptMessages(address, scope);
      var deleted := DeleteOwnMessages(address, scope);
      return Finished(landing.count, deleted, kept);
    }

    // One request of an account deletion, as far as it touches messages. `active`
    // is the account's state under the row lock; `emptied` are the channels the
    // departure leaves without members.
    method PerformDeletion(address: string, mode: Mode, active: bool, emptied: set<string>, req: EraseRequest, now: int)
      returns (out: Outcome)
      requires Valid()
      modifies this
      ensures Valid()
      ensures nonces == Spend(old(nonces), address, req.nonce, now)
      ensures !out.Denied? <==>
        && Live(old(nonces), address, req.nonce, now) && NoRepeats(KeysOf(req.redactions))
        && active && served(req.origin, req.deployment)
        && Authorizes(c, address, AccountStatement(req, mode), req.signature)
        && (if mode == Leave then req.redactions == [] else RoundStands(c, old(rows), address, Everything, req.redactions))
      ensures out.Denied? ==> rows == old(rows)
      ensures out.Denied? ==>
        out.status ==
          if !Live(old(nonces), address, req.nonce, now) || !NoRepeats(KeysOf(req.redactions)) then 400
          else if !active then 410
          else if !served(req.origin, req.deployment) then 400
          else if !Accepted(AccountStatement(req, mode)) then 500
          else if !Authorizes(c, address, AccountStatement(req, mode), req.signature) then 401 else 400
      ensures !out.Denied? && mode == Leave ==> out == Finished(0, 0, 0) && rows == TearDown(old(rows), emptied)
      ensures !out.Denied? && mode == EraseAll ==>
        var landed := RoundOf(c, old(rows), address, req, Everything);
        && out.redacted == |req.redactions|
        && (if out.Redacting? then
              rows == landed && out.remaining == |Left(landed, address, Everything)| > 0
            else
              && Left(landed, address, Everything) == []
              && rows == TearDown(DeleteOwn(landed, address, Everything), emptied)
              && out.deleted == CountMine(landed, address, Everything, IsDeletable)
              && out.kept == KeptCount(landed, address, Everything))
    {
      var won := ClaimNonce(address, req.nonce, now);
      if !won { return Denied(400); }
      KeysCounted(KeysOf(req.redactions));
      if |set k | k in KeysOf(req.redactions)| != |req.redactions| { return Denied(400); }
      if !active { return Denied(410); }
      if !served(req.origin, req.deployment) { return Denied(400); }
      var body := Body(c.sha, AccountStatement(req, mode));
      if body.None? { return Denied(500); }
      if !c.verify(c.keyOf(address), body.value, req.signature) { return Denied(401); }

      var redacted, deleted, kept := 0, 0, 0;
      if mode == Leave {
        if req.redactions != [] { return Denied(400); }
      } else {
        SortedStands(c, rows, address, req.redactions, Everything);
        var landing := ApplyRedactions(address, req.redactions, Everything);
        if landing.NotLanded? { return Denied(400); }
        redacted := landing.count;
        RemainingCount(rows, address, Everything);
        var remaining := |RedactionKeys(rows, address, Everything)|;
        if remaining != 0 { return Redacting(redacted, remaining); }
        kept := KeptMessages(address, Everything);
        deleted := DeleteOwnMessages(address, Everything);
      }
      FilterOrdered(OutsideChannels(emptied), rows);
      rows := TearDown(rows, emptied);
      return Finished(redacted, deleted, kept);
    }
  }

  // ---- Lemmas the loops rest on ----

  function NotIn(ids: set<RowId>): Row -> bool { (r: Row) => IdOf(r) !in ids }

  lemma DeletableIds(rows: seq<Row>, address: string, scope: Scope, ids: set<RowId>)
    requires Ordered(rows)
    requires ids == set r | r in Walk(rows, address, scope) && IsDeletable(r) :: IdOf(r)
    ensures Filter(NotIn(ids), rows) == DeleteOwn(rows, address, scope)
  {
    forall r | r in rows ensures NotIn(ids)(r) == Survives(address, scope)(r) {
      if IdOf(r) in ids {
        var r' :| r' in Walk(rows, address, scope) && IsDeletable(r') && IdOf(r') == IdOf(r);
        OneRowPerId(rows, r, r');
      }
    }
    FilterAgree(NotIn(ids), Survives(address, scope), rows);
  }

  // The verdict on a batch whose first changes are already verified.
  function Resume(pending: seq<Change>, rest: Batch): Batch {
    match rest
    case Rejected(why) => Rejected(why)
    case Pending(changes) => Pending(pending + changes)
  }

  lemma {:induction false} ApplySnoc(rows: seq<Row>, changes: seq<Change>, i: nat)
    requires i < |changes|
    ensures Apply(rows, changes[..i + 1]) == Map(Rewrite(changes[i]), Apply(rows, changes[..i]))
    decreases i
  {
    if i > 0 {
      ApplySnoc(Map(Rewrite(changes[0]), rows), changes[1..], i - 1);
      assert changes[1..][..i] == changes[..i + 1][1..] && changes[1..][..i - 1] == changes[..i][1..];
    }
  }
}
