/**
The client that erases: it reads a round of the manifest, signs what it read, and
sends it under a challenge fetched for it, until the server says there is no more.
*/
module EraseClient {
  import opened Text
  import opened CanonicalJson
  import opened SignedBodies
  import opened BodyReaders
  import opened Lists
  import opened Challenges
  import opened Messages
  import opened Erase
  import opened Pages
  import opened MessageStore

  const REDACTION_ROUND: nat := 1000
  const MAX_REDACTION_ROUNDS: nat := 50
  const MANIFEST_PAGE: nat := 100

  // The identity a client acts for, the page it runs on and the server it talks to.
  datatype Client = Client(address: string, sign: string -> string, origin: string, deployment: string)

  datatype Target = Account(emptied: set<string>) | InConversation(kind: Kind, conversation: string)

  function ScopeFor(target: Target): Scope {
    match target
    case Account(_) => Everything
    case InConversation(kind, conversation) => Conversation(kind, conversation)
  }

  // The challenge a round gets: its nonce, when it is issued and when it is used.
  datatype Draw = Draw(nonce: string, asked: int, posted: int)

  // Each nonce is new, and used within its five minutes.
  ghost predicate Timely(draws: nat -> Draw, nonces: map<string, Nonce>) {
    && (forall i :: IsHexText(draws(i).nonce) && draws(i).nonce !in nonces)
    && (forall i :: draws(i).asked <= draws(i).posted < draws(i).asked + 300000)
    && (forall i, j :: i < j ==> draws(i).nonce != draws(j).nonce)
  }

  // A client that holds its key and is served, asking about a conversation by its name.
  ghost predicate Ready(c: Crypto, served: (string, string) -> bool, client: Client, target: Target) {
    && Speaks(c, client) && served(client.origin, client.deployment)
    && (target.InConversation? ==>
          ScopeOf(target.kind, target.conversation) == Some(Conversation(target.kind, target.conversation)))
  }

  ghost predicate Speaks(c: Crypto, client: Client) {
    && HoldsKey(c, client.address, client.sign)
    && IsCanonicalOrigin(client.origin) && IsSignedIdentifier(client.deployment)
  }

  // ---- What an entry of the manifest is good for ----

  // The body a client signs for an entry: every field comes from the entry.
  function EntryStatement(address: string, e: Entry): Statement {
    Message(address, e.conv, e.gid, e.sid, e.ts, e.seqNo, Redacted, e.keys)
  }

  // An entry suffices to rebuild the body the server will verify; a row that no
  // signature can cover is one the server refuses or the client cannot spell.
  lemma EntryRebuilds(r: Row)
    requires IsRedactable(r)
    ensures EntryOf(r).key == RedactionKey(IdOf(r))
    ensures !WrongGroup(r) ==> EntryStatement(r.sender, EntryOf(r)) == RedactionStatement(r)
  {
  }

  // And what that body says, read as text: who sent the message, in which conversation and
  // group, at which place of its session and with which keys, and that it is redacted.
  lemma RedactionReads(c: Crypto, r: Row)
    requires Spellable(r) && HexDigests(c.sha)
    ensures var body := Body(c.sha, RedactionStatement(r)).value;
      var p := r.content.p;
      && Field(body, "from") == Some(r.sender)
      && Field(body, "conv") == Some(if r.target == None then "" else if r.kind == Dm then Lower(r.target.value) else r.target.value)
      && Field(body, "gid") == Some(if r.kind == Dm || r.target == None then "" else r.target.value)
      && p.sid.Str? && Field(body, "sid") == Some(p.sid.s)
      && p.ts.Num? && Spells(Field(body, "ts"), p.ts.n) && p.seqNo.Num? && Spells(Field(body, "seq"), p.seqNo.n)
      && (WellFormed(p.keys) ==> exists text :: Reads(text, p.keys) && Field(body, "keysh") == Some(c.sha(text)))
      && After(body, "keysh") == Some("redacted=1")
  {
    var st := RedactionStatement(r);
    MessageReads(c.sha, st);
    assert st.ct == Redacted;
  }

  // ---- One round ----

  // Pages from the top, up to one round.
  method ReadRound(store: Store, client: Client, target: Target) returns (entries: seq<Entry>)
    ensures entries == Entries(Window(Left(store.rows, client.address, ScopeFor(target)), 0, 1000))
  {
    ghost var left := Left(store.rows, client.address, ScopeFor(target));
    entries := [];
    while |entries| < REDACTION_ROUND
      invariant |entries| <= Min(|left|, 1000) && entries == Entries(Window(left, 0, |entries|))
      decreases REDACTION_ROUND - |entries|
    {
      var n := |entries|;
      var limit := Min(MANIFEST_PAGE, REDACTION_ROUND - n);
      var got := store.RedactableMessages(client.address, limit, n, ScopeFor(target));
      PageAppends(left, n, limit);
      if got == [] { break; }
      entries := entries + got;
      if |got| < limit { break; }
    }
    assert |entries| == Min(|left|, 1000);
  }

  lemma {:induction false} EntriesAppend(a: seq<Row>, b: seq<Row>)
    requires (forall r :: r in a ==> r.content.Readable?) && (forall r :: r in b ==> r.content.Readable?)
    ensures forall r :: r in a + b ==> r.content.Readable?
    ensures Entries(a + b) == Entries(a) + Entries(b)
  {
    if a == [] {
      assert a + b == b;
    } else {
      assert (a + b)[0] == a[0] && (a + b)[1..] == a[1..] + b;
      EntriesAppend(a[1..], b);
    }
  }

  lemma WindowsJoin(left: seq<Row>, n: nat, limit: nat)
    requires n <= |left|
    ensures |Window(left, n, limit)| == Min(limit, |left| - n)
    ensures Window(left, 0, n) + Window(left, n, limit) == Window(left, 0, n + limit)
  {
  }

  lemma PageAppends(left: seq<Row>, n: nat, limit: nat)
    requires forall r :: r in left ==> r.content.Readable?
    requires n <= |left|
    ensures |Window(left, n, limit)| == Min(limit, |left| - n)
    ensures Entries(Window(left, 0, n)) + Entries(Window(left, n, limit)) == Entries(Window(left, 0, n + limit))
  {
    WindowsJoin(left, n, limit);
    EntriesAppend(Window(left, 0, n), Window(left, n, limit));
  }

  // The redaction a client signs for an entry; None where its body cannot be spelled.
  function Signer(c: Crypto, client: Client): Entry -> Option<Submitted> {
    (e: Entry) =>
      match Body(c.sha, EntryStatement(client.address, e))
      case None => None
      case Some(body) => Some(Submitted(e.key, client.sign(body)))
  }

  method SignEach(sign: Entry -> Option<Submitted>, entries: seq<Entry>) returns (subs: Option<seq<Submitted>>)
    ensures subs.Some? <==> forall e :: e in entries ==> sign(e).Some?
    ensures subs.Some? ==>
      |subs.value| == |entries| && forall i :: 0 <= i < |entries| ==> sign(entries[i]) == Some(subs.value[i])
  {
    var signed: seq<Submitted> := [];
    for i := 0 to |entries|
      invariant |signed| == i
      invariant forall j :: 0 <= j < i ==> sign(entries[j]) == Some(signed[j])
    {
      var one := sign(entries[i]);
      if one.None? {
        assert entries[i] in entries;
        return None;
      }
      signed := signed + [one.value];
    }
    subs := Some(signed);
  }

  method SignRedactions(c: Crypto, client: Client, entries: seq<Entry>) returns (subs: Option<seq<Submitted>>)
    ensures subs.Some? <==> forall e :: e in entries ==> Signer(c, client)(e).Some?
    ensures subs.Some? ==>
      |subs.value| == |entries| && forall i :: 0 <= i < |entries| ==> Signer(c, client)(entries[i]) == Some(subs.value[i])
  {
    subs := SignEach(Signer(c, client), entries);
  }

  // What the end of an erase leaves of the table, besides the messages.
  function Ended(rows: seq<Row>, target: Target): seq<Row> {
    match target
    case Account(emptied) => TearDown(rows, emptied)
    case InConversation(_, _) => rows
  }

  // What the server answers to a round in order, and the table it leaves.
  predicate Answered(c: Crypto, address: string, target: Target, subs: seq<Submitted>, before: seq<Row>,
                     out: Outcome, after: seq<Row>) {
    var scope := ScopeFor(target);
    var landed := Round(c, before, address, SortSubmitted(subs), scope);
    && (!out.Denied? <==> RoundStands(c, before, address, scope, subs))
    && match out
       case Denied(status) => status == 400 && after == before
       case Redacting(redacted, remaining) =>
         redacted == |subs| && after == landed && remaining == |Left(landed, address, scope)| > 0
       case Finished(redacted, deleted, kept) =>
         && redacted == |subs| && Left(landed, address, scope) == []
         && after == Ended(DeleteOwn(landed, address, scope), target)
         && deleted == CountMine(landed, address, scope, IsDeletable) && kept == KeptCount(landed, address, scope)
  }

  predicate InTime(draw: Draw, nonces: map<string, Nonce>) {
    IsHexText(draw.nonce) && draw.nonce !in nonces && draw.asked <= draw.posted < draw.asked + 300000
  }

  function SignedRequest(c: Crypto, client: Client, st: Statement, nonce: string, subs: seq<Submitted>): EraseRequest {
    EraseRequest(nonce, client.origin, client.deployment, client.sign(Body(c.sha, st).GetOr("")), subs)
  }

  function DeletionFor(client: Client, nonce: string, subs: seq<Submitted>): Statement {
    Deletion(nonce, "erase", KeysOf(subs), client.origin, client.deployment)
  }

  function EraseFor(client: Client, kind: Kind, conversation: string, nonce: string, subs: seq<Submitted>): Statement {
    ConversationErase(nonce, KindText(kind), conversation, KeysOf(subs), client.origin, client.deployment)
  }

  lemma DeletionSigned(c: Crypto, client: Client, nonce: string, subs: seq<Submitted>)
    requires Speaks(c, client) && IsHexText(nonce)
    ensures var st := DeletionFor(client, nonce, subs);
            var req := SignedRequest(c, client, st, nonce, subs);
            AccountStatement(req, EraseAll) == st && Authorizes(c, client.address, st, req.signature)
  {
  }

  lemma EraseSigned(c: Crypto, client: Client, kind: Kind, conversation: string, nonce: string, subs: seq<Submitted>)
    requires Speaks(c, client) && IsHexText(nonce)
    requires ScopeOf(kind, conversation) == Some(Conversation(kind, conversation))
    ensures var st := EraseFor(client, kind, conversation, nonce, subs);
            var req := SignedRequest(c, client, st, nonce, subs);
            ConversationStatement(req, kind, conversation) == st && Authorizes(c, client.address, st, req.signature)
  {
  }

  // Each fetches a challenge, signs the request that carries these redactions, and sends it.
  method SubmitDeletion(store: Store, client: Client, emptied: set<string>, subs: seq<Submitted>, draw: Draw) returns (out: Outcome)
    requires store.Valid() && Ready(store.c, store.served, client, Account(emptied))
    requires NoRepeats(KeysOf(subs)) && InTime(draw, store.nonces)
    modifies store
    ensures store.Valid() && store.nonces.Keys <= old(store.nonces.Keys)
    ensures Answered(store.c, client.address, Account(emptied), subs, old(store.rows), out, store.rows)
  {
    store.IssueNonce(client.address, draw.nonce, draw.asked);
    DeletionSigned(store.c, client, draw.nonce, subs);
    var req := SignedRequest(store.c, client, DeletionFor(client, draw.nonce, subs), draw.nonce, subs);
    out := store.PerformDeletion(client.address, EraseAll, true, emptied, req, draw.posted);
  }

  method SubmitErase(store: Store, client: Client, kind: Kind, conversation: string, subs: seq<Submitted>, draw: Draw)
    returns (out: Outcome)
    requires store.Valid() && Ready(store.c, store.served, client, InConversation(kind, conversation))
    requires NoRepeats(KeysOf(subs)) && InTime(draw, store.nonces)
    modifies store
    ensures store.Valid() && store.nonces.Keys <= old(store.nonces.Keys)
    ensures Answered(store.c, client.address, InConversation(kind, conversation), subs, old(store.rows), out, store.rows)
  {
    store.IssueNonce(client.address, draw.nonce, draw.asked);
    EraseSigned(store.c, client, kind, conversation, draw.nonce, subs);
    var req := SignedRequest(store.c, client, EraseFor(client, kind, conversation, draw.nonce, subs), draw.nonce, subs);
    out := store.EraseConversation(client.address, kind, conversation, req, draw.posted);
  }

  method SubmitRound(store: Store, client: Client, target: Target, subs: seq<Submitted>, draw: Draw) returns (out: Outcome)
    requires store.Valid() && Ready(store.c, store.served, client, target)
    requires NoRepeats(KeysOf(subs)) && InTime(draw, store.nonces)
    modifies store
    ensures store.Valid() && store.nonces.Keys <= old(store.nonces.Keys)
    ensures Answered(store.c, client.address, target, subs, old(store.rows), out, store.rows)
  {
    match target {
      case Account(emptied) => out := SubmitDeletion(store, client, emptied, subs, draw);
      case InConversation(kind, conversation) => out := SubmitErase(store, client, kind, conversation, subs, draw);
    }
  }

  // ---- When a round the client sends lands ----

  // The submissions made from one round of the manifest.
  ghost predicate SignedFor(c: Crypto, client: Client, page: seq<Row>, subs: seq<Submitted>) {
    && (forall r :: r in page ==> r.content.Readable? && r.sender == client.address)
    && |subs| == |page|
    && forall i :: 0 <= i < |page| ==> Signer(c, client)(EntryOf(page[i])) == Some(subs[i])
  }

  lemma SignerMeans(c: Crypto, client: Client, page: seq<Row>, subs: seq<Submitted>)
    requires forall r :: r in page ==> r.content.Readable? && r.sender == client.address
    requires |subs| == |page| && forall i :: 0 <= i < |page| ==> Signer(c, client)(Entries(page)[i]) == Some(subs[i])
    ensures SignedFor(c, client, page, subs)
  {
    forall i | 0 <= i < |page| ensures page[i].content.Readable? && Signer(c, client)(EntryOf(page[i])) == Some(subs[i]) {
      assert page[i] in page;
      assert Entries(page)[i] == EntryOf(page[i]);
    }
  }

  lemma SignerAt(c: Crypto, client: Client, e: Entry)
    ensures var body := Body(c.sha, EntryStatement(client.address, e));
            Signer(c, client)(e) == if body.None? then None else Some(Submitted(e.key, client.sign(body.value)))
  {
  }

  // The signature made for an entry is one over the row's own redacted form.
  lemma SignerSpells(c: Crypto, client: Client, r: Row)
    requires IsRedactable(r) && r.sender == client.address
    ensures Spellable(r) ==> Signer(c, client)(EntryOf(r)).Some?
    ensures Signer(c, client)(EntryOf(r)).Some? ==> Signer(c, client)(EntryOf(r)).value.key == RedactionKey(IdOf(r))
    ensures Spellable(r) ==>
      Signer(c, client)(EntryOf(r)).value.signature == client.sign(Body(c.sha, RedactionStatement(r)).value)
  {
    EntryRebuilds(r);
    SignerAt(c, client, EntryOf(r));
    if Spellable(r) {
      assert EntryStatement(client.address, EntryOf(r)) == RedactionStatement(r);
      assert Body(c.sha, RedactionStatement(r)).Some?;
    }
  }

  lemma SubmissionStands(c: Crypto, client: Client, rows: seq<Row>, scope: Scope, page: seq<Row>, subs: seq<Submitted>, i: nat)
    requires Ordered(rows) && HoldsKey(c, client.address, client.sign) && SignedFor(c, client, page, subs)
    requires i < |page| && page[i] in Left(rows, client.address, scope)
    ensures GoodSubmission(c, Left(rows, client.address, scope), subs[i]) <==> Spellable(page[i])
  {
    var left, r := Left(rows, client.address, scope), page[i];
    KeyNamesItsRow(IdOf(r));
    SignerSpells(c, client, r);
    if Spellable(r) {
      assert Answers(c, r, subs[i].signature);
    }
    if GoodSubmission(c, left, subs[i]) {
      var r' :| r' in left && r'.content.Readable? && ParseKey(subs[i].key) == Some(IdOf(r')) && Answers(c, r', subs[i].signature);
      OneRowPerId(rows, r, r');
    }
  }

  lemma RoundVerdict(c: Crypto, client: Client, rows: seq<Row>, scope: Scope, page: seq<Row>, subs: seq<Submitted>)
    requires Ordered(rows) && HoldsKey(c, client.address, client.sign) && SignedFor(c, client, page, subs)
    requires page == Window(Left(rows, client.address, scope), 0, 1000)
    ensures RoundStands(c, rows, client.address, scope, subs) <==> forall r :: r in page ==> Spellable(r)
  {
    forall i | 0 <= i < |page|
      ensures GoodSubmission(c, Left(rows, client.address, scope), subs[i]) <==> Spellable(page[i])
    {
      assert page[i] in page;
      SubmissionStands(c, client, rows, scope, page, subs, i);
    }
    if RoundStands(c, rows, client.address, scope, subs) {
      forall r | r in page ensures Spellable(r) {
        var i :| 0 <= i < |page| && page[i] == r;
        assert subs[i] in subs;
      }
    }
  }

  lemma KeysOfPage(c: Crypto, client: Client, rows: seq<Row>, scope: Scope, page: seq<Row>, subs: seq<Submitted>, i: nat)
    requires SignedFor(c, client, page, subs) && i < |page|
    requires page == Window(Left(rows, client.address, scope), 0, 1000)
    ensures page[i] == Left(rows, client.address, scope)[i]
    ensures ParseKey(subs[i].key) == Some(IdOf(page[i]))
  {
    assert page[i] in page;
    SignerSpells(c, client, page[i]);
    KeyNamesItsRow(IdOf(page[i]));
  }

  lemma KeysApart(c: Crypto, client: Client, rows: seq<Row>, scope: Scope, page: seq<Row>, subs: seq<Submitted>)
    requires Ordered(rows) && SignedFor(c, client, page, subs)
    requires page == Window(Left(rows, client.address, scope), 0, 1000)
    ensures NoRepeats(KeysOf(subs))
  {
    var keys := KeysOf(subs);
    LeftDistinct(rows, client.address, scope);
    forall i, j | 0 <= i < j < |keys| ensures keys[i] != keys[j] {
      KeysOfPage(c, client, rows, scope, page, subs, i);
      KeysOfPage(c, client, rows, scope, page, subs, j);
    }
  }

  // A round that lands takes its page off the manifest, and changes nothing but
  // rows on it, each to a self-verifying redaction of itself.
  predicate PartlyRedacted(c: Crypto, address: string, scope: Scope, before: seq<Row>, after: seq<Row>) {
    |after| == |before| && forall i :: 0 <= i < |before| ==>
      after[i] == before[i]
      || (Mine(address, scope)(before[i]) && IsRedactable(before[i]) && IsRedacted(after[i]) && Evolved(c, before[i], after[i]))
  }

  lemma PartlyTransitive(c: Crypto, address: string, scope: Scope, x: seq<Row>, y: seq<Row>, z: seq<Row>)
    requires PartlyRedacted(c, address, scope, x, y) && PartlyRedacted(c, address, scope, y, z)
    ensures PartlyRedacted(c, address, scope, x, z)
  {
    forall i | 0 <= i < |x| && z[i] != x[i]
      ensures Mine(address, scope)(x[i]) && IsRedactable(x[i]) && IsRedacted(z[i]) && Evolved(c, x[i], z[i])
    {
      if y[i] != x[i] && z[i] != y[i] { EvolvedTransitive(c, x[i], y[i], z[i]); }
    }
  }

  lemma RoundLeaves(c: Crypto, client: Client, rows: seq<Row>, scope: Scope, page: seq<Row>, subs: seq<Submitted>)
    requires Ordered(rows) && (scope == Everything || scope.key != "")
    requires SignedFor(c, client, page, subs) && page == Window(Left(rows, client.address, scope), 0, 1000)
    requires RoundStands(c, rows, client.address, scope, subs)
    ensures var after := Round(c, rows, client.address, SortSubmitted(subs), scope);
      && Left(after, client.address, scope) == Left(rows, client.address, scope)[|page|..]
      && PartlyRedacted(c, client.address, scope, rows, after)
  {
    var left, sorted := Left(rows, client.address, scope), SortSubmitted(subs);
    var after := Round(c, rows, client.address, sorted, scope);
    SortedStands(c, rows, client.address, subs, scope);
    LeftAfterRound(c, rows, client.address, sorted, scope);
    forall i | 0 <= i < |left| ensures Unsubmitted(sorted)(left[i]) == (|page| <= i) {
      PageSubmitted(c, client, rows, scope, page, subs, i);
    }
    FilterDrop(Unsubmitted(sorted), left, |page|);
    ScopesAgree(scope);
    forall i | 0 <= i < |rows| && after[i] != rows[i]
      ensures Mine(client.address, scope)(rows[i]) && IsRedactable(rows[i])
      ensures IsRedacted(after[i]) && Evolved(c, rows[i], after[i])
    {
      RoundEffect(c, rows, client.address, sorted, scope, i);
    }
  }

  lemma SortedSubmits(subs: seq<Submitted>, id: RowId)
    ensures Submits(SortSubmitted(subs), id) <==> Submits(subs, id)
  {
    var sorted := SortSubmitted(subs);
    if Submits(subs, id) {
      var i :| 0 <= i < |subs| && ParseKey(subs[i].key) == Some(id);
      assert subs[i] in multiset(subs);
      var j :| 0 <= j < |sorted| && sorted[j] == subs[i];
    }
    if Submits(sorted, id) {
      var j :| 0 <= j < |sorted| && ParseKey(sorted[j].key) == Some(id);
      assert sorted[j] in multiset(sorted);
      var i :| 0 <= i < |subs| && subs[i] == sorted[j];
    }
  }

  lemma PageSubmitted(c: Crypto, client: Client, rows: seq<Row>, scope: Scope, page: seq<Row>, subs: seq<Submitted>, i: nat)
    requires Ordered(rows) && SignedFor(c, client, page, subs)
    requires page == Window(Left(rows, client.address, scope), 0, 1000) && i < |Left(rows, client.address, scope)|
    ensures Submits(SortSubmitted(subs), IdOf(Left(rows, client.address, scope)[i])) <==> i < |page|
  {
    var left := Left(rows, client.address, scope);
    LeftDistinct(rows, client.address, scope);
    SortedSubmits(subs, IdOf(left[i]));
    forall k | 0 <= k < |page| ensures ParseKey(subs[k].key) == Some(IdOf(left[k])) {
      KeysOfPage(c, client, rows, scope, page, subs, k);
    }
    if i < |page| { assert ParseKey(subs[i].key) == Some(IdOf(left[i])); }
  }

  lemma UnspelledAt(c: Crypto, client: Client, page: seq<Row>, e: Entry) returns (i: nat)
    requires forall r :: r in page ==> r.content.Readable? && IsRedactable(r) && r.sender == client.address
    requires e in Entries(page) && Signer(c, client)(e).None?
    ensures i < |page| && !Spellable(page[i])
  {
    i :| 0 <= i < |page| && Entries(page)[i] == e;
    assert page[i] in page;
    SignerSpells(c, client, page[i]);
  }

  lemma Unspellable(c: Crypto, client: Client, rows: seq<Row>, scope: Scope)
    requires exists e :: e in Entries(Window(Left(rows, client.address, scope), 0, 1000)) && Signer(c, client)(e).None?
    ensures exists i ::
      0 <= i < Min(|Left(rows, client.address, scope)|, 1000) && !Spellable(Left(rows, client.address, scope)[i])
  {
    var page := Window(Left(rows, client.address, scope), 0, 1000);
    var e :| e in Entries(page) && Signer(c, client)(e).None?;
    var i := UnspelledAt(c, client, page, e);
    assert Left(rows, client.address, scope)[i] == page[i];
  }

  lemma FateSettled(address: string, scope: Scope, before: seq<Row>, landed: seq<Row>, fate: Row -> bool)
    requires |landed| == |before|
    requires forall i :: 0 <= i < |before| && landed[i] != before[i] ==> !fate(before[i]) && !fate(landed[i])
    ensures CountMine(landed, address, scope, fate) == CountMine(before, address, scope, fate)
  {
    FilterThrough(MineAnd(address, scope, fate), MineAnd(address, scope, fate), before, landed);
  }

  // What the final delete counts is what the first round already found.
  lemma FatesSettled(c: Crypto, address: string, scope: Scope, before: seq<Row>, landed: seq<Row>)
    requires PartlyRedacted(c, address, scope, before, landed)
    ensures CountMine(landed, address, scope, IsDeletable) == CountMine(before, address, scope, IsDeletable)
    ensures KeptCount(landed, address, scope) == KeptCount(before, address, scope)
  {
    forall i | 0 <= i < |before| && landed[i] != before[i]
      ensures !IsDeletable(before[i]) && !IsDeletable(landed[i]) && !IsKept(before[i]) && !IsKept(landed[i])
    {
      OneFate(before[i]);
      OneFate(landed[i]);
    }
    FateSettled(address, scope, before, landed, IsDeletable);
    FateSettled(address, scope, before, landed, IsKept);
  }

  lemma BeforeRound(c: Crypto, client: Client, rows: seq<Row>, scope: Scope, page: seq<Row>, subs: seq<Submitted>)
    requires Ordered(rows) && HoldsKey(c, client.address, client.sign) && SignedFor(c, client, page, subs)
    requires page == Window(Left(rows, client.address, scope), 0, 1000)
    ensures NoRepeats(KeysOf(subs))
    ensures RoundStands(c, rows, client.address, scope, subs)
       <==> forall i :: 0 <= i < |page| ==> Spellable(Left(rows, client.address, scope)[i])
  {
    var left := Left(rows, client.address, scope);
    RoundVerdict(c, client, rows, scope, page, subs);
    KeysApart(c, client, rows, scope, page, subs);
    assert forall i :: 0 <= i < |page| ==> page[i] == left[i] && left[i] in page;
  }

  lemma AfterRound(c: Crypto, client: Client, rows: seq<Row>, scope: Scope, page: seq<Row>, subs: seq<Submitted>)
    requires Ordered(rows) && (scope == Everything || scope.key != "")
    requires SignedFor(c, client, page, subs) && page == Window(Left(rows, client.address, scope), 0, 1000)
    requires RoundStands(c, rows, client.address, scope, subs)
    ensures var after := Round(c, rows, client.address, SortSubmitted(subs), scope);
      && Left(after, client.address, scope) == Left(rows, client.address, scope)[|page|..]
      && PartlyRedacted(c, client.address, scope, rows, after)
      && CountMine(after, client.address, scope, IsDeletable) == CountMine(rows, client.address, scope, IsDeletable)
      && KeptCount(after, client.address, scope) == KeptCount(rows, client.address, scope)
  {
    RoundLeaves(c, client, rows, scope, page, subs);
    FatesSettled(c, client.address, scope, rows, Round(c, rows, client.address, SortSubmitted(subs), scope));
  }

  // ---- Rounds until the server says done ----

  // How many rows at the head of the manifest a signature can be made for.
  function SpellablePrefix(left: seq<Row>): (n: nat)
    ensures n <= |left|
  {
    if left == [] || !Spellable(left[0]) then 0 else 1 + SpellablePrefix(left[1..])
  }

  lemma {:induction false} PrefixAt(left: seq<Row>, n: nat)
    requires n <= |left|
    ensures n <= SpellablePrefix(left) <==> forall i :: 0 <= i < n ==> Spellable(left[i])
  {
    if n > 0 {
      PrefixAt(left[1..], n - 1);
      if n <= SpellablePrefix(left) {
        forall i | 0 <= i < n ensures Spellable(left[i]) {
          if i > 0 { assert left[i] == left[1..][i - 1]; }
        }
      }
    }
  }

  lemma {:induction false} PrefixAfter(left: seq<Row>, n: nat)
    requires n <= SpellablePrefix(left)
    ensures SpellablePrefix(left[n..]) == SpellablePrefix(left) - n
  {
    if n > 0 {
      PrefixAfter(left[1..], n - 1);
      assert left[1..][n - 1..] == left[n..];
    } else {
      assert left[0..] == left;
    }
  }

  lemma PrefixWhole(rows: seq<Row>, address: string, scope: Scope)
    ensures var left := Left(rows, address, scope);
            AllSpellable(rows, address, scope) <==> SpellablePrefix(left) == |left|
  {
    var left := Left(rows, address, scope);
    PrefixAt(left, |left|);
  }

  // How far an erase that began with these rows has come: n of them are redacted.
  ghost predicate Reached(c: Crypto, address: string, scope: Scope, start: seq<Row>, n: nat, rows: seq<Row>) {
    && n <= SpellablePrefix(Left(start, address, scope))
    && Left(rows, address, scope) == Left(start, address, scope)[n..]
    && PartlyRedacted(c, address, scope, start, rows)
  }

  datatype Ending = Summary(out: Outcome) | Failed(status: nat) | Unspelled | Stuck | TooMany

  // One pass of the loop, begun with n rows of the list redacted: `read` rows were
  // read, `landed` is the table before any final delete and `after` the one behind it.
  ghost predicate RoundResult(c: Crypto, address: string, target: Target, start: seq<Row>, n: nat,
                              out: Option<Outcome>, read: nat, landed: seq<Row>, after: seq<Row>) {
    var scope := ScopeFor(target);
    var left := Left(start, address, scope);
    && n <= |left| && read == Min(|left| - n, 1000)
    && (Lands(out) <==> n + read <= SpellablePrefix(left))
    && Reached(c, address, scope, start, if Lands(out) then n + read else n, landed)
    && (Lands(out) ==> (out.value.Finished? <==> n + read == |left|))
    && (Lands(out) && out.value.Finished? ==>
          && after == Ended(DeleteOwn(landed, address, scope), target)
          && out.value.deleted == CountMine(start, address, scope, IsDeletable)
          && out.value.kept == KeptCount(start, address, scope))
    && ((Lands(out) && out.value.Finished?) || after == landed)
  }

  predicate Lands(out: Option<Outcome>) { out.Some? && !out.value.Denied? }

  // Read, sign, submit. None if a body could not be spelled.
  method EraseRound(store: Store, client: Client, target: Target, draw: Draw, ghost start: seq<Row>, ghost n: nat)
    returns (out: Option<Outcome>, read: nat, ghost landed: seq<Row>)
    requires store.Valid() && Ready(store.c, store.served, client, target) && InTime(draw, store.nonces)
    requires Reached(store.c, client.address, ScopeFor(target), start, n, store.rows)
    modifies store
    ensures store.Valid() && store.nonces.Keys <= old(store.nonces.Keys)
    ensures RoundResult(store.c, client.address, target, start, n, out, read, landed, store.rows)
  {
    ghost var scope, address, rows := ScopeFor(target), client.address, store.rows;
    ghost var page := Window(Left(rows, address, scope), 0, 1000);
    var entries := ReadRound(store, client, target);
    read, landed := |entries|, rows;
    var subs := SignRedactions(store.c, client, entries);
    if subs.None? {
      Unspellable(store.c, client, rows, scope);
      RoundRefused(store.c, address, target, start, n, None, read, rows);
      return None, read, landed;
    }
    SignerMeans(store.c, client, page, subs.value);
    BeforeRound(store.c, client, rows, scope, page, subs.value);
    var reply := SubmitRound(store, client, target, subs.value, draw);
    out := Some(reply);
    if reply.Denied? {
      RoundRefused(store.c, address, target, start, n, out, read, rows);
    } else {
      landed := Round(store.c, rows, address, SortSubmitted(subs.value), scope);
      AfterRound(store.c, client, rows, scope, page, subs.value);
      RoundLanded(store.c, address, target, start, n, reply, read, rows, landed, store.rows);
    }
  }

  lemma RoundRefused(c: Crypto, address: string, target: Target, start: seq<Row>, n: nat,
                     out: Option<Outcome>, read: nat, rows: seq<Row>)
    requires Reached(c, address, ScopeFor(target), start, n, rows) && !Lands(out)
    requires read == Min(|Left(rows, address, ScopeFor(target))|, 1000)
    requires exists i :: 0 <= i < read && !Spellable(Left(rows, address, ScopeFor(target))[i])
    ensures RoundResult(c, address, target, start, n, out, read, rows, rows)
  {
    NextPage(c, address, ScopeFor(target), start, n, rows);
  }

  lemma RoundLanded(c: Crypto, address: string, target: Target, start: seq<Row>, n: nat,
                    reply: Outcome, read: nat, rows: seq<Row>, landed: seq<Row>, after: seq<Row>)
    requires Reached(c, address, ScopeFor(target), start, n, rows) && !reply.Denied?
    requires var scope := ScopeFor(target);
      var rest := Left(rows, address, scope);
      && read == Min(|rest|, 1000) && (forall i :: 0 <= i < read ==> Spellable(rest[i]))
      && Left(landed, address, scope) == rest[read..] && PartlyRedacted(c, address, scope, rows, landed)
      && (reply.Finished? <==> Left(landed, address, scope) == [])
      && (reply.Redacting? ==> after == landed)
      && (reply.Finished? ==>
            && after == Ended(DeleteOwn(landed, address, scope), target)
            && reply.deleted == CountMine(landed, address, scope, IsDeletable) && reply.kept == KeptCount(landed, address, scope))
    ensures RoundResult(c, address, target, start, n, Some(reply), read, landed, after)
  {
    NextPage(c, address, ScopeFor(target), start, n, rows);
    RoundReached(c, address, ScopeFor(target), start, n, rows, read, landed);
  }

  // Where the next round stands in the list the erase began with.
  lemma NextPage(c: Crypto, address: string, scope: Scope, start: seq<Row>, n: nat, rows: seq<Row>)
    requires Reached(c, address, scope, start, n, rows)
    ensures var left, rest := Left(start, address, scope), Left(rows, address, scope);
      && |rest| == |left| - n
      && (n + Min(|rest|, 1000) <= SpellablePrefix(left) <==> forall i :: 0 <= i < Min(|rest|, 1000) ==> Spellable(rest[i]))
  {
    var left := Left(start, address, scope);
    PrefixAfter(left, n);
    PrefixAt(left[n..], Min(|left[n..]|, 1000));
  }

  lemma RoundReached(c: Crypto, address: string, scope: Scope, start: seq<Row>, n: nat, rows: seq<Row>, read: nat, landed: seq<Row>)
    requires Reached(c, address, scope, start, n, rows) && n + read <= SpellablePrefix(Left(start, address, scope))
    requires Left(landed, address, scope) == Left(rows, address, scope)[read..]
    requires PartlyRedacted(c, address, scope, rows, landed)
    ensures Reached(c, address, scope, start, n + read, landed)
    ensures CountMine(landed, address, scope, IsDeletable) == CountMine(start, address, scope, IsDeletable)
    ensures KeptCount(landed, address, scope) == KeptCount(start, address, scope)
  {
    var left := Left(start, address, scope);
    assert left[n..][read..] == left[n + read..];
    PartlyTransitive(c, address, scope, start, rows, landed);
    FatesSettled(c, address, scope, start, landed);
  }

  predicate Stops(out: Option<Outcome>, read: nat) { !Lands(out) || out.value.Finished? || read == 0 }

  function EndingOf(out: Option<Outcome>, read: nat): Ending
    requires Stops(out, read)
  {
    match out
    case None => Unspelled
    case Some(Denied(status)) => Failed(status)
    case Some(Finished(_, _, _)) => Summary(out.value)
    case Some(Redacting(_, _)) => Stuck
  }

  // What such a client is told in the end, after how many rounds, and what it leaves.
  // It is done if and only if a signature can be made for everything there was to
  // redact and 50 rounds of 1000 hold it all; then after max(1, ceil(C/1000)) rounds.
  // Otherwise the rounds before the first row without a signature have landed, 50 at
  // most, and they stay.
  ghost predicate RunResult(c: Crypto, address: string, target: Target, start: seq<Row>,
                            end: Ending, rounds: nat, landed: seq<Row>, after: seq<Row>) {
    var scope := ScopeFor(target);
    var left := Left(start, address, scope);
    && (end.Summary? <==> SpellablePrefix(left) == |left| <= 50000)
    && (end.TooMany? <==> |left| > 50000 && SpellablePrefix(left) >= 50000)
    && PartlyRedacted(c, address, scope, start, landed)
    && if end.Summary? then
         && end.out.Finished? && rounds == (if left == [] then 1 else (|left| + 999) / 1000)
         && Left(landed, address, scope) == [] && after == Ended(DeleteOwn(landed, address, scope), target)
         && end.out.deleted == CountMine(start, address, scope, IsDeletable)
         && end.out.kept == KeptCount(start, address, scope)
       else
         && rounds == Min(50, SpellablePrefix(left) / 1000) && after == landed
         && 1000 * rounds <= |left| && Left(landed, address, scope) == left[1000 * rounds..]
  }

  method RunErase(store: Store, client: Client, target: Target, draws: nat -> Draw)
    returns (end: Ending, rounds: nat, ghost landed: seq<Row>)
    requires store.Valid() && Ready(store.c, store.served, client, target) && Timely(draws, store.nonces)
    modifies store
    ensures store.Valid()
    ensures RunResult(store.c, client.address, target, old(store.rows), end, rounds, landed, store.rows)
  {
    rounds, landed, end := 0, store.rows, TooMany;
    ghost var scope, address, start := ScopeFor(target), client.address, store.rows;
    NothingReached(store.c, address, scope, start);
    while rounds < MAX_REDACTION_ROUNDS
      invariant rounds <= MAX_REDACTION_ROUNDS && store.Valid()
      invariant forall i :: i >= rounds ==> draws(i).nonce !in store.nonces
      invariant Reached(store.c, address, scope, start, 1000 * rounds, store.rows)
      invariant rounds > 0 ==> 1000 * rounds < |Left(start, address, scope)|
    {
      var out, read;
      out, read, landed := EraseRound(store, client, target, draws(rounds), start, 1000 * rounds);
      if Stops(out, read) {
        Concludes(store.c, address, target, start, rounds, out, read, landed, store.rows);
        return EndingOf(out, read), if Lands(out) then rounds + 1 else rounds, landed;
      }
      GoesOn(store.c, address, target, start, rounds, out, read, landed, store.rows);
      rounds := rounds + 1;
    }
    landed := store.rows;
    GivesUp(store.c, address, target, start, landed);
  }

  lemma NothingReached(c: Crypto, address: string, scope: Scope, start: seq<Row>)
    ensures Reached(c, address, scope, start, 0, start)
  {
  }

  lemma GoesOn(c: Crypto, address: string, target: Target, start: seq<Row>, rounds: nat,
                  out: Option<Outcome>, read: nat, landed: seq<Row>, after: seq<Row>)
    requires RoundResult(c, address, target, start, 1000 * rounds, out, read, landed, after) && !Stops(out, read)
    ensures Reached(c, address, ScopeFor(target), start, 1000 * (rounds + 1), after)
    ensures 1000 * (rounds + 1) < |Left(start, address, ScopeFor(target))|
  {
    assert 1000 * rounds + read == 1000 * (rounds + 1);
  }

  lemma Concludes(c: Crypto, address: string, target: Target, start: seq<Row>, rounds: nat,
                  out: Option<Outcome>, read: nat, landed: seq<Row>, after: seq<Row>)
    requires RoundResult(c, address, target, start, 1000 * rounds, out, read, landed, after) && Stops(out, read)
    requires rounds < 50 && (rounds > 0 ==> 1000 * rounds < |Left(start, address, ScopeFor(target))|)
    ensures RunResult(c, address, target, start, EndingOf(out, read), if Lands(out) then rounds + 1 else rounds, landed, after)
  {
    if Lands(out) {
      Done(c, address, target, start, rounds, out.value, read, landed, after);
    } else {
      Refuses(c, address, target, start, rounds, out, read, landed, after);
    }
  }

  lemma Done(c: Crypto, address: string, target: Target, start: seq<Row>, rounds: nat,
             reply: Outcome, read: nat, landed: seq<Row>, after: seq<Row>)
    requires RoundResult(c, address, target, start, 1000 * rounds, Some(reply), read, landed, after)
    requires !reply.Denied? && (reply.Finished? || read == 0)
    requires rounds < 50 && (rounds > 0 ==> 1000 * rounds < |Left(start, address, ScopeFor(target))|)
    ensures reply.Finished? && RunResult(c, address, target, start, Summary(reply), rounds + 1, landed, after)
  {
  }

  lemma Refuses(c: Crypto, address: string, target: Target, start: seq<Row>, rounds: nat,
                out: Option<Outcome>, read: nat, landed: seq<Row>, after: seq<Row>)
    requires RoundResult(c, address, target, start, 1000 * rounds, out, read, landed, after) && !Lands(out) && rounds < 50
    ensures RunResult(c, address, target, start, EndingOf(out, read), rounds, landed, after)
  {
  }

  lemma GivesUp(c: Crypto, address: string, target: Target, start: seq<Row>, rows: seq<Row>)
    requires Reached(c, address, ScopeFor(target), start, 50000, rows)
    requires 50000 < |Left(start, address, ScopeFor(target))|
    ensures RunResult(c, address, target, start, TooMany, 50, rows, rows)
  {
  }
}
