/**
Stored messages as the erase and the retention purge see them. The two tables
are one sequence of rows tagged with their kind, each kind in id order; a stored
content is what `json.loads` makes of it.
*/
module Messages {
  import opened Text
  import opened CanonicalJson
  import opened SignedBodies
  import opened Lists

  datatype Kind = Dm | Group

  // The fields the server reads out of a payload; a missing one reads as Null.
  datatype Payload = Payload(v: Json, sid: Json, ts: Json, seqNo: Json, keys: Json, ct: Json, gid: Json, sig: Json)

  // Unreadable: not JSON, or JSON that is not an object.
  datatype Content = Unreadable(raw: string) | Readable(p: Payload)

  // `target` is the recipient of a direct message or the channel of a group message.
  datatype Row = Row(kind: Kind, id: nat, sender: string, target: Option<string>, createdAt: int, content: Content)

  // What the server verifies with: the identity key an address names, and the
  // composite signature check over (key, message, signature).
  datatype Crypto = Crypto(
    sha: string -> string,
    keyOf: string -> string,
    verify: (string, string, string) -> bool)

  predicate Truthy(v: Json) {
    match v
    case Null => false
    case Bool(b) => b
    case Num(n) => n != 0
    case Real(isZero, _) => !isZero
    case Str(s) => s != ""
    case Arr(items) => items.Item?
    case Obj(ms) => ms.Member?
  }

  // The values Python takes for false.
  lemma FalsyExactly(v: Json)
    ensures !Truthy(v) <==>
      || v in {Null, Bool(false), Num(0), Str(""), Arr(NoItems), Obj(NoMembers)}
      || (v.Real? && v.isZero)
  {
  }

  // ---- The four fates of one's own message in an erase ----

  // `_envelope_carriers`: a wrapped session key and its ciphertext, both present.
  predicate IsCarrier(r: Row) { r.content.Readable? && Truthy(r.content.p.keys) && !r.content.p.ct.Null? }

  // `_is_signable`
  predicate IsSignable(p: Payload) {
    && p.sid.Str? && IsSignedIdentifier(p.sid.s)
    && p.ts.Num? && p.ts.n >= 0
    && p.seqNo.Num? && p.seqNo.n >= 0
    && EnvelopeShape(p.keys)
  }

  predicate IsRedactable(r: Row) { IsCarrier(r) && IsSignable(r.content.p) }

  predicate IsKept(r: Row) { r.content.Unreadable? || (IsCarrier(r) && !IsSignable(r.content.p)) }

  predicate IsDeletable(r: Row) { r.content.Readable? && !Truthy(r.content.p.keys) }

  predicate IsRedacted(r: Row) { r.content.Readable? && Truthy(r.content.p.keys) && r.content.p.ct.Null? }

  predicate HoldsContent(r: Row) { r.content.Unreadable? || !r.content.p.ct.Null? }

  // Every row has exactly one of the four fates.
  lemma OneFate(r: Row)
    ensures IsDeletable(r) || IsRedactable(r) || IsKept(r) || IsRedacted(r)
    ensures !(IsDeletable(r) && (IsRedactable(r) || IsKept(r) || IsRedacted(r)))
    ensures !(IsRedactable(r) && (IsKept(r) || IsRedacted(r))) && !(IsKept(r) && IsRedacted(r))
  {
  }

  // ---- Scopes ----

  datatype Scope = Everything | Conversation(kind: Kind, key: string)

  // `_scoped`: the SQL filter, where NULL equals nothing.
  predicate Scoped(scope: Scope, r: Row) {
    match scope
    case Everything => true
    case Conversation(kind, key) => r.kind == kind && r.target == Some(key)
  }

  // `_in_scope`: the same question asked of one loaded row.
  predicate InScope(scope: Scope, r: Row) {
    match scope
    case Everything => true
    case Conversation(kind, key) => r.kind == kind && r.target.GetOr("") == key
  }

  // The conversation a route names: `_scope`. None is its 400.
  function ScopeOf(kind: Kind, conversation: string): Option<Scope> {
    match kind
    case Dm =>
      if IsValidAddress(Lower(conversation)) then Some(Conversation(Dm, Lower(conversation))) else None
    case Group =>
      if IsSignedIdentifier(conversation) then Some(Conversation(Group, conversation)) else None
  }

  // The two spellings agree on every row exactly when the scope names a
  // conversation at all, and a scope that comes from a route always does.
  lemma ScopesAgree(scope: Scope)
    ensures (forall r :: Scoped(scope, r) == InScope(scope, r)) <==> (scope == Everything || scope.key != "")
  {
    if scope != Everything && scope.key == "" {
      var r := Row(scope.kind, 0, "", None, 0, Unreadable(""));
      assert Scoped(scope, r) != InScope(scope, r);
    }
  }

  lemma RouteScopesAgree(kind: Kind, conversation: string, r: Row)
    requires ScopeOf(kind, conversation).Some?
    ensures Scoped(ScopeOf(kind, conversation).value, r) == InScope(ScopeOf(kind, conversation).value, r)
  {
    ScopesAgree(ScopeOf(kind, conversation).value);
  }

  // ---- Names of rows ----

  datatype RowId = RowId(kind: Kind, id: nat)

  function IdOf(r: Row): RowId { RowId(r.kind, r.id) }

  function KindText(kind: Kind): string { if kind.Dm? then "dm" else "group" }

  // `redaction_key`
  function RedactionKey(id: RowId): string { KindText(id.kind) + ":" + NatText(id.id) }

  // The row a submitted key names, if it is spelled like one: partition at the
  // first colon, then `isdigit` and `int`.
  function ParseKey(key: string): Option<RowId> {
    var i := IndexOf(key, ':');
    if i == |key| then None
    else
      var raw := key[i + 1..];
      if raw == "" || !(forall j :: 0 <= j < |raw| ==> IsDigit(raw[j])) then None
      else if key[..i] == "dm" then Some(RowId(Dm, NatValue(raw)))
      else if key[..i] == "group" then Some(RowId(Group, NatValue(raw)))
      else None
  }

  lemma IndexOfColon(head: string, tail: string)
    requires ':' !in head
    ensures IndexOf(head + ":" + tail, ':') == |head|
  {
    var s := head + ":" + tail;
    assert s[|head|] == ':';
  }

  // The keys that name a row: the word of its table, a colon, and any spelling of its id.
  predicate SpellsRow(key: string, id: RowId, digits: string) {
    && digits != "" && (forall j :: 0 <= j < |digits| ==> IsDigit(digits[j])) && NatValue(digits) == id.id
    && key == (if id.kind == Dm then "dm:" else "group:") + digits
  }

  lemma SpelledParses(key: string, id: RowId, digits: string)
    requires SpellsRow(key, id, digits)
    ensures ParseKey(key) == Some(id)
  {
    var word := if id.kind == Dm then "dm" else "group";
    assert (if id.kind == Dm then "dm:" else "group:") == word + ":";
    IndexOfColon(word, digits);
    assert key == word + ":" + digits;
    assert key[..|word|] == word && key[|word| + 1..] == digits;
  }

  lemma ParsedSpells(key: string, id: RowId)
    requires ParseKey(key) == Some(id)
    ensures SpellsRow(key, id, key[IndexOf(key, ':') + 1..])
  {
    var i := IndexOf(key, ':');
    assert key == key[..i] + ":" + key[i + 1..];
    assert "dm" + ":" == "dm:" && "group" + ":" == "group:";
  }

  lemma ParseKeyExactly(key: string, id: RowId)
    ensures ParseKey(key) == Some(id) <==> exists digits :: SpellsRow(key, id, digits)
  {
    if ParseKey(key) == Some(id) { ParsedSpells(key, id); }
    forall digits | SpellsRow(key, id, digits) ensures ParseKey(key) == Some(id) {
      SpelledParses(key, id, digits);
    }
  }

  lemma KeyNamesItsRow(id: RowId)
    ensures ParseKey(RedactionKey(id)) == Some(id)
  {
    var head, tail := KindText(id.kind), NatText(id.id);
    IndexOfColon(head, tail);
    NatTextValue(id.id);
    var key := RedactionKey(id);
    assert key[..|head|] == head && key[|head| + 1..] == tail;
  }

  // ---- The tables ----

  // Each kind is stored in id order, so an id names one row.
  predicate Ordered(rows: seq<Row>) {
    forall i, j :: 0 <= i < j < |rows| && rows[i].kind == rows[j].kind ==> rows[i].id < rows[j].id
  }

  predicate Holds(rows: seq<Row>, id: RowId) { exists r :: r in rows && IdOf(r) == id }

  lemma OneRowPerId(rows: seq<Row>, r: Row, r': Row)
    requires Ordered(rows) && r in rows && r' in rows && IdOf(r) == IdOf(r')
    ensures r == r'
  {
    var i :| 0 <= i < |rows| && rows[i] == r;
    var j :| 0 <= j < |rows| && rows[j] == r';
  }

  lemma {:induction false} FilterOrdered(p: Row -> bool, rows: seq<Row>)
    requires Ordered(rows)
    ensures Ordered(Filter(p, rows))
  {
    if rows != [] {
      FilterOrdered(p, rows[1..]);
      var tail := Filter(p, rows[1..]);
      forall j | 0 <= j < |tail| && tail[j].kind == rows[0].kind ensures rows[0].id < tail[j].id {
        assert tail[j] in rows[1..];
      }
    }
  }

  function Own(kind: Kind, address: string, scope: Scope): Row -> bool {
    (r: Row) => r.kind == kind && r.sender == address && Scoped(scope, r)
  }

  function Mine(address: string, scope: Scope): Row -> bool {
    (r: Row) => r.sender == address && Scoped(scope, r)
  }

  // The order every walk takes: direct messages, then group messages, each by id.
  function Walk(rows: seq<Row>, address: string, scope: Scope): (w: seq<Row>)
    ensures forall r :: r in w <==> r in rows && Mine(address, scope)(r)
  {
    Filter(Own(Dm, address, scope), rows) + Filter(Own(Group, address, scope), rows)
  }
}
