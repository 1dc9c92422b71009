/**
The storage quota as concurrent transactions. Each one locks its owner's row, reads
its counts in separate statements, checks, writes and commits; deletes take no
lock and may commit between any two of those statements. An edit loads its secret
before it takes the lock, counts its growth from that, and writes the columns that
differ from it.
*/
module Quota {
  import opened Text
  import opened Lists
  import Base64

  const MAX_TOTAL_FILE_SIZE: nat := 50 * 1024 * 1024

  datatype Limits = Limits(maxSecrets: nat, maxChars: nat)

  // The two columns of a secret the quota counts.
  datatype Columns = Columns(name: string, data: string)

  function Length(c: Columns): nat { |c.name| + |c.data| }

  datatype Secret = Secret(id: nat, owner: string, columns: Columns)

  datatype Chunk = Chunk(secret: nat, index: int, data: string)

  // ---- What is committed, and what the counting statements read ----

  datatype Store = Store(secrets: seq<Secret>, chunks: seq<Chunk>)

  function OwnedBy(owner: string): Secret -> bool { (s: Secret) => s.owner == owner }

  function CountOf(secrets: seq<Secret>, owner: string): nat { |Filter(OwnedBy(owner), secrets)| }

  function SumInline(secrets: seq<Secret>, owner: string): nat {
    if secrets == [] then 0
    else (if secrets[0].owner == owner then Length(secrets[0].columns) else 0) + SumInline(secrets[1..], owner)
  }

  function IdsOf(secrets: seq<Secret>, owner: string): set<nat> {
    set s | s in secrets && s.owner == owner :: s.id
  }

  // The characters of the chunks of some secrets.
  function SumChunks(chunks: seq<Chunk>, ids: set<nat>): nat {
    if chunks == [] then 0
    else (if chunks[0].secret in ids then |chunks[0].data| else 0) + SumChunks(chunks[1..], ids)
  }

  // `stored_chars`
  function Stored(db: Store, owner: string): nat {
    SumInline(db.secrets, owner) + SumChunks(db.chunks, IdsOf(db.secrets, owner))
  }

  function FileChars(db: Store, secret: nat): nat { SumChunks(db.chunks, {secret}) }

  // ---- Transactions ----

  // `seen` is what the secret held when the edit loaded it.
  datatype Work =
    | NewSecret(columns: Columns)
    | NewChunk(secret: nat, index: int, data: string)
    | Edit(secret: nat, columns: Columns, seen: Columns)

  // The characters a transaction asks room for.
  function Chars(work: Work): nat {
    match work
    case NewSecret(columns) => Length(columns)
    case NewChunk(_, _, data) => |data|
    case Edit(_, columns, seen) => if Length(columns) > Length(seen) then Length(columns) - Length(seen) else 0
  }

  // How far a transaction that holds its owner's lock has read.
  datatype Phase = Locked | Counted | InlineRead(inline: nat) | Checked | FileChecked

  datatype Tx = Tx(work: Work, phase: Phase)

  // A secret an edit has loaded, and what it held then.
  datatype Load = Load(owner: string, id: nat, seen: Columns)

  // `active` maps the owners whose row is locked to the transaction locking it;
  // secret ids are drawn from `next`.
  datatype World = World(db: Store, active: map<string, Tx>, loads: set<Load>, next: nat)

  datatype Event =
    | Begin(owner: string, work: Work)
    | ReadCount(owner: string)
    | ReadInline(owner: string)
    | ReadChunks(owner: string)
    | ReadFile(owner: string)
    | Commit(owner: string)
    | Abort(owner: string)
    | DeleteSecrets(gone: set<nat>)
    | LoadSecret(owner: string, id: nat)

  // What each transaction has checked when it writes; an edit that adds nothing
  // checks nothing.
  predicate Ready(tx: Tx) {
    match tx.work
    case NewSecret(_) => tx.phase.Checked?
    case NewChunk(_, _, _) => tx.phase.FileChecked?
    case Edit(_, _, _) => if Chars(tx.work) > 0 then tx.phase.Checked? else tx.phase.Locked?
  }

  // The lock admits one transaction per owner, an upload or a load names a secret of
  // its owner's, an edit one it loaded, and each statement follows the one before it.
  predicate Enabled(w: World, e: Event) {
    match e
    case Begin(owner, work) =>
      && owner !in w.active
      && (work.NewChunk? ==> work.secret in IdsOf(w.db.secrets, owner) && Base64.IsB64(work.data))
      && (work.Edit? ==> Load(owner, work.secret, work.seen) in w.loads)
    case ReadCount(owner) => owner in w.active && w.active[owner].phase.Locked? && w.active[owner].work.NewSecret?
    case ReadInline(owner) =>
      && owner in w.active
      && var tx := w.active[owner];
         tx.phase.Counted? || (tx.phase.Locked? && (tx.work.NewChunk? || (tx.work.Edit? && Chars(tx.work) > 0)))
    case ReadChunks(owner) => owner in w.active && w.active[owner].phase.InlineRead?
    case ReadFile(owner) => owner in w.active && w.active[owner].phase.Checked? && w.active[owner].work.NewChunk?
    case Commit(owner) => owner in w.active && Ready(w.active[owner])
    case Abort(owner) => owner in w.active
    case DeleteSecrets(_) => true
    case LoadSecret(owner, id) => id in IdsOf(w.db.secrets, owner)
  }

  function Advance(w: World, owner: string, phase: Phase): World
    requires owner in w.active
  {
    w.(active := w.active[owner := w.active[owner].(phase := phase)])
  }

  function GiveUp(w: World, owner: string): World { w.(active := w.active - {owner}) }

  function Kept(gone: set<nat>): Secret -> bool { (s: Secret) => s.id !in gone }

  function KeptChunk(gone: set<nat>): Chunk -> bool { (c: Chunk) => c.secret !in gone }

  // A delete takes a secret's chunks with it.
  function Deleted(db: Store, gone: set<nat>): Store {
    Store(Filter(Kept(gone), db.secrets), Filter(KeptChunk(gone), db.chunks))
  }

  // What an edit leaves in a row: a column sent back as it was loaded is no change
  // to the session, and no part of its UPDATE.
  function Merged(work: Work, stored: Columns): Columns
    requires work.Edit?
  {
    Columns(
      if work.columns.name != work.seen.name then work.columns.name else stored.name,
      if work.columns.data != work.seen.data then work.columns.data else stored.data)
  }

  function Rewrite(work: Work): Secret -> Secret
    requires work.Edit?
  {
    (s: Secret) => if s.id == work.secret then s.(columns := Merged(work, s.columns)) else s
  }

  // The row is written, unless the secret is gone or the index is taken.
  function Written(db: Store, owner: string, work: Work, id: nat): Store {
    match work
    case NewSecret(columns) => db.(secrets := db.secrets + [Secret(id, owner, columns)])
    case NewChunk(secret, index, data) =>
      if (exists s :: s in db.secrets && s.id == secret) && !(exists c :: c in db.chunks && c.secret == secret && c.index == index)
      then db.(chunks := db.chunks + [Chunk(secret, index, data)])
      else db
    case Edit(_, _, _) => db.(secrets := Map(Rewrite(work), db.secrets))
  }

  function ColumnsAt(secrets: seq<Secret>, id: nat): Columns {
    if secrets == [] then Columns("", "")
    else if secrets[0].id == id then secrets[0].columns else ColumnsAt(secrets[1..], id)
  }

  function Step(limits: Limits, w: World, e: Event): World
    requires Enabled(w, e)
  {
    match e
    case Begin(owner, work) => w.(active := w.active[owner := Tx(work, Locked)])
    case ReadCount(owner) =>
      if CountOf(w.db.secrets, owner) + 1 > limits.maxSecrets then GiveUp(w, owner) else Advance(w, owner, Counted)
    case ReadInline(owner) => Advance(w, owner, InlineRead(SumInline(w.db.secrets, owner)))
    case ReadChunks(owner) =>
      var tx := w.active[owner];
      if tx.phase.inline + SumChunks(w.db.chunks, IdsOf(w.db.secrets, owner)) + Chars(tx.work) > limits.maxChars
      then GiveUp(w, owner) else Advance(w, owner, Checked)
    case ReadFile(owner) =>
      var work := w.active[owner].work;
      if 3 * FileChars(w.db, work.secret) + 3 * |work.data| > 4 * MAX_TOTAL_FILE_SIZE
      then GiveUp(w, owner) else Advance(w, owner, FileChecked)
    case Commit(owner) =>
      GiveUp(w.(db := Written(w.db, owner, w.active[owner].work, w.next), next := w.next + 1), owner)
    case Abort(owner) => GiveUp(w, owner)
    case DeleteSecrets(gone) =>
      w.(db := Deleted(w.db, gone))
    case LoadSecret(owner, id) => w.(loads := w.loads + {Load(owner, id, ColumnsAt(w.db.secrets, id))})
  }

  // ---- The invariant ----

  predicate Distinct(secrets: seq<Secret>) { forall i, j :: 0 <= i < j < |secrets| ==> secrets[i].id != secrets[j].id }

  // The characters are bounded while edits are timely; see below.
  predicate WithinLimits(limits: Limits, db: Store, owner: string, timely: bool) {
    CountOf(db.secrets, owner) <= limits.maxSecrets && (timely ==> Stored(db, owner) <= limits.maxChars)
  }

  // The length, in a row that holds c, of the columns an edit writes.
  function Rewritten(work: Work, c: Columns): nat
    requires work.Edit?
  {
    (if work.columns.name != work.seen.name then |c.name| else 0)
    + (if work.columns.data != work.seen.data then |c.data| else 0)
  }

  // The columns the edit writes are together no shorter than when it loaded them.
  predicate NoShorter(db: Store, work: Work)
    requires work.Edit?
  {
    forall s :: s in db.secrets && s.id == work.secret ==> Rewritten(work, work.seen) <= Rewritten(work, s.columns)
  }

  predicate FileWithin(db: Store, secret: nat) { 3 * FileChars(db, secret) <= 4 * MAX_TOTAL_FILE_SIZE }

  // What a transaction has read still bounds what is committed: under its lock the
  // owner's rows can only go.
  predicate ReadsHold(limits: Limits, db: Store, next: nat, owner: string, tx: Tx, timely: bool) {
    && (tx.work.NewSecret? && !tx.phase.Locked? ==> CountOf(db.secrets, owner) + 1 <= limits.maxSecrets)
    && (tx.phase.InlineRead? ==> SumInline(db.secrets, owner) <= tx.phase.inline)
    && (tx.phase.Checked? || tx.phase.FileChecked? ==> Stored(db, owner) + Chars(tx.work) <= limits.maxChars)
    && (tx.phase.FileChecked? ==> tx.work.NewChunk? && 3 * FileChars(db, tx.work.secret) + 3 * |tx.work.data| <= 4 * MAX_TOTAL_FILE_SIZE)
    && (tx.work.NewChunk? ==> Base64.IsB64(tx.work.data))
    && (!tx.work.NewSecret? ==>
          && tx.work.secret < next
          && forall s :: s in db.secrets && s.id == tx.work.secret ==> s.owner == owner)
    && (tx.work.Edit? && timely ==> NoShorter(db, tx.work))
  }

  predicate Formed(db: Store, next: nat) {
    && Distinct(db.secrets) && (forall s :: s in db.secrets ==> s.id < next)
    && (forall c :: c in db.chunks ==> c.secret < next && Base64.IsB64(c.data))
  }

  predicate LoadsOwned(db: Store, next: nat, loads: set<Load>) {
    forall l :: l in loads ==> l.id < next && forall s :: s in db.secrets && s.id == l.id ==> s.owner == l.owner
  }

  ghost predicate Inv(limits: Limits, w: World, timely: bool) {
    && Formed(w.db, w.next) && LoadsOwned(w.db, w.next, w.loads)
    && (forall owner :: WithinLimits(limits, w.db, owner, timely))
    && (forall secret :: FileWithin(w.db, secret))
    && (forall owner :: owner in w.active ==> ReadsHold(limits, w.db, w.next, owner, w.active[owner], timely))
  }

  // ---- Sums ----

  lemma {:induction false} InlineAppend(a: seq<Secret>, b: seq<Secret>, owner: string)
    ensures SumInline(a + b, owner) == SumInline(a, owner) + SumInline(b, owner)
  {
    if a == [] {
      assert a + b == b;
    } else {
      assert (a + b)[1..] == a[1..] + b;
      InlineAppend(a[1..], b, owner);
    }
  }

  lemma {:induction false} InlineShrinks(p: Secret -> bool, secrets: seq<Secret>, owner: string)
    ensures SumInline(Filter(p, secrets), owner) <= SumInline(secrets, owner)
    ensures CountOf(Filter(p, secrets), owner) <= CountOf(secrets, owner)
  {
    if secrets != [] {
      var head, rest := if p(secrets[0]) then [secrets[0]] else [], Filter(p, secrets[1..]);
      InlineShrinks(p, secrets[1..], owner);
      InlineAppend(head, rest, owner);
      FilterAppend(OwnedBy(owner), head, rest);
    }
  }

  lemma {:induction false} ChunksAppend(a: seq<Chunk>, b: seq<Chunk>, ids: set<nat>)
    ensures SumChunks(a + b, ids) == SumChunks(a, ids) + SumChunks(b, ids)
  {
    if a == [] {
      assert a + b == b;
    } else {
      assert (a + b)[1..] == a[1..] + b;
      ChunksAppend(a[1..], b, ids);
    }
  }

  lemma {:induction false} ChunksShrink(p: Chunk -> bool, chunks: seq<Chunk>, ids: set<nat>, fewer: set<nat>)
    requires fewer <= ids
    ensures SumChunks(Filter(p, chunks), fewer) <= SumChunks(chunks, ids)
  {
    if chunks != [] {
      var head, rest := if p(chunks[0]) then [chunks[0]] else [], Filter(p, chunks[1..]);
      ChunksShrink(p, chunks[1..], ids, fewer);
      ChunksAppend(head, rest, fewer);
    }
  }

  // Sets of secrets that agree on the chunks there are weigh the same.
  lemma {:induction false} ChunksAgree(chunks: seq<Chunk>, ids: set<nat>, others: set<nat>)
    requires forall c :: c in chunks ==> (c.secret in ids <==> c.secret in others)
    ensures SumChunks(chunks, ids) == SumChunks(chunks, others)
  {
    if chunks != [] {
      assert chunks[0] in chunks;
      ChunksAgree(chunks[1..], ids, others);
    }
  }

  // ---- Deleting ----

  lemma DeleteShrinks(db: Store, gone: set<nat>, owner: string, secret: nat)
    ensures var less := Deleted(db, gone);
      && CountOf(less.secrets, owner) <= CountOf(db.secrets, owner)
      && SumInline(less.secrets, owner) <= SumInline(db.secrets, owner)
      && Stored(less, owner) <= Stored(db, owner) && FileChars(less, secret) <= FileChars(db, secret)
  {
    InlineShrinks(Kept(gone), db.secrets, owner);
    ChunksShrink(KeptChunk(gone), db.chunks, IdsOf(db.secrets, owner), IdsOf(Filter(Kept(gone), db.secrets), owner));
    ChunksShrink(KeptChunk(gone), db.chunks, {secret}, {secret});
  }

  lemma {:induction false} FilterDistinct(p: Secret -> bool, secrets: seq<Secret>)
    requires Distinct(secrets)
    ensures Distinct(Filter(p, secrets))
  {
    if secrets != [] {
      FilterDistinct(p, secrets[1..]);
      var tail := Filter(p, secrets[1..]);
      forall j | 0 <= j < |tail| ensures tail[j].id != secrets[0].id {
        assert tail[j] in secrets[1..];
      }
    }
  }

  lemma DeleteKeepsReads(limits: Limits, timely: bool, db: Store, next: nat, gone: set<nat>, owner: string, tx: Tx)
    requires ReadsHold(limits, db, next, owner, tx, timely)
    ensures ReadsHold(limits, Deleted(db, gone), next, owner, tx, timely)
  {
    DeleteShrinks(db, gone, owner, if tx.work.NewChunk? then tx.work.secret else 0);
  }

  lemma DeleteStep(limits: Limits, timely: bool, w: World, gone: set<nat>)
    requires Inv(limits, w, timely)
    ensures Inv(limits, w.(db := Deleted(w.db, gone)), timely)
  {
    var db' := Deleted(w.db, gone);
    FilterDistinct(Kept(gone), w.db.secrets);
    forall owner ensures WithinLimits(limits, db', owner, timely) {
      assert WithinLimits(limits, w.db, owner, timely);
      DeleteShrinks(w.db, gone, owner, 0);
    }
    forall secret ensures FileWithin(db', secret) {
      assert FileWithin(w.db, secret);
      DeleteShrinks(w.db, gone, "", secret);
    }
    forall owner | owner in w.active ensures ReadsHold(limits, db', w.next, owner, w.active[owner], timely) {
      DeleteKeepsReads(limits, timely, w.db, w.next, gone, owner, w.active[owner]);
    }
  }

  // ---- Committing ----

  // A new secret weighs its own characters on its owner and nothing on others.
  lemma SecretWeighs(db: Store, owner: string, id: nat, columns: Columns, other: string)
    requires forall c :: c in db.chunks ==> c.secret != id
    ensures var more := Written(db, owner, NewSecret(columns), id);
      && CountOf(more.secrets, other) == CountOf(db.secrets, other) + (if other == owner then 1 else 0)
      && SumInline(more.secrets, other) == SumInline(db.secrets, other) + (if other == owner then Length(columns) else 0)
      && Stored(more, other) == Stored(db, other) + (if other == owner then Length(columns) else 0)
  {
    var s := Secret(id, owner, columns);
    FilterAppend(OwnedBy(other), db.secrets, [s]);
    InlineAppend(db.secrets, [s], other);
    ChunksAgree(db.chunks, IdsOf(db.secrets + [s], other), IdsOf(db.secrets, other));
  }

  // A new chunk weighs on the owner of its secret and on that file.
  lemma ChunkWeighs(db: Store, owner: string, work: Work, other: string, secret: nat)
    requires work.NewChunk? && (forall s :: s in db.secrets && s.id == work.secret ==> s.owner == owner)
    ensures var more := Written(db, owner, work, 0);
      && more.secrets == db.secrets
      && Stored(more, other) <= Stored(db, other) + (if other == owner then |work.data| else 0)
      && FileChars(more, secret) <= FileChars(db, secret) + (if secret == work.secret then |work.data| else 0)
  {
    var c := Chunk(work.secret, work.index, work.data);
    ChunksAppend(db.chunks, [c], IdsOf(db.secrets, other));
    ChunksAppend(db.chunks, [c], {secret});
  }

  lemma SecretKeepsReads(limits: Limits, timely: bool, db: Store, owner: string, id: nat, columns: Columns, other: string, tx: Tx)
    requires ReadsHold(limits, db, id, other, tx, timely) && other != owner && Formed(db, id)
    ensures ReadsHold(limits, Written(db, owner, NewSecret(columns), id), id + 1, other, tx, timely)
  {
    SecretWeighs(db, owner, id, columns, other);
  }

  lemma SecretCommits(limits: Limits, timely: bool, w: World, owner: string)
    requires Inv(limits, w, timely) && Enabled(w, Commit(owner)) && w.active[owner].work.NewSecret?
    ensures Inv(limits, Step(limits, w, Commit(owner)), timely)
  {
    var columns := w.active[owner].work.columns;
    var db' := Written(w.db, owner, NewSecret(columns), w.next);
    assert ReadsHold(limits, w.db, w.next, owner, w.active[owner], timely);
    forall other ensures WithinLimits(limits, db', other, timely) {
      assert WithinLimits(limits, w.db, other, timely);
      SecretWeighs(w.db, owner, w.next, columns, other);
    }
    forall secret ensures FileWithin(db', secret) {
      assert FileWithin(w.db, secret);
    }
    forall other | other in w.active && other != owner ensures ReadsHold(limits, db', w.next + 1, other, w.active[other], timely) {
      SecretKeepsReads(limits, timely, w.db, owner, w.next, columns, other, w.active[other]);
    }
  }

  lemma ChunkKeepsReads(limits: Limits, timely: bool, db: Store, next: nat, owner: string, work: Work, other: string, tx: Tx)
    requires work.NewChunk? && (forall s :: s in db.secrets && s.id == work.secret ==> s.owner == owner)
    requires ReadsHold(limits, db, next, other, tx, timely) && other != owner
    ensures ReadsHold(limits, Written(db, owner, work, next), next + 1, other, tx, timely)
  {
    ChunkWeighs(db, owner, work, other, if tx.work.NewChunk? then tx.work.secret else 0);
  }

  lemma ChunkWithin(limits: Limits, timely: bool, db: Store, next: nat, owner: string, tx: Tx, other: string, secret: nat)
    requires ReadsHold(limits, db, next, owner, tx, timely) && tx.work.NewChunk? && tx.phase.FileChecked?
    requires WithinLimits(limits, db, other, timely) && FileWithin(db, secret)
    ensures WithinLimits(limits, Written(db, owner, tx.work, next), other, timely) && FileWithin(Written(db, owner, tx.work, next), secret)
  {
    ChunkWeighs(db, owner, tx.work, other, secret);
  }

  lemma ChunkForm(db: Store, next: nat, loads: set<Load>, owner: string, work: Work)
    requires Formed(db, next) && LoadsOwned(db, next, loads)
    requires work.NewChunk? && work.secret < next && Base64.IsB64(work.data)
    ensures Formed(Written(db, owner, work, next), next + 1) && LoadsOwned(Written(db, owner, work, next), next + 1, loads)
  {
  }

  lemma ChunkCommits(limits: Limits, timely: bool, w: World, owner: string)
    requires Inv(limits, w, timely) && Enabled(w, Commit(owner)) && w.active[owner].work.NewChunk?
    ensures Inv(limits, Step(limits, w, Commit(owner)), timely)
  {
    var work := w.active[owner].work;
    var db' := Written(w.db, owner, work, w.next);
    assert ReadsHold(limits, w.db, w.next, owner, w.active[owner], timely);
    ChunkForm(w.db, w.next, w.loads, owner, work);
    forall other ensures WithinLimits(limits, db', other, timely) {
      assert WithinLimits(limits, w.db, other, timely) && FileWithin(w.db, 0);
      ChunkWithin(limits, timely, w.db, w.next, owner, w.active[owner], other, 0);
    }
    forall secret ensures FileWithin(db', secret) {
      assert WithinLimits(limits, w.db, owner, timely) && FileWithin(w.db, secret);
      ChunkWithin(limits, timely, w.db, w.next, owner, w.active[owner], owner, secret);
    }
    forall other | other in w.active && other != owner ensures ReadsHold(limits, db', w.next + 1, other, w.active[other], timely) {
      ChunkKeepsReads(limits, timely, w.db, w.next, owner, work, other, w.active[other]);
    }
  }

  // ---- Editing ----

  // What an edit adds to a row is what it counts, plus what the columns it writes
  // have lost since it loaded them.
  lemma MergedLength(work: Work, stored: Columns)
    requires work.Edit?
    ensures Length(Merged(work, stored)) - Length(stored)
         == Length(work.columns) - Length(work.seen) + Rewritten(work, work.seen) - Rewritten(work, stored)
  {
  }

  // The change an edit makes to the weight of its secret's owner.
  function Added(secrets: seq<Secret>, work: Work): int
    requires work.Edit?
  {
    var stored := ColumnsAt(secrets, work.secret);
    Length(Merged(work, stored)) - Length(stored)
  }

  lemma {:induction false} RewriteWeighs(secrets: seq<Secret>, work: Work, owner: string)
    requires Distinct(secrets) && work.Edit?
    ensures var after := Map(Rewrite(work), secrets);
      && CountOf(after, owner) == CountOf(secrets, owner)
      && SumInline(after, owner) == SumInline(secrets, owner)
           + (if work.secret in IdsOf(secrets, owner) then Added(secrets, work) else 0)
  {
    if secrets != [] {
      var rest := secrets[1..];
      assert Map(Rewrite(work), secrets)[1..] == Map(Rewrite(work), rest);
      RewriteWeighs(rest, work, owner);
      assert forall s :: s in secrets <==> s == secrets[0] || s in rest;
      if secrets[0].id == work.secret {
        assert forall s :: s in rest ==> s.id != work.secret;
      }
    }
  }

  lemma RewriteKeepsRows(secrets: seq<Secret>, work: Work, owner: string)
    requires work.Edit?
    ensures IdsOf(Map(Rewrite(work), secrets), owner) == IdsOf(secrets, owner)
    ensures forall s :: s in Map(Rewrite(work), secrets) ==> exists s0 :: s0 in secrets && s0.id == s.id && s0.owner == s.owner
  {
    var after := Map(Rewrite(work), secrets);
    forall i | 0 <= i < |secrets| ensures after[i] in after && secrets[i] in secrets {
    }
  }

  lemma EditWeighs(db: Store, work: Work, other: string)
    requires Distinct(db.secrets) && work.Edit?
    ensures var after := db.(secrets := Map(Rewrite(work), db.secrets));
      && CountOf(after.secrets, other) == CountOf(db.secrets, other)
      && SumInline(after.secrets, other) == SumInline(db.secrets, other)
           + (if work.secret in IdsOf(db.secrets, other) then Added(db.secrets, work) else 0)
      && Stored(after, other) == Stored(db, other)
           + (if work.secret in IdsOf(db.secrets, other) then Added(db.secrets, work) else 0)
  {
    RewriteWeighs(db.secrets, work, other);
    RewriteKeepsRows(db.secrets, work, other);
  }

  lemma {:induction false} ColumnsAtRow(secrets: seq<Secret>, s: Secret)
    requires Distinct(secrets) && s in secrets
    ensures ColumnsAt(secrets, s.id) == s.columns
  {
    if secrets[0] != s {
      assert s in secrets[1..];
      ColumnsAtRow(secrets[1..], s);
    }
  }

  // ---- When an edit's check protects the ceiling ----

  // The edit passes its check, and leaves the owner within the ceiling.
  predicate Admits(limits: Limits, db: Store, owner: string, work: Work) {
    Chars(work) > 0 ==> Stored(db, owner) + Chars(work) <= limits.maxChars
  }

  predicate Fits(limits: Limits, db: Store, owner: string, work: Work) {
    Stored(Written(db, owner, work, 0), owner) <= limits.maxChars
  }

  // An edit that writes the same columns, with whatever text and length.
  predicate SameShape(work: Work, columns: Columns)
    requires work.Edit?
  {
    && (columns.name != work.seen.name <==> work.columns.name != work.seen.name)
    && (columns.data != work.seen.data <==> work.columns.data != work.seen.data)
  }

  lemma EditLands(db: Store, owner: string, work: Work)
    requires Distinct(db.secrets) && work.Edit? && work.secret in IdsOf(db.secrets, owner)
    ensures Stored(Written(db, owner, work, 0), owner) == Stored(db, owner) + Length(work.columns) - Length(work.seen)
              + Rewritten(work, work.seen) - Rewritten(work, ColumnsAt(db.secrets, work.secret))
  {
    EditWeighs(db, work, owner);
    MergedLength(work, ColumnsAt(db.secrets, work.secret));
  }

  // A text of a given length other than s.
  function Unlike(s: string, n: nat): (r: string)
    requires n > 0 || s != ""
    ensures |r| == n && r != s
  {
    if n == 0 then ""
    else
      var r := seq(n, (i: nat) => if s != "" && s[0] == 'a' then 'b' else 'a');
      assert s != "" ==> r[0] != s[0];
      r
  }

  // Other text for the columns an edit writes, as much longer than what it loaded.
  lemma Longer(work: Work, more: nat) returns (columns: Columns)
    requires work.Edit? && Rewritten(work, work.seen) > 0
    ensures SameShape(work, columns) && Length(columns) == Length(work.seen) + more
  {
    var name, data := work.seen.name, work.seen.data;
    if work.columns.data == data {
      columns := Columns(Unlike(name, |name| + more), data);
    } else if work.columns.name == name {
      columns := Columns(name, Unlike(data, |data| + more));
    } else if name != "" && |data| + more > 0 {
      columns := Columns(Unlike(name, |name|), Unlike(data, |data| + more));
    } else if name != "" {
      columns := Columns(Unlike(name, |name| - 1), Unlike(data, 1));
    } else {
      columns := Columns(Unlike(name, 1), Unlike(data, |data| + more - 1));
    }
  }

  // An edit that takes all the room there is, and writes columns that have shrunk.
  lemma Overruns(limits: Limits, db: Store, owner: string, work: Work)
    requires Distinct(db.secrets) && work.Edit? && work.secret in IdsOf(db.secrets, owner)
    requires Stored(db, owner) + Length(work.columns) - Length(work.seen) == limits.maxChars >= Stored(db, owner)
    requires Rewritten(work, work.seen) > Rewritten(work, ColumnsAt(db.secrets, work.secret))
    ensures Admits(limits, db, owner, work) && !Fits(limits, db, owner, work)
  {
    EditLands(db, owner, work);
  }

  // Main result: which edits the check protects the ceiling from. Whatever text the
  // edit writes to its columns, passing the check keeps the owner within the ceiling
  // if and only if those columns are no shorter at the check than at the load.
  lemma EditSafeIff(limits: Limits, db: Store, owner: string, work: Work)
    requires Distinct(db.secrets) && work.Edit? && work.secret in IdsOf(db.secrets, owner)
    requires Stored(db, owner) <= limits.maxChars
    ensures (forall columns :: SameShape(work, columns) && Admits(limits, db, owner, work.(columns := columns)) ==>
              Fits(limits, db, owner, work.(columns := columns)))
       <==> NoShorter(db, work)
  {
    NoShorterAt(db, owner, work);
    forall columns | SameShape(work, columns) ensures EditLanded(db, owner, work, columns) {
      EditLands(db, owner, work.(columns := columns));
    }
    if !NoShorter(db, work) {
      var most := Longer(work, limits.maxChars - Stored(db, owner));
      Overruns(limits, db, owner, work.(columns := most));
    }
  }

  predicate EditLanded(db: Store, owner: string, work: Work, columns: Columns)
    requires work.Edit?
  {
    Stored(Written(db, owner, work.(columns := columns), 0), owner)
      == Stored(db, owner) + Length(columns) - Length(work.seen)
         + Rewritten(work, work.seen) - Rewritten(work, ColumnsAt(db.secrets, work.secret))
  }

  lemma NoShorterAt(db: Store, owner: string, work: Work)
    requires Distinct(db.secrets) && work.Edit? && work.secret in IdsOf(db.secrets, owner)
    ensures NoShorter(db, work) <==> Rewritten(work, work.seen) <= Rewritten(work, ColumnsAt(db.secrets, work.secret))
  {
    forall s | s in db.secrets && s.id == work.secret ensures ColumnsAt(db.secrets, work.secret) == s.columns {
      ColumnsAtRow(db.secrets, s);
    }
  }

  // And from every edit of what was loaded, whichever columns it writes, if and only
  // if neither column is shorter.
  lemma EveryEditSafeIff(limits: Limits, db: Store, owner: string, id: nat, seen: Columns)
    requires Distinct(db.secrets) && id in IdsOf(db.secrets, owner) && Stored(db, owner) <= limits.maxChars
    ensures (forall columns :: Admits(limits, db, owner, Edit(id, columns, seen)) ==>
              Fits(limits, db, owner, Edit(id, columns, seen)))
       <==> |seen.name| <= |ColumnsAt(db.secrets, id).name| && |seen.data| <= |ColumnsAt(db.secrets, id).data|
  {
    var stored := ColumnsAt(db.secrets, id);
    var room := limits.maxChars - Stored(db, owner);
    if |seen.name| > |stored.name| {
      Overruns(limits, db, owner, Edit(id, Columns(Unlike(seen.name, |seen.name| + room), seen.data), seen));
    } else if |seen.data| > |stored.data| {
      Overruns(limits, db, owner, Edit(id, Columns(seen.name, Unlike(seen.data, |seen.data| + room)), seen));
    } else {
      forall columns | Admits(limits, db, owner, Edit(id, columns, seen))
        ensures Fits(limits, db, owner, Edit(id, columns, seen))
      {
        EditLands(db, owner, Edit(id, columns, seen));
      }
    }
  }

  // ---- Committing an edit ----

  lemma EditKeepsReads(
    limits: Limits, timely: bool, db: Store, next: nat, owner: string, work: Work, other: string, tx: Tx)
    requires ReadsHold(limits, db, next, other, tx, timely) && Distinct(db.secrets)
    requires work.Edit? && work.secret !in IdsOf(db.secrets, other)
    ensures ReadsHold(limits, Written(db, owner, work, next), next + 1, other, tx, timely)
  {
    EditWeighs(db, work, other);
    RewriteKeepsRows(db.secrets, work, other);
    var after := Map(Rewrite(work), db.secrets);
    forall s | s in after && !tx.work.NewSecret? && s.id == tx.work.secret ensures s in db.secrets || s.id == work.secret {
      var i :| 0 <= i < |after| && after[i] == s;
      assert db.secrets[i] in db.secrets;
    }
  }

  lemma EditForm(db: Store, next: nat, work: Work)
    requires Formed(db, next) && work.Edit?
    ensures Formed(db.(secrets := Map(Rewrite(work), db.secrets)), next + 1)
  {
    forall i | 0 <= i < |db.secrets| ensures Map(Rewrite(work), db.secrets)[i].id == db.secrets[i].id {
    }
  }

  lemma EditWithin(limits: Limits, timely: bool, db: Store, next: nat, owner: string, tx: Tx, other: string)
    requires ReadsHold(limits, db, next, owner, tx, timely) && tx.work.Edit? && Ready(tx) && Distinct(db.secrets)
    requires WithinLimits(limits, db, other, timely)
    ensures WithinLimits(limits, Written(db, owner, tx.work, next), other, timely)
  {
    EditWeighs(db, tx.work, other);
    if tx.work.secret in IdsOf(db.secrets, other) {
      var s :| s in db.secrets && s.owner == other && s.id == tx.work.secret;
      ColumnsAtRow(db.secrets, s);
      MergedLength(tx.work, s.columns);
    }
  }

  lemma EditCommits(limits: Limits, timely: bool, w: World, owner: string)
    requires Inv(limits, w, timely) && Enabled(w, Commit(owner)) && w.active[owner].work.Edit?
    ensures Inv(limits, Step(limits, w, Commit(owner)), timely)
  {
    var work := w.active[owner].work;
    var db' := Written(w.db, owner, work, w.next);
    assert ReadsHold(limits, w.db, w.next, owner, w.active[owner], timely);
    EditForm(w.db, w.next, work);
    RewriteKeepsRows(w.db.secrets, work, owner);
    forall other ensures WithinLimits(limits, db', other, timely) {
      assert WithinLimits(limits, w.db, other, timely);
      EditWithin(limits, timely, w.db, w.next, owner, w.active[owner], other);
    }
    forall secret ensures FileWithin(db', secret) {
      assert FileWithin(w.db, secret);
    }
    forall other | other in w.active && other != owner ensures ReadsHold(limits, db', w.next + 1, other, w.active[other], timely) {
      EditKeepsReads(limits, timely, w.db, w.next, owner, work, other, w.active[other]);
    }
  }

  // ---- Any step, any run ----

  // An edit takes the lock while the columns it writes are no shorter than it loaded them.
  predicate Timely(w: World, e: Event) { e.Begin? && e.work.Edit? ==> NoShorter(w.db, e.work) }

  lemma TxStep(limits: Limits, timely: bool, w: World, owner: string, tx: Tx)
    requires Inv(limits, w, timely) && ReadsHold(limits, w.db, w.next, owner, tx, timely)
    ensures Inv(limits, w.(active := w.active[owner := tx]), timely)
  {
  }

  lemma LoadStep(limits: Limits, timely: bool, w: World, owner: string, id: nat)
    requires Inv(limits, w, timely) && Enabled(w, LoadSecret(owner, id))
    ensures Inv(limits, Step(limits, w, LoadSecret(owner, id)), timely)
  {
    assert forall s :: s in w.db.secrets && s.id == id ==> s.owner == owner;
  }

  lemma InvStep(limits: Limits, timely: bool, w: World, e: Event)
    requires Inv(limits, w, timely) && Enabled(w, e) && (timely ==> Timely(w, e))
    ensures Inv(limits, Step(limits, w, e), timely)
  {
    match e
    case Begin(owner, work) =>
      TxStep(limits, timely, w, owner, Tx(work, Locked));
    case ReadCount(owner) =>
      if CountOf(w.db.secrets, owner) + 1 <= limits.maxSecrets {
        TxStep(limits, timely, w, owner, w.active[owner].(phase := Counted));
      }
    case ReadInline(owner) =>
      TxStep(limits, timely, w, owner, w.active[owner].(phase := InlineRead(SumInline(w.db.secrets, owner))));
    case ReadChunks(owner) =>
      var tx := w.active[owner];
      if tx.phase.inline + SumChunks(w.db.chunks, IdsOf(w.db.secrets, owner)) + Chars(tx.work) <= limits.maxChars {
        TxStep(limits, timely, w, owner, tx.(phase := Checked));
      }
    case ReadFile(owner) =>
      var tx := w.active[owner];
      if 3 * FileChars(w.db, tx.work.secret) + 3 * |tx.work.data| <= 4 * MAX_TOTAL_FILE_SIZE {
        TxStep(limits, timely, w, owner, tx.(phase := FileChecked));
      }
    case Commit(owner) =>
      match w.active[owner].work {
        case NewSecret(_) => SecretCommits(limits, timely, w, owner);
        case NewChunk(_, _, _) => ChunkCommits(limits, timely, w, owner);
        case Edit(_, _, _) => EditCommits(limits, timely, w, owner);
      }
    case Abort(owner) =>
    case DeleteSecrets(gone) => DeleteStep(limits, timely, w, gone);
    case LoadSecret(owner, id) => LoadStep(limits, timely, w, owner, id);
  }

  predicate Legal(limits: Limits, w: World, es: seq<Event>)
    decreases |es|
  {
    es == [] || (Enabled(w, es[0]) && Legal(limits, Step(limits, w, es[0]), es[1..]))
  }

  function Run(limits: Limits, w: World, es: seq<Event>): World
    requires Legal(limits, w, es)
    decreases |es|
  {
    if es == [] then w else Run(limits, Step(limits, w, es[0]), es[1..])
  }

  predicate AllTimely(limits: Limits, w: World, es: seq<Event>)
    requires Legal(limits, w, es)
    decreases |es|
  {
    es == [] || (Timely(w, es[0]) && AllTimely(limits, Step(limits, w, es[0]), es[1..]))
  }

  lemma {:induction false} InvRun(limits: Limits, timely: bool, w: World, es: seq<Event>)
    requires Inv(limits, w, timely) && Legal(limits, w, es) && (timely ==> AllTimely(limits, w, es))
    ensures Inv(limits, Run(limits, w, es), timely)
    decreases |es|
  {
    if es != [] {
      InvStep(limits, timely, w, es[0]);
      InvRun(limits, timely, Step(limits, w, es[0]), es[1..]);
    }
  }

  // The bytes a file's chunks decode to.
  function FileBytes(chunks: seq<Chunk>, secret: nat): nat
    requires forall c :: c in chunks ==> Base64.IsB64(c.data)
  {
    if chunks == [] then 0
    else
      assert chunks[0] in chunks && Base64.IsB64(chunks[0].data);
      (if chunks[0].secret == secret then |Base64.Decode(chunks[0].data).value| else 0) + FileBytes(chunks[1..], secret)
  }

  lemma ChunkBytes(data: string)
    requires Base64.IsB64(data)
    ensures 4 * |Base64.Decode(data).value| <= 3 * |data|
  {
    Base64.AcceptedIsCanonical(data, data);
  }

  // Three quarters of the characters never undercount the bytes.
  lemma {:induction false} BytesUnderChars(chunks: seq<Chunk>, secret: nat)
    requires forall c :: c in chunks ==> Base64.IsB64(c.data)
    ensures 4 * FileBytes(chunks, secret) <= 3 * SumChunks(chunks, {secret})
  {
    if chunks != [] {
      assert chunks[0] in chunks;
      ChunkBytes(chunks[0].data);
      BytesUnderChars(chunks[1..], secret);
    }
  }

  function Initial(): World { World(Store([], []), map[], {}, 0) }

  // Main result: in any interleaving, no committed state has an owner over the
  // count, and no file decodes to more than 50 MiB; nor is an owner over the
  // characters, if no edit takes the lock after the columns it writes have shrunk.
  lemma CeilingsHold(limits: Limits, es: seq<Event>, owner: string, secret: nat)
    requires Legal(limits, Initial(), es)
    ensures var db := Run(limits, Initial(), es).db;
      && CountOf(db.secrets, owner) <= limits.maxSecrets
      && (AllTimely(limits, Initial(), es) ==> Stored(db, owner) <= limits.maxChars)
      && (forall c :: c in db.chunks ==> Base64.IsB64(c.data))
      && FileBytes(db.chunks, secret) <= MAX_TOTAL_FILE_SIZE
  {
    var timely := AllTimely(limits, Initial(), es);
    InvRun(limits, timely, Initial(), es);
    var db := Run(limits, Initial(), es).db;
    assert WithinLimits(limits, db, owner, timely) && FileWithin(db, secret);
    BytesUnderChars(db.chunks, secret);
  }

  // ---- Interleavings that break the ceiling ----

  lemma RunCons(limits: Limits, w: World, e: Event, es: seq<Event>)
    requires Enabled(w, e) && Legal(limits, Step(limits, w, e), es)
    ensures Legal(limits, w, [e] + es) && Run(limits, w, [e] + es) == Run(limits, Step(limits, w, e), es)
  {
    assert ([e] + es)[1..] == es;
  }

  lemma {:induction false} RunAppend(limits: Limits, w: World, a: seq<Event>, b: seq<Event>)
    requires Legal(limits, w, a) && Legal(limits, Run(limits, w, a), b)
    ensures Legal(limits, w, a + b) && Run(limits, w, a + b) == Run(limits, Run(limits, w, a), b)
    decreases |a|
  {
    if a == [] {
      assert a + b == b;
    } else {
      RunAppend(limits, Step(limits, w, a[0]), a[1..], b);
      RunCons(limits, w, a[0], a[1..] + b);
      assert a + b == [a[0]] + (a[1..] + b);
    }
  }

  function Creating(owner: string, columns: Columns): seq<Event> {
    [Begin(owner, NewSecret(columns)), ReadCount(owner), ReadInline(owner), ReadChunks(owner), Commit(owner)]
  }

  lemma CreateRuns(limits: Limits, w: World, owner: string, columns: Columns)
    requires owner !in w.active
    requires CountOf(w.db.secrets, owner) + 1 <= limits.maxSecrets
    requires Stored(w.db, owner) + Length(columns) <= limits.maxChars
    ensures Legal(limits, w, Creating(owner, columns))
    ensures Run(limits, w, Creating(owner, columns))
         == w.(db := Written(w.db, owner, NewSecret(columns), w.next), next := w.next + 1)
  {
    var w1 := Step(limits, w, Begin(owner, NewSecret(columns)));
    var w2 := Step(limits, w1, ReadCount(owner));
    var w3 := Step(limits, w2, ReadInline(owner));
    var w4 := Step(limits, w3, ReadChunks(owner));
    var w5 := Step(limits, w4, Commit(owner));
    RunCons(limits, w4, Commit(owner), []);
    RunCons(limits, w3, ReadChunks(owner), [Commit(owner)]);
    RunCons(limits, w2, ReadInline(owner), [ReadChunks(owner), Commit(owner)]);
    RunCons(limits, w1, ReadCount(owner), [ReadInline(owner), ReadChunks(owner), Commit(owner)]);
    RunCons(limits, w, Begin(owner, NewSecret(columns)),
            [ReadCount(owner), ReadInline(owner), ReadChunks(owner), Commit(owner)]);
    assert w5.active == w.active;
  }

  // An edit counts nothing if it adds nothing to what it loaded.
  function Editing(owner: string, work: Work): seq<Event> {
    [Begin(owner, work)] + (if Chars(work) > 0 then [ReadInline(owner), ReadChunks(owner)] else []) + [Commit(owner)]
  }

  lemma EditRuns(limits: Limits, w: World, owner: string, work: Work)
    requires owner !in w.active && work.Edit? && Load(owner, work.secret, work.seen) in w.loads
    requires Admits(limits, w.db, owner, work)
    ensures Legal(limits, w, Editing(owner, work))
    ensures Run(limits, w, Editing(owner, work)) == w.(db := Written(w.db, owner, work, w.next), next := w.next + 1)
  {
    var w1 := Step(limits, w, Begin(owner, work));
    if Chars(work) == 0 {
      var w2 := Step(limits, w1, Commit(owner));
      RunCons(limits, w1, Commit(owner), []);
      RunCons(limits, w, Begin(owner, work), [Commit(owner)]);
      assert w2.active == w.active;
    } else {
      var w2 := Step(limits, w1, ReadInline(owner));
      var w3 := Step(limits, w2, ReadChunks(owner));
      var w4 := Step(limits, w3, Commit(owner));
      RunCons(limits, w3, Commit(owner), []);
      RunCons(limits, w2, ReadChunks(owner), [Commit(owner)]);
      RunCons(limits, w1, ReadInline(owner), [ReadChunks(owner), Commit(owner)]);
      RunCons(limits, w, Begin(owner, work), [ReadInline(owner), ReadChunks(owner), Commit(owner)]);
      assert w4.active == w.active;
      assert Editing(owner, work) == [Begin(owner, work)] + [ReadInline(owner), ReadChunks(owner), Commit(owner)];
    }
  }

  // A text of n letters.
  function Letters(c: char, n: nat): (s: string)
    ensures |s| == n && forall i :: 0 <= i < n ==> s[i] == c
  {
    seq(n, (i: nat) => c)
  }

  // An owner with one secret, which an edit has loaded.
  function Loaded(columns: Columns): World {
    World(Store([Secret(0, "o", columns)], []), map[], {Load("o", 0, columns)}, 1)
  }

  function Loading(columns: Columns): seq<Event> { Creating("o", columns) + [LoadSecret("o", 0)] }

  lemma LoadRuns(limits: Limits, columns: Columns)
    requires limits.maxSecrets > 0 && Length(columns) <= limits.maxChars
    ensures Legal(limits, Initial(), Loading(columns)) && Run(limits, Initial(), Loading(columns)) == Loaded(columns)
  {
    CreateRuns(limits, Initial(), "o", columns);
    var w1 := World(Store([Secret(0, "o", columns)], []), map[], {}, 1);
    assert Run(limits, Initial(), Creating("o", columns)) == w1;
    assert w1.db.secrets[0] in w1.db.secrets && Enabled(w1, LoadSecret("o", 0));
    assert Step(limits, w1, LoadSecret("o", 0)) == Loaded(columns);
    RunCons(limits, w1, LoadSecret("o", 0), []);
    RunAppend(limits, Initial(), Creating("o", columns), [LoadSecret("o", 0)]);
  }

  // Two edits load a secret of 10 characters. One empties it, a second secret takes
  // the room, and the other edit, counting no growth, writes 10 characters again.
  function Ten(c: char): Columns { Columns("", Letters(c, 10)) }

  function Refill(): seq<Event> { Editing("o", Edit(0, Columns("", ""), Ten('a'))) + Creating("o", Ten('a')) }

  function Refilled(): World {
    World(Store([Secret(0, "o", Columns("", "")), Secret(2, "o", Ten('a'))], []), map[], Loaded(Ten('a')).loads, 3)
  }

  lemma RefillRuns(limits: Limits)
    requires limits == Limits(2, 10)
    ensures Legal(limits, Loaded(Ten('a')), Refill()) && Run(limits, Loaded(Ten('a')), Refill()) == Refilled()
  {
    var empty := Edit(0, Columns("", ""), Ten('a'));
    var w1 := Loaded(Ten('a'));
    EditRuns(limits, w1, "o", empty);
    var w2 := World(Store([Secret(0, "o", Columns("", ""))], []), map[], w1.loads, 2);
    assert Map(Rewrite(empty), w1.db.secrets) == w2.db.secrets;
    CreateRuns(limits, w2, "o", Ten('a'));
    RunAppend(limits, w1, Editing("o", empty), Creating("o", Ten('a')));
  }

  function LateEdit(): Work { Edit(0, Ten('b'), Ten('a')) }

  lemma LateEditRuns(limits: Limits)
    requires limits == Limits(2, 10)
    ensures Legal(limits, Refilled(), Editing("o", LateEdit()))
    ensures Stored(Run(limits, Refilled(), Editing("o", LateEdit())).db, "o") == 20
  {
    assert LateEdit().columns.data[0] != LateEdit().seen.data[0];
    EditRuns(limits, Refilled(), "o", LateEdit());
    assert Map(Rewrite(LateEdit()), Refilled().db.secrets) == [Secret(0, "o", Ten('b')), Secret(2, "o", Ten('a'))];
    assert SumInline([Secret(2, "o", Ten('a'))], "o") == 10;
  }

  lemma LateEditBreaksTheCeiling()
    ensures var limits, es := Limits(2, 10), Loading(Ten('a')) + (Refill() + Editing("o", LateEdit()));
      Legal(limits, Initial(), es) && Stored(Run(limits, Initial(), es).db, "o") == 20
  {
    var limits := Limits(2, 10);
    LoadRuns(limits, Ten('a'));
    RefillRuns(limits);
    LateEditRuns(limits);
    RunAppend(limits, Loaded(Ten('a')), Refill(), Editing("o", LateEdit()));
    RunAppend(limits, Initial(), Loading(Ten('a')), Refill() + Editing("o", LateEdit()));
  }

  // Two edits load a name of 1 character and data of 10. One commits a name of 19 and
  // data of 1; the other, sending the name back as loaded, writes data of 10 again.
  function Before(): Columns { Columns("n", Letters('a', 10)) }

  function Between(): Columns { Columns(Letters('m', 19), "d") }

  function UnwrittenName(): Work { Edit(0, Columns("n", Letters('b', 10)), Before()) }

  function TwoEdits(): seq<Event> { Editing("o", Edit(0, Between(), Before())) + Editing("o", UnwrittenName()) }

  lemma TwoEditsRun(limits: Limits)
    requires limits == Limits(1, 20)
    ensures Legal(limits, Loaded(Before()), TwoEdits())
    ensures Stored(Run(limits, Loaded(Before()), TwoEdits()).db, "o") == 29
  {
    var first, second := Edit(0, Between(), Before()), UnwrittenName();
    assert Between().name[0] != Before().name[0] && |Between().data| != |Before().data|;
    assert second.columns.data[0] != Before().data[0];
    var w1 := Loaded(Before());
    EditRuns(limits, w1, "o", first);
    var w2 := World(Store([Secret(0, "o", Between())], []), map[], w1.loads, 2);
    assert Map(Rewrite(first), w1.db.secrets) == w2.db.secrets;
    EditRuns(limits, w2, "o", second);
    assert Map(Rewrite(second), w2.db.secrets) == [Secret(0, "o", Columns(Letters('m', 19), Letters('b', 10)))];
    RunAppend(limits, w1, Editing("o", first), Editing("o", second));
  }

  // So it is not the secret's whole length that matters: here it grew between the
  // second edit's load and its check, and the owner ends over the ceiling.
  lemma UnwrittenColumnBreaksTheCeiling()
    ensures Length(Between()) > Length(Before())
    ensures var limits, es := Limits(1, 20), Loading(Before()) + TwoEdits();
      Legal(limits, Initial(), es) && Stored(Run(limits, Initial(), es).db, "o") == 29
  {
    var limits := Limits(1, 20);
    LoadRuns(limits, Before());
    TwoEditsRun(limits);
    RunAppend(limits, Initial(), Loading(Before()), TwoEdits());
  }
}
