/**
What each transaction of the quota does when nothing comes between its statements,
and what the counts it reads count.
*/
module QuotaLaws {
  import opened Lists
  import opened Quota
  import Base64

  // ---- What is counted ----

  // The count and the characters, in terms of the rows there are: none without rows,
  // a new secret adds itself and its own characters to its owner, and a new chunk
  // its characters to the owner of its secret and to that file.
  lemma Counts(db: Store, s: Secret, c: Chunk, owner: string, secret: nat)
    requires forall k :: k in db.chunks ==> k.secret != s.id
    ensures CountOf([], owner) == Stored(Store([], []), owner) == FileChars(Store([], []), secret) == 0
    ensures var more := db.(secrets := db.secrets + [s]);
      if s.owner == owner then
        && CountOf(more.secrets, owner) == CountOf(db.secrets, owner) + 1
        && Stored(more, owner) == Stored(db, owner) + |s.columns.name| + |s.columns.data|
      else
        && CountOf(more.secrets, owner) == CountOf(db.secrets, owner)
        && Stored(more, owner) == Stored(db, owner)
    ensures var more := db.(chunks := db.chunks + [c]);
      && Stored(more, owner)
         == Stored(db, owner) + (if exists t :: t in db.secrets && t.id == c.secret && t.owner == owner then |c.data| else 0)
      && FileChars(more, secret) == FileChars(db, secret) + (if c.secret == secret then |c.data| else 0)
  {
    SecretWeighs(db, s.owner, s.id, s.columns, owner);
    ChunkCounts(db, c, IdsOf(db.secrets, owner));
    ChunkCounts(db, c, {secret});
  }

  lemma ChunkCounts(db: Store, c: Chunk, ids: set<nat>)
    ensures SumChunks(db.chunks + [c], ids) == SumChunks(db.chunks, ids) + (if c.secret in ids then |c.data| else 0)
  {
    ChunksAppend(db.chunks, [c], ids);
  }

  // A delete takes the secrets it names and their chunks, and nothing else.
  lemma DeleteTakes(db: Store, gone: set<nat>, s: Secret, c: Chunk)
    ensures s in Deleted(db, gone).secrets <==> s in db.secrets && s.id !in gone
    ensures c in Deleted(db, gone).chunks <==> c in db.chunks && c.secret !in gone
  {
  }

  // ---- Uninterrupted transactions ----

  lemma LegalCons(limits: Limits, w: World, e: Event, es: seq<Event>)
    ensures Legal(limits, w, [e] + es) <==> Enabled(w, e) && Legal(limits, Step(limits, w, e), es)
  {
    assert ([e] + es)[1..] == es;
  }

  // Left to itself, a creation gets to its commit if and only if there is room for one
  // more secret and for its characters; then it adds that secret and nothing else.
  lemma CreationLands(limits: Limits, w: World, owner: string, columns: Columns)
    requires owner !in w.active
    ensures Legal(limits, w, Creating(owner, columns))
       <==> && CountOf(w.db.secrets, owner) < limits.maxSecrets
            && Stored(w.db, owner) + |columns.name| + |columns.data| <= limits.maxChars
    ensures Legal(limits, w, Creating(owner, columns)) ==>
      var after := Run(limits, w, Creating(owner, columns));
      && after.db == Store(w.db.secrets + [Secret(w.next, owner, columns)], w.db.chunks)
      && after.active == w.active && after.next == w.next + 1
  {
    if CountOf(w.db.secrets, owner) < limits.maxSecrets && Stored(w.db, owner) + Length(columns) <= limits.maxChars {
      CreateRuns(limits, w, owner, columns);
    } else {
      var w1 := Step(limits, w, Begin(owner, NewSecret(columns)));
      var w2 := Step(limits, w1, ReadCount(owner));
      LegalCons(limits, w, Begin(owner, NewSecret(columns)),
                [ReadCount(owner), ReadInline(owner), ReadChunks(owner), Commit(owner)]);
      LegalCons(limits, w1, ReadCount(owner), [ReadInline(owner), ReadChunks(owner), Commit(owner)]);
      LegalCons(limits, w2, ReadInline(owner), [ReadChunks(owner), Commit(owner)]);
      if owner in w2.active {
        LegalCons(limits, Step(limits, w2, ReadInline(owner)), ReadChunks(owner), [Commit(owner)]);
      }
    }
  }

  function Uploading(owner: string, secret: nat, index: int, data: string): seq<Event> {
    [Begin(owner, NewChunk(secret, index, data)), ReadInline(owner), ReadChunks(owner), ReadFile(owner), Commit(owner)]
  }

  // Left to itself, an upload gets to its commit if and only if it carries a base64
  // chunk for a secret of the caller's, and there is room for its characters and for
  // it in a file of 50 MiB; then it adds that chunk, unless its index is taken.
  lemma UploadLands(limits: Limits, w: World, owner: string, secret: nat, index: int, data: string)
    requires owner !in w.active
    ensures Legal(limits, w, Uploading(owner, secret, index, data))
       <==> && (exists s :: s in w.db.secrets && s.id == secret && s.owner == owner)
            && Base64.IsB64(data)
            && Stored(w.db, owner) + |data| <= limits.maxChars
            && 3 * (FileChars(w.db, secret) + |data|) <= 4 * 52428800
    ensures Legal(limits, w, Uploading(owner, secret, index, data)) ==>
      var after := Run(limits, w, Uploading(owner, secret, index, data));
      && after.db == (if exists c :: c in w.db.chunks && c.secret == secret && c.index == index then w.db
                      else Store(w.db.secrets, w.db.chunks + [Chunk(secret, index, data)]))
      && after.active == w.active
  {
    var work := NewChunk(secret, index, data);
    var begin := Begin(owner, work);
    LegalCons(limits, w, begin, [ReadInline(owner), ReadChunks(owner), ReadFile(owner), Commit(owner)]);
    assert Uploading(owner, secret, index, data)
        == [begin] + [ReadInline(owner), ReadChunks(owner), ReadFile(owner), Commit(owner)];
    if Enabled(w, begin) {
      UploadReads(limits, Step(limits, w, begin), owner);
      if Legal(limits, w, Uploading(owner, secret, index, data)) {
        RunCons(limits, w, begin, [ReadInline(owner), ReadChunks(owner), ReadFile(owner), Commit(owner)]);
        assert GiveUp(Step(limits, w, begin), owner).active == w.active;
      }
    }
  }

  lemma UploadReads(limits: Limits, w: World, owner: string)
    requires owner in w.active && w.active[owner].phase.Locked? && w.active[owner].work.NewChunk?
    ensures var work := w.active[owner].work;
      && (Legal(limits, w, [ReadInline(owner), ReadChunks(owner), ReadFile(owner), Commit(owner)])
          <==> Stored(w.db, owner) + |work.data| <= limits.maxChars
               && 3 * (FileChars(w.db, work.secret) + |work.data|) <= 4 * 52428800)
      && (Legal(limits, w, [ReadInline(owner), ReadChunks(owner), ReadFile(owner), Commit(owner)]) ==>
            Run(limits, w, [ReadInline(owner), ReadChunks(owner), ReadFile(owner), Commit(owner)])
            == GiveUp(w, owner).(db := Written(w.db, owner, work, w.next), next := w.next + 1))
  {
    var w1 := Step(limits, w, ReadInline(owner));
    var w2 := Step(limits, w1, ReadChunks(owner));
    LegalCons(limits, w, ReadInline(owner), [ReadChunks(owner), ReadFile(owner), Commit(owner)]);
    LegalCons(limits, w1, ReadChunks(owner), [ReadFile(owner), Commit(owner)]);
    LegalCons(limits, w2, ReadFile(owner), [Commit(owner)]);
    if owner in w2.active {
      var w3 := Step(limits, w2, ReadFile(owner));
      LegalCons(limits, w3, Commit(owner), []);
      if owner in w3.active {
        RunCons(limits, w3, Commit(owner), []);
        RunCons(limits, w2, ReadFile(owner), [Commit(owner)]);
        RunCons(limits, w1, ReadChunks(owner), [ReadFile(owner), Commit(owner)]);
        RunCons(limits, w, ReadInline(owner), [ReadChunks(owner), ReadFile(owner), Commit(owner)]);
        assert Step(limits, w3, Commit(owner)).active == GiveUp(w, owner).active;
      }
    }
  }

  // What an edit leaves of a row: each column it changes is the one sent, each it does
  // not is the one stored.
  predicate EditedRow(work: Work, was: Secret, now: Secret)
    requires work.Edit?
  {
    if was.id != work.secret then now == was
    else
      && now.id == was.id && now.owner == was.owner
      && (now.columns.name == if work.columns.name == work.seen.name then was.columns.name else work.columns.name)
      && (now.columns.data == if work.columns.data == work.seen.data then was.columns.data else work.columns.data)
  }

  // Left to itself, an edit of a secret it has loaded gets to its commit if and only if
  // it is no longer than what it loaded, or there is room for what it adds.
  lemma EditLandsExactly(limits: Limits, w: World, owner: string, work: Work)
    requires owner !in w.active && work.Edit? && Load(owner, work.secret, work.seen) in w.loads
    ensures var more := |work.columns.name| + |work.columns.data| - |work.seen.name| - |work.seen.data|;
      Legal(limits, w, Editing(owner, work)) <==> more <= 0 || Stored(w.db, owner) + more <= limits.maxChars
    ensures Legal(limits, w, Editing(owner, work)) ==>
      var after := Run(limits, w, Editing(owner, work));
      && |after.db.secrets| == |w.db.secrets| && after.db.chunks == w.db.chunks && after.active == w.active
      && forall i :: 0 <= i < |w.db.secrets| ==> EditedRow(work, w.db.secrets[i], after.db.secrets[i])
  {
    if Admits(limits, w.db, owner, work) {
      EditRuns(limits, w, owner, work);
    } else {
      var w1 := Step(limits, w, Begin(owner, work));
      assert Editing(owner, work) == [Begin(owner, work)] + [ReadInline(owner), ReadChunks(owner), Commit(owner)];
      LegalCons(limits, w, Begin(owner, work), [ReadInline(owner), ReadChunks(owner), Commit(owner)]);
      LegalCons(limits, w1, ReadInline(owner), [ReadChunks(owner), Commit(owner)]);
      LegalCons(limits, Step(limits, w1, ReadInline(owner)), ReadChunks(owner), [Commit(owner)]);
    }
  }
}
