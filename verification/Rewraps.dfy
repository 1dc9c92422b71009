/**
Re-wrapping on the stored tables: a batch changes exactly the rows its caller
holds, so the list the server pages is rewritten in place, as the client's walk
assumes.
*/
module Rewraps {
  import opened Text
  import opened Lists
  import opened Wraps
  import opened Vaults

  // ---- Row ids: ascending within a table, and below the next one ----

  predicate Ascends<T>(id: T -> nat, xs: seq<T>, next: nat) {
    && (forall i :: 0 <= i < |xs| ==> id(xs[i]) < next)
    && (forall i, j :: 0 <= i < j < |xs| ==> id(xs[i]) < id(xs[j]))
  }

  function GrantId(): Grant -> nat { (g: Grant) => g.id }

  function SignerId(): Signer -> nat { (s: Signer) => s.id }

  function RecipientId(): Recipient -> nat { (r: Recipient) => r.id }

  predicate Keyed(v: Vault) {
    Ascends(GrantId(), v.grants, v.next) && Ascends(SignerId(), v.signers, v.next) && Ascends(RecipientId(), v.recipients, v.next)
  }

  lemma {:induction false} AscendsFilter<T(!new)>(id: T -> nat, p: T -> bool, xs: seq<T>, next: nat)
    requires Ascends(id, xs, next)
    ensures Ascends(id, Filter(p, xs), next)
  {
    if xs != [] {
      AscendsFilter(id, p, xs[1..], next);
      var tail := Filter(p, xs[1..]);
      forall j | 0 <= j < |tail| ensures id(xs[0]) < id(tail[j]) && id(tail[j]) < next {
        assert tail[j] in xs[1..];
      }
    }
  }

  lemma AscendsMap<T>(id: T -> nat, f: T -> T, xs: seq<T>, next: nat)
    requires Ascends(id, xs, next) && forall i :: 0 <= i < |xs| ==> id(f(xs[i])) == id(xs[i])
    ensures Ascends(id, Map(f, xs), next)
  {
  }

  lemma KeyedAdd(v: Vault, secret: nat, d: Draft)
    requires Keyed(v)
    ensures Keyed(AddWorkflow(v, secret, d))
  {
    var next := AddWorkflow(v, secret, d).next;
  }

  lemma KeyedUpsert(v: Vault, secret: nat, grantee: string, key: string, expiresAt: Option<int>)
    requires Keyed(v)
    ensures Keyed(Upsert(v, secret, grantee, key, expiresAt))
  {
    AscendsMap(GrantId(), Regrant(secret, grantee, key, expiresAt), v.grants, v.next);
  }

  lemma KeyedWithout(v: Vault, gone: set<nat>, secrets: set<nat>)
    requires Keyed(v)
    ensures Keyed(WithoutSecrets(v, secrets)) && Keyed(WithoutWorkflows(v, gone))
  {
    AscendsFilter(GrantId(), NotOnSecrets(secrets), v.grants, v.next);
    AscendsFilter(GrantId(), NotOnSecrets(SecretsOf(v, gone)), v.grants, v.next);
    AscendsFilter(SignerId(), SignerOutside(gone), v.signers, v.next);
    AscendsFilter(RecipientId(), RecipientOutside(gone), v.recipients, v.next);
  }

  lemma KeyedErase(v: Vault, address: string)
    requires Keyed(v)
    ensures Keyed(DoErase(v, address))
  {
    var v1 := WithoutWorkflows(v, DeletableOf(v, address));
    KeyedWithout(v, DeletableOf(v, address), {});
    AscendsFilter(RecipientId(), StaysRecipient(v1, address), v1.recipients, v1.next);
    var v2 := EraseMultisig(v, address);
    KeyedWithout(v2, {}, UnmanagedOf(v2, address));
    var v3 := WithoutSecrets(v2, UnmanagedOf(v2, address));
    AscendsFilter(GrantId(), NotHeldBy(address), v3.grants, v3.next);
  }

  function WithWraps(v: Vault, items: seq<Rewrapped>): Vault {
    v.(grants := Map(ResealGrant(items), v.grants),
       signers := Map(ResealSigner(items), v.signers),
       recipients := Map(ResealRecipient(items), v.recipients))
  }

  lemma KeyedWraps(v: Vault, items: seq<Rewrapped>)
    requires Keyed(v)
    ensures Keyed(WithWraps(v, items))
  {
    AscendsMap(GrantId(), ResealGrant(items), v.grants, v.next);
    AscendsMap(SignerId(), ResealSigner(items), v.signers, v.next);
    AscendsMap(RecipientId(), ResealRecipient(items), v.recipients, v.next);
  }

  lemma KeyedSign(v: Vault, caller: string, w: nat, signature: string, keys: map<string, string>)
    requires Keyed(v) && w in v.workflows
    ensures Keyed(WithApproval(v, w, caller, signature))
    ensures Keyed(WithRelease(WithApproval(v, w, caller, signature), w, keys))
  {
    AscendsMap(SignerId(), Approve(w, Lower(caller), signature), v.signers, v.next);
    AscendsMap(RecipientId(), Release(w, keys), v.recipients, v.next);
  }

  lemma KeyedDoCreate(v: Vault, rq: Request)
    requires Keyed(v) && rq.CreateWorkflow?
    ensures Keyed(DoCreateWorkflow(v, rq).v)
  {
    if MayCreate(v, rq) {
      var d := DraftOf(rq);
      KeyedAdd(WithSecret(v, d.owner, d.name, d.data, d.key), v.next, d);
    }
  }

  lemma KeyedDoSign(env: Env, v: Vault, caller: string, w: nat, signature: string, keys: seq<(string, string)>)
    requires Keyed(v)
    ensures Keyed(DoSign(env, v, caller, w, signature, keys).v)
  {
    if w in v.workflows { KeyedSign(v, caller, w, signature, LoweredKeys(keys)); }
  }

  lemma KeyedDoShare(v: Vault, now: int, caller: string, secret: nat, grantee: string, key: string, expiresIn: Option<nat>)
    requires Keyed(v)
    ensures Keyed(DoShare(v, now, caller, secret, grantee, key, expiresIn).v)
  {
    KeyedUpsert(v, secret, Lower(grantee), key, if expiresIn.GetOr(0) == 0 then None else Some(now + expiresIn.value));
  }

  lemma KeyedDoDelete(v: Vault, now: int, caller: string, secret: nat, w: nat)
    requires Keyed(v)
    ensures Keyed(DoDeleteSecret(v, now, caller, secret).v) && Keyed(DoDeleteWorkflow(v, caller, w).v)
  {
    KeyedWithout(v, {w}, {secret});
  }

  lemma KeyedSame(v: Vault, v': Vault)
    requires Keyed(v) && v'.grants == v.grants && v'.signers == v.signers && v'.recipients == v.recipients && v'.next == v.next
    ensures Keyed(v')
  {
  }

  lemma KeyedDoRevoke(v: Vault, now: int, caller: string, grant: nat)
    requires Keyed(v)
    ensures Keyed(DoRevoke(v, now, caller, grant).v)
  {
    AscendsFilter(GrantId(), OtherGrants(grant), v.grants, v.next);
  }

  lemma KeyedSecretRequest(env: Env, v: Vault, now: int, rq: Request)
    requires Keyed(v)
    requires rq.CreateSecret? || rq.UpdateSecret? || rq.DeleteSecret? || rq.Share? || rq.Revoke?
    ensures Keyed(Handle(env, v, now, rq).v)
  {
    match rq
    case CreateSecret(caller, name, data, key, _) =>
    case UpdateSecret(caller, secret, name, data, room) =>
      KeyedSame(v, DoUpdateSecret(v, now, caller, secret, name, data, room).v);
    case DeleteSecret(caller, secret) => KeyedDoDelete(v, now, caller, secret, 0);
    case Share(caller, secret, grantee, key, expiresIn) => KeyedDoShare(v, now, caller, secret, grantee, key, expiresIn);
    case Revoke(caller, grant) => KeyedDoRevoke(v, now, caller, grant);
  }

  lemma KeyedPurge(v: Vault, now: int, ofSecret: Option<nat>, ofGrantee: Option<string>)
    requires Keyed(v)
    ensures Keyed(v.(grants := Filter(Unexpired(ofSecret, ofGrantee, now), v.grants)))
  {
    AscendsFilter(GrantId(), Unexpired(ofSecret, ofGrantee, now), v.grants, v.next);
  }

  lemma KeyedDoRewrap(env: Env, v: Vault, now: int, caller: string, kid: Option<string>, items: seq<Rewrapped>)
    requires Keyed(v)
    ensures Keyed(DoRewrap(env, v, now, caller, kid, items).v)
  {
    KeyedWraps(v, items);
  }

  // Every request keeps row ids unique and in order.
  lemma KeyedStep(env: Env, v: Vault, now: int, rq: Request)
    requires Keyed(v)
    ensures Keyed(Handle(env, v, now, rq).v)
  {
    match rq
    case PurgeGrants(ofSecret, ofGrantee) => KeyedPurge(v, now, ofSecret, ofGrantee);
    case CreateWorkflow(_, _, _, _, _, _, _, _, _, _) => KeyedDoCreate(v, rq);
    case Sign(caller, w, signature, keys) => KeyedDoSign(env, v, caller, w, signature, keys);
    case Reject(caller, w) => KeyedSame(v, DoReject(v, caller, w).v);
    case DeleteWorkflow(caller, w) => KeyedDoDelete(v, now, caller, 0, w);
    case Rewrap(caller, kid, items) => KeyedDoRewrap(env, v, now, caller, kid, items);
    case EraseAccount(address) => KeyedErase(v, address);
    case LeaveAccount(address) => KeyedSame(v, v.(users := v.users - {address}));
    case Join(address) => KeyedSame(v, v.(users := v.users + {address}));
    case _ => KeyedSecretRequest(env, v, now, rq);
  }

  // ---- The held list after a batch ----

  // Rewriting then listing is listing then rewriting, where the rewriting keeps
  // who holds what.
  lemma {:induction false} ListRewritten<T(!new)>(f: T -> T, p: T -> bool, q: T -> bool, h: T -> Held, items: seq<Rewrapped>, xs: seq<T>)
    requires forall x :: x in xs ==> q(f(x)) == p(x)
    requires forall x :: x in xs && p(x) ==> h(f(x)) == Reseal(items)(h(x))
    ensures Map(h, Filter(q, Map(f, xs))) == Map(Reseal(items), Map(h, Filter(p, xs)))
  {
    if xs != [] {
      assert xs[0] in xs;
      ListRewritten(f, p, q, h, items, xs[1..]);
      assert Map(f, xs)[1..] == Map(f, xs[1..]);
      if p(xs[0]) {
        assert Filter(p, xs)[1..] == Filter(p, xs[1..]);
        assert Filter(q, Map(f, xs))[1..] == Filter(q, Map(f, xs[1..]));
      }
    }
  }

  lemma MapAppend3(items: seq<Rewrapped>, a: seq<Held>, b: seq<Held>, c: seq<Held>)
    ensures Map(Reseal(items), a + b + c) == Map(Reseal(items), a) + Map(Reseal(items), b) + Map(Reseal(items), c)
  {
    MapAppend(Reseal(items), a + b, c);
    MapAppend(Reseal(items), a, b);
  }

  // Only rows the caller holds are named.
  predicate NamesHeldOnly(v: Vault, address: string, now: int, items: seq<Rewrapped>) {
    forall i :: 0 <= i < |items| ==> HoldsRow(HeldBy(v, address, now), items[i])
  }

  lemma HeldSignerRow(v: Vault, address: string, now: int, items: seq<Rewrapped>, s: Signer)
    requires Keyed(v) && NamesHeldOnly(v, address, now, items) && s in v.signers
    requires NewWrap(items, SignerWrap, s.id).Some?
    ensures SignerFor(v, address)(s)
  {
    var item := Rewrapped(SignerWrap, s.id, NewWrap(items, SignerWrap, s.id).value);
    var i :| 0 <= i < |items| && items[i] == item;
    var s' := SignerHeld(v, address, now, item);
  }

  lemma SignerHeld(v: Vault, address: string, now: int, item: Rewrapped) returns (s: Signer)
    requires HoldsRow(HeldBy(v, address, now), item) && item.kind == SignerWrap
    ensures s in v.signers && SignerFor(v, address)(s) && s.id == item.id
  {
    var h :| h in HeldBy(v, address, now) && h.kind == item.kind && h.id == item.id;
    var a := Map(HeldGrant(), Filter(GrantOf(address, now), v.grants));
    var rows := Filter(SignerFor(v, address), v.signers);
    var b := Map(HeldSigner(), rows);
    var c := Map(HeldRecipient(), Filter(RecipientFor(v, address), v.recipients));
    assert h in a || h in b || h in c;
    var i :| 0 <= i < |b| && b[i] == h;
    s := rows[i];
    assert s in rows;
  }

  lemma HeldRecipientRow(v: Vault, address: string, now: int, items: seq<Rewrapped>, r: Recipient)
    requires Keyed(v) && NamesHeldOnly(v, address, now, items) && r in v.recipients
    requires NewWrap(items, RecipientWrap, r.id).Some?
    ensures RecipientFor(v, address)(r)
  {
    var item := Rewrapped(RecipientWrap, r.id, NewWrap(items, RecipientWrap, r.id).value);
    var i :| 0 <= i < |items| && items[i] == item;
    var r' := RecipientHeld(v, address, now, item);
  }

  lemma RecipientHeld(v: Vault, address: string, now: int, item: Rewrapped) returns (r: Recipient)
    requires HoldsRow(HeldBy(v, address, now), item) && item.kind == RecipientWrap
    ensures r in v.recipients && RecipientFor(v, address)(r) && r.id == item.id
  {
    var h :| h in HeldBy(v, address, now) && h.kind == item.kind && h.id == item.id;
    var a := Map(HeldGrant(), Filter(GrantOf(address, now), v.grants));
    var b := Map(HeldSigner(), Filter(SignerFor(v, address), v.signers));
    var rows := Filter(RecipientFor(v, address), v.recipients);
    var c := Map(HeldRecipient(), rows);
    assert h in a || h in b || h in c;
    var i :| 0 <= i < |c| && c[i] == h;
    r := rows[i];
    assert r in rows;
  }

  lemma ReadableAfterWraps(v: Vault, items: seq<Rewrapped>, address: string)
    ensures ReadableWorkflows(WithWraps(v, items), address) == ReadableWorkflows(v, address)
  {
  }

  // Main result: an accepted batch rewrites the held list in place and nothing
  // else in it: same rows, same order, new wraps where it names them.
  lemma RewrapRewritesHeld(env: Env, v: Vault, now: int, caller: string, kid: Option<string>, items: seq<Rewrapped>)
    requires Keyed(v) && DoRewrap(env, v, now, caller, kid, items).status == 200
    ensures HeldBy(DoRewrap(env, v, now, caller, kid, items).v, caller, now) == Map(Reseal(items), HeldBy(v, caller, now))
  {
    FaultlessIsAcceptable(env.loads, HeldBy(v, caller, now), kid, items);
    var v' := WithWraps(v, items);
    ReadableAfterWraps(v, items, caller);
    GrantsRewritten(v, caller, now, items);
    SignersRewritten(v, v', caller, now, items);
    RecipientsRewritten(v, v', caller, now, items);
    MapAppend3(items,
               Map(HeldGrant(), Filter(GrantOf(caller, now), v.grants)),
               Map(HeldSigner(), Filter(SignerFor(v, caller), v.signers)),
               Map(HeldRecipient(), Filter(RecipientFor(v, caller), v.recipients)));
  }

  lemma GrantsRewritten(v: Vault, caller: string, now: int, items: seq<Rewrapped>)
    ensures Map(HeldGrant(), Filter(GrantOf(caller, now), Map(ResealGrant(items), v.grants)))
         == Map(Reseal(items), Map(HeldGrant(), Filter(GrantOf(caller, now), v.grants)))
  {
    ListRewritten(ResealGrant(items), GrantOf(caller, now), GrantOf(caller, now), HeldGrant(), items, v.grants);
  }

  lemma SignersRewritten(v: Vault, v': Vault, caller: string, now: int, items: seq<Rewrapped>)
    requires Keyed(v) && NamesHeldOnly(v, caller, now, items) && v' == WithWraps(v, items)
    requires ReadableWorkflows(v', caller) == ReadableWorkflows(v, caller)
    ensures Map(HeldSigner(), Filter(SignerFor(v', caller), v'.signers))
         == Map(Reseal(items), Map(HeldSigner(), Filter(SignerFor(v, caller), v.signers)))
  {
    forall s | s in v.signers
      ensures SignerFor(v', caller)(ResealSigner(items)(s)) == SignerFor(v, caller)(s)
      ensures SignerFor(v, caller)(s) ==> HeldSigner()(ResealSigner(items)(s)) == Reseal(items)(HeldSigner()(s))
    {
      if NewWrap(items, SignerWrap, s.id).Some? {
        HeldSignerRow(v, caller, now, items, s);
      }
    }
    ListRewritten(ResealSigner(items), SignerFor(v, caller), SignerFor(v', caller), HeldSigner(), items, v.signers);
  }

  lemma RecipientsRewritten(v: Vault, v': Vault, caller: string, now: int, items: seq<Rewrapped>)
    requires Keyed(v) && NamesHeldOnly(v, caller, now, items) && v' == WithWraps(v, items)
    requires ReadableWorkflows(v', caller) == ReadableWorkflows(v, caller)
    ensures Map(HeldRecipient(), Filter(RecipientFor(v', caller), v'.recipients))
         == Map(Reseal(items), Map(HeldRecipient(), Filter(RecipientFor(v, caller), v.recipients)))
  {
    forall r | r in v.recipients
      ensures RecipientFor(v', caller)(ResealRecipient(items)(r)) == RecipientFor(v, caller)(r)
      ensures RecipientFor(v, caller)(r) ==> HeldRecipient()(ResealRecipient(items)(r)) == Reseal(items)(HeldRecipient()(r))
    {
      if NewWrap(items, RecipientWrap, r.id).Some? {
        HeldRecipientRow(v, caller, now, items, r);
      }
    }
    ListRewritten(ResealRecipient(items), RecipientFor(v, caller), RecipientFor(v', caller), HeldRecipient(), items, v.recipients);
  }

  // ---- The held list names each row once ----

  lemma HeldGroup<T>(id: T -> nat, h: T -> Held, kind: WrapKind, xs: seq<T>, next: nat)
    requires Ascends(id, xs, next) && forall i :: 0 <= i < |xs| ==> h(xs[i]).kind == kind && h(xs[i]).id == id(xs[i])
    ensures OneRowEach(Map(h, xs)) && forall x :: x in Map(h, xs) ==> x.kind == kind
  {
    forall i, j | 0 <= i < j < |xs| ensures Map(h, xs)[i].id != Map(h, xs)[j].id {
      assert id(xs[i]) < id(xs[j]);
    }
  }

  lemma HeldOnce(v: Vault, address: string, now: int)
    requires Keyed(v)
    ensures OneRowEach(HeldBy(v, address, now))
  {
    var gs, ss, rs := Filter(GrantOf(address, now), v.grants), Filter(SignerFor(v, address), v.signers), Filter(RecipientFor(v, address), v.recipients);
    AscendsFilter(GrantId(), GrantOf(address, now), v.grants, v.next);
    AscendsFilter(SignerId(), SignerFor(v, address), v.signers, v.next);
    AscendsFilter(RecipientId(), RecipientFor(v, address), v.recipients, v.next);
    HeldGroup(GrantId(), HeldGrant(), GrantWrap, gs, v.next);
    HeldGroup(SignerId(), HeldSigner(), SignerWrap, ss, v.next);
    HeldGroup(RecipientId(), HeldRecipient(), RecipientWrap, rs, v.next);
  }
}
