/**
The secret, grant, workflow and re-wrap endpoints as methods on the stored tables.
Each is proved to leave what the request function of Vaults.dfy says.
*/
module VaultStore {
  import opened Text
  import opened Lists
  import opened Wraps
  import opened Vaults

  // ---- Loops over rows ----

  // `already_signed`
  method CountSigned(rows: seq<Signer>) returns (n: nat)
    ensures n == |Filter(Cast(), rows)|
  {
    n := 0;
    for i := 0 to |rows|
      invariant n == |Filter(Cast(), rows[..i])|
    {
      FilterSnoc(Cast(), rows, i);
      if rows[i].approval.Some? { n := n + 1; }
    }
    assert rows[..|rows|] == rows;
  }

  method AddSigners(w: nat, addresses: seq<string>, keys: map<string, string>, id: nat) returns (rows: seq<Signer>)
    requires forall a :: a in addresses ==> a in keys
    ensures rows == SignerRows(w, addresses, keys, id)
  {
    rows := [];
    for i := 0 to |addresses|
      invariant |rows| == i
      invariant forall k :: 0 <= k < i ==> rows[k] == Signer(id + k, w, addresses[k], Lookup(keys, addresses[k]), None)
    {
      rows := rows + [Signer(id + i, w, addresses[i], Some(keys[addresses[i]]), None)];
    }
  }

  method AddRecipients(w: nat, addresses: seq<string>, keys: map<string, string>, id: nat) returns (rows: seq<Recipient>)
    ensures rows == RecipientRows(w, addresses, keys, id)
  {
    rows := [];
    for i := 0 to |addresses|
      invariant |rows| == i
      invariant forall k :: 0 <= k < i ==> rows[k] == Recipient(id + k, w, addresses[k], Lookup(keys, addresses[k]))
    {
      rows := rows + [Recipient(id + i, w, addresses[i], Lookup(keys, addresses[i]))];
    }
  }

  method LowerAll(xs: seq<string>) returns (r: seq<string>)
    ensures r == Lowered(xs)
  {
    r := [];
    for i := 0 to |xs|
      invariant r == Lowered(xs[..i])
    {
      assert xs[..i + 1][..i] == xs[..i];
      if Lower(xs[i]) !in r { r := r + [Lower(xs[i])]; }
    }
    assert xs[..|xs|] == xs;
  }

  method LowerKeys(kvs: seq<(string, string)>) returns (keys: map<string, string>)
    ensures keys == LoweredKeys(kvs)
  {
    keys := map[];
    for i := 0 to |kvs|
      invariant keys == LoweredKeys(kvs[..i])
    {
      assert kvs[..i + 1][..i] == kvs[..i];
      keys := keys[Lower(kvs[i].0) := kvs[i].1];
    }
    assert kvs[..|kvs|] == kvs;
  }

  // The rows of one workflow given the supplied keys, the others left alone.
  method AttachKeys(recipients: seq<Recipient>, w: nat, keys: map<string, string>) returns (after: seq<Recipient>)
    ensures after == Map(Release(w, keys), recipients)
  {
    after := recipients;
    for i := 0 to |recipients|
      invariant |after| == |recipients|
      invariant forall k :: 0 <= k < i ==> after[k] == Release(w, keys)(recipients[k])
      invariant forall k :: i <= k < |recipients| ==> after[k] == recipients[k]
    {
      var r := recipients[i];
      if r.workflow == w && Lower(r.address) in keys {
        after := after[i := r.(key := Some(keys[Lower(r.address)]))];
      }
    }
  }

  // A keyless recipient after the release, if there is one.
  method AnyKeyless(rows: seq<Recipient>) returns (missing: bool)
    ensures missing <==> exists r :: r in rows && r.key.GetOr("") == ""
  {
    missing := false;
    for i := 0 to |rows|
      invariant missing <==> exists r :: r in rows[..i] && r.key.GetOr("") == ""
    {
      assert forall r :: r in rows[..i + 1] <==> r in rows[..i] || r == rows[i];
      if rows[i].key.GetOr("") == "" { missing := true; }
    }
    assert rows[..|rows|] == rows;
  }

  // `_release_recipient_keys`: refused, and nothing written, unless every
  // recipient ends up with a key.
  method ReleaseRecipientKeys(recipients: seq<Recipient>, w: nat, supplied: seq<(string, string)>)
    returns (ok: bool, after: seq<Recipient>)
    ensures ok <==> MayReleaseTo(Filter(RecipientOn(w), recipients), w, LoweredKeys(supplied))
    ensures ok ==> after == Map(Release(w, LoweredKeys(supplied)), recipients)
  {
    var rows := Filter(RecipientOn(w), recipients);
    if rows == [] {
      NoRowsToRelease(recipients, w, LoweredKeys(supplied));
      return true, recipients;
    }
    var keys := LowerKeys(supplied);
    if exists a :: a in keys && !(exists r :: r in rows && Lower(r.address) == a) { return false, recipients; }
    after := AttachKeys(recipients, w, keys);
    var missing := AnyKeyless(Filter(RecipientOn(w), after));
    ReleasedRows(recipients, w, keys);
    ok := !missing;
  }

  method CheckItems(loads: Loads, held: seq<Held>, kid: Option<string>, items: seq<Rewrapped>) returns (status: nat)
    ensures status == FirstFault(Fault(loads, held, kid), items)
  {
    for i := 0 to |items|
      invariant FirstFault(Fault(loads, held, kid), items) == FirstFault(Fault(loads, held, kid), items[i..])
    {
      status := Fault(loads, held, kid)(items[i]);
      assert items[i..][1..] == items[i + 1..];
      if status != 200 { return; }
    }
    status := 200;
  }

  // ---- The endpoints ----

  class Store {
    const env: Env
    var users: set<string>
    var secrets: map<nat, Secret>
    var grants: seq<Grant>
    var workflows: map<nat, Workflow>
    var signers: seq<Signer>
    var recipients: seq<Recipient>
    var next: nat

    function State(): Vault
      reads this
    {
      Vault(users, secrets, grants, workflows, signers, recipients, next)
    }

    constructor (env: Env)
      ensures this.env == env && State() == Vault({}, map[], [], map[], [], [], 0)
    {
      this.env := env;
      users, secrets, grants, workflows, signers, recipients, next := {}, map[], [], map[], [], [], 0;
    }

    // `room` is the quota's verdict, reached under the owner's lock.
    method CreateSecretWithOwnerGrant(owner: string, name: string, data: string, key: string, room: bool)
      returns (id: Option<nat>)
      modifies this`secrets, this`grants, this`next
      ensures id == if room then Some(old(next)) else None
      ensures Answer(State(), if id.Some? then 200 else 413) == DoCreateSecret(old(State()), owner, name, data, key, room)
    {
      if !room { return None; }
      id := Some(next);
      secrets := secrets[next := Secret(owner, name, data)];
      grants := grants + [Grant(next + 1, next, owner, key, None)];
      next := next + 2;
    }

    method UpdateSecret(now: int, caller: string, secret: nat, name: string, data: string, room: bool) returns (status: nat)
      modifies this`secrets
      ensures Answer(State(), status) == DoUpdateSecret(old(State()), now, caller, secret, name, data, room)
    {
      ghost var v := State();
      if secret !in secrets || Lower(secrets[secret].owner) != Lower(caller) {
        status := Refuse(now, caller, secret);
        return;
      }
      var managed := IsManaged(secret);
      if managed { return 400; }
      if !room { return 413; }
      secrets := secrets[secret := secrets[secret].(name := name, data := data)];
      status := 200;
    }

    method DeleteSecret(now: int, caller: string, secret: nat) returns (status: nat)
      modifies this`secrets, this`grants
      ensures Answer(State(), status) == DoDeleteSecret(old(State()), now, caller, secret)
    {
      if secret !in secrets || Lower(secrets[secret].owner) != Lower(caller) {
        status := Refuse(now, caller, secret);
        return;
      }
      var managed := IsManaged(secret);
      if managed { return 400; }
      grants := Filter(NotOnSecrets({secret}), grants);
      secrets := secrets - {secret};
      status := 200;
    }

    // `_refuse`
    method Refuse(now: int, caller: string, secret: nat) returns (status: nat)
      ensures status == Refusal(State(), secret, caller, now)
    {
      status := if CanReadSecret(State(), secret, caller, now)
        then 403 else 404;
    }

    // `is_workflow_managed`
    method IsManaged(secret: nat) returns (managed: bool)
      ensures managed <==> Managed(State(), secret)
    {
      managed := exists w :: w in workflows && workflows[w].secret == secret;
    }

    method ShareSecret(now: int, caller: string, secret: nat, grantee: string, key: string, expiresIn: Option<nat>)
      returns (status: nat)
      modifies this`grants, this`next
      ensures Answer(State(), status) == DoShare(old(State()), now, caller, secret, grantee, key, expiresIn)
    {
      if secret !in secrets || Lower(secrets[secret].owner) != Lower(caller) {
        status := Refuse(now, caller, secret);
        return;
      }
      var managed := IsManaged(secret);
      if managed { return 400; }
      if Lower(secrets[secret].owner) == Lower(grantee) { return 400; }
      if Lower(grantee) !in users { return 404; }
      var expiresAt := None;
      if expiresIn.Some? && expiresIn.value != 0 { expiresAt := Some(now + expiresIn.value); }
      UpsertGrant(secret, Lower(grantee), key, expiresAt);
      status := 200;
    }

    method UpsertGrant(secret: nat, grantee: string, key: string, expiresAt: Option<int>)
      modifies this`grants, this`next
      ensures State() == Upsert(old(State()), secret, grantee, key, expiresAt)
    {
      if exists g :: g in grants && g.secret == secret && g.grantee == grantee {
        grants := Map(Regrant(secret, grantee, key, expiresAt), grants);
      } else {
        grants, next := grants + [Grant(next, secret, grantee, key, expiresAt)], next + 1;
      }
    }

    method RevokeGrant(now: int, caller: string, grant: nat) returns (status: nat)
      modifies this`grants
      ensures Answer(State(), status) == DoRevoke(old(State()), now, caller, grant)
    {
      var found := GrantAt(State(), grant);
      if found.None? { return 404; }
      var g := found.value;
      var owns := g.secret in secrets && Lower(secrets[g.secret].owner) == Lower(caller);
      if Lower(g.grantee) != Lower(caller) && !owns {
        status := Refuse(now, caller, g.secret);
        return;
      }
      if g.secret in secrets && Lower(secrets[g.secret].owner) == Lower(g.grantee) { return 400; }
      var managed := IsManaged(g.secret);
      if managed { return 400; }
      grants := Filter(OtherGrants(grant), grants);
      status := 200;
    }

    method PurgeExpiredGrants(now: int, ofSecret: Option<nat>, ofGrantee: Option<string>) returns (deleted: nat)
      modifies this`grants
      ensures State() == Handle(env, old(State()), now, PurgeGrants(ofSecret, ofGrantee)).v
      ensures deleted == |old(grants)| - |grants|
    {
      var left := Filter(Unexpired(ofSecret, ofGrantee, now), grants);
      FilterShrinks(Unexpired(ofSecret, ofGrantee, now), grants);
      deleted := |grants| - |left|;
      grants := left;
    }

    method CreateMultisigWorkflow(rq: Request) returns (status: nat)
      requires rq.CreateWorkflow?
      modifies this
      ensures Answer(State(), status) == DoCreateWorkflow(old(State()), rq)
    {
      var signing := LowerAll(rq.signers);
      var receiving := LowerAll(rq.recipients);
      var signerKeys := LowerKeys(rq.signerKeys);
      var recipientKeys := LowerKeys(rq.recipientKeys);
      if signing == [] { return 400; }
      if rq.threshold < 1 || rq.threshold > |signing| { return 400; }
      if exists a :: a in signing && a !in signerKeys { return 400; }
      if exists a :: a in signing + receiving && a !in users { return 400; }
      assert MayCreate(State(), rq);
      var secret := CreateSecretWithOwnerGrant(rq.caller, rq.name, rq.data, rq.key, rq.room);
      if secret.None? { return 413; }
      AddWorkflowRows(secret.value, Draft(rq.caller, rq.name, rq.data, rq.key, rq.threshold, signing, receiving, signerKeys, recipientKeys));
      status := 200;
    }

    method AddWorkflowRows(secret: nat, d: Draft)
      requires forall a :: a in d.signers ==> a in d.signerKeys
      modifies this`workflows, this`signers, this`recipients, this`next
      ensures State() == AddWorkflow(old(State()), secret, d)
    {
      var newSigners := AddSigners(next, d.signers, d.signerKeys, next + 1);
      var newRecipients := AddRecipients(next, d.recipients, d.recipientKeys, next + 1 + |d.signers|);
      workflows := workflows[next := Workflow(d.owner, secret, Pending, Some(d.threshold), None)];
      signers, recipients := signers + newSigners, recipients + newRecipients;
      next := next + 1 + |d.signers| + |d.recipients|;
    }

    // `_is_completing_signature`
    method IsCompletingSignature(w: nat) returns (completing: bool)
      requires w in workflows
      ensures completing <==> Approvals(State(), w) + 1 >= Quorum(State(), w)
    {
      var all := Filter(SignerOn(w), signers);
      var quorum := if workflows[w].threshold.GetOr(0) != 0 then workflows[w].threshold.value else |all|;
      var signed := CountSigned(all);
      completing := signed + 1 >= quorum;
    }

    method SignMultisigWorkflow(caller: string, w: nat, signature: string, keys: seq<(string, string)>) returns (status: nat)
      modifies this`signers, this`recipients, this`workflows
      ensures Answer(State(), status) == DoSign(env, old(State()), caller, w, signature, keys)
    {
      if w !in workflows { return 404; }
      if !IsSigner(State(), w, caller) { return 403; }
      if workflows[w].status != Pending { return 400; }
      if HasSigned(State(), w, caller) { return 400; }
      var secret := workflows[w].secret;
      if secret !in secrets { return 404; }
      if !env.approves(w, secret, secrets[secret].data, caller, signature) { return 400; }
      var completing := IsCompletingSignature(w);
      if keys != [] && !completing { return 400; }
      if completing {
        var released, after := ReleaseRecipientKeys(recipients, w, keys);
        if !released { return 400; }
        recipients := after;
        workflows := workflows[w := workflows[w].(status := Completed)];
      }
      signers := Map(Approve(w, Lower(caller), signature), signers);
      status := 200;
    }

    method RejectMultisigWorkflow(caller: string, w: nat) returns (status: nat)
      modifies this`workflows
      ensures Answer(State(), status) == DoReject(old(State()), caller, w)
    {
      if w !in workflows { return 404; }
      if !IsSigner(State(), w, caller) { return 403; }
      if workflows[w].status != Pending { return 400; }
      workflows := workflows[w := workflows[w].(status := Rejected, rejectedBy := Some(Lower(caller)))];
      status := 200;
    }

    // The rows of one workflow, the workflow, then its secret and the grants on it.
    method DropWorkflow(w: nat)
      requires w in workflows
      modifies this`signers, this`recipients, this`workflows, this`secrets, this`grants
      ensures State() == WithoutWorkflows(old(State()), {w})
    {
      var secret := workflows[w].secret;
      assert SecretsOf(State(), {w}) == {secret};
      signers := Filter(SignerOutside({w}), signers);
      recipients := Filter(RecipientOutside({w}), recipients);
      workflows := workflows - {w};
      grants := Filter(NotOnSecrets({secret}), grants);
      secrets := secrets - {secret};
    }

    method DeleteMultisigWorkflow(caller: string, w: nat) returns (status: nat)
      modifies this`signers, this`recipients, this`workflows, this`secrets, this`grants
      ensures Answer(State(), status) == DoDeleteWorkflow(old(State()), caller, w)
    {
      if w !in workflows { return 404; }
      if Lower(workflows[w].owner) != Lower(caller) { return 403; }
      if workflows[w].status == Completed { return 400; }
      DropWorkflow(w);
      status := 200;
    }

    // `_erase_multisig`: each deletable workflow the user owns, in any order,
    // then the user's recipient rows on everything not released.
    method EraseOwnedWorkflows(address: string)
      modifies this`signers, this`recipients, this`workflows, this`secrets, this`grants
      ensures State() == EraseMultisig(old(State()), address)
    {
      ghost var v := State();
      var owned := set w | w in workflows && workflows[w].owner == address && workflows[w].status != Completed;
      var todo, done := owned, {};
      WithoutNothing(v);
      while todo != {}
        invariant todo + done == owned && todo !! done
        invariant State() == WithoutWorkflows(v, done)
      {
        var w :| w in todo;
        DropWorkflow(w);
        WithoutOneMore(v, done, w);
        todo, done := todo - {w}, done + {w};
      }
      assert done == DeletableOf(v, address);
      recipients := Filter(StaysRecipient(State(), address), recipients);
    }

    // `_erase_secrets`: the user's own secrets that no workflow manages, and
    // every grant the user holds.
    method EraseOwnedSecrets(address: string)
      modifies this`secrets, this`grants
      ensures State() == EraseSecrets(old(State()), address)
    {
      var gone := set s | s in secrets && secrets[s].owner == address && !(exists w :: w in workflows && workflows[w].secret == s);
      assert gone == UnmanagedOf(State(), address);
      grants := Filter(NotOnSecrets(gone), grants);
      secrets := secrets - gone;
      grants := Filter(NotHeldBy(address), grants);
    }

    method EraseAccount(address: string)
      modifies this
      ensures State() == DoErase(old(State()), address)
    {
      EraseOwnedWorkflows(address);
      EraseOwnedSecrets(address);
      users := users - {address};
    }

    // `rewrap`: every item checked before any is written.
    method RewrapKeys(now: int, caller: string, kid: Option<string>, items: seq<Rewrapped>) returns (status: nat)
      modifies this`grants, this`signers, this`recipients
      ensures Answer(State(), status) == DoRewrap(env, old(State()), now, caller, kid, items)
    {
      var held := HeldBy(State(), caller, now);
      status := CheckItems(env.loads, held, kid, items);
      if status != 200 { return; }
      grants := Map(ResealGrant(items), grants);
      signers := Map(ResealSigner(items), signers);
      recipients := Map(ResealRecipient(items), recipients);
    }
  }

  // ---- Lemmas the methods rest on ----

  lemma {:induction false} FilterShrinks<T(!new)>(p: T -> bool, xs: seq<T>)
    ensures |Filter(p, xs)| <= |xs|
  {
    if xs != [] { FilterShrinks(p, xs[1..]); }
  }

  lemma NoRowsToRelease(recipients: seq<Recipient>, w: nat, keys: map<string, string>)
    requires Filter(RecipientOn(w), recipients) == []
    ensures Map(Release(w, keys), recipients) == recipients
  {
    forall i | 0 <= i < |recipients| ensures Release(w, keys)(recipients[i]) == recipients[i] {
      assert recipients[i] in recipients && recipients[i] !in Filter(RecipientOn(w), recipients);
    }
  }

  lemma ReleasedRows(recipients: seq<Recipient>, w: nat, keys: map<string, string>)
    ensures (exists r :: r in Filter(RecipientOn(w), Map(Release(w, keys), recipients)) && r.key.GetOr("") == "")
       <==> (exists r :: r in Filter(RecipientOn(w), recipients) && Release(w, keys)(r).key.GetOr("") == "")
  {
    var after := Map(Release(w, keys), recipients);
    forall i | 0 <= i < |recipients| ensures recipients[i] in recipients && after[i] in after {
    }
  }

  lemma WithoutNothing(v: Vault)
    ensures WithoutWorkflows(v, {}) == v
  {
    FilterAll(SignerOutside({}), v.signers);
    FilterAll(RecipientOutside({}), v.recipients);
    FilterAll(NotOnSecrets(SecretsOf(v, {})), v.grants);
    assert v.workflows - {} == v.workflows && v.secrets - {} == v.secrets;
  }

  lemma WithoutOneMore(v: Vault, done: set<nat>, w: nat)
    requires w in v.workflows && w !in done
    ensures WithoutWorkflows(WithoutWorkflows(v, done), {w}) == WithoutWorkflows(v, done + {w})
  {
    var left := WithoutWorkflows(v, done);
    var a, b := SecretsOf(v, done), SecretsOf(left, {w});
    assert SecretsOf(v, done + {w}) == a + b;
    FilterTwice(SignerOutside({w}), SignerOutside(done), SignerOutside(done + {w}), v.signers);
    FilterTwice(RecipientOutside({w}), RecipientOutside(done), RecipientOutside(done + {w}), v.recipients);
    FilterTwice(NotOnSecrets(b), NotOnSecrets(a), NotOnSecrets(a + b), v.grants);
    assert (v.workflows - done) - {w} == v.workflows - (done + {w});
    assert (v.secrets - a) - b == v.secrets - (a + b);
  }
}
