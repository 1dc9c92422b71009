/**
Who may change what in the vault: for every request, the condition on which it is
accepted and what it leaves; and for every row, the requests that can change it.
*/
module VaultAccess {
  import opened Text
  import opened Lists
  import opened Wraps
  import opened Vaults
  import opened Multisig
  import opened MultisigSteps
  import opened VaultLaws

  // ---- Ownership, in any spelling of the caller's address ----

  predicate Owns(v: Vault, address: string, secret: nat) {
    secret in v.secrets && Lower(v.secrets[secret].owner) == Lower(address)
  }

  predicate Free(v: Vault, secret: nat) { forall w :: w in v.workflows ==> v.workflows[w].secret != secret }

  // What a caller who does not own a secret is told: that it is there only if they
  // can read it.
  lemma Refused(v: Vault, secret: nat, address: string, now: int)
    ensures Refusal(v, secret, address, now) ==
      if secret in v.secrets
         && (|| Lower(v.secrets[secret].owner) == Lower(address)
             || (exists g :: g in v.grants && g.secret == secret && g.grantee == Lower(address)
                             && (g.expiresAt == None || g.expiresAt.value > now))
             || (exists w :: w in v.workflows && v.workflows[w].secret == secret && CanReadWorkflow(v, w, address)))
      then 403 else 404
  {
    if HasLiveGrant(v, secret, address, now) {
      var g :| g in v.grants && g.secret == secret && g.grantee == Lower(address) && IsLive(g, now);
    }
  }

  lemma FreeIsUnmanaged(v: Vault, secret: nat)
    ensures Managed(v, secret) <==> !Free(v, secret)
  {
  }

  // ---- Each request ----

  lemma SecretCreated(v: Vault, caller: string, name: string, data: string, key: string, room: bool)
    ensures var after := DoCreateSecret(v, caller, name, data, key, room);
      if !room then after == Answer(v, 413)
      else exists s, g ::
        && v.next <= s < after.v.next && v.next <= g < after.v.next && after.status == 200
        && after.v == v.(secrets := v.secrets[s := Secret(caller, name, data)],
                         grants := v.grants + [Grant(g, s, caller, key, None)], next := after.v.next)
  {
    var after := DoCreateSecret(v, caller, name, data, key, room);
    if room {
      assert after.v == v.(secrets := v.secrets[v.next := Secret(caller, name, data)],
                           grants := v.grants + [Grant(v.next + 1, v.next, caller, key, None)], next := after.v.next);
    }
  }

  // Only the owner edits a secret, and only one that no workflow manages.
  lemma SecretEdited(v: Vault, now: int, caller: string, secret: nat, name: string, data: string, room: bool)
    ensures DoUpdateSecret(v, now, caller, secret, name, data, room) ==
      if !Owns(v, caller, secret) then Answer(v, Refusal(v, secret, caller, now))
      else if !Free(v, secret) then Answer(v, 400)
      else if !room then Answer(v, 413)
      else Answer(v.(secrets := v.secrets[secret := Secret(v.secrets[secret].owner, name, data)]), 200)
  {
    FreeIsUnmanaged(v, secret);
  }

  // Only the owner deletes a secret, only one that no workflow manages, and with it
  // every grant to it and no other.
  lemma SecretDeleted(v: Vault, now: int, caller: string, secret: nat)
    ensures var after := DoDeleteSecret(v, now, caller, secret);
      if !Owns(v, caller, secret) then after == Answer(v, Refusal(v, secret, caller, now))
      else if !Free(v, secret) then after == Answer(v, 400)
      else
        && after.status == 200 && after.v == v.(secrets := v.secrets - {secret}, grants := after.v.grants)
        && forall g :: g in after.v.grants <==> g in v.grants && g.secret != secret
  {
    FreeIsUnmanaged(v, secret);
  }

  function Expiry(now: int, expiresIn: Option<nat>): Option<int> {
    if expiresIn == None || expiresIn == Some(0) then None else Some(now + expiresIn.value)
  }

  function ShareStatus(v: Vault, now: int, caller: string, secret: nat, grantee: string): nat {
    if !Owns(v, caller, secret) then Refusal(v, secret, caller, now)
    else if !Free(v, secret) || Lower(caller) == Lower(grantee) then 400
    else if Lower(grantee) !in v.users then 404 else 200
  }

  lemma ShareDecided(v: Vault, now: int, caller: string, secret: nat, grantee: string, key: string, expiresIn: Option<nat>)
    ensures DoShare(v, now, caller, secret, grantee, key, expiresIn)
         == var status := ShareStatus(v, now, caller, secret, grantee);
            Answer(if status == 200 then Upsert(v, secret, Lower(grantee), key, Expiry(now, expiresIn)) else v, status)
  {
    FreeIsUnmanaged(v, secret);
  }

  // Only the owner opens a secret, only one that no workflow manages, only to somebody
  // else, and only to an active account. That account then holds one grant with the key
  // and the expiry that were sent, and every other grant is as it was.
  lemma SecretShared(v: Vault, now: int, caller: string, secret: nat, grantee: string, key: string, expiresIn: Option<nat>)
    ensures var after := DoShare(v, now, caller, secret, grantee, key, expiresIn);
      && after.status == ShareStatus(v, now, caller, secret, grantee)
      && (after.status != 200 ==> after.v == v)
      && (after.status == 200 ==>
            && after.v == v.(grants := after.v.grants, next := after.v.next)
            && Regrants(v.grants, after.v.grants, secret, Lower(grantee), key, Expiry(now, expiresIn)))
  {
    ShareDecided(v, now, caller, secret, grantee, key, expiresIn);
    Upserted(v, secret, Lower(grantee), key, Expiry(now, expiresIn));
  }

  // One grant for a pair, as it was sent; and the grants of every other pair.
  ghost predicate Regrants(before: seq<Grant>, after: seq<Grant>, secret: nat, grantee: string, key: string, expiresAt: Option<int>) {
    && (exists g :: g in after && g.secret == secret && g.grantee == grantee)
    && (forall g :: g in after && g.secret == secret && g.grantee == grantee ==> g.key == key && g.expiresAt == expiresAt)
    && (forall g: Grant :: g.secret != secret || g.grantee != grantee ==> (g in after <==> g in before))
  }

  lemma Replaced(before: seq<Grant>, secret: nat, grantee: string, key: string, expiresAt: Option<int>, held: Grant)
    requires held in before && held.secret == secret && held.grantee == grantee
    ensures Regrants(before, Map(Regrant(secret, grantee, key, expiresAt), before), secret, grantee, key, expiresAt)
  {
    var f := Regrant(secret, grantee, key, expiresAt);
    var after := Map(f, before);
    InMap(f, before, held);
    assert f(held) in after;
    forall x | x in after
      ensures x.secret == secret && x.grantee == grantee ==> x.key == key && x.expiresAt == expiresAt
      ensures x.secret != secret || x.grantee != grantee ==> x in before
    {
      var y := MapMember(f, before, x);
    }
    forall x | x in before && (x.secret != secret || x.grantee != grantee) ensures x in after {
      InMap(f, before, x);
    }
  }

  lemma Added(before: seq<Grant>, g: Grant)
    requires forall x :: x in before ==> x.secret != g.secret || x.grantee != g.grantee
    ensures Regrants(before, before + [g], g.secret, g.grantee, g.key, g.expiresAt)
  {
    assert (before + [g])[|before|] == g;
  }

  lemma Upserted(v: Vault, secret: nat, grantee: string, key: string, expiresAt: Option<int>)
    ensures var after := Upsert(v, secret, grantee, key, expiresAt);
      after == v.(grants := after.grants, next := after.next)
      && Regrants(v.grants, after.grants, secret, grantee, key, expiresAt)
  {
    if exists g :: g in v.grants && g.secret == secret && g.grantee == grantee {
      var g :| g in v.grants && g.secret == secret && g.grantee == grantee;
      Replaced(v.grants, secret, grantee, key, expiresAt, g);
    } else {
      Added(v.grants, Grant(v.next, secret, grantee, key, expiresAt));
    }
  }

  // The grantee and the owner may revoke a grant, but not the owner's own, and none on
  // a secret that a workflow manages; the other grants stay.
  lemma GrantRevoked(v: Vault, now: int, caller: string, grant: nat, g: Grant)
    requires g in v.grants && g.id == grant && forall x :: x in v.grants && x.id == grant ==> x == g
    ensures var after := DoRevoke(v, now, caller, grant);
      if Lower(g.grantee) != Lower(caller) && !Owns(v, caller, g.secret) then after == Answer(v, Refusal(v, g.secret, caller, now))
      else if Owns(v, g.grantee, g.secret) || !Free(v, g.secret) then after == Answer(v, 400)
      else
        && after.status == 200 && after.v == v.(grants := after.v.grants)
        && forall x :: x in after.v.grants <==> x in v.grants && x != g
  {
    FreeIsUnmanaged(v, g.secret);
    assert GrantAt(v, grant) == Some(g);
  }

  lemma NothingToRevoke(v: Vault, now: int, caller: string, grant: nat)
    requires forall x :: x in v.grants ==> x.id != grant
    ensures DoRevoke(v, now, caller, grant) == Answer(v, 404)
  {
  }

  // A purge deletes the expired grants of the secret and of the grantee it names, or of
  // all, and no others.
  lemma GrantsPurged(env: Env, v: Vault, now: int, ofSecret: Option<nat>, ofGrantee: Option<string>)
    ensures var after := Handle(env, v, now, PurgeGrants(ofSecret, ofGrantee));
      && after.status == 200 && after.v == v.(grants := after.v.grants)
      && forall g :: g in after.v.grants <==>
           && g in v.grants
           && !(&& g.expiresAt.Some? && g.expiresAt.value <= now
                && (ofSecret.Some? ==> g.secret == ofSecret.value)
                && (ofGrantee.Some? ==> g.grantee == Lower(ofGrantee.value)))
  {
  }

  // ---- Workflows ----

  // The row a signer's approval changes: their own, and nothing of it but the approval.
  ghost predicate Approves(before: seq<Signer>, after: seq<Signer>, w: nat, address: string, signature: string) {
    |after| == |before| && forall i :: 0 <= i < |before| ==>
      after[i] == if before[i].workflow == w && before[i].address == address
                  then before[i].(approval := Some(signature)) else before[i]
  }

  // The rows a release changes: recipients of the workflow for whom a key was sent,
  // each to the key sent for it, the last one of several.
  ghost predicate Releases(before: seq<Recipient>, after: seq<Recipient>, w: nat, keys: seq<(string, string)>) {
    |after| == |before| && forall i :: 0 <= i < |before| ==>
      if before[i].workflow == w && Supplied(keys, Lower(before[i].address)) then
        after[i].key.Some? && after[i] == before[i].(key := after[i].key)
        && Supplies(keys, Lower(before[i].address), after[i].key.value)
      else after[i] == before[i]
  }

  // Every key sent is for a recipient, and none of the recipients ends without one.
  ghost predicate Releasable(v: Vault, w: nat, keys: seq<(string, string)>) {
    (exists r :: r in v.recipients && r.workflow == w) ==>
      && (forall kv :: kv in keys ==> Receives(v, w, Lower(kv.0)))
      && (forall r :: r in v.recipients && r.workflow == w ==>
            if Supplied(keys, Lower(r.address)) then !Supplies(keys, Lower(r.address), "") else r.key.GetOr("") != "")
  }

  lemma SuppliesOnce(kvs: seq<(string, string)>, address: string, k: string, k': string)
    requires Supplies(kvs, address, k) && Supplies(kvs, address, k')
    ensures k == k'
  {
  }

  lemma ReleaseRows(before: seq<Recipient>, w: nat, keys: seq<(string, string)>)
    ensures Releases(before, Map(Release(w, LoweredKeys(keys)), before), w, keys)
  {
    forall i | 0 <= i < |before| {
      LoweredKeysMean(keys, Lower(before[i].address));
    }
  }

  predicate Receives(v: Vault, w: nat, a: string) { exists r :: r in v.recipients && r.workflow == w && Lower(r.address) == a }

  predicate InRows(v: Vault, w: nat, a: string) { exists r :: r in RecipientsOf(v, w) && Lower(r.address) == a }

  lemma ReceivesInRows(v: Vault, w: nat, a: string)
    ensures Receives(v, w, a) <==> InRows(v, w, a)
  {
    if Receives(v, w, a) {
      var r :| r in v.recipients && r.workflow == w && Lower(r.address) == a;
      assert r in RecipientsOf(v, w);
    }
  }

  lemma ForRecipients(v: Vault, w: nat, keys: seq<(string, string)>)
    ensures (forall a :: a in LoweredKeys(keys) ==> InRows(v, w, a)) <==> forall kv :: kv in keys ==> Receives(v, w, Lower(kv.0))
  {
    if forall a :: a in LoweredKeys(keys) ==> InRows(v, w, a) {
      forall kv | kv in keys ensures Receives(v, w, Lower(kv.0)) {
        LoweredKeysMean(keys, Lower(kv.0));
        assert InRows(v, w, Lower(kv.0));
        ReceivesInRows(v, w, Lower(kv.0));
      }
    }
    if forall kv :: kv in keys ==> Receives(v, w, Lower(kv.0)) {
      forall a | a in LoweredKeys(keys) ensures InRows(v, w, a) {
        LoweredKeysMean(keys, a);
        var kv :| kv in keys && Lower(kv.0) == a;
        assert Receives(v, w, Lower(kv.0));
        ReceivesInRows(v, w, a);
      }
    }
  }

  lemma EndsKeyed(w: nat, keys: seq<(string, string)>, r: Recipient)
    requires r.workflow == w
    ensures Release(w, LoweredKeys(keys))(r).key.GetOr("") != "" <==>
            if Supplied(keys, Lower(r.address)) then !Supplies(keys, Lower(r.address), "") else r.key.GetOr("") != ""
  {
    LoweredKeysMean(keys, Lower(r.address));
    if Supplied(keys, Lower(r.address)) && Supplies(keys, Lower(r.address), "") {
      SuppliesOnce(keys, Lower(r.address), "", LoweredKeys(keys)[Lower(r.address)]);
    }
  }

  lemma ReleasableIs(v: Vault, w: nat, keys: seq<(string, string)>)
    ensures MayRelease(v, w, LoweredKeys(keys)) <==> Releasable(v, w, keys)
  {
    var rows := RecipientsOf(v, w);
    assert rows != [] <==> exists r :: r in v.recipients && r.workflow == w by {
      if rows != [] { assert rows[0] in rows; }
    }
    forall r | r in v.recipients && r.workflow == w
      ensures Release(w, LoweredKeys(keys))(r).key.GetOr("") != "" <==>
              if Supplied(keys, Lower(r.address)) then !Supplies(keys, Lower(r.address), "") else r.key.GetOr("") != ""
    {
      EndsKeyed(w, keys, r);
    }
    ForRecipients(v, w, keys);
    assert forall a :: InRows(v, w, a) <==> exists r :: r in rows && Lower(r.address) == a;
  }

  // When an approval is accepted, and what each refusal is told, in the order in which
  // the server looks: is there such a workflow, is the caller one of its signers, is it
  // pending, have they not signed it, does the signature verify over the ciphertext
  // stored; and keys for recipients come exactly with the approval that completes it.
  ghost predicate Completing(v: Vault, w: nat)
    requires w in v.workflows
  {
    Tally(Ballots(v, w)) + 1 >= Needed(v.workflows[w], Ballots(v, w))
  }

  ghost function SignStatus(env: Env, v: Vault, caller: string, w: nat, signature: string, keys: seq<(string, string)>): nat {
    if w !in v.workflows then 404
    else if !(exists s :: s in v.signers && s.workflow == w && s.address == Lower(caller)) then 403
    else if v.workflows[w].status != Pending then 400
    else if exists s :: s in v.signers && s.workflow == w && s.address == Lower(caller) && s.approval.Some? then 400
    else if v.workflows[w].secret !in v.secrets then 404
    else if !env.approves(w, v.workflows[w].secret, v.secrets[v.workflows[w].secret].data, caller, signature) then 400
    else if Completing(v, w) then (if Releasable(v, w, keys) then 200 else 400)
    else if keys == [] then 200 else 400
  }

  lemma SignDecided(env: Env, v: Vault, caller: string, w: nat, signature: string, keys: seq<(string, string)>)
    ensures DoSign(env, v, caller, w, signature, keys).status == SignStatus(env, v, caller, w, signature, keys)
    ensures DoSign(env, v, caller, w, signature, keys).status != 200 ==> DoSign(env, v, caller, w, signature, keys).v == v
  {
    if w in v.workflows { CountsAgree(v, w); }
    ReleasableIs(v, w, keys);
  }

  lemma SignWritten(env: Env, v: Vault, caller: string, w: nat, signature: string, keys: seq<(string, string)>)
    requires DoSign(env, v, caller, w, signature, keys).status == 200
    ensures w in v.workflows
    ensures DoSign(env, v, caller, w, signature, keys).v ==
      if Completing(v, w) then WithRelease(WithApproval(v, w, caller, signature), w, LoweredKeys(keys))
      else WithApproval(v, w, caller, signature)
  {
    CountsAgree(v, w);
  }

  // What an accepted approval writes: the caller's own row; and if it completes the
  // workflow, the status and the recipients' keys as they were sent. Nothing else.
  lemma WorkflowSigned(env: Env, v: Vault, caller: string, w: nat, signature: string, keys: seq<(string, string)>)
    requires SignStatus(env, v, caller, w, signature, keys) == 200
    ensures var after := DoSign(env, v, caller, w, signature, keys).v;
      && Approves(v.signers, after.signers, w, Lower(caller), signature)
      && if Completing(v, w) then
           && after == v.(signers := after.signers, recipients := after.recipients,
                          workflows := v.workflows[w := v.workflows[w].(status := Completed)])
           && Releases(v.recipients, after.recipients, w, keys)
         else after == v.(signers := after.signers)
  {
    SignDecided(env, v, caller, w, signature, keys);
    SignWritten(env, v, caller, w, signature, keys);
    ReleaseRows(v.recipients, w, keys);
  }

  // A signer of a pending workflow may reject it, and is on record for it.
  lemma WorkflowRejected(v: Vault, caller: string, w: nat)
    ensures DoReject(v, caller, w) ==
      if w !in v.workflows then Answer(v, 404)
      else if !(exists s :: s in v.signers && s.workflow == w && s.address == Lower(caller)) then Answer(v, 403)
      else if v.workflows[w].status != Pending then Answer(v, 400)
      else Answer(v.(workflows := v.workflows[
                       w := v.workflows[w].(status := Rejected, rejectedBy := Some(Lower(caller)))]), 200)
  {
  }

  // The owner may delete a workflow that is not completed: its rows, its secret and the
  // grants to that secret go with it, and nothing else.
  lemma WorkflowDeleted(v: Vault, caller: string, w: nat)
    ensures var after := DoDeleteWorkflow(v, caller, w);
      if w !in v.workflows then after == Answer(v, 404)
      else if Lower(v.workflows[w].owner) != Lower(caller) then after == Answer(v, 403)
      else if v.workflows[w].status == Completed then after == Answer(v, 400)
      else
        var secret := v.workflows[w].secret;
        && after.status == 200
        && after.v == v.(workflows := v.workflows - {w}, secrets := v.secrets - {secret}, grants := after.v.grants,
                         signers := after.v.signers, recipients := after.v.recipients)
        && (forall g :: g in after.v.grants <==> g in v.grants && g.secret != secret)
        && (forall s :: s in after.v.signers <==> s in v.signers && s.workflow != w)
        && (forall r :: r in after.v.recipients <==> r in v.recipients && r.workflow != w)
  {
    if w in v.workflows { assert SecretsOf(v, {w}) == {v.workflows[w].secret}; }
  }

  // ---- Leaving for good ----

  predicate Ends(v: Vault, address: string, w: nat) {
    w in v.workflows && v.workflows[w].owner == address && v.workflows[w].status != Completed
  }

  // An erased account takes with it its workflows that are not completed, its secrets
  // that no other workflow manages, the grants to any of those secrets and its own
  // grants, and its place as a recipient where nothing was released to it. Its approvals
  // stay, and so does everything of anybody else.
  lemma AccountErased(v: Vault, address: string)
    ensures var after := DoErase(v, address);
      && after.users == v.users - {address} && after.next == v.next
      && (forall w :: w in after.workflows <==> w in v.workflows && !Ends(v, address, w))
      && (forall w :: w in after.workflows ==> after.workflows[w] == v.workflows[w])
      && (forall s :: s in after.signers <==> s in v.signers && !Ends(v, address, s.workflow))
      && (forall r :: r in after.recipients <==>
            && r in v.recipients && !Ends(v, address, r.workflow)
            && (r.address == address ==> r.workflow in v.workflows && v.workflows[r.workflow].status == Completed))
  {
  }

  ghost predicate Goes(v: Vault, address: string, s: nat) {
    || (exists w :: Ends(v, address, w) && v.workflows[w].secret == s)
    || (s in v.secrets && v.secrets[s].owner == address
        && forall w :: w in v.workflows && v.workflows[w].secret == s ==> Ends(v, address, w))
  }

  lemma SecretsErased(v: Vault, address: string)
    ensures var after := DoErase(v, address);
      && (forall s :: s in after.secrets <==> s in v.secrets && !Goes(v, address, s))
      && (forall s :: s in after.secrets ==> after.secrets[s] == v.secrets[s])
  {
    MultisigErased(v, address);
    var left := EraseMultisig(v, address);
    forall s ensures s in UnmanagedOf(left, address) <==>
      s in v.secrets && v.secrets[s].owner == address && s !in SecretsOf(v, DeletableOf(v, address))
      && forall w :: w in v.workflows && v.workflows[w].secret == s ==> Ends(v, address, w)
    {
      FreeIsUnmanaged(left, s);
    }
  }

  lemma GrantsErased(v: Vault, address: string)
    ensures forall g :: g in DoErase(v, address).grants <==>
      && g in v.grants && g.grantee != address && !Goes(v, address, g.secret)
  {
    MultisigErased(v, address);
    var left := EraseMultisig(v, address);
    forall s ensures s in UnmanagedOf(left, address) || s in SecretsOf(v, DeletableOf(v, address)) <==> Goes(v, address, s) {
      FreeIsUnmanaged(left, s);
    }
  }

  lemma MultisigErased(v: Vault, address: string)
    ensures var left := EraseMultisig(v, address);
      && (forall w :: w in left.workflows <==> w in v.workflows && !Ends(v, address, w))
      && (forall w :: w in left.workflows ==> left.workflows[w] == v.workflows[w])
      && left.secrets == v.secrets - SecretsOf(v, DeletableOf(v, address))
      && left.grants == Filter(NotOnSecrets(SecretsOf(v, DeletableOf(v, address))), v.grants)
      && (forall s :: s in SecretsOf(v, DeletableOf(v, address)) <==> exists w :: Ends(v, address, w) && v.workflows[w].secret == s)
  {
  }

  // ---- Who can change a row, whatever is asked ----

  lemma ErasedIsTheOwners(env: Env, v: Vault, address: string, s: nat)
    requires Inv(env, v) && s in v.secrets
    requires var after := DoErase(v, address); s !in after.secrets || after.secrets[s] != v.secrets[s]
    ensures address == v.secrets[s].owner
  {
    SecretsErased(v, address);
    if exists w :: Ends(v, address, w) && v.workflows[w].secret == s {
      var w :| Ends(v, address, w) && v.workflows[w].secret == s;
      assert WorkflowOk(env, v, w);
    }
  }

  lemma EditsAreTheOwners(env: Env, v: Vault, now: int, rq: Request, s: nat)
    requires Formed(v) && s in v.secrets && (rq.UpdateSecret? || rq.DeleteSecret?)
    requires var after := Handle(env, v, now, rq).v; s !in after.secrets || after.secrets[s] != v.secrets[s]
    ensures rq.secret == s && Lower(rq.caller) == v.secrets[s].owner && Free(v, s)
  {
    assert Lower(v.secrets[s].owner) == v.secrets[s].owner;
    match rq
    case UpdateSecret(caller, secret, name, data, room) => SecretEdited(v, now, caller, secret, name, data, room);
    case DeleteSecret(caller, secret) => SecretDeleted(v, now, caller, secret);
  }

  lemma DeletedIsTheOwners(env: Env, v: Vault, caller: string, w: nat, s: nat)
    requires Inv(env, v) && s in v.secrets
    requires var after := DoDeleteWorkflow(v, caller, w).v; s !in after.secrets || after.secrets[s] != v.secrets[s]
    ensures w in v.workflows && v.workflows[w].secret == s && v.workflows[w].status != Completed
    ensures Lower(caller) == v.secrets[s].owner
  {
    WorkflowDeleted(v, caller, w);
    assert w in v.workflows ==> WorkflowOk(env, v, w);
  }

  lemma CreationsSpare(v: Vault, rq: Request, s: nat)
    requires Formed(v) && s in v.secrets && (rq.CreateSecret? || rq.CreateWorkflow?)
    ensures rq.CreateWorkflow? ==> s in DoCreateWorkflow(v, rq).v.secrets && DoCreateWorkflow(v, rq).v.secrets[s] == v.secrets[s]
    ensures rq.CreateSecret? ==>
      var after := DoCreateSecret(v, rq.caller, rq.name, rq.data, rq.key, rq.room).v;
      s in after.secrets && after.secrets[s] == v.secrets[s]
  {
    if rq.CreateWorkflow? { var w, made := WorkflowAsAsked(v, rq); }
  }

  // Main result: a stored secret changes or goes only at its owner's request: an edit or
  // a delete while no workflow manages it, the deletion of the uncompleted workflow it is
  // in, or the end of the account.
  lemma SecretsAreTheOwners(env: Env, v: Vault, now: int, rq: Request, s: nat)
    requires Inv(env, v) && s in v.secrets
    requires var after := Handle(env, v, now, rq).v; s !in after.secrets || after.secrets[s] != v.secrets[s]
    ensures var owner := v.secrets[s].owner;
      || ((rq.UpdateSecret? || rq.DeleteSecret?) && rq.secret == s && Lower(rq.caller) == owner && Free(v, s))
      || (rq.DeleteWorkflow? && rq.workflow in v.workflows && v.workflows[rq.workflow].secret == s
          && Lower(rq.caller) == owner && v.workflows[rq.workflow].status != Completed)
      || (rq.EraseAccount? && rq.address == owner)
  {
    match rq
    case DeleteWorkflow(caller, w) => DeletedIsTheOwners(env, v, caller, w, s);
    case EraseAccount(address) => ErasedIsTheOwners(env, v, address, s);
    case CreateWorkflow(_, _, _, _, _, _, _, _, _, _) => CreationsSpare(v, rq, s);
    case CreateSecret(_, _, _, _, _) => CreationsSpare(v, rq, s);
    case UpdateSecret(_, _, _, _, _) => EditsAreTheOwners(env, v, now, rq, s);
    case DeleteSecret(_, _) => EditsAreTheOwners(env, v, now, rq, s);
    case _ => OthersSpare(env, v, now, rq);
  }

  predicate TouchesSecrets(rq: Request) {
    rq.CreateSecret? || rq.CreateWorkflow? || rq.UpdateSecret? || rq.DeleteSecret? || rq.DeleteWorkflow? || rq.EraseAccount?
  }

  lemma OthersSpare(env: Env, v: Vault, now: int, rq: Request)
    requires !TouchesSecrets(rq)
    ensures Handle(env, v, now, rq).v.secrets == v.secrets
  {
  }

  lemma CreatedGrant(v: Vault, rq: Request, g: Grant)
    requires Formed(v) && rq.CreateWorkflow? && g in DoCreateWorkflow(v, rq).v.grants && g !in v.grants
    ensures g.grantee == rq.caller && g.secret !in v.secrets && g.key == rq.key
  {
    var w, s := WorkflowAsAsked(v, rq);
  }

  lemma ResealedGrant(env: Env, v: Vault, now: int, caller: string, kid: Option<string>, items: seq<Rewrapped>, g: Grant)
    requires g in DoRewrap(env, v, now, caller, kid, items).v.grants
    ensures exists h :: h in v.grants && g == h.(key := g.key)
  {
    if g in Map(ResealGrant(items), v.grants) {
      var h := MapMember(ResealGrant(items), v.grants, g);
    }
    assert g == g.(key := g.key);
  }

  // Main result: a grant that was not there before is its maker's own, on a secret made
  // with it; or one its owner shared, while no workflow managed it, with the account that
  // was named; or the grantee's own one with a new wrap.
  lemma GrantsAreTheOwners(env: Env, v: Vault, now: int, rq: Request, g: Grant)
    requires Formed(v) && g in Handle(env, v, now, rq).v.grants && g !in v.grants
    ensures || ((rq.CreateSecret? || rq.CreateWorkflow?) && g.grantee == rq.caller && g.secret !in v.secrets && g.key == rq.key)
            || (rq.Share? && g.secret == rq.secret && g.grantee == Lower(rq.grantee) && g.key == rq.key
                && Owns(v, rq.caller, g.secret) && Free(v, g.secret))
            || (rq.Rewrap? && exists h :: h in v.grants && g == h.(key := g.key))
  {
    match rq
    case CreateWorkflow(_, _, _, _, _, _, _, _, _, _) => CreatedGrant(v, rq, g);
    case Share(caller, secret, grantee, key, expiresIn) => SecretShared(v, now, caller, secret, grantee, key, expiresIn);
    case Rewrap(caller, kid, items) => ResealedGrant(env, v, now, caller, kid, items, g);
    case EraseAccount(address) => GrantsErased(v, address);
    case _ =>
  }

  // Main result: an approval that was not there before is the caller's own, given by the
  // signature that was sent.
  lemma ApprovalsAreTheSigners(env: Env, v: Vault, now: int, rq: Request, s: Signer)
    requires s in Handle(env, v, now, rq).v.signers && s.approval.Some?
    requires forall x :: x in v.signers ==> x.workflow != s.workflow || x.address != s.address || x.approval != s.approval
    ensures rq.Sign? && s.workflow == rq.workflow && s.address == Lower(rq.caller) && s.approval == Some(rq.signature)
  {
    match rq
    case CreateWorkflow(_, _, _, _, _, _, _, _, _, _) => CreatedUnsigned(v, rq, s);
    case Sign(caller, w, signature, keys) =>
      SignDecided(env, v, caller, w, signature, keys);
      if SignStatus(env, v, caller, w, signature, keys) == 200 {
        WorkflowSigned(env, v, caller, w, signature, keys);
        var i :| 0 <= i < |v.signers| && DoSign(env, v, caller, w, signature, keys).v.signers[i] == s;
        assert v.signers[i] in v.signers;
      }
    case Rewrap(caller, kid, items) => ResealedApproval(env, v, now, caller, kid, items, s);
    case EraseAccount(address) => AccountErased(v, address);
    case _ =>
  }

  lemma CreatedUnsigned(v: Vault, rq: Request, s: Signer)
    requires rq.CreateWorkflow? && s in DoCreateWorkflow(v, rq).v.signers && s.approval.Some?
    ensures s in v.signers
  {
    var w, secret := WorkflowAsAsked(v, rq);
    var after := DoCreateWorkflow(v, rq).v;
    if after.signers != v.signers { AddedOnly(v.signers, after.signers, s); }
  }

  lemma ResealedApproval(env: Env, v: Vault, now: int, caller: string, kid: Option<string>, items: seq<Rewrapped>, s: Signer)
    requires s in DoRewrap(env, v, now, caller, kid, items).v.signers
    ensures exists x :: x in v.signers && x.workflow == s.workflow && x.address == s.address && x.approval == s.approval
  {
    if s in Map(ResealSigner(items), v.signers) {
      var x := MapMember(ResealSigner(items), v.signers, s);
    }
  }
}
