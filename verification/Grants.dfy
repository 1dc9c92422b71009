/** Grants over time: one per secret and grantee, opened by sharing, closed by revoking. */
module Grants {
  import opened Text
  import opened Lists
  import opened Wraps
  import opened Vaults
  import opened Multisig

  // The constraint that re-sharing upserts against.
  predicate OneGrantEach(grants: seq<Grant>) {
    forall i, j :: 0 <= i < j < |grants| ==> grants[i].secret != grants[j].secret || grants[i].grantee != grants[j].grantee
  }

  predicate OneIdEach(grants: seq<Grant>) {
    forall i, j :: 0 <= i < j < |grants| ==> grants[i].id != grants[j].id
  }

  lemma {:induction false} FilterOneEach(p: Grant -> bool, grants: seq<Grant>)
    requires OneGrantEach(grants)
    ensures OneGrantEach(Filter(p, grants))
  {
    if grants != [] {
      FilterOneEach(p, grants[1..]);
      var tail := Filter(p, grants[1..]);
      forall j | 0 <= j < |tail| ensures tail[j].secret != grants[0].secret || tail[j].grantee != grants[0].grantee {
        assert tail[j] in grants[1..];
      }
    }
  }

  lemma MapOneEach(f: Grant -> Grant, grants: seq<Grant>)
    requires OneGrantEach(grants) && forall g :: g in grants ==> f(g).secret == g.secret && f(g).grantee == g.grantee
    ensures OneGrantEach(Map(f, grants))
  {
    forall i | 0 <= i < |grants| ensures f(grants[i]).secret == grants[i].secret && f(grants[i]).grantee == grants[i].grantee {
      assert grants[i] in grants;
    }
  }

  lemma UpsertOneEach(v: Vault, secret: nat, grantee: string, key: string, expiresAt: Option<int>)
    requires OneGrantEach(v.grants)
    ensures OneGrantEach(Upsert(v, secret, grantee, key, expiresAt).grants)
  {
    if exists g :: g in v.grants && g.secret == secret && g.grantee == grantee {
      MapOneEach(Regrant(secret, grantee, key, expiresAt), v.grants);
    } else {
    }
  }

  lemma EraseOneEach(v: Vault, address: string)
    requires OneGrantEach(v.grants)
    ensures OneGrantEach(DoErase(v, address).grants)
  {
    var v1 := EraseMultisig(v, address);
    FilterOneEach(NotOnSecrets(SecretsOf(v, DeletableOf(v, address))), v.grants);
    FilterOneEach(NotOnSecrets(UnmanagedOf(v1, address)), v1.grants);
    FilterOneEach(NotHeldBy(address), WithoutSecrets(v1, UnmanagedOf(v1, address)).grants);
  }

  lemma ShareOneEach(v: Vault, now: int, caller: string, secret: nat, grantee: string, key: string, expiresIn: Option<nat>)
    requires OneGrantEach(v.grants)
    ensures OneGrantEach(DoShare(v, now, caller, secret, grantee, key, expiresIn).v.grants)
  {
    UpsertOneEach(v, secret, Lower(grantee), key, if expiresIn.GetOr(0) == 0 then None else Some(now + expiresIn.value));
  }

  lemma RevokeOneEach(v: Vault, now: int, caller: string, grant: nat)
    requires OneGrantEach(v.grants)
    ensures OneGrantEach(DoRevoke(v, now, caller, grant).v.grants)
  {
    FilterOneEach(OtherGrants(grant), v.grants);
  }

  lemma DeleteOneEach(v: Vault, now: int, caller: string, secret: nat, w: nat)
    requires OneGrantEach(v.grants)
    ensures OneGrantEach(DoDeleteSecret(v, now, caller, secret).v.grants) && OneGrantEach(DoDeleteWorkflow(v, caller, w).v.grants)
  {
    FilterOneEach(NotOnSecrets({secret}), v.grants);
    FilterOneEach(NotOnSecrets(SecretsOf(v, {w})), v.grants);
  }

  lemma CreateOneEach(v: Vault, rq: Request)
    requires OneGrantEach(v.grants) && Formed(v) && rq.CreateWorkflow?
    ensures OneGrantEach(DoCreateWorkflow(v, rq).v.grants)
  {
  }

  lemma RewrapOneEach(env: Env, v: Vault, now: int, caller: string, kid: Option<string>, items: seq<Rewrapped>)
    requires OneGrantEach(v.grants)
    ensures OneGrantEach(DoRewrap(env, v, now, caller, kid, items).v.grants)
  {
    MapOneEach(ResealGrant(items), v.grants);
  }

  lemma PurgeOneEach(v: Vault, now: int, ofSecret: Option<nat>, ofGrantee: Option<string>)
    requires OneGrantEach(v.grants)
    ensures OneGrantEach(Filter(Unexpired(ofSecret, ofGrantee, now), v.grants))
  {
    FilterOneEach(Unexpired(ofSecret, ofGrantee, now), v.grants);
  }

  lemma SameOneEach(v: Vault, v': Vault)
    requires OneGrantEach(v.grants) && v'.grants == v.grants
    ensures OneGrantEach(v'.grants)
  {
  }

  lemma SecretRequestOneEach(env: Env, v: Vault, now: int, rq: Request)
    requires OneGrantEach(v.grants) && Formed(v)
    requires rq.CreateSecret? || rq.UpdateSecret? || rq.DeleteSecret? || rq.Share? || rq.Revoke?
    ensures OneGrantEach(Handle(env, v, now, rq).v.grants)
  {
    match rq
    case CreateSecret(caller, name, data, key, _) =>
    case UpdateSecret(caller, secret, name, data, room) => SameOneEach(v, DoUpdateSecret(v, now, caller, secret, name, data, room).v);
    case DeleteSecret(caller, secret) => DeleteOneEach(v, now, caller, secret, 0);
    case Share(caller, secret, grantee, key, expiresIn) => ShareOneEach(v, now, caller, secret, grantee, key, expiresIn);
    case Revoke(caller, grant) => RevokeOneEach(v, now, caller, grant);
  }

  lemma UngrantedOneEach(env: Env, v: Vault, now: int, rq: Request)
    requires OneGrantEach(v.grants) && (rq.Sign? || rq.Reject? || rq.LeaveAccount? || rq.Join?)
    ensures OneGrantEach(Handle(env, v, now, rq).v.grants)
  {
    match rq
    case Sign(caller, w, signature, keys) => SameOneEach(v, DoSign(env, v, caller, w, signature, keys).v);
    case Reject(caller, w) => SameOneEach(v, DoReject(v, caller, w).v);
    case LeaveAccount(address) => SameOneEach(v, v.(users := v.users - {address}));
    case Join(address) => SameOneEach(v, v.(users := v.users + {address}));
  }

  // Main result: every request leaves at most one grant per secret and grantee.
  lemma GrantsStayUnique(env: Env, v: Vault, now: int, rq: Request)
    requires OneGrantEach(v.grants) && Formed(v)
    ensures OneGrantEach(Handle(env, v, now, rq).v.grants)
  {
    match rq
    case PurgeGrants(ofSecret, ofGrantee) => PurgeOneEach(v, now, ofSecret, ofGrantee);
    case CreateWorkflow(_, _, _, _, _, _, _, _, _, _) => CreateOneEach(v, rq);
    case DeleteWorkflow(caller, w) => DeleteOneEach(v, now, caller, 0, w);
    case Rewrap(caller, kid, items) => RewrapOneEach(env, v, now, caller, kid, items);
    case EraseAccount(address) => EraseOneEach(v, address);
    case Sign(_, _, _, _) => UngrantedOneEach(env, v, now, rq);
    case Reject(_, _) => UngrantedOneEach(env, v, now, rq);
    case LeaveAccount(_) => UngrantedOneEach(env, v, now, rq);
    case Join(_) => UngrantedOneEach(env, v, now, rq);
    case _ => SecretRequestOneEach(env, v, now, rq);
  }

  // ---- What sharing, revoking and expiring do to a reader ----

  lemma Regranted(v: Vault, secret: nat, grantee: string, key: string, expiresAt: Option<int>)
    ensures exists g ::
      && g in Upsert(v, secret, grantee, key, expiresAt).grants
      && g.secret == secret && g.grantee == grantee && g.expiresAt == expiresAt
  {
    var after := Upsert(v, secret, grantee, key, expiresAt).grants;
    if exists g :: g in v.grants && g.secret == secret && g.grantee == grantee {
      var g :| g in v.grants && g.secret == secret && g.grantee == grantee;
      InMap(Regrant(secret, grantee, key, expiresAt), v.grants, g);
      assert Regrant(secret, grantee, key, expiresAt)(g) in after;
    } else {
      assert after[|v.grants|] == Grant(v.next, secret, grantee, key, expiresAt);
    }
  }

  // Main result: an accepted share lets the grantee in until exactly its expiry,
  // whatever an earlier share had said.
  lemma ShareOpens(v: Vault, now: int, caller: string, secret: nat, grantee: string, key: string, expiresIn: Option<nat>, later: int)
    requires OneGrantEach(v.grants) && DoShare(v, now, caller, secret, grantee, key, expiresIn).status == 200
    ensures HasLiveGrant(DoShare(v, now, caller, secret, grantee, key, expiresIn).v, secret, grantee, later)
       <==> expiresIn.GetOr(0) == 0 || now + expiresIn.value > later
  {
    var expiresAt := if expiresIn.GetOr(0) == 0 then None else Some(now + expiresIn.value);
    var after := Upsert(v, secret, Lower(grantee), key, expiresAt);
    Regranted(v, secret, Lower(grantee), key, expiresAt);
    UpsertOneEach(v, secret, Lower(grantee), key, expiresAt);
    var g :| g in after.grants && g.secret == secret && g.grantee == Lower(grantee) && g.expiresAt == expiresAt;
    forall x | x in after.grants && x.secret == secret && x.grantee == Lower(grantee) ensures x == g {
    }
  }

  // Main result: an accepted revocation closes the secret to the grantee at every
  // time: no second grant is left serving the key.
  lemma RevokeCloses(v: Vault, now: int, caller: string, grant: nat, later: int)
    requires OneGrantEach(v.grants) && OneIdEach(v.grants) && DoRevoke(v, now, caller, grant).status == 200
    requires forall g :: g in v.grants ==> Lower(g.grantee) == g.grantee
    ensures GrantAt(v, grant).Some?
    ensures !HasLiveGrant(DoRevoke(v, now, caller, grant).v, GrantAt(v, grant).value.secret, GrantAt(v, grant).value.grantee, later)
  {
    var g := GrantAt(v, grant).value;
    forall x | x in v.grants && x.secret == g.secret && x.grantee == g.grantee ensures x == g {
    }
  }

  // Nobody's access changes when expired grants are deleted.
  lemma PurgeIsInvisible(env: Env, v: Vault, now: int, ofSecret: Option<nat>, ofGrantee: Option<string>,
                         secret: nat, address: string, later: int)
    requires now <= later
    ensures HasLiveGrant(Handle(env, v, now, PurgeGrants(ofSecret, ofGrantee)).v, secret, address, later)
       <==> HasLiveGrant(v, secret, address, later)
  {
    var left := Handle(env, v, now, PurgeGrants(ofSecret, ofGrantee)).v;
    if HasLiveGrant(v, secret, address, later) {
      var g :| g in v.grants && g.secret == secret && g.grantee == Lower(address) && IsLive(g, later);
      assert IsLive(g, now) && g in left.grants;
    }
  }

  // The owner's own copy of the key survives every share and every revocation.
  lemma OwnerKeepsGrant(env: Env, v: Vault, now: int, rq: Request, g: Grant)
    requires g in v.grants && g.secret in v.secrets && g.grantee == v.secrets[g.secret].owner && Lower(g.grantee) == g.grantee
    requires OneIdEach(v.grants) && (rq.Share? || rq.Revoke?)
    ensures g in Handle(env, v, now, rq).v.grants
  {
    match rq
    case Share(caller, secret, grantee, key, expiresIn) =>
    case Revoke(caller, grant) =>
  }
}
