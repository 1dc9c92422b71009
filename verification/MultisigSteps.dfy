/** Every request keeps the multisig invariant and the permanence of releases. */
module MultisigSteps {
  import opened Text
  import opened Lists
  import opened Wraps
  import opened Vaults
  import opened Multisig

  // ---- What a step may do to a workflow ----

  // A workflow keeps its owner, secret and threshold, leaves `pending` at most
  // once, and once completed keeps everything: its record, its secret, its
  // ballots and its recipients. Only one that is not completed can be deleted.
  predicate Effect(v: Vault, v': Vault, w: nat)
    requires w in v.workflows
  {
    var before := v.workflows[w];
    if w in v'.workflows then
      var after := v'.workflows[w];
      && after.owner == before.owner && after.secret == before.secret && after.threshold == before.threshold
      && (after.status == before.status || before.status == Pending)
      && (before.status == Completed ==>
            Untouched(v, v', w) && Names(v'.recipients, w) == Names(v.recipients, w))
    else before.status != Completed
  }

  predicate Effects(v: Vault, v': Vault) { forall w :: w in v.workflows ==> Effect(v, v', w) }

  predicate Preserves(env: Env, v: Vault, v': Vault) { Inv(env, v') && Effects(v, v') }

  // One workflow after a step: it still satisfies the invariant, or it was
  // deleted, and either way the step was allowed to do so.
  predicate Passed(env: Env, v: Vault, v': Vault, w: nat)
    requires w in v.workflows
  {
    (w in v'.workflows ==> WorkflowOk(env, v', w)) && Effect(v, v', w)
  }

  lemma Assemble(env: Env, v: Vault, v': Vault)
    requires Formed(v') && forall w :: w in v.workflows ==> Passed(env, v, v', w)
    requires forall w :: w in v'.workflows && w !in v.workflows ==> WorkflowOk(env, v', w)
    ensures Preserves(env, v, v')
  {
    forall w | w in v.workflows ensures (w in v'.workflows ==> WorkflowOk(env, v', w)) && Effect(v, v', w) {
      assert Passed(env, v, v', w);
    }
  }

  // ---- Requests that touch only secrets, grants and accounts ----

  predicate SecretKept(v: Vault, v': Vault, w: nat)
    requires w in v.workflows
  {
    var wf := v.workflows[w];
    && (wf.secret in v.secrets ==> wf.secret in v'.secrets && v'.secrets[wf.secret] == v.secrets[wf.secret])
    && OwnerOnly(v'.grants, wf.secret, wf.owner)
  }

  lemma BesideStep(env: Env, v: Vault, v': Vault)
    requires Inv(env, v) && Formed(v')
    requires v'.workflows == v.workflows && v'.signers == v.signers && v'.recipients == v.recipients
    requires forall w :: w in v.workflows ==> SecretKept(v, v', w)
    ensures Preserves(env, v, v')
  {
    forall w | w in v.workflows ensures WorkflowOk(env, v', w) && Effect(v, v', w) {
      assert WorkflowOk(env, v, w) && SecretKept(v, v', w);
    }
  }

  lemma GrantsStep(env: Env, v: Vault, p: Grant -> bool)
    requires Inv(env, v)
    ensures Preserves(env, v, v.(grants := Filter(p, v.grants)))
  {
    var v' := v.(grants := Filter(p, v.grants));
    forall w | w in v.workflows ensures SecretKept(v, v', w) {
      assert WorkflowOk(env, v, w);
    }
    BesideStep(env, v, v');
  }

  lemma UsersStep(env: Env, v: Vault, users: set<string>)
    requires Inv(env, v) && forall u :: u in users ==> Lower(u) == u
    ensures Preserves(env, v, v.(users := users))
  {
    var v' := v.(users := users);
    forall w | w in v.workflows ensures SecretKept(v, v', w) {
      assert WorkflowOk(env, v, w);
    }
    BesideStep(env, v, v');
  }

  lemma CreateSecretStep(env: Env, v: Vault, caller: string, name: string, data: string, key: string)
    requires Inv(env, v) && caller in v.users
    ensures Preserves(env, v, WithSecret(v, caller, name, data, key))
  {
    var v' := WithSecret(v, caller, name, data, key);
    forall w | w in v.workflows ensures SecretKept(v, v', w) {
      assert WorkflowOk(env, v, w);
    }
    BesideStep(env, v, v');
  }

  lemma UpdateSecretStep(env: Env, v: Vault, secret: nat, name: string, data: string)
    requires Inv(env, v) && secret in v.secrets && !Managed(v, secret)
    ensures Preserves(env, v, v.(secrets := v.secrets[secret := v.secrets[secret].(name := name, data := data)]))
  {
    var v' := v.(secrets := v.secrets[secret := v.secrets[secret].(name := name, data := data)]);
    forall w | w in v.workflows ensures SecretKept(v, v', w) {
      assert WorkflowOk(env, v, w);
    }
    BesideStep(env, v, v');
  }

  // Deleting secrets none of which a workflow manages.
  lemma WithoutSecretsStep(env: Env, v: Vault, gone: set<nat>)
    requires Inv(env, v) && forall s :: s in gone ==> !Managed(v, s)
    ensures Preserves(env, v, WithoutSecrets(v, gone))
  {
    var v' := WithoutSecrets(v, gone);
    forall w | w in v.workflows ensures SecretKept(v, v', w) {
      assert WorkflowOk(env, v, w);
      assert Managed(v, v.workflows[w].secret);
    }
    BesideStep(env, v, v');
  }

  lemma ShareStep(env: Env, v: Vault, secret: nat, grantee: string, key: string, expiresAt: Option<int>)
    requires Inv(env, v) && secret in v.secrets && !Managed(v, secret)
    ensures Preserves(env, v, Upsert(v, secret, grantee, key, expiresAt))
  {
    var v' := Upsert(v, secret, grantee, key, expiresAt);
    UpsertForm(v, secret, grantee, key, expiresAt);
    forall w | w in v.workflows ensures SecretKept(v, v', w) {
      assert WorkflowOk(env, v, w);
      assert v.workflows[w].secret != secret;
      forall g | g in v'.grants && g.secret == v.workflows[w].secret ensures g.grantee == v.workflows[w].owner {
        var g0 := UpsertedFrom(v, secret, grantee, key, expiresAt, g);
      }
    }
    BesideStep(env, v, v');
  }

  // A grant after an upsert is the one written, or one that was there.
  lemma UpsertedFrom(v: Vault, secret: nat, grantee: string, key: string, expiresAt: Option<int>, g: Grant) returns (g0: Grant)
    requires g in Upsert(v, secret, grantee, key, expiresAt).grants && g.secret != secret
    ensures g0 in v.grants && g0.secret == g.secret && g0.grantee == g.grantee
  {
    g0 := g;
    if exists x :: x in v.grants && x.secret == secret && x.grantee == grantee {
      g0 := MapMember(Regrant(secret, grantee, key, expiresAt), v.grants, g);
    }
  }

  lemma UpsertForm(v: Vault, secret: nat, grantee: string, key: string, expiresAt: Option<int>)
    requires Formed(v) && secret in v.secrets
    ensures Formed(Upsert(v, secret, grantee, key, expiresAt))
  {
    var v' := Upsert(v, secret, grantee, key, expiresAt);
    forall g | g in v'.grants ensures g.secret < v'.next {
      if g.secret != secret {
        var g0 := UpsertedFrom(v, secret, grantee, key, expiresAt, g);
      }
    }
  }

  // ---- Creating a workflow ----

  // A draft that passed the checks of the request.
  predicate Drafted(v: Vault, d: Draft) {
    && d.owner in v.users
    && d.signers != [] && 1 <= d.threshold <= |d.signers|
    && (forall i, j :: 0 <= i < j < |d.signers| ==> d.signers[i] != d.signers[j])
    && (forall a :: a in d.signers ==> Lower(a) == a)
  }

  lemma {:induction false} NewBallots(w: nat, addresses: seq<string>, keys: map<string, string>, id: nat)
    ensures var bs := BallotsIn(SignerRows(w, addresses, keys, id), w);
      |bs| == |addresses| && forall i :: 0 <= i < |bs| ==> bs[i] == Ballot(addresses[i], None)
  {
    var rows := SignerRows(w, addresses, keys, id);
    forall s | s in rows ensures SignerOn(w)(s) {
    }
    FilterAll(SignerOn(w), rows);
  }

  lemma {:induction false} NoVotes(bs: seq<Ballot>)
    requires forall b :: b in bs ==> b.approval.None?
    ensures Tally(bs) == 0
  {
    if bs != [] {
      assert bs[0] in bs;
      NoVotes(bs[1..]);
    }
  }

  function NewSigners(v: Vault, d: Draft): seq<Signer> { SignerRows(v.next, d.signers, d.signerKeys, v.next + 1) }

  lemma NewTally(v: Vault, d: Draft, wf: Workflow)
    requires Drafted(v, d) && wf.status == Pending && wf.threshold == Some(d.threshold)
    ensures TallyOk(wf, BallotsIn(NewSigners(v, d), v.next))
    ensures forall b :: b in BallotsIn(NewSigners(v, d), v.next) ==> b.approval.None?
  {
    NewBallots(v.next, d.signers, d.signerKeys, v.next + 1);
    NoVotes(BallotsIn(NewSigners(v, d), v.next));
  }

  lemma AddForm(v: Vault, secret: nat, d: Draft)
    requires Formed(v) && Drafted(v, d) && secret < v.next && !Managed(v, secret)
    ensures Formed(AddWorkflow(v, secret, d))
  {
  }

  lemma AddOther(env: Env, v: Vault, secret: nat, d: Draft, w: nat)
    requires w in v.workflows && w != v.next && WorkflowOk(env, v, w)
    ensures Passed(env, v, AddWorkflow(v, secret, d), w)
  {
    var v' := AddWorkflow(v, secret, d);
    BallotsAppend(v.signers, NewSigners(v, d), w);
    BallotsNone(NewSigners(v, d), w);
    assert Ballots(v, w) + [] == Ballots(v, w);
  }

  lemma FreshBallots(signers: seq<Signer>, rows: seq<Signer>, n: nat)
    requires forall s :: s in signers ==> s.workflow != n
    ensures BallotsIn(signers + rows, n) == BallotsIn(rows, n)
  {
    BallotsAppend(signers, rows, n);
    BallotsNone(signers, n);
  }

  lemma AddNew(env: Env, v: Vault, secret: nat, d: Draft)
    requires Drafted(v, d) && forall s :: s in v.signers ==> s.workflow != v.next
    requires secret in v.secrets && v.secrets[secret].owner == d.owner && OwnerOnly(v.grants, secret, d.owner)
    ensures WorkflowOk(env, AddWorkflow(v, secret, d), v.next)
  {
    FreshBallots(v.signers, NewSigners(v, d), v.next);
    NewTally(v, d, AddWorkflow(v, secret, d).workflows[v.next]);
  }

  lemma AddStep(env: Env, v: Vault, secret: nat, d: Draft)
    requires Inv(env, v) && Drafted(v, d) && !Managed(v, secret)
    requires secret in v.secrets && v.secrets[secret].owner == d.owner && OwnerOnly(v.grants, secret, d.owner)
    ensures Preserves(env, v, AddWorkflow(v, secret, d))
  {
    AddForm(v, secret, d);
    forall w | w in v.workflows ensures Passed(env, v, AddWorkflow(v, secret, d), w) {
      assert WorkflowOk(env, v, w);
      AddOther(env, v, secret, d, w);
    }
    AddNew(env, v, secret, d);
    Assemble(env, v, AddWorkflow(v, secret, d));
  }

  lemma CreateWorkflowStep(env: Env, v: Vault, d: Draft)
    requires Inv(env, v) && Drafted(v, d)
    ensures Preserves(env, v, WithWorkflow(v, d))
  {
    var v1 := WithSecret(v, d.owner, d.name, d.data, d.key);
    CreateSecretStep(env, v, d.owner, d.name, d.data, d.key);
    AddStep(env, v1, v.next, d);
    Chain(env, v, v1, WithWorkflow(v, d));
  }

  // ---- Signing ----

  lemma ApproveOther(v: Vault, caller: string, w: nat, x: nat, signature: string)
    requires w != x
    ensures Ballots(WithApproval(v, w, caller, signature), x) == Ballots(v, x)
  {
    BallotsMapped(Approve(w, Lower(caller), signature), Same(), v.signers, x);
  }

  lemma ApproveOwn(v: Vault, caller: string, w: nat, signature: string)
    ensures Ballots(WithApproval(v, w, caller, signature), w) == Map(Vote(Lower(caller), signature), Ballots(v, w))
  {
    BallotsMapped(Approve(w, Lower(caller), signature), Vote(Lower(caller), signature), v.signers, w);
  }

  lemma CountsAgree(v: Vault, w: nat)
    requires w in v.workflows
    ensures Approvals(v, w) == Tally(Ballots(v, w)) && Quorum(v, w) == Needed(v.workflows[w], Ballots(v, w))
  {
    TallyOfRows(SignersOf(v, w));
  }

  lemma {:induction false} TallyOfRows(rows: seq<Signer>)
    ensures |Filter(Cast(), rows)| == Tally(Map(BallotOf(), rows))
  {
    if rows != [] {
      TallyOfRows(rows[1..]);
      assert Map(BallotOf(), rows)[1..] == Map(BallotOf(), rows[1..]);
    }
  }

  lemma {:induction false} VoteKeepsVoters(bs: seq<Ballot>, address: string, signature: string)
    requires OneBallotEach(bs)
    ensures OneBallotEach(Map(Vote(address, signature), bs))
  {
    forall i | 0 <= i < |bs| ensures Map(Vote(address, signature), bs)[i].address == bs[i].address {
    }
  }

  // The ballots of the signed workflow afterwards.
  lemma SignedTally(v: Vault, caller: string, w: nat, signature: string)
    requires w in v.workflows && OneBallotEach(Ballots(v, w))
    requires IsSigner(v, w, caller) && !HasSigned(v, w, caller)
    ensures var bs := Ballots(WithApproval(v, w, caller, signature), w);
      Tally(bs) == Approvals(v, w) + 1 && |bs| == |Ballots(v, w)| && OneBallotEach(bs)
    ensures Quorum(v, w) == Needed(v.workflows[w], Ballots(v, w))
  {
    ApproveOwn(v, caller, w, signature);
    CountsAgree(v, w);
    TallyVote(Ballots(v, w), Lower(caller), signature);
    VoteKeepsVoters(Ballots(v, w), Lower(caller), signature);
  }

  lemma SignedVotes(env: Env, v: Vault, caller: string, w: nat, signature: string, secret: nat, data: string)
    requires VotesOk(env, w, secret, data, Ballots(v, w)) && Lower(caller) == caller
    requires env.approves(w, secret, data, caller, signature)
    ensures VotesOk(env, w, secret, data, Ballots(WithApproval(v, w, caller, signature), w))
  {
    ApproveOwn(v, caller, w, signature);
    var bs := Ballots(WithApproval(v, w, caller, signature), w);
    forall b | b in bs && b.approval.Some? ensures env.approves(w, secret, data, b.address, b.approval.value) {
      var b0 := MapMember(Vote(Lower(caller), signature), Ballots(v, w), b);
    }
  }

  lemma ApprovalForm(v: Vault, caller: string, w: nat, signature: string)
    requires Formed(v)
    ensures Formed(WithApproval(v, w, caller, signature))
  {
    var v' := WithApproval(v, w, caller, signature);
    forall s | s in v'.signers ensures s.workflow < v'.next && Lower(s.address) == s.address {
      var s0 := MapMember(Approve(w, Lower(caller), signature), v.signers, s);
    }
  }

  lemma ReleaseForm(v: Vault, w: nat, keys: map<string, string>)
    requires Formed(v) && w in v.workflows
    ensures Formed(WithRelease(v, w, keys))
  {
    var v' := WithRelease(v, w, keys);
    forall r | r in v'.recipients ensures r.workflow < v'.next {
      var r0 := MapMember(Release(w, keys), v.recipients, r);
    }
  }

  lemma ReleaseHolds(v: Vault, w: nat, keys: map<string, string>)
    requires w in v.workflows && MayRelease(v, w, keys)
    ensures RecipientsHold(WithRelease(v, w, keys).recipients, w)
  {
    forall r | r in WithRelease(v, w, keys).recipients && r.workflow == w ensures r.key.GetOr("") != "" {
      var r0 := MapMember(Release(w, keys), v.recipients, r);
      assert r0 in RecipientsOf(v, w);
    }
  }

  lemma SignedOk(env: Env, v: Vault, caller: string, w: nat, signature: string)
    requires w in v.workflows && WorkflowOk(env, v, w) && v.workflows[w].status == Pending && Lower(caller) == caller
    requires IsSigner(v, w, caller) && !HasSigned(v, w, caller)
    requires env.approves(w, v.workflows[w].secret, v.secrets[v.workflows[w].secret].data, caller, signature)
    requires Approvals(v, w) + 1 < Quorum(v, w)
    ensures Passed(env, v, WithApproval(v, w, caller, signature), w)
  {
    SignedTally(v, caller, w, signature);
    SignedVotes(env, v, caller, w, signature, v.workflows[w].secret, v.secrets[v.workflows[w].secret].data);
  }

  lemma SignedOther(env: Env, v: Vault, caller: string, w: nat, signature: string, x: nat)
    requires w in v.workflows && x in v.workflows && x != w && WorkflowOk(env, v, x)
    ensures Passed(env, v, WithApproval(v, w, caller, signature), x)
  {
    ApproveOther(v, caller, w, x, signature);
  }

  // A signature that does not complete the workflow.
  lemma SignStep(env: Env, v: Vault, caller: string, w: nat, signature: string)
    requires Inv(env, v) && caller in v.users && w in v.workflows && v.workflows[w].status == Pending
    requires IsSigner(v, w, caller) && !HasSigned(v, w, caller)
    requires v.workflows[w].secret in v.secrets
    requires env.approves(w, v.workflows[w].secret, v.secrets[v.workflows[w].secret].data, caller, signature)
    requires Approvals(v, w) + 1 < Quorum(v, w)
    ensures Preserves(env, v, WithApproval(v, w, caller, signature))
  {
    ApprovalForm(v, caller, w, signature);
    forall x | x in v.workflows ensures Passed(env, v, WithApproval(v, w, caller, signature), x) {
      assert WorkflowOk(env, v, x);
      if x == w {
        SignedOk(env, v, caller, w, signature);
      } else {
        SignedOther(env, v, caller, w, signature, x);
      }
    }
    Assemble(env, v, WithApproval(v, w, caller, signature));
  }

  lemma CompletedOk(env: Env, v: Vault, caller: string, w: nat, signature: string, keys: map<string, string>)
    requires Lower(caller) == caller && w in v.workflows && WorkflowOk(env, v, w) && v.workflows[w].status == Pending
    requires IsSigner(v, w, caller) && !HasSigned(v, w, caller)
    requires env.approves(w, v.workflows[w].secret, v.secrets[v.workflows[w].secret].data, caller, signature)
    requires Approvals(v, w) + 1 >= Quorum(v, w) && MayRelease(v, w, keys)
    ensures Passed(env, v, WithRelease(WithApproval(v, w, caller, signature), w, keys), w)
  {
    SignedTally(v, caller, w, signature);
    SignedVotes(env, v, caller, w, signature, v.workflows[w].secret, v.secrets[v.workflows[w].secret].data);
    var mid := WithApproval(v, w, caller, signature);
    assert MayRelease(mid, w, keys);
    ReleaseHolds(mid, w, keys);
    assert Ballots(WithRelease(mid, w, keys), w) == Ballots(mid, w);
  }

  lemma CompletedOther(env: Env, v: Vault, caller: string, w: nat, signature: string, keys: map<string, string>, x: nat)
    requires w in v.workflows && x in v.workflows && x != w && WorkflowOk(env, v, x)
    ensures Passed(env, v, WithRelease(WithApproval(v, w, caller, signature), w, keys), x)
  {
    var mid := WithApproval(v, w, caller, signature);
    var v' := WithRelease(mid, w, keys);
    ApproveOther(v, caller, w, x, signature);
    assert Ballots(v', x) == Ballots(mid, x);
  }

  // The completing signature.
  lemma CompleteStep(env: Env, v: Vault, caller: string, w: nat, signature: string, keys: map<string, string>)
    requires Inv(env, v) && caller in v.users && w in v.workflows && v.workflows[w].status == Pending
    requires IsSigner(v, w, caller) && !HasSigned(v, w, caller)
    requires v.workflows[w].secret in v.secrets
    requires env.approves(w, v.workflows[w].secret, v.secrets[v.workflows[w].secret].data, caller, signature)
    requires Approvals(v, w) + 1 >= Quorum(v, w) && MayRelease(v, w, keys)
    ensures Preserves(env, v, WithRelease(WithApproval(v, w, caller, signature), w, keys))
  {
    var mid := WithApproval(v, w, caller, signature);
    ApprovalForm(v, caller, w, signature);
    ReleaseForm(mid, w, keys);
    forall x | x in v.workflows ensures Passed(env, v, WithRelease(mid, w, keys), x) {
      assert WorkflowOk(env, v, x);
      if x == w {
        CompletedOk(env, v, caller, w, signature, keys);
      } else {
        CompletedOther(env, v, caller, w, signature, keys, x);
      }
    }
    Assemble(env, v, WithRelease(mid, w, keys));
  }

  function WithRejection(v: Vault, caller: string, w: nat): Vault
    requires w in v.workflows
  {
    v.(workflows := v.workflows[w := v.workflows[w].(status := Rejected, rejectedBy := Some(Lower(caller)))])
  }

  lemma RejectedPassed(env: Env, v: Vault, caller: string, w: nat, x: nat)
    requires w in v.workflows && v.workflows[w].status == Pending && x in v.workflows && WorkflowOk(env, v, x)
    ensures Passed(env, v, WithRejection(v, caller, w), x)
  {
  }

  lemma RejectStep(env: Env, v: Vault, caller: string, w: nat)
    requires Inv(env, v) && w in v.workflows && v.workflows[w].status == Pending
    ensures Preserves(env, v, WithRejection(v, caller, w))
  {
    forall x | x in v.workflows ensures Passed(env, v, WithRejection(v, caller, w), x) {
      assert WorkflowOk(env, v, x);
      RejectedPassed(env, v, caller, w, x);
    }
    Assemble(env, v, WithRejection(v, caller, w));
  }

  // ---- Deleting workflows that are not completed ----

  lemma WithoutOther(env: Env, v: Vault, gone: set<nat>, x: nat)
    requires x in v.workflows && x !in gone && WorkflowOk(env, v, x)
    requires v.workflows[x].secret !in SecretsOf(v, gone)
    ensures Passed(env, v, WithoutWorkflows(v, gone), x)
  {
    var v' := WithoutWorkflows(v, gone);
    BallotsOutside(v.signers, gone, x);
    assert forall r :: r in v.recipients && r.workflow == x ==> r in v'.recipients;
    assert Names(v'.recipients, x) == Names(v.recipients, x);
  }

  lemma WithoutWorkflowsStep(env: Env, v: Vault, gone: set<nat>)
    requires Inv(env, v) && forall w :: w in gone && w in v.workflows ==> v.workflows[w].status != Completed
    ensures Preserves(env, v, WithoutWorkflows(v, gone))
  {
    forall x | x in v.workflows ensures Passed(env, v, WithoutWorkflows(v, gone), x) {
      assert WorkflowOk(env, v, x);
      if x !in gone { WithoutOther(env, v, gone, x); }
    }
    Assemble(env, v, WithoutWorkflows(v, gone));
  }

  // Dropping a recipient from everything not yet released.
  lemma DropRecipientStep(env: Env, v: Vault, address: string)
    requires Inv(env, v)
    ensures Preserves(env, v, v.(recipients := Filter(StaysRecipient(v, address), v.recipients)))
  {
    forall x | x in v.workflows
      ensures Passed(env, v, v.(recipients := Filter(StaysRecipient(v, address), v.recipients)), x)
    {
      assert WorkflowOk(env, v, x);
    }
    Assemble(env, v, v.(recipients := Filter(StaysRecipient(v, address), v.recipients)));
  }

  lemma Chain(env: Env, v: Vault, v1: Vault, v2: Vault)
    requires Preserves(env, v, v1) && Preserves(env, v1, v2)
    requires forall w :: w in v.workflows && w in v2.workflows ==> w in v1.workflows
    ensures Preserves(env, v, v2)
  {
    forall w | w in v.workflows ensures Effect(v, v2, w) {
    }
  }

  lemma EraseStep(env: Env, v: Vault, address: string)
    requires Inv(env, v) && address in v.users
    ensures Preserves(env, v, DoErase(v, address))
  {
    var v1 := WithoutWorkflows(v, DeletableOf(v, address));
    WithoutWorkflowsStep(env, v, DeletableOf(v, address));
    DropRecipientStep(env, v1, address);
    var v2 := EraseMultisig(v, address);
    Chain(env, v, v1, v2);
    WithoutSecretsStep(env, v2, UnmanagedOf(v2, address));
    var v3 := WithoutSecrets(v2, UnmanagedOf(v2, address));
    Chain(env, v, v2, v3);
    GrantsStep(env, v3, NotHeldBy(address));
    var v4 := EraseSecrets(v2, address);
    Chain(env, v, v3, v4);
    UsersStep(env, v4, v4.users - {address});
    Chain(env, v, v4, DoErase(v, address));
  }
}
