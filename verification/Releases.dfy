/** Whole runs of requests: quorum, confidentiality until release, and permanence after it. */
module Releases {
  import opened Text
  import opened Lists
  import opened Wraps
  import opened Vaults
  import opened Multisig
  import opened MultisigSteps
  import opened Rewraps
  import BodyReaders
  import SignedBodies
  import Messages

  // ---- Re-wrapping ----

  lemma ResealedBallots(v: Vault, items: seq<Rewrapped>, w: nat)
    ensures BallotsIn(Map(ResealSigner(items), v.signers), w) == Ballots(v, w)
  {
    BallotsMapped(ResealSigner(items), Same(), v.signers, w);
  }

  // Batches only ever write wraps, and a wrap is never empty.
  predicate NoEmptyWrap(items: seq<Rewrapped>) { forall i :: 0 <= i < |items| ==> items[i].wrap != "" }

  lemma WrapsPassed(env: Env, v: Vault, items: seq<Rewrapped>, w: nat)
    requires w in v.workflows && WorkflowOk(env, v, w) && NoEmptyWrap(items)
    ensures Passed(env, v, WithWraps(v, items), w)
  {
    ResealedBallots(v, items, w);
  }

  lemma WrapsStep(env: Env, v: Vault, items: seq<Rewrapped>)
    requires Inv(env, v) && NoEmptyWrap(items)
    ensures Preserves(env, v, WithWraps(v, items))
  {
    forall w | w in v.workflows ensures Passed(env, v, WithWraps(v, items), w) {
      assert WorkflowOk(env, v, w);
      WrapsPassed(env, v, items, w);
    }
    Assemble(env, v, WithWraps(v, items));
  }

  // ---- Any request ----

  lemma NothingStep(env: Env, v: Vault)
    requires Inv(env, v)
    ensures Preserves(env, v, v)
  {
    forall w | w in v.workflows ensures Passed(env, v, v, w) {
      assert WorkflowOk(env, v, w);
    }
    Assemble(env, v, v);
  }

  lemma CreateHandled(env: Env, v: Vault, rq: Request)
    requires Inv(env, v) && rq.CreateWorkflow? && rq.caller in v.users
    ensures Preserves(env, v, DoCreateWorkflow(v, rq).v)
  {
    if MayCreate(v, rq) && rq.room {
      CreateWorkflowStep(env, v, DraftOf(rq));
    } else {
      NothingStep(env, v);
    }
  }

  lemma SignHandled(env: Env, v: Vault, caller: string, w: nat, signature: string, keys: seq<(string, string)>)
    requires Inv(env, v) && caller in v.users
    ensures Preserves(env, v, DoSign(env, v, caller, w, signature, keys).v)
  {
    var after := DoSign(env, v, caller, w, signature, keys);
    if after.status != 200 {
      NothingStep(env, v);
    } else if Approvals(v, w) + 1 >= Quorum(v, w) {
      CompleteStep(env, v, caller, w, signature, LoweredKeys(keys));
    } else {
      SignStep(env, v, caller, w, signature);
    }
  }

  lemma RejectHandled(env: Env, v: Vault, caller: string, w: nat)
    requires Inv(env, v)
    ensures Preserves(env, v, DoReject(v, caller, w).v)
  {
    if DoReject(v, caller, w).status == 200 { RejectStep(env, v, caller, w); } else { NothingStep(env, v); }
  }

  lemma DeleteWorkflowHandled(env: Env, v: Vault, caller: string, w: nat)
    requires Inv(env, v)
    ensures Preserves(env, v, DoDeleteWorkflow(v, caller, w).v)
  {
    if DoDeleteWorkflow(v, caller, w).status == 200 { WithoutWorkflowsStep(env, v, {w}); } else { NothingStep(env, v); }
  }

  lemma RewrapHandled(env: Env, v: Vault, now: int, caller: string, kid: Option<string>, items: seq<Rewrapped>)
    requires Inv(env, v) && Parses(env.loads)
    ensures Preserves(env, v, DoRewrap(env, v, now, caller, kid, items).v)
  {
    if FirstFault(Fault(env.loads, HeldBy(v, caller, now), kid), items) == 200 {
      WrapsStep(env, v, items);
    } else {
      NothingStep(env, v);
    }
  }

  lemma CreateSecretHandled(env: Env, v: Vault, caller: string, name: string, data: string, key: string, room: bool)
    requires Inv(env, v) && caller in v.users
    ensures Preserves(env, v, DoCreateSecret(v, caller, name, data, key, room).v)
  {
    if room { CreateSecretStep(env, v, caller, name, data, key); } else { NothingStep(env, v); }
  }

  lemma UpdateHandled(env: Env, v: Vault, now: int, caller: string, secret: nat, name: string, data: string, room: bool)
    requires Inv(env, v)
    ensures Preserves(env, v, DoUpdateSecret(v, now, caller, secret, name, data, room).v)
  {
    if CanManageSecret(v, secret, caller) && !Managed(v, secret) && room {
      UpdateSecretStep(env, v, secret, name, data);
    } else {
      NothingStep(env, v);
    }
  }

  lemma DeleteHandled(env: Env, v: Vault, now: int, caller: string, secret: nat)
    requires Inv(env, v)
    ensures Preserves(env, v, DoDeleteSecret(v, now, caller, secret).v)
  {
    if CanManageSecret(v, secret, caller) && !Managed(v, secret) {
      WithoutSecretsStep(env, v, {secret});
    } else {
      NothingStep(env, v);
    }
  }

  lemma ShareAnswer(v: Vault, now: int, caller: string, secret: nat, grantee: string, key: string, expiresIn: Option<nat>)
    ensures var after := DoShare(v, now, caller, secret, grantee, key, expiresIn);
      if after.status == 200 then
        && secret in v.secrets && !Managed(v, secret)
        && after.v == Upsert(v, secret, Lower(grantee), key, if expiresIn.GetOr(0) == 0 then None else Some(now + expiresIn.value))
      else after.v == v
  {
  }

  lemma ShareHandled(env: Env, v: Vault, now: int, caller: string, secret: nat, grantee: string, key: string, expiresIn: Option<nat>)
    requires Inv(env, v)
    ensures Preserves(env, v, DoShare(v, now, caller, secret, grantee, key, expiresIn).v)
  {
    ShareAnswer(v, now, caller, secret, grantee, key, expiresIn);
    Shared(env, v, DoShare(v, now, caller, secret, grantee, key, expiresIn), secret, Lower(grantee), key,
           if expiresIn.GetOr(0) == 0 then None else Some(now + expiresIn.value));
  }

  lemma Shared(env: Env, v: Vault, after: Answer, secret: nat, grantee: string, key: string, expiresAt: Option<int>)
    requires Inv(env, v)
    requires if after.status == 200 then secret in v.secrets && !Managed(v, secret) && after.v == Upsert(v, secret, grantee, key, expiresAt)
             else after.v == v
    ensures Preserves(env, v, after.v)
  {
    if after.status == 200 {
      ShareStep(env, v, secret, grantee, key, expiresAt);
    } else {
      NothingStep(env, v);
    }
  }

  lemma RevokeHandled(env: Env, v: Vault, now: int, caller: string, grant: nat)
    requires Inv(env, v)
    ensures Preserves(env, v, DoRevoke(v, now, caller, grant).v)
  {
    GrantsStep(env, v, OtherGrants(grant));
    NothingStep(env, v);
  }

  // Main result: every request, accepted or refused, keeps the invariant, and
  // does to each workflow only what a step may.
  lemma HandleStep(env: Env, v: Vault, now: int, rq: Request)
    requires Inv(env, v) && Parses(env.loads) && Enabled(v, rq)
    ensures Preserves(env, v, Handle(env, v, now, rq).v)
  {
    match rq
    case PurgeGrants(ofSecret, ofGrantee) => GrantsStep(env, v, Unexpired(ofSecret, ofGrantee, now));
    case CreateWorkflow(_, _, _, _, _, _, _, _, _, _) => CreateHandled(env, v, rq);
    case Sign(caller, w, signature, keys) => SignHandled(env, v, caller, w, signature, keys);
    case Reject(caller, w) => RejectHandled(env, v, caller, w);
    case DeleteWorkflow(caller, w) => DeleteWorkflowHandled(env, v, caller, w);
    case Rewrap(caller, kid, items) => RewrapHandled(env, v, now, caller, kid, items);
    case EraseAccount(address) => EraseStep(env, v, address);
    case LeaveAccount(address) => UsersStep(env, v, v.users - {address});
    case Join(address) => UsersStep(env, v, v.users + {address});
    case CreateSecret(caller, name, data, key, room) => CreateSecretHandled(env, v, caller, name, data, key, room);
    case UpdateSecret(caller, secret, name, data, room) => UpdateHandled(env, v, now, caller, secret, name, data, room);
    case DeleteSecret(caller, secret) => DeleteHandled(env, v, now, caller, secret);
    case Share(caller, secret, grantee, key, expiresIn) => ShareHandled(env, v, now, caller, secret, grantee, key, expiresIn);
    case Revoke(caller, grant) => RevokeHandled(env, v, now, caller, grant);
  }

  // ---- Runs ----

  datatype Timed = Timed(now: int, rq: Request)

  predicate Legal(env: Env, v: Vault, rqs: seq<Timed>)
    decreases |rqs|
  {
    rqs == [] || (Enabled(v, rqs[0].rq) && Legal(env, Handle(env, v, rqs[0].now, rqs[0].rq).v, rqs[1..]))
  }

  function Run(env: Env, v: Vault, rqs: seq<Timed>): Vault
    decreases |rqs|
  {
    if rqs == [] then v else Run(env, Handle(env, v, rqs[0].now, rqs[0].rq).v, rqs[1..])
  }

  // The ids a request hands out are fresh, so a deleted workflow never comes back.
  predicate Behind(v: Vault, w: nat) { w < v.next && w !in v.workflows }

  lemma NextGrows(env: Env, v: Vault, now: int, rq: Request)
    ensures v.next <= Handle(env, v, now, rq).v.next
    ensures forall w :: w in Handle(env, v, now, rq).v.workflows && w !in v.workflows ==> w >= v.next
  {
  }

  lemma {:induction false} InvRun(env: Env, v: Vault, rqs: seq<Timed>)
    requires Inv(env, v) && Parses(env.loads) && Legal(env, v, rqs)
    ensures Inv(env, Run(env, v, rqs))
    ensures forall w :: Behind(v, w) ==> Behind(Run(env, v, rqs), w)
    decreases |rqs|
  {
    if rqs != [] {
      HandleStep(env, v, rqs[0].now, rqs[0].rq);
      NextGrows(env, v, rqs[0].now, rqs[0].rq);
      InvRun(env, Handle(env, v, rqs[0].now, rqs[0].rq).v, rqs[1..]);
    }
  }

  // Main result: over any run a workflow leaves `pending` at most once and never
  // returns to it; it can only disappear uncompleted; and once completed
  // everything about it stays. `Effect` states all of it for the whole run.
  lemma {:induction false} RunEffect(env: Env, v: Vault, rqs: seq<Timed>, w: nat)
    requires Inv(env, v) && Parses(env.loads) && Legal(env, v, rqs) && w in v.workflows
    ensures Effect(v, Run(env, v, rqs), w)
    decreases |rqs|
  {
    if rqs != [] {
      var next := Handle(env, v, rqs[0].now, rqs[0].rq).v;
      HandleStep(env, v, rqs[0].now, rqs[0].rq);
      NextGrows(env, v, rqs[0].now, rqs[0].rq);
      InvRun(env, next, rqs[1..]);
      if w in next.workflows {
        RunEffect(env, next, rqs[1..], w);
      } else {
        assert Behind(next, w);
      }
    }
  }

  // Main result: a release is permanent. Whatever is deleted, erased, left or
  // re-wrapped afterwards, a completed workflow, its secret, its approvals and its
  // recipients are there as they were, every recipient holds a key, and every
  // approval verifies over the ciphertext stored now.
  lemma ReleaseIsPermanent(env: Env, v: Vault, rqs: seq<Timed>, w: nat)
    requires Inv(env, v) && Parses(env.loads) && Legal(env, v, rqs)
    requires w in v.workflows && v.workflows[w].status == Completed
    ensures var after := Run(env, v, rqs);
      && w in after.workflows && after.workflows[w] == v.workflows[w]
      && v.workflows[w].secret in v.secrets && v.workflows[w].secret in after.secrets
      && after.secrets[v.workflows[w].secret] == v.secrets[v.workflows[w].secret]
      && Ballots(after, w) == Ballots(v, w)
      && Names(after.recipients, w) == Names(v.recipients, w) && RecipientsHold(after.recipients, w)
      && VotesOk(env, w, v.workflows[w].secret, after.secrets[v.workflows[w].secret].data, Ballots(after, w))
  {
    assert WorkflowOk(env, v, w);
    RunEffect(env, v, rqs, w);
    InvRun(env, v, rqs);
    assert WorkflowOk(env, Run(env, v, rqs), w);
  }

  // Main result: in every reachable state a workflow is completed exactly when as
  // many distinct signers as its threshold (all of them, without one) approved,
  // each by a signature over the ciphertext stored now.
  lemma CompletedMeansQuorum(env: Env, v: Vault, rqs: seq<Timed>, w: nat)
    requires Inv(env, v) && Parses(env.loads) && Legal(env, v, rqs)
    requires w in Run(env, v, rqs).workflows
    ensures var after := Run(env, v, rqs);
      var wf, bs := after.workflows[w], Ballots(after, w);
      && (wf.status == Completed <==> Tally(bs) >= Needed(wf, bs))
      && OneBallotEach(bs) && wf.secret in after.secrets
      && VotesOk(env, w, wf.secret, after.secrets[wf.secret].data, bs)
  {
    InvRun(env, v, rqs);
    assert WorkflowOk(env, Run(env, v, rqs), w);
  }

  // Main result: in every reachable state, while a workflow is not completed
  // nobody but its owner and its signers can read its secret.
  lemma SealedUntilReleased(env: Env, v: Vault, rqs: seq<Timed>, w: nat, address: string, now: int)
    requires Inv(env, v) && Parses(env.loads) && Legal(env, v, rqs)
    requires w in Run(env, v, rqs).workflows && Run(env, v, rqs).workflows[w].status != Completed
    requires CanReadSecret(Run(env, v, rqs), Run(env, v, rqs).workflows[w].secret, address, now)
    ensures Lower(address) == Run(env, v, rqs).workflows[w].owner || IsSigner(Run(env, v, rqs), w, address)
  {
    InvRun(env, v, rqs);
    WhoCanRead(env, Run(env, v, rqs), w, address, now);
  }

  // Main result: a rejection is final. The workflow can be deleted, but it is
  // never completed, so its recipients never get in through it.
  lemma RejectionIsFinal(env: Env, v: Vault, caller: string, w: nat, rqs: seq<Timed>)
    requires Inv(env, v) && Parses(env.loads) && DoReject(v, caller, w).status == 200
    requires Legal(env, DoReject(v, caller, w).v, rqs)
    ensures w in DoReject(v, caller, w).v.workflows && DoReject(v, caller, w).v.workflows[w].status == Rejected
    ensures w in Run(env, DoReject(v, caller, w).v, rqs).workflows ==>
      Run(env, DoReject(v, caller, w).v, rqs).workflows[w].status == Rejected
  {
    RejectHandled(env, v, caller, w);
    RunEffect(env, DoReject(v, caller, w).v, rqs, w);
  }

  // Main result: what an accepted signature records. The signer's ballot is cast
  // and no other, and the workflow is completed exactly if that reached its quorum.
  lemma SignatureCounts(env: Env, v: Vault, caller: string, w: nat, signature: string, keys: seq<(string, string)>)
    requires Inv(env, v) && caller in v.users && DoSign(env, v, caller, w, signature, keys).status == 200
    ensures var after := DoSign(env, v, caller, w, signature, keys).v;
      && w in v.workflows && w in after.workflows
      && Ballots(after, w) == Map(Vote(Lower(caller), signature), Ballots(v, w))
      && Tally(Ballots(after, w)) == Tally(Ballots(v, w)) + 1
      && (after.workflows[w].status == Completed <==> Tally(Ballots(v, w)) + 1 >= Needed(v.workflows[w], Ballots(v, w)))
  {
    assert WorkflowOk(env, v, w);
    TallyVote(Ballots(v, w), Lower(caller), signature);
    ApproveOwn(v, caller, w, signature);
    CountsAgree(v, w);
  }

  // A completing signature lets every recipient in, each with a key.
  lemma CompletionOpens(env: Env, v: Vault, caller: string, w: nat, signature: string, keys: seq<(string, string)>, address: string, now: int)
    requires Inv(env, v) && caller in v.users && DoSign(env, v, caller, w, signature, keys).status == 200
    requires w in DoSign(env, v, caller, w, signature, keys).v.workflows
    requires DoSign(env, v, caller, w, signature, keys).v.workflows[w].status == Completed
    requires IsRecipient(DoSign(env, v, caller, w, signature, keys).v, w, address)
    ensures var after := DoSign(env, v, caller, w, signature, keys).v;
      CanReadSecret(after, after.workflows[w].secret, address, now) && RecipientsHold(after.recipients, w)
  {
    SignHandled(env, v, caller, w, signature, keys);
    var after := DoSign(env, v, caller, w, signature, keys).v;
    assert WorkflowOk(env, after, w);
    WhoCanRead(env, after, w, address, now);
  }

  // ---- What an approval commits to ----

  function ApprovalText(sha: string -> string, w: nat, secret: nat, data: string): string {
    SignedBodies.Body(sha, SignedBodies.Approval(w, secret, sha(data))).value
  }

  // The check a server makes: the signer's identity key over the approval body.
  function Approver(c: Messages.Crypto): (nat, nat, string, string, string) -> bool {
    (w: nat, secret: nat, data: string, address: string, signature: string) =>
      c.verify(c.keyOf(address), ApprovalText(c.sha, w, secret, data), signature)
  }

  // What an approval's text says: the two ids and the digest.
  lemma ApprovalTextReads(sha: string -> string, w: nat, secret: nat, data: string)
    requires SignedBodies.HexDigests(sha)
    ensures var text := ApprovalText(sha, w, secret, data);
      && BodyReaders.Field(text, "context") == Some("multisig-approval")
      && BodyReaders.Spells(BodyReaders.Field(text, "workflow"), w)
      && BodyReaders.Spells(BodyReaders.Field(text, "secret"), secret)
      && BodyReaders.After(text, "secret") == Some("ct=" + sha(data))
  {
    BodyReaders.ApprovalReads(sha, SignedBodies.Approval(w, secret, sha(data)));
  }

  // An approval is for one workflow, one secret and one ciphertext digest.
  lemma ApprovalBinds(sha: string -> string, w: nat, s: nat, data: string, w': nat, s': nat, data': string)
    requires SignedBodies.HexDigests(sha) && ApprovalText(sha, w, s, data) == ApprovalText(sha, w', s', data')
    ensures w == w' && s == s' && sha(data) == sha(data')
  {
    SignedBodies.NoTwoBodiesCollide(sha, SignedBodies.Approval(w, s, sha(data)), SignedBodies.Approval(w', s', sha(data')));
  }

  // Main result: with that check, every approval a completed workflow was released
  // by still verifies, over the ciphertext stored now, whatever happened since.
  lemma ReleasedApprovalsVerify(c: Messages.Crypto, env: Env, v: Vault, rqs: seq<Timed>, w: nat, b: Ballot)
    requires env.approves == Approver(c) && Parses(env.loads)
    requires Inv(env, v) && Legal(env, v, rqs) && w in v.workflows && v.workflows[w].status == Completed
    requires b in Ballots(v, w) && b.approval.Some?
    ensures var after := Run(env, v, rqs);
      && w in after.workflows && after.workflows[w].secret in after.secrets && b in Ballots(after, w)
      && c.verify(c.keyOf(b.address),
                  ApprovalText(c.sha, w, after.workflows[w].secret, after.secrets[after.workflows[w].secret].data),
                  b.approval.value)
  {
    ReleaseIsPermanent(env, v, rqs, w);
  }
}
