/**
From the request that created a workflow to its release: whatever happens in between,
it is completed only by as many approvals as were asked for, of signers who were named.
*/
module WorkflowRuns {
  import opened Text
  import opened Lists
  import opened Wraps
  import opened Vaults
  import opened Multisig
  import opened MultisigSteps
  import opened Releases
  import opened VaultLaws

  function SignerNames(signers: seq<Signer>, w: nat): set<string> { set s | s in signers && s.workflow == w :: s.address }

  // What a request may not touch while a workflow exists: who signs it, and its secret.
  predicate Fixed(v: Vault, v': Vault, w: nat)
    requires w in v.workflows
  {
    var s := v.workflows[w].secret;
    && SignerNames(v'.signers, w) == SignerNames(v.signers, w)
    && (s in v.secrets ==> s in v'.secrets && v'.secrets[s] == v.secrets[s])
  }

  lemma MappedNames(f: Signer -> Signer, signers: seq<Signer>, w: nat)
    requires forall s :: s in signers ==> f(s).workflow == s.workflow && f(s).address == s.address
    ensures SignerNames(Map(f, signers), w) == SignerNames(signers, w)
  {
    forall s | s in signers && s.workflow == w ensures s.address in SignerNames(Map(f, signers), w) {
      InMap(f, signers, s);
      assert f(s) in Map(f, signers);
    }
    forall s | s in Map(f, signers) && s.workflow == w ensures s.address in SignerNames(signers, w) {
      var x := MapMember(f, signers, s);
      assert x in signers;
    }
  }

  lemma AddedNames(before: seq<Signer>, after: seq<Signer>, w: nat)
    requires before <= after && forall s :: s in after[|before|..] ==> s.workflow != w
    ensures SignerNames(after, w) == SignerNames(before, w)
  {
    forall x | x in after && x.workflow == w ensures x in before {
      AddedOnly(before, after, x);
    }
    assert forall x :: x in before ==> x in after;
  }

  lemma CreateFixes(v: Vault, rq: Request, w: nat)
    requires Formed(v) && w in v.workflows && rq.CreateWorkflow?
    ensures Fixed(v, DoCreateWorkflow(v, rq).v, w)
  {
    var made, secret := WorkflowAsAsked(v, rq);
    if DoCreateWorkflow(v, rq).status == 200 {
      AddedNames(v.signers, DoCreateWorkflow(v, rq).v.signers, w);
    }
  }

  lemma SignLeaves(env: Env, v: Vault, caller: string, workflow: nat, signature: string, keys: seq<(string, string)>)
    ensures var after := DoSign(env, v, caller, workflow, signature, keys).v;
      && after.secrets == v.secrets
      && (after.signers == v.signers || after.signers == Map(Approve(workflow, Lower(caller), signature), v.signers))
  {
  }

  lemma SignFixes(env: Env, v: Vault, caller: string, workflow: nat, signature: string, keys: seq<(string, string)>, w: nat)
    requires w in v.workflows
    ensures Fixed(v, DoSign(env, v, caller, workflow, signature, keys).v, w)
  {
    SignLeaves(env, v, caller, workflow, signature, keys);
    MappedNames(Approve(workflow, Lower(caller), signature), v.signers, w);
  }

  lemma WithoutFixes(v: Vault, gone: set<nat>, w: nat)
    requires Formed(v) && w in v.workflows && w !in gone
    ensures Fixed(v, WithoutWorkflows(v, gone), w)
  {
  }

  lemma EraseFixes(env: Env, v: Vault, address: string, w: nat)
    requires Formed(v) && w in v.workflows && w in DoErase(v, address).workflows
    ensures Fixed(v, DoErase(v, address), w)
  {
    WithoutFixes(v, DeletableOf(v, address), w);
    var left := EraseMultisig(v, address);
    assert w in left.workflows && left.workflows[w] == v.workflows[w];
    assert Managed(left, v.workflows[w].secret);
  }

  lemma RewrapFixes(env: Env, v: Vault, now: int, caller: string, kid: Option<string>, items: seq<Rewrapped>, w: nat)
    requires w in v.workflows
    ensures Fixed(v, DoRewrap(env, v, now, caller, kid, items).v, w)
  {
    MappedNames(ResealSigner(items), v.signers, w);
  }

  lemma ManagedFixes(env: Env, v: Vault, now: int, rq: Request, w: nat)
    requires Formed(v) && w in v.workflows
    requires rq.CreateSecret? || rq.UpdateSecret? || rq.DeleteSecret? || rq.Share? || rq.Revoke? || rq.PurgeGrants?
    ensures Fixed(v, Handle(env, v, now, rq).v, w)
  {
    assert Managed(v, v.workflows[w].secret);
  }

  lemma FixedStep(env: Env, v: Vault, now: int, rq: Request, w: nat)
    requires Formed(v) && w in v.workflows && w in Handle(env, v, now, rq).v.workflows
    ensures Fixed(v, Handle(env, v, now, rq).v, w)
  {
    match rq
    case CreateWorkflow(_, _, _, _, _, _, _, _, _, _) => CreateFixes(v, rq, w);
    case Sign(caller, workflow, signature, keys) => SignFixes(env, v, caller, workflow, signature, keys, w);
    case DeleteWorkflow(caller, workflow) => if workflow != w { WithoutFixes(v, {workflow}, w); }
    case Rewrap(caller, kid, items) => RewrapFixes(env, v, now, caller, kid, items, w);
    case EraseAccount(address) => EraseFixes(env, v, address, w);
    case Reject(_, _) =>
    case LeaveAccount(_) =>
    case Join(_) =>
    case _ => ManagedFixes(env, v, now, rq, w);
  }

  // The same over a run at whose end the workflow is still there.
  lemma {:induction false} FixedRun(env: Env, v: Vault, rqs: seq<Timed>, w: nat)
    requires Inv(env, v) && Parses(env.loads) && Legal(env, v, rqs)
    requires w in v.workflows && w in Run(env, v, rqs).workflows
    ensures Fixed(v, Run(env, v, rqs), w) && Run(env, v, rqs).workflows[w].threshold == v.workflows[w].threshold
    ensures Run(env, v, rqs).workflows[w].secret == v.workflows[w].secret
    decreases |rqs|
  {
    if rqs != [] {
      var next := Handle(env, v, rqs[0].now, rqs[0].rq).v;
      HandleStep(env, v, rqs[0].now, rqs[0].rq);
      NextGrows(env, v, rqs[0].now, rqs[0].rq);
      InvRun(env, next, rqs[1..]);
      if w !in next.workflows { assert Behind(next, w); }
      FixedStep(env, v, rqs[0].now, rqs[0].rq, w);
      FixedRun(env, next, rqs[1..], w);
    }
  }

  // ---- Approvals counted by address ----

  function Approvers(bs: seq<Ballot>): set<string> { set b | b in bs && b.approval.Some? :: b.address }

  lemma ApproversCons(bs: seq<Ballot>)
    requires bs != []
    ensures Approvers(bs) == (if bs[0].approval.Some? then {bs[0].address} else {}) + Approvers(bs[1..])
    ensures Tally(bs) == (if bs[0].approval.Some? then 1 else 0) + Tally(bs[1..])
  {
    assert forall b :: b in bs <==> b == bs[0] || b in bs[1..];
  }

  lemma {:induction false} ApproversCount(bs: seq<Ballot>)
    requires OneBallotEach(bs)
    ensures |Approvers(bs)| == Tally(bs)
  {
    if bs != [] {
      ApproversCount(bs[1..]);
      ApproversCons(bs);
      assert bs[0].address !in Approvers(bs[1..]);
    } else {
      assert Approvers(bs) == {};
    }
  }

  lemma BallotRow(v: Vault, w: nat, b: Ballot) returns (s: Signer)
    requires b in Ballots(v, w)
    ensures s in v.signers && s.workflow == w && s.address == b.address && s.approval == b.approval
  {
    var i :| 0 <= i < |Ballots(v, w)| && Ballots(v, w)[i] == b;
    s := SignersOf(v, w)[i];
    assert s in SignersOf(v, w);
  }

  lemma NamesAsked(v: Vault, rq: Request, w: nat, after: Vault)
    requires Formed(v) && rq.CreateWorkflow? && w >= v.next
    requires v.signers <= after.signers && SignersAsked(after.signers[|v.signers|..], w, rq)
    ensures SignerNames(after.signers, w) <= Spelled(rq.signers)
  {
    var rows := after.signers[|v.signers|..];
    RowsCover(rows, w, rq);
    forall s | s in after.signers && s.workflow == w ensures s.address in Spelled(rq.signers) {
      AddedOnly(v.signers, after.signers, s);
      assert s in rows;
    }
  }

  // As many rows as names, and a row for every name: no row is anybody else's.
  lemma RowsCover(rows: seq<Signer>, w: nat, rq: Request)
    requires rq.CreateWorkflow? && SignersAsked(rows, w, rq)
    ensures forall s :: s in rows ==> s.address in Spelled(rq.signers)
  {
    var held := set s | s in rows :: s.address;
    assert Spelled(rq.signers) <= held;
    HeldCount(rows);
    Whole(Spelled(rq.signers), held);
  }

  lemma {:induction false} HeldCount(rows: seq<Signer>)
    ensures |set s | s in rows :: s.address| <= |rows|
  {
    if rows != [] {
      HeldCount(rows[1..]);
      assert rows == [rows[0]] + rows[1..];
      assert (set s | s in rows :: s.address) == {rows[0].address} + set s | s in rows[1..] :: s.address;
    }
  }

  lemma Whole(a: set<string>, b: set<string>)
    requires a <= b && |b| <= |a|
    ensures a == b
  {
    var rest := b - a;
    assert b == a + rest && |b| == |a| + |rest|;
  }

  lemma ApproverRow(env: Env, v: Vault, w: nat, secret: nat, data: string, a: string) returns (s: Signer)
    requires VotesOk(env, w, secret, data, Ballots(v, w)) && a in Approvers(Ballots(v, w))
    ensures s in v.signers && s.workflow == w && s.address == a && s.approval.Some? && a in SignerNames(v.signers, w)
    ensures env.approves(w, secret, data, a, s.approval.value)
  {
    var b :| b in Ballots(v, w) && b.approval.Some? && b.address == a;
    s := BallotRow(v, w, b);
  }

  // Enough approvals, each of a signer who was named, over what was sent.
  ghost predicate ApprovedBy(env: Env, v: Vault, w: nat, rq: Request, approvers: set<string>)
    requires rq.CreateWorkflow? && w in v.workflows
  {
    && |approvers| >= rq.threshold
    && forall a :: a in approvers ==>
         && (exists x :: x in rq.signers && Lower(x) == a)
         && (exists s :: s in v.signers && s.workflow == w && s.address == a && s.approval.Some?
                         && env.approves(w, v.workflows[w].secret, rq.data, a, s.approval.value))
  }

  lemma QuorumIsNamed(env: Env, v: Vault, w: nat, rq: Request)
    requires rq.CreateWorkflow? && w in v.workflows && SignerNames(v.signers, w) <= Spelled(rq.signers)
    requires VotesOk(env, w, v.workflows[w].secret, rq.data, Ballots(v, w)) && OneBallotEach(Ballots(v, w))
    requires Tally(Ballots(v, w)) >= rq.threshold
    ensures ApprovedBy(env, v, w, rq, Approvers(Ballots(v, w)))
  {
    ApproversCount(Ballots(v, w));
    forall a | a in Approvers(Ballots(v, w))
      ensures exists x :: x in rq.signers && Lower(x) == a
      ensures exists s :: s in v.signers && s.workflow == w && s.address == a && s.approval.Some?
                          && env.approves(w, v.workflows[w].secret, rq.data, a, s.approval.value)
    {
      var s := ApproverRow(env, v, w, v.workflows[w].secret, rq.data, a);
      assert a in Spelled(rq.signers);
    }
  }

  lemma CreatedStart(env: Env, v: Vault, rq: Request, w: nat, secret: nat)
    requires Inv(env, v) && rq.CreateWorkflow? && rq.caller in v.users && DoCreateWorkflow(v, rq).status == 200
    requires WorkflowStored(v, rq, w, secret)
    ensures var first := DoCreateWorkflow(v, rq).v;
      && Inv(env, first) && w !in v.workflows && w in first.workflows && first.workflows[w].threshold == Some(rq.threshold)
      && first.workflows[w].secret in first.secrets && first.secrets[first.workflows[w].secret].data == rq.data
      && SignerNames(first.signers, w) <= Spelled(rq.signers)
  {
    CreateHandled(env, v, rq);
    NamesAsked(v, rq, w, DoCreateWorkflow(v, rq).v);
  }

  // Main result: take any creation the server accepts and any requests after it. If the
  // workflow is completed in the end, at least as many different addresses have
  // approved it as were asked for; each was named as a signer in that request; and each
  // approval verifies over the ciphertext that was sent with it.
  lemma ReleasedAsAsked(env: Env, v: Vault, rq: Request, rqs: seq<Timed>) returns (w: nat, approvers: set<string>)
    requires Inv(env, v) && Parses(env.loads) && rq.CreateWorkflow? && rq.caller in v.users
    requires DoCreateWorkflow(v, rq).status == 200 && Legal(env, DoCreateWorkflow(v, rq).v, rqs)
    ensures w !in v.workflows && w in DoCreateWorkflow(v, rq).v.workflows
    ensures var after := Run(env, DoCreateWorkflow(v, rq).v, rqs);
      w in after.workflows && after.workflows[w].status == Completed ==> ApprovedBy(env, after, w, rq, approvers)
  {
    var secret;
    w, secret := WorkflowAsAsked(v, rq);
    CreatedStart(env, v, rq, w, secret);
    var first := DoCreateWorkflow(v, rq).v;
    var after := Run(env, first, rqs);
    approvers := Approvers(Ballots(after, w));
    if w in after.workflows && after.workflows[w].status == Completed {
      FixedRun(env, first, rqs, w);
      CompletedMeansQuorum(env, first, rqs, w);
      QuorumIsNamed(env, after, w, rq);
    }
  }
}
