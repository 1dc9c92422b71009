/**
What every request keeps about multisig workflows: who can read the secret before
and after release, that a workflow is completed exactly when its quorum approved,
and that a release is permanent.
*/
module Multisig {
  import opened Text
  import opened Lists
  import opened Wraps
  import opened Vaults

  // ---- Ballots: the signer rows of a workflow, without their wrapped keys ----

  datatype Ballot = Ballot(address: string, approval: Option<string>)

  function BallotOf(): Signer -> Ballot { (s: Signer) => Ballot(s.address, s.approval) }

  function BallotsIn(signers: seq<Signer>, w: nat): seq<Ballot> { Map(BallotOf(), Filter(SignerOn(w), signers)) }

  function Ballots(v: Vault, w: nat): seq<Ballot> { BallotsIn(v.signers, w) }

  function Approved(): Ballot -> bool { (b: Ballot) => b.approval.Some? }

  function Tally(bs: seq<Ballot>): nat { |Filter(Approved(), bs)| }

  function Needed(w: Workflow, bs: seq<Ballot>): nat {
    if w.threshold.GetOr(0) != 0 then w.threshold.value else |bs|
  }

  predicate OneBallotEach(bs: seq<Ballot>) {
    forall i, j :: 0 <= i < j < |bs| ==> bs[i].address != bs[j].address
  }

  // ---- The invariant ----

  // Completed exactly when the quorum of distinct signers has approved.
  predicate TallyOk(w: Workflow, bs: seq<Ballot>) {
    bs != [] && OneBallotEach(bs) && (w.status == Completed <==> Tally(bs) >= Needed(w, bs))
  }

  // Every recorded approval verifies over the ciphertext stored now.
  predicate VotesOk(env: Env, w: nat, secret: nat, data: string, bs: seq<Ballot>) {
    forall b :: b in bs && b.approval.Some? ==> env.approves(w, secret, data, b.address, b.approval.value)
  }

  predicate RecipientsHold(recipients: seq<Recipient>, w: nat) {
    forall r :: r in recipients && r.workflow == w ==> r.key.GetOr("") != ""
  }

  // Nobody but the owner holds a grant.
  predicate OwnerOnly(grants: seq<Grant>, secret: nat, owner: string) {
    forall g :: g in grants && g.secret == secret ==> g.grantee == owner
  }

  predicate WorkflowOk(env: Env, v: Vault, w: nat)
    requires w in v.workflows
  {
    var wf := v.workflows[w];
    && wf.secret in v.secrets && v.secrets[wf.secret].owner == wf.owner
    && TallyOk(wf, Ballots(v, w))
    && VotesOk(env, w, wf.secret, v.secrets[wf.secret].data, Ballots(v, w))
    && (wf.status == Completed ==> RecipientsHold(v.recipients, w))
    && OwnerOnly(v.grants, wf.secret, wf.owner)
  }

  // Addresses are stored in lower case, ids are below the next one, and a secret
  // carries at most one workflow.
  predicate Formed(v: Vault) {
    && (forall u :: u in v.users ==> Lower(u) == u)
    && (forall s :: s in v.secrets ==> s < v.next && Lower(v.secrets[s].owner) == v.secrets[s].owner)
    && (forall w :: w in v.workflows ==> w < v.next && v.workflows[w].secret < v.next)
    && (forall g :: g in v.grants ==> g.secret < v.next)
    && (forall s :: s in v.signers ==> s.workflow < v.next && Lower(s.address) == s.address)
    && (forall r :: r in v.recipients ==> r.workflow < v.next)
    && (forall w, x :: w in v.workflows && x in v.workflows && w != x ==> v.workflows[w].secret != v.workflows[x].secret)
  }

  predicate AllOk(env: Env, v: Vault) { forall w :: w in v.workflows ==> WorkflowOk(env, v, w) }

  predicate Inv(env: Env, v: Vault) { Formed(v) && AllOk(env, v) }

  // Requests come from active accounts.
  predicate Enabled(v: Vault, rq: Request) {
    match rq
    case PurgeGrants(_, _) => true
    case EraseAccount(address) => address in v.users
    case LeaveAccount(address) => address in v.users
    case Join(address) => Lower(address) == address
    case _ => rq.caller in v.users
  }

  // ---- Who can read the secret ----

  // Main result: a workflow's secret is readable by its owner and its signers,
  // and by its recipients exactly once it is completed. By no one else, whatever
  // was shared before or since.
  lemma WhoCanRead(env: Env, v: Vault, w: nat, address: string, now: int)
    requires Inv(env, v) && w in v.workflows
    ensures CanReadSecret(v, v.workflows[w].secret, address, now)
       <==> || Lower(address) == v.workflows[w].owner
            || IsSigner(v, w, address)
            || (v.workflows[w].status == Completed && IsRecipient(v, w, address))
  {
    assert WorkflowOk(env, v, w);
    var wf := v.workflows[w];
    assert Lower(wf.owner) == wf.owner;
    if HasLiveGrant(v, wf.secret, address, now) {
      var g :| g in v.grants && g.secret == wf.secret && g.grantee == Lower(address) && IsLive(g, now);
    }
    if CanReadWorkflow(v, w, address) {
      assert CanReadSecret(v, wf.secret, address, now);
    }
  }

  // The listing rule and the single-workflow rule agree on every stored workflow.
  lemma ListingAgrees(env: Env, v: Vault, address: string, w: nat)
    requires Inv(env, v)
    ensures w in ReadableWorkflows(v, address) <==> CanReadWorkflow(v, w, address)
  {
    if w in v.workflows {
      assert WorkflowOk(env, v, w);
    }
    ReadableIsCanRead(v, address, w);
  }

  // ---- Ballots under changes to the signer table ----

  lemma BallotsAppend(signers: seq<Signer>, extra: seq<Signer>, w: nat)
    ensures BallotsIn(signers + extra, w) == BallotsIn(signers, w) + BallotsIn(extra, w)
  {
    FilterAppend(SignerOn(w), signers, extra);
  }

  lemma {:induction false} BallotsNone(signers: seq<Signer>, w: nat)
    requires forall s :: s in signers ==> s.workflow != w
    ensures BallotsIn(signers, w) == []
  {
    if signers != [] {
      assert signers[0] in signers;
      BallotsNone(signers[1..], w);
    }
  }

  lemma BallotsOutside(signers: seq<Signer>, gone: set<nat>, w: nat)
    requires w !in gone
    ensures BallotsIn(Filter(SignerOutside(gone), signers), w) == BallotsIn(signers, w)
  {
    FilterTwice(SignerOn(w), SignerOutside(gone), SignerOn(w), signers);
  }

  // A change of rows that keeps their workflow changes its ballots one by one.
  lemma {:induction false} BallotsMapped(f: Signer -> Signer, g: Ballot -> Ballot, signers: seq<Signer>, w: nat)
    requires forall s :: s in signers ==>
      f(s).workflow == s.workflow && (s.workflow == w ==> BallotOf()(f(s)) == g(BallotOf()(s)))
    ensures BallotsIn(Map(f, signers), w) == Map(g, BallotsIn(signers, w))
  {
    if signers != [] {
      assert signers[0] in signers;
      BallotsMapped(f, g, signers[1..], w);
      assert Map(f, signers)[1..] == Map(f, signers[1..]);
      if signers[0].workflow == w {
        assert BallotsIn(signers, w)[1..] == BallotsIn(signers[1..], w);
      }
    }
  }

  function Same(): Ballot -> Ballot { (b: Ballot) => b }

  function Vote(address: string, signature: string): Ballot -> Ballot {
    (b: Ballot) => if b.address == address then b.(approval := Some(signature)) else b
  }

  lemma {:induction false} VoteElsewhere(bs: seq<Ballot>, address: string, signature: string)
    requires forall b :: b in bs ==> b.address != address
    ensures Map(Vote(address, signature), bs) == bs
  {
    if bs != [] {
      assert bs[0] in bs;
      VoteElsewhere(bs[1..], address, signature);
    }
  }

  predicate Undecided(bs: seq<Ballot>, address: string) { Ballot(address, None) in bs }

  // One signer's approval counts once.
  lemma {:induction false} TallyVote(bs: seq<Ballot>, address: string, signature: string)
    requires OneBallotEach(bs) && Undecided(bs, address)
    ensures Tally(Map(Vote(address, signature), bs)) == Tally(bs) + 1
  {
    var rest := bs[1..];
    assert Map(Vote(address, signature), bs)[1..] == Map(Vote(address, signature), rest);
    if bs[0].address == address {
      assert forall b :: b in rest ==> b.address != address;
      VoteElsewhere(rest, address, signature);
      var i :| 0 <= i < |bs| && bs[i] == Ballot(address, None);
    } else {
      TallyVote(rest, address, signature);
    }
  }

  // ---- Workflows a request leaves alone ----

  // What a request leaves of a workflow it does not touch, as others see it.
  predicate Untouched(v: Vault, v': Vault, w: nat)
    requires w in v.workflows
  {
    && w in v'.workflows && v'.workflows[w] == v.workflows[w]
    && (v.workflows[w].secret in v.secrets ==>
          v.workflows[w].secret in v'.secrets && v'.secrets[v.workflows[w].secret] == v.secrets[v.workflows[w].secret])
    && Ballots(v', w) == Ballots(v, w)
  }

  function Names(recipients: seq<Recipient>, w: nat): set<string> {
    set r | r in recipients && r.workflow == w :: r.address
  }

  lemma MapMember<T>(f: T -> T, xs: seq<T>, y: T) returns (x: T)
    requires y in Map(f, xs)
    ensures x in xs && y == f(x)
  {
    var i :| 0 <= i < |xs| && Map(f, xs)[i] == y;
    x := xs[i];
  }

  lemma InMap<T>(f: T -> T, xs: seq<T>, x: T)
    requires x in xs
    ensures f(x) in Map(f, xs)
  {
    var i :| 0 <= i < |xs| && xs[i] == x;
    assert Map(f, xs)[i] == f(x);
  }
}
