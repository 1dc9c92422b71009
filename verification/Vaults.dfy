/**
Secrets, grants and multisig workflows as tables, who may read what, and the
requests that change them. Each request is one atomic step; a refused one leaves
the tables as they were.
*/
module Vaults {
  import opened Text
  import opened Lists
  import opened Wraps

  datatype Status = Pending | Completed | Rejected

  datatype Secret = Secret(owner: string, name: string, data: string)

  datatype Grant = Grant(id: nat, secret: nat, grantee: string, key: string, expiresAt: Option<int>)

  // A NULL or zero threshold asks every signer.
  datatype Workflow = Workflow(
    owner: string, secret: nat, status: Status, threshold: Option<nat>, rejectedBy: Option<string>)

  datatype Signer = Signer(id: nat, workflow: nat, address: string, key: Option<string>, approval: Option<string>)

  datatype Recipient = Recipient(id: nat, workflow: nat, address: string, key: Option<string>)

  // `users` are the active accounts; ids are drawn from `next` and never reused.
  datatype Vault = Vault(
    users: set<string>,
    secrets: map<nat, Secret>,
    grants: seq<Grant>,
    workflows: map<nat, Workflow>,
    signers: seq<Signer>,
    recipients: seq<Recipient>,
    next: nat)

  // ---- Who may read what ----

  predicate IsLive(g: Grant, now: int) { g.expiresAt.None? || g.expiresAt.value > now }

  predicate HasLiveGrant(v: Vault, secret: nat, address: string, now: int) {
    exists g :: g in v.grants && g.secret == secret && g.grantee == Lower(address) && IsLive(g, now)
  }

  function SignerOn(workflow: nat): Signer -> bool { (s: Signer) => s.workflow == workflow }

  function RecipientOn(workflow: nat): Recipient -> bool { (r: Recipient) => r.workflow == workflow }

  function SignersOf(v: Vault, workflow: nat): seq<Signer> { Filter(SignerOn(workflow), v.signers) }

  function RecipientsOf(v: Vault, workflow: nat): seq<Recipient> { Filter(RecipientOn(workflow), v.recipients) }

  predicate IsSigner(v: Vault, workflow: nat, address: string) {
    exists s :: s in v.signers && s.workflow == workflow && s.address == Lower(address)
  }

  predicate IsRecipient(v: Vault, workflow: nat, address: string) {
    exists r :: r in v.recipients && r.workflow == workflow && r.address == Lower(address)
  }

  // `can_read_workflow`
  predicate CanReadWorkflow(v: Vault, workflow: nat, address: string) {
    && workflow in v.workflows
    && (|| Lower(v.workflows[workflow].owner) == Lower(address)
        || IsSigner(v, workflow, address)
        || (v.workflows[workflow].status == Completed && IsRecipient(v, workflow, address)))
  }

  // `is_workflow_managed`
  predicate Managed(v: Vault, secret: nat) {
    exists w :: w in v.workflows && v.workflows[w].secret == secret
  }

  // `can_read_secret`. A secret has at most one workflow, so it does not matter
  // which one a lookup by secret finds first.
  predicate CanReadSecret(v: Vault, secret: nat, address: string, now: int) {
    && secret in v.secrets
    && (|| Lower(v.secrets[secret].owner) == Lower(address)
        || HasLiveGrant(v, secret, address, now)
        || exists w :: w in v.workflows && v.workflows[w].secret == secret && CanReadWorkflow(v, w, address))
  }

  predicate CanManageSecret(v: Vault, secret: nat, address: string) {
    secret in v.secrets && Lower(v.secrets[secret].owner) == Lower(address)
  }

  function Signing(signers: seq<Signer>, address: string): set<nat> {
    set s | s in signers && s.address == Lower(address) :: s.workflow
  }

  function Receiving(recipients: seq<Recipient>, address: string): set<nat> {
    set r | r in recipients && r.address == Lower(address) :: r.workflow
  }

  // `readable_workflows`: the same rule as one query over the three tables.
  function ReadableWorkflows(v: Vault, address: string): set<nat> {
    set w | w in v.workflows &&
      (|| v.workflows[w].owner == Lower(address)
       || w in Signing(v.signers, address)
       || (w in Receiving(v.recipients, address) && v.workflows[w].status == Completed))
  }

  // The two forms of the rule agree, given that owners are stored in lower case.
  lemma ReadableIsCanRead(v: Vault, address: string, w: nat)
    requires w in v.workflows ==> Lower(v.workflows[w].owner) == v.workflows[w].owner
    ensures w in ReadableWorkflows(v, address) <==> CanReadWorkflow(v, w, address)
  {
  }

  // ---- Answers ----

  datatype Answer = Answer(v: Vault, status: nat)

  // 403 if the caller may read the secret, else 404.
  function Refusal(v: Vault, secret: nat, address: string, now: int): nat {
    if CanReadSecret(v, secret, address, now) then 403 else 404
  }

  // What requests are judged by: whether a signature is a signer's approval of a
  // workflow over its secret's ciphertext, and how stored text is parsed.
  datatype Env = Env(approves: (nat, nat, string, string, string) -> bool, loads: Loads)

  datatype Request =
    | CreateSecret(caller: string, name: string, data: string, key: string, room: bool)
    | UpdateSecret(caller: string, secret: nat, name: string, data: string, room: bool)
    | DeleteSecret(caller: string, secret: nat)
    | Share(caller: string, secret: nat, grantee: string, key: string, expiresIn: Option<nat>)
    | Revoke(caller: string, grant: nat)
    | PurgeGrants(ofSecret: Option<nat>, ofGrantee: Option<string>)
    | CreateWorkflow(caller: string, signers: seq<string>, recipients: seq<string>,
                     signerKeys: seq<(string, string)>, recipientKeys: seq<(string, string)>,
                     threshold: int, name: string, data: string, key: string, room: bool)
    | Sign(caller: string, workflow: nat, signature: string, keys: seq<(string, string)>)
    | Reject(caller: string, workflow: nat)
    | DeleteWorkflow(caller: string, workflow: nat)
    | Rewrap(caller: string, kid: Option<string>, items: seq<Rewrapped>)
    | EraseAccount(address: string)
    | LeaveAccount(address: string)
    | Join(address: string)

  // ---- Secrets and grants ----

  // `create_secret_with_owner_grant`; `room` is the quota's verdict.
  function WithSecret(v: Vault, owner: string, name: string, data: string, key: string): Vault {
    v.(secrets := v.secrets[v.next := Secret(owner, name, data)],
       grants := v.grants + [Grant(v.next + 1, v.next, owner, key, None)],
       next := v.next + 2)
  }

  function DoCreateSecret(v: Vault, caller: string, name: string, data: string, key: string, room: bool): Answer {
    if !room then Answer(v, 413) else Answer(WithSecret(v, caller, name, data, key), 200)
  }

  function DoUpdateSecret(v: Vault, now: int, caller: string, secret: nat, name: string, data: string, room: bool): Answer {
    if !CanManageSecret(v, secret, caller) then Answer(v, Refusal(v, secret, caller, now))
    else if Managed(v, secret) then Answer(v, 400)
    else if !room then Answer(v, 413)
    else Answer(v.(secrets := v.secrets[secret := v.secrets[secret].(name := name, data := data)]), 200)
  }

  function NotOnSecrets(gone: set<nat>): Grant -> bool { (g: Grant) => g.secret !in gone }

  // Secrets deleted with every grant to them.
  function WithoutSecrets(v: Vault, gone: set<nat>): Vault {
    v.(secrets := v.secrets - gone, grants := Filter(NotOnSecrets(gone), v.grants))
  }

  function DoDeleteSecret(v: Vault, now: int, caller: string, secret: nat): Answer {
    if !CanManageSecret(v, secret, caller) then Answer(v, Refusal(v, secret, caller, now))
    else if Managed(v, secret) then Answer(v, 400)
    else Answer(WithoutSecrets(v, {secret}), 200)
  }

  function Regrant(secret: nat, grantee: string, key: string, expiresAt: Option<int>): Grant -> Grant {
    (g: Grant) => if g.secret == secret && g.grantee == grantee then g.(key := key, expiresAt := expiresAt) else g
  }

  // `_upsert_grant`: one grant per (secret, grantee).
  function Upsert(v: Vault, secret: nat, grantee: string, key: string, expiresAt: Option<int>): Vault {
    if exists g :: g in v.grants && g.secret == secret && g.grantee == grantee
    then v.(grants := Map(Regrant(secret, grantee, key, expiresAt), v.grants))
    else v.(grants := v.grants + [Grant(v.next, secret, grantee, key, expiresAt)], next := v.next + 1)
  }

  function DoShare(v: Vault, now: int, caller: string, secret: nat, grantee: string, key: string, expiresIn: Option<nat>): Answer {
    if !CanManageSecret(v, secret, caller) then Answer(v, Refusal(v, secret, caller, now))
    else if Managed(v, secret) then Answer(v, 400)
    else if Lower(v.secrets[secret].owner) == Lower(grantee) then Answer(v, 400)
    else if Lower(grantee) !in v.users then Answer(v, 404)
    else
      var expiresAt := if expiresIn.GetOr(0) == 0 then None else Some(now + expiresIn.value);
      Answer(Upsert(v, secret, Lower(grantee), key, expiresAt), 200)
  }

  function GrantAt(v: Vault, grant: nat): (g: Option<Grant>)
    ensures g.Some? ==> g.value in v.grants && g.value.id == grant
    ensures g.None? ==> forall x :: x in v.grants ==> x.id != grant
  {
    var found := Filter(GrantWithId(grant), v.grants);
    if found == [] then None
    else
      assert found[0] in found;
      Some(found[0])
  }

  function GrantWithId(grant: nat): Grant -> bool { (g: Grant) => g.id == grant }

  function OtherGrants(grant: nat): Grant -> bool { (g: Grant) => g.id != grant }

  function DoRevoke(v: Vault, now: int, caller: string, grant: nat): Answer {
    match GrantAt(v, grant)
    case None => Answer(v, 404)
    case Some(g) =>
      if !(Lower(g.grantee) == Lower(caller) || CanManageSecret(v, g.secret, caller))
      then Answer(v, Refusal(v, g.secret, caller, now))
      else if g.secret in v.secrets && Lower(v.secrets[g.secret].owner) == Lower(g.grantee) then Answer(v, 400)
      else if Managed(v, g.secret) then Answer(v, 400)
      else Answer(v.(grants := Filter(OtherGrants(grant), v.grants)), 200)
  }

  function Unexpired(ofSecret: Option<nat>, ofGrantee: Option<string>, now: int): Grant -> bool {
    (g: Grant) =>
      || IsLive(g, now)
      || (ofSecret.Some? && g.secret != ofSecret.value)
      || (ofGrantee.Some? && g.grantee != Lower(ofGrantee.value))
  }

  // ---- Workflows ----

  function Cast(): Signer -> bool { (s: Signer) => s.approval.Some? }

  function Quorum(v: Vault, workflow: nat): nat
    requires workflow in v.workflows
  {
    var n := v.workflows[workflow].threshold.GetOr(0);
    if n != 0 then n else |SignersOf(v, workflow)|
  }

  function Approvals(v: Vault, workflow: nat): nat { |Filter(Cast(), SignersOf(v, workflow))| }

  // Lower-cased and without repeats, in order of first mention.
  function Lowered(xs: seq<string>): (r: seq<string>)
    ensures forall a :: a in r <==> exists x :: x in xs && Lower(x) == a
    ensures forall i, j :: 0 <= i < j < |r| ==> r[i] != r[j]
  {
    if xs == [] then []
    else
      var init := Lowered(xs[..|xs| - 1]);
      var last := Lower(xs[|xs| - 1]);
      assert forall x :: x in xs <==> x in xs[..|xs| - 1] || x == xs[|xs| - 1];
      if last in init then init else init + [last]
  }

  // A key map with its addresses lower-cased; a later spelling wins.
  function LoweredKeys(kvs: seq<(string, string)>): map<string, string> {
    if kvs == [] then map[]
    else LoweredKeys(kvs[..|kvs| - 1])[Lower(kvs[|kvs| - 1].0) := kvs[|kvs| - 1].1]
  }

  function Lookup(keys: map<string, string>, address: string): Option<string> {
    if address in keys then Some(keys[address]) else None
  }

  function SignerRows(workflow: nat, addresses: seq<string>, keys: map<string, string>, id: nat): (rows: seq<Signer>)
    ensures |rows| == |addresses|
    ensures forall i :: 0 <= i < |rows| ==>
      rows[i] == Signer(id + i, workflow, addresses[i], Lookup(keys, addresses[i]), None)
  {
    if addresses == [] then []
    else
      [Signer(id, workflow, addresses[0], Lookup(keys, addresses[0]), None)]
        + SignerRows(workflow, addresses[1..], keys, id + 1)
  }

  function RecipientRows(workflow: nat, addresses: seq<string>, keys: map<string, string>, id: nat): (rows: seq<Recipient>)
    ensures |rows| == |addresses|
    ensures forall i :: 0 <= i < |rows| ==>
      rows[i] == Recipient(id + i, workflow, addresses[i], Lookup(keys, addresses[i]))
  {
    if addresses == [] then []
    else
      [Recipient(id, workflow, addresses[0], Lookup(keys, addresses[0]))]
        + RecipientRows(workflow, addresses[1..], keys, id + 1)
  }

  predicate MayCreate(v: Vault, rq: Request)
    requires rq.CreateWorkflow?
  {
    var signers, recipients := Lowered(rq.signers), Lowered(rq.recipients);
    && signers != [] && 1 <= rq.threshold <= |signers|
    && (forall a :: a in signers ==> a in LoweredKeys(rq.signerKeys))
    && (forall a :: a in signers + recipients ==> a in v.users)
  }

  // What a new workflow is made of, normalized.
  datatype Draft = Draft(
    owner: string, name: string, data: string, key: string, threshold: nat,
    signers: seq<string>, recipients: seq<string>,
    signerKeys: map<string, string>, recipientKeys: map<string, string>)

  function DraftOf(rq: Request): Draft
    requires rq.CreateWorkflow? && rq.threshold >= 0
  {
    Draft(rq.caller, rq.name, rq.data, rq.key, rq.threshold,
          Lowered(rq.signers), Lowered(rq.recipients), LoweredKeys(rq.signerKeys), LoweredKeys(rq.recipientKeys))
  }

  // A pending workflow over a secret, with its signer and recipient rows.
  function AddWorkflow(v: Vault, secret: nat, d: Draft): Vault {
    var w := v.next;
    v.(workflows := v.workflows[w := Workflow(d.owner, secret, Pending, Some(d.threshold), None)],
       signers := v.signers + SignerRows(w, d.signers, d.signerKeys, w + 1),
       recipients := v.recipients + RecipientRows(w, d.recipients, d.recipientKeys, w + 1 + |d.signers|),
       next := w + 1 + |d.signers| + |d.recipients|)
  }

  // The secret is a fresh one, created with it.
  function WithWorkflow(v: Vault, d: Draft): Vault {
    AddWorkflow(WithSecret(v, d.owner, d.name, d.data, d.key), v.next, d)
  }

  function DoCreateWorkflow(v: Vault, rq: Request): Answer
    requires rq.CreateWorkflow?
  {
    if !MayCreate(v, rq) then Answer(v, 400)
    else if !rq.room then Answer(v, 413)
    else Answer(WithWorkflow(v, DraftOf(rq)), 200)
  }

  function Approve(workflow: nat, address: string, signature: string): Signer -> Signer {
    (s: Signer) => if s.workflow == workflow && s.address == address then s.(approval := Some(signature)) else s
  }

  predicate HasSigned(v: Vault, workflow: nat, address: string) {
    exists s :: s in v.signers && s.workflow == workflow && s.address == Lower(address) && s.approval.Some?
  }

  // `_release_recipient_keys`: what each row of the workflow holds afterwards.
  function Release(workflow: nat, keys: map<string, string>): Recipient -> Recipient {
    (r: Recipient) =>
      if r.workflow == workflow && Lower(r.address) in keys then r.(key := Some(keys[Lower(r.address)])) else r
  }

  // No key for a stranger, and none of the recipients left without one.
  predicate MayReleaseTo(rows: seq<Recipient>, workflow: nat, keys: map<string, string>) {
    rows != [] ==>
      && (forall a :: a in keys ==> exists r :: r in rows && Lower(r.address) == a)
      && (forall r :: r in rows ==> Release(workflow, keys)(r).key.GetOr("") != "")
  }

  predicate MayRelease(v: Vault, workflow: nat, keys: map<string, string>) {
    MayReleaseTo(RecipientsOf(v, workflow), workflow, keys)
  }

  function WithApproval(v: Vault, workflow: nat, address: string, signature: string): Vault {
    v.(signers := Map(Approve(workflow, Lower(address), signature), v.signers))
  }

  function WithRelease(v: Vault, workflow: nat, keys: map<string, string>): Vault
    requires workflow in v.workflows
  {
    v.(recipients := Map(Release(workflow, keys), v.recipients),
       workflows := v.workflows[workflow := v.workflows[workflow].(status := Completed)])
  }

  function DoSign(env: Env, v: Vault, caller: string, workflow: nat, signature: string, keys: seq<(string, string)>): Answer {
    if workflow !in v.workflows then Answer(v, 404)
    else if !IsSigner(v, workflow, caller) then Answer(v, 403)
    else if v.workflows[workflow].status != Pending then Answer(v, 400)
    else if HasSigned(v, workflow, caller) then Answer(v, 400)
    else
      var secret := v.workflows[workflow].secret;
      if secret !in v.secrets then Answer(v, 404)
      else if !env.approves(workflow, secret, v.secrets[secret].data, caller, signature) then Answer(v, 400)
      else
        var completing := Approvals(v, workflow) + 1 >= Quorum(v, workflow);
        if keys != [] && !completing then Answer(v, 400)
        else if !completing then Answer(WithApproval(v, workflow, caller, signature), 200)
        else if !MayRelease(v, workflow, LoweredKeys(keys)) then Answer(v, 400)
        else Answer(WithRelease(WithApproval(v, workflow, caller, signature), workflow, LoweredKeys(keys)), 200)
  }

  function DoReject(v: Vault, caller: string, workflow: nat): Answer {
    if workflow !in v.workflows then Answer(v, 404)
    else if !IsSigner(v, workflow, caller) then Answer(v, 403)
    else if v.workflows[workflow].status != Pending then Answer(v, 400)
    else
      var w := v.workflows[workflow].(status := Rejected, rejectedBy := Some(Lower(caller)));
      Answer(v.(workflows := v.workflows[workflow := w]), 200)
  }

  function SignerOutside(gone: set<nat>): Signer -> bool { (s: Signer) => s.workflow !in gone }

  function RecipientOutside(gone: set<nat>): Recipient -> bool { (r: Recipient) => r.workflow !in gone }

  function SecretsOf(v: Vault, workflows: set<nat>): set<nat> {
    set w | w in workflows && w in v.workflows :: v.workflows[w].secret
  }

  // Workflows deleted with their rows, then the secrets they carried.
  function WithoutWorkflows(v: Vault, gone: set<nat>): Vault {
    WithoutSecrets(
      v.(workflows := v.workflows - gone,
         signers := Filter(SignerOutside(gone), v.signers),
         recipients := Filter(RecipientOutside(gone), v.recipients)),
      SecretsOf(v, gone))
  }

  function DoDeleteWorkflow(v: Vault, caller: string, workflow: nat): Answer {
    if workflow !in v.workflows then Answer(v, 404)
    else if Lower(v.workflows[workflow].owner) != Lower(caller) then Answer(v, 403)
    else if v.workflows[workflow].status == Completed then Answer(v, 400)
    else Answer(WithoutWorkflows(v, {workflow}), 200)
  }

  // ---- Leaving for good ----

  function DeletableOf(v: Vault, address: string): set<nat> {
    set w | w in v.workflows && v.workflows[w].owner == address && v.workflows[w].status != Completed
  }

  function StaysRecipient(v: Vault, address: string): Recipient -> bool {
    (r: Recipient) => !(r.address == address && !(r.workflow in v.workflows && v.workflows[r.workflow].status == Completed))
  }

  // `_erase_multisig`
  function EraseMultisig(v: Vault, address: string): Vault {
    var left := WithoutWorkflows(v, DeletableOf(v, address));
    left.(recipients := Filter(StaysRecipient(left, address), left.recipients))
  }

  function UnmanagedOf(v: Vault, address: string): set<nat> {
    set s | s in v.secrets && v.secrets[s].owner == address && !Managed(v, s)
  }

  function NotHeldBy(address: string): Grant -> bool { (g: Grant) => g.grantee != address }

  // `_erase_secrets`
  function EraseSecrets(v: Vault, address: string): Vault {
    var left := WithoutSecrets(v, UnmanagedOf(v, address));
    left.(grants := Filter(NotHeldBy(address), left.grants))
  }

  function DoErase(v: Vault, address: string): Vault {
    var left := EraseSecrets(EraseMultisig(v, address), address);
    left.(users := left.users - {address})
  }

  // ---- Re-wrapping ----

  function HeldGrant(): Grant -> Held { (g: Grant) => Held(GrantWrap, g.id, g.key) }

  function HeldSigner(): Signer -> Held { (s: Signer) => Held(SignerWrap, s.id, s.key.GetOr("")) }

  function HeldRecipient(): Recipient -> Held { (r: Recipient) => Held(RecipientWrap, r.id, r.key.GetOr("")) }

  function GrantOf(address: string, now: int): Grant -> bool {
    (g: Grant) => g.grantee == Lower(address) && IsLive(g, now)
  }

  function SignerFor(v: Vault, address: string): Signer -> bool {
    (s: Signer) => s.address == Lower(address) && s.workflow in ReadableWorkflows(v, address) && s.key.Some?
  }

  function RecipientFor(v: Vault, address: string): Recipient -> bool {
    (r: Recipient) => r.address == Lower(address) && r.workflow in ReadableWorkflows(v, address) && r.key.Some?
  }

  // `_held`: every wrap this address may read, in a stable order.
  function HeldBy(v: Vault, address: string, now: int): seq<Held> {
    Map(HeldGrant(), Filter(GrantOf(address, now), v.grants))
      + Map(HeldSigner(), Filter(SignerFor(v, address), v.signers))
      + Map(HeldRecipient(), Filter(RecipientFor(v, address), v.recipients))
  }

  function ResealGrant(items: seq<Rewrapped>): Grant -> Grant {
    (g: Grant) => g.(key := NewWrap(items, GrantWrap, g.id).GetOr(g.key))
  }

  function ResealSigner(items: seq<Rewrapped>): Signer -> Signer {
    (s: Signer) => if NewWrap(items, SignerWrap, s.id).Some? then s.(key := NewWrap(items, SignerWrap, s.id)) else s
  }

  function ResealRecipient(items: seq<Rewrapped>): Recipient -> Recipient {
    (r: Recipient) => if NewWrap(items, RecipientWrap, r.id).Some? then r.(key := NewWrap(items, RecipientWrap, r.id)) else r
  }

  // `rewrap`: all or nothing.
  function DoRewrap(env: Env, v: Vault, now: int, caller: string, kid: Option<string>, items: seq<Rewrapped>): Answer {
    var verdict := FirstFault(Fault(env.loads, HeldBy(v, caller, now), kid), items);
    if verdict != 200 then Answer(v, verdict)
    else Answer(v.(grants := Map(ResealGrant(items), v.grants),
                   signers := Map(ResealSigner(items), v.signers),
                   recipients := Map(ResealRecipient(items), v.recipients)), 200)
  }

  // ---- Any request ----

  function Handle(env: Env, v: Vault, now: int, rq: Request): Answer {
    match rq
    case CreateSecret(caller, name, data, key, room) => DoCreateSecret(v, caller, name, data, key, room)
    case UpdateSecret(caller, secret, name, data, room) => DoUpdateSecret(v, now, caller, secret, name, data, room)
    case DeleteSecret(caller, secret) => DoDeleteSecret(v, now, caller, secret)
    case Share(caller, secret, grantee, key, expiresIn) => DoShare(v, now, caller, secret, grantee, key, expiresIn)
    case Revoke(caller, grant) => DoRevoke(v, now, caller, grant)
    case PurgeGrants(ofSecret, ofGrantee) =>
      Answer(v.(grants := Filter(Unexpired(ofSecret, ofGrantee, now), v.grants)), 200)
    case CreateWorkflow(_, _, _, _, _, _, _, _, _, _) => DoCreateWorkflow(v, rq)
    case Sign(caller, workflow, signature, keys) => DoSign(env, v, caller, workflow, signature, keys)
    case Reject(caller, workflow) => DoReject(v, caller, workflow)
    case DeleteWorkflow(caller, workflow) => DoDeleteWorkflow(v, caller, workflow)
    case Rewrap(caller, kid, items) => DoRewrap(env, v, now, caller, kid, items)
    case EraseAccount(address) => Answer(DoErase(v, address), 200)
    case LeaveAccount(address) => Answer(v.(users := v.users - {address}), 200)
    case Join(address) => Answer(v.(users := v.users + {address}), 200)
  }
}
