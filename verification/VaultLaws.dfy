/**
What each request on the vault is accepted for and what it then does, told from the
request itself: who may ask, in which order it is refused, which rows it writes, and
that it writes no others.
*/
module VaultLaws {
  import opened Text
  import opened Lists
  import opened Wraps
  import opened Vaults
  import opened Multisig

  // ---- Names as they are sent: any case, any number of times ----

  function Spelled(xs: seq<string>): set<string> { set x | x in xs :: Lower(x) }

  // The key supplied for an address; of several spellings the last one counts.
  ghost predicate Supplies(kvs: seq<(string, string)>, address: string, key: string) {
    exists i :: 0 <= i < |kvs| && Lower(kvs[i].0) == address && kvs[i].1 == key
                && forall j :: i < j < |kvs| ==> Lower(kvs[j].0) != address
  }

  predicate Supplied(kvs: seq<(string, string)>, address: string) { exists kv :: kv in kvs && Lower(kv.0) == address }

  lemma {:induction false} LoweredKeysMean(kvs: seq<(string, string)>, address: string)
    ensures address in LoweredKeys(kvs) <==> Supplied(kvs, address)
    ensures address in LoweredKeys(kvs) ==> Supplies(kvs, address, LoweredKeys(kvs)[address])
  {
    if kvs != [] {
      var n := |kvs| - 1;
      var init := kvs[..n];
      LoweredKeysMean(init, address);
      assert kvs == init + [kvs[n]];
      if Lower(kvs[n].0) == address {
        assert kvs[n] in kvs;
      } else if address in LoweredKeys(init) {
        var i :| 0 <= i < |init| && Lower(init[i].0) == address && init[i].1 == LoweredKeys(init)[address]
          && forall j :: i < j < |init| ==> Lower(init[j].0) != address;
        assert kvs[i] == init[i];
      }
    }
  }

  lemma LoweredCount(xs: seq<string>)
    ensures SetOf(Lowered(xs)) == Spelled(xs) && |Lowered(xs)| == |Spelled(xs)|
  {
    NoRepeatsMultiset(Lowered(xs));
    assert |multiset(Lowered(xs))| == |multiset(SetOf(Lowered(xs)))|;
  }

  // ---- Creating a workflow ----

  ghost predicate Admissible(v: Vault, rq: Request)
    requires rq.CreateWorkflow?
  {
    && 1 <= rq.threshold <= |Spelled(rq.signers)|
    && (forall x :: x in rq.signers ==> Supplied(rq.signerKeys, Lower(x)))
    && (forall x :: x in rq.signers || x in rq.recipients ==> Lower(x) in v.users)
  }

  lemma AdmissibleIsMayCreate(v: Vault, rq: Request)
    requires rq.CreateWorkflow?
    ensures MayCreate(v, rq) <==> Admissible(v, rq)
  {
    LoweredCount(rq.signers);
    forall x ensures Lower(x) in LoweredKeys(rq.signerKeys) <==> Supplied(rq.signerKeys, Lower(x)) {
      LoweredKeysMean(rq.signerKeys, Lower(x));
    }
    if Admissible(v, rq) {
      assert Lowered(rq.signers) != [];
    }
  }

  // One row for each signer named, holding the key supplied for it, nothing signed.
  ghost predicate SignersAsked(rows: seq<Signer>, w: nat, rq: Request)
    requires rq.CreateWorkflow?
  {
    && |rows| == |Spelled(rq.signers)|
    && (forall x :: x in rq.signers ==> exists s :: s in rows && s.address == Lower(x))
    && (forall s :: s in rows ==>
          s.workflow == w && s.approval.None? && s.key.Some? && Supplies(rq.signerKeys, s.address, s.key.value))
  }

  // One row for each recipient named, holding its key if one is supplied.
  ghost predicate RecipientsAsked(rows: seq<Recipient>, w: nat, rq: Request)
    requires rq.CreateWorkflow?
  {
    && |rows| == |Spelled(rq.recipients)|
    && (forall x :: x in rq.recipients ==> exists r :: r in rows && r.address == Lower(x))
    && (forall r :: r in rows ==>
          && r.workflow == w && (r.key.Some? <==> Supplied(rq.recipientKeys, r.address))
          && (r.key.Some? ==> Supplies(rq.recipientKeys, r.address, r.key.value)))
  }

  lemma NameAt(xs: seq<string>, x: string) returns (i: nat)
    requires x in xs
    ensures i < |Lowered(xs)| && Lowered(xs)[i] == Lower(x)
  {
    assert Lower(x) in Lowered(xs);
    i :| 0 <= i < |Lowered(xs)| && Lowered(xs)[i] == Lower(x);
  }

  lemma NameFrom(xs: seq<string>, i: nat) returns (x: string)
    requires i < |Lowered(xs)|
    ensures x in xs && Lower(x) == Lowered(xs)[i]
  {
    assert Lowered(xs)[i] in Lowered(xs);
    x :| x in xs && Lower(x) == Lowered(xs)[i];
  }

  lemma SignerRowsAsked(w: nat, rq: Request, id: nat)
    requires rq.CreateWorkflow? && forall x :: x in rq.signers ==> Supplied(rq.signerKeys, Lower(x))
    ensures SignersAsked(SignerRows(w, Lowered(rq.signers), LoweredKeys(rq.signerKeys), id), w, rq)
  {
    var names, keys := Lowered(rq.signers), LoweredKeys(rq.signerKeys);
    var rows := SignerRows(w, names, keys, id);
    LoweredCount(rq.signers);
    forall x | x in rq.signers ensures exists s :: s in rows && s.address == Lower(x) {
      var i := NameAt(rq.signers, x);
      assert rows[i] in rows;
    }
    forall s | s in rows
      ensures s.workflow == w && s.approval.None? && s.key.Some? && Supplies(rq.signerKeys, s.address, s.key.value)
    {
      var i :| 0 <= i < |rows| && rows[i] == s;
      var x := NameFrom(rq.signers, i);
      LoweredKeysMean(rq.signerKeys, names[i]);
      assert s == Signer(id + i, w, names[i], Some(keys[names[i]]), None);
    }
  }

  lemma RecipientRowsAsked(w: nat, rq: Request, id: nat)
    requires rq.CreateWorkflow?
    ensures RecipientsAsked(RecipientRows(w, Lowered(rq.recipients), LoweredKeys(rq.recipientKeys), id), w, rq)
  {
    var names, keys := Lowered(rq.recipients), LoweredKeys(rq.recipientKeys);
    var rows := RecipientRows(w, names, keys, id);
    LoweredCount(rq.recipients);
    forall x | x in rq.recipients ensures exists r :: r in rows && r.address == Lower(x) {
      var i := NameAt(rq.recipients, x);
      assert rows[i] in rows;
    }
    forall r | r in rows
      ensures r.workflow == w && (r.key.Some? <==> Supplied(rq.recipientKeys, r.address))
      ensures r.key.Some? ==> Supplies(rq.recipientKeys, r.address, r.key.value)
    {
      var i :| 0 <= i < |rows| && rows[i] == r;
      LoweredKeysMean(rq.recipientKeys, names[i]);
      assert r == Recipient(id + i, w, names[i], Lookup(keys, names[i]));
    }
  }

  // What an accepted creation stores: a new pending workflow w of the caller's, asking
  // exactly the threshold that was sent, over a new secret s with the name and data that
  // were sent; a row for each signer and each recipient; the caller's own grant; and
  // nothing else changes.
  ghost predicate WorkflowStored(v: Vault, rq: Request, w: nat, s: nat)
    requires rq.CreateWorkflow?
  {
    var after := DoCreateWorkflow(v, rq).v;
    && v.next <= s < after.next && v.next <= w < after.next && w != s && rq.threshold >= 0
    && after.workflows == v.workflows[w := Workflow(rq.caller, s, Pending, Some(rq.threshold as nat), None)]
    && after.secrets == v.secrets[s := Secret(rq.caller, rq.name, rq.data)]
    && (exists id :: v.next <= id < after.next && after.grants == v.grants + [Grant(id, s, rq.caller, rq.key, None)])
    && v.signers <= after.signers && SignersAsked(after.signers[|v.signers|..], w, rq)
    && v.recipients <= after.recipients && RecipientsAsked(after.recipients[|v.recipients|..], w, rq)
    && after.users == v.users
  }

  // Main result: which creations are accepted, the others' refusals in their order, and
  // that an accepted one stores what was asked for.
  lemma WorkflowAsAsked(v: Vault, rq: Request) returns (w: nat, s: nat)
    requires rq.CreateWorkflow?
    ensures DoCreateWorkflow(v, rq).status == if !Admissible(v, rq) then 400 else if !rq.room then 413 else 200
    ensures DoCreateWorkflow(v, rq).status != 200 ==> DoCreateWorkflow(v, rq).v == v
    ensures DoCreateWorkflow(v, rq).status == 200 ==> WorkflowStored(v, rq, w, s)
  {
    s, w := v.next, v.next + 2;
    AdmissibleIsMayCreate(v, rq);
    if DoCreateWorkflow(v, rq).status == 200 {
      WorkflowTables(v, rq);
      Accepted(v, rq);
      WorkflowRows(v, rq, DoCreateWorkflow(v, rq).v);
      assert v.next <= v.next + 1 < DoCreateWorkflow(v, rq).v.next;
    }
  }

  lemma WorkflowTables(v: Vault, rq: Request)
    requires rq.CreateWorkflow? && DoCreateWorkflow(v, rq).status == 200
    ensures var after := DoCreateWorkflow(v, rq).v;
      && after.next > v.next + 2 && rq.threshold >= 0
      && after.workflows == v.workflows[v.next + 2 := Workflow(rq.caller, v.next, Pending, Some(rq.threshold as nat), None)]
      && after.secrets == v.secrets[v.next := Secret(rq.caller, rq.name, rq.data)]
      && after.grants == v.grants + [Grant(v.next + 1, v.next, rq.caller, rq.key, None)]
      && after.users == v.users
  {
  }

  lemma RowsAdded(v: Vault, d: Draft)
    ensures var w, after := v.next + 2, WithWorkflow(v, d);
      && after.signers == v.signers + SignerRows(w, d.signers, d.signerKeys, w + 1)
      && after.recipients == v.recipients + RecipientRows(w, d.recipients, d.recipientKeys, w + 1 + |d.signers|)
  {
  }

  lemma Appended<T>(xs: seq<T>, ys: seq<T>, all: seq<T>)
    requires all == xs + ys
    ensures xs <= all && all[|xs|..] == ys
  {
  }

  lemma AddedOnly(before: seq<Signer>, after: seq<Signer>, x: Signer)
    requires before <= after && x in after
    ensures x in before || x in after[|before|..]
  {
    var i :| 0 <= i < |after| && after[i] == x;
    if i >= |before| { assert after[|before|..][i - |before|] == x; }
  }

  lemma Accepted(v: Vault, rq: Request)
    requires rq.CreateWorkflow? && DoCreateWorkflow(v, rq).status == 200
    ensures rq.threshold >= 0 && DoCreateWorkflow(v, rq).v == WithWorkflow(v, DraftOf(rq))
    ensures forall x :: x in rq.signers ==> Supplied(rq.signerKeys, Lower(x))
  {
    AdmissibleIsMayCreate(v, rq);
  }

  lemma WorkflowRows(v: Vault, rq: Request, after: Vault)
    requires rq.CreateWorkflow? && rq.threshold >= 0 && after == WithWorkflow(v, DraftOf(rq))
    requires forall x :: x in rq.signers ==> Supplied(rq.signerKeys, Lower(x))
    ensures v.signers <= after.signers && SignersAsked(after.signers[|v.signers|..], v.next + 2, rq)
    ensures v.recipients <= after.recipients && RecipientsAsked(after.recipients[|v.recipients|..], v.next + 2, rq)
  {
    DraftSigners(v, rq, DraftOf(rq));
    DraftRecipients(v, rq, DraftOf(rq));
  }

  lemma SignersAdded(before: seq<Signer>, after: seq<Signer>, w: nat, rq: Request, id: nat)
    requires rq.CreateWorkflow? && forall x :: x in rq.signers ==> Supplied(rq.signerKeys, Lower(x))
    requires after == before + SignerRows(w, Lowered(rq.signers), LoweredKeys(rq.signerKeys), id)
    ensures before <= after && SignersAsked(after[|before|..], w, rq)
  {
    var rows := SignerRows(w, Lowered(rq.signers), LoweredKeys(rq.signerKeys), id);
    SignerRowsAsked(w, rq, id);
    Appended(before, rows, after);
  }

  lemma RecipientsAdded(before: seq<Recipient>, after: seq<Recipient>, w: nat, rq: Request, id: nat)
    requires rq.CreateWorkflow?
    requires after == before + RecipientRows(w, Lowered(rq.recipients), LoweredKeys(rq.recipientKeys), id)
    ensures before <= after && RecipientsAsked(after[|before|..], w, rq)
  {
    var rows := RecipientRows(w, Lowered(rq.recipients), LoweredKeys(rq.recipientKeys), id);
    RecipientRowsAsked(w, rq, id);
    Appended(before, rows, after);
  }

  lemma DraftSigners(v: Vault, rq: Request, d: Draft)
    requires rq.CreateWorkflow? && d.signers == Lowered(rq.signers) && d.signerKeys == LoweredKeys(rq.signerKeys)
    requires forall x :: x in rq.signers ==> Supplied(rq.signerKeys, Lower(x))
    ensures v.signers <= WithWorkflow(v, d).signers
    ensures SignersAsked(WithWorkflow(v, d).signers[|v.signers|..], v.next + 2, rq)
  {
    RowsAdded(v, d);
    SignersAdded(v.signers, WithWorkflow(v, d).signers, v.next + 2, rq, v.next + 3);
  }

  lemma DraftRecipients(v: Vault, rq: Request, d: Draft)
    requires rq.CreateWorkflow? && d.recipients == Lowered(rq.recipients) && d.recipientKeys == LoweredKeys(rq.recipientKeys)
    ensures v.recipients <= WithWorkflow(v, d).recipients
    ensures RecipientsAsked(WithWorkflow(v, d).recipients[|v.recipients|..], v.next + 2, rq)
  {
    RowsAdded(v, d);
    RecipientsAdded(v.recipients, WithWorkflow(v, d).recipients, v.next + 2, rq, v.next + 3 + |d.signers|);
  }
}
