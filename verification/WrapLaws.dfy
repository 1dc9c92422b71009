/**
What a wrap must look like to be accepted, which rows an account holds, and how a
batch of re-wraps is answered, each in its own terms.
*/
module WrapLaws {
  import opened Text
  import opened Lists
  import opened CanonicalJson
  import opened SignedBodies
  import opened Base64
  import opened Wraps
  import opened Vaults
  import opened Rewraps

  // ---- The wrap itself ----

  const SEALED_ALG := "HKDFwSHA384_P384_ML-KEM-768_CatKDF-A256GCM"

  predicate WrapParts(ms: Members, kid: string, kem: seq<Byte>, iv: seq<Byte>, shape: string, sealed: seq<Byte>) {
    && ms.Keys() == {"v", "alg", "kid", "kem", "iv"} + {shape}
    && Field(ms, "v") == Some(Num(5))
    && Field(ms, "alg") == Some(Str(SEALED_ALG))
    && Field(ms, "kid") == Some(Str(kid))
    && Field(ms, "kem") == Some(Str(Encode(kem))) && |kem| == 1185
    && Field(ms, "iv") == Some(Str(Encode(iv))) && |iv| == 12
    && Field(ms, shape) == Some(Str(Encode(sealed)))
    && ((shape == "encKey" && |sealed| == 48) || (shape == "content" && |sealed| > 16))
  }

  lemma AlgText()
    ensures KEM_ENVELOPE_ALG == SEALED_ALG
  {
    var head, tail := "HKDFwSHA384_P384_ML-KEM-768_CatKDF", "-A256GCM";
    assert |head| == 34;
    assert SEALED_ALG[..34] == head && SEALED_ALG[34..] == tail;
  }

  // A base64 field whose bytes number as they should is the encoding of such bytes.
  lemma EncodedField(v: Option<Json>, many: nat -> bool) returns (bs: seq<Byte>)
    requires Base64Of(v, many)
    ensures v == Some(Str(Encode(bs))) && many(|bs|)
  {
    bs := Decode(v.value.s).value;
  }

  lemma FieldEncoded(v: Option<Json>, many: nat -> bool, bs: seq<Byte>)
    requires v == Some(Str(Encode(bs))) && many(|bs|) && bs != []
    ensures Base64Of(v, many)
  {
    EncodedAccepted(bs);
  }

  lemma EncodedAccepted(bs: seq<Byte>)
    requires bs != []
    ensures IsB64(Encode(bs)) && Decode(Encode(bs)) == Some(bs)
  {
    DecodeEncode(bs);
    IsB64Exactly(Encode(bs));
  }

  // Main result: a wrap is accepted for a key exactly if it is an object of version 5
  // with the six fields of one of its two shapes, naming that key, around 1185 bytes
  // of KEM ciphertext, 12 of IV, and 48 of wrapped key or more than 16 of content.
  lemma WrapExactly(loads: Loads, value: string, kid: string)
    ensures IsWrappedKeyFor(loads, value, kid)
       <==> && IsValidKeyId(kid)
            && loads(value).Some? && loads(value).value.Obj?
            && exists kem, iv, shape, sealed :: WrapParts(loads(value).value.members, kid, kem, iv, shape, sealed)
  {
    if loads(value).Some? && loads(value).value.Obj? {
      var ms := loads(value).value.members;
      if IsWrappedKeyFor(loads, value, kid) {
        WrapSplits(loads, value, kid);
      }
      forall kem, iv, shape, sealed | IsValidKeyId(kid) && WrapParts(ms, kid, kem, iv, shape, sealed)
        ensures IsWrappedKeyFor(loads, value, kid)
      {
        PartsWrap(loads, value, kid, kem, iv, shape, sealed);
      }
    }
  }

  // The two sets of fields a wrap may have.
  lemma FieldSets(keys: set<string>)
    ensures ENVELOPE_FIELDS <= keys && keys - ENVELOPE_FIELDS in {{"encKey"}, {"content"}}
       <==> keys == ENVELOPE_FIELDS + {"encKey"} || keys == ENVELOPE_FIELDS + {"content"}
    ensures keys == ENVELOPE_FIELDS + {"encKey"} ==> "encKey" in keys
    ensures keys == ENVELOPE_FIELDS + {"content"} ==> "encKey" !in keys
  {
    NotAField("encKey");
    NotAField("content");
    assert "encKey" != "content";
    OneMore(keys, ENVELOPE_FIELDS, "encKey");
    OneMore(keys, ENVELOPE_FIELDS, "content");
  }

  lemma NotAField(shape: string)
    requires |shape| > 3
    ensures shape !in ENVELOPE_FIELDS
  {
    assert forall f :: f in ENVELOPE_FIELDS ==> |f| <= 3;
  }

  lemma OneMore(keys: set<string>, fields: set<string>, more: string)
    requires more !in fields
    ensures fields <= keys && keys - fields == {more} <==> keys == fields + {more}
  {
    if fields <= keys && keys - fields == {more} {
      assert keys == fields + (keys - fields);
    }
    if keys == fields + {more} {
      assert keys - fields == {more};
    }
  }

  lemma WrapSplits(loads: Loads, value: string, kid: string)
    requires IsWrappedKeyFor(loads, value, kid)
    ensures exists kem, iv, shape, sealed :: WrapParts(loads(value).value.members, kid, kem, iv, shape, sealed)
  {
    var ms := loads(value).value.members;
    AlgText();
    FieldSets(ms.Keys());
    var kem := EncodedField(Field(ms, "kem"), Exactly(KEM_BYTES));
    var iv := EncodedField(Field(ms, "iv"), Exactly(IV_BYTES));
    if "encKey" in ms.Keys() {
      var sealed := EncodedField(Field(ms, "encKey"), Exactly(WRAPPED_SESSION_KEY_BYTES));
      assert WrapParts(ms, kid, kem, iv, "encKey", sealed);
    } else {
      var sealed := EncodedField(Field(ms, "content"), MoreThan(16));
      assert WrapParts(ms, kid, kem, iv, "content", sealed);
    }
  }

  lemma PartsWrap(loads: Loads, value: string, kid: string,
                  kem: seq<Byte>, iv: seq<Byte>, shape: string, sealed: seq<Byte>)
    requires IsValidKeyId(kid) && loads(value).Some? && loads(value).value.Obj?
    requires WrapParts(loads(value).value.members, kid, kem, iv, shape, sealed)
    ensures IsWrappedKeyFor(loads, value, kid)
  {
    var ms := loads(value).value.members;
    AlgText();
    FieldSets(ms.Keys());
    FieldEncoded(Field(ms, "kem"), Exactly(KEM_BYTES), kem);
    FieldEncoded(Field(ms, "iv"), Exactly(IV_BYTES), iv);
    if shape == "encKey" {
      FieldEncoded(Field(ms, "encKey"), Exactly(WRAPPED_SESSION_KEY_BYTES), sealed);
    } else {
      FieldEncoded(Field(ms, "content"), MoreThan(16), sealed);
    }
  }

  // ---- Stale wraps ----

  predicate NamesKey(loads: Loads, wrap: string, kid: string) {
    && IsValidKeyId(kid) && loads(wrap).Some? && loads(wrap).value.Obj?
    && Field(loads(wrap).value.members, "kid") == Some(Str(kid))
  }

  // A held wrap is stale exactly if it does not name the current key; unreadable ones are.
  lemma StaleExactly(loads: Loads, kid: string, held: seq<Held>, h: Held)
    ensures h in StaleOf(loads, Some(kid), held) <==> h in held && !NamesKey(loads, h.wrap, kid)
    ensures h in StaleOf(loads, None, held) <==> h in held && exists k :: NamesKey(loads, h.wrap, k)
  {
    if WrappedKeyId(loads, Some(h.wrap)).Some? {
      assert NamesKey(loads, h.wrap, WrappedKeyId(loads, Some(h.wrap)).value);
    }
  }

  // ---- A batch ----

  predicate NamesRow(item: Rewrapped, kind: WrapKind, id: nat) { item.kind == kind && item.id == id }

  predicate LastNaming(items: seq<Rewrapped>, kind: WrapKind, id: nat, i: int) {
    0 <= i < |items| && NamesRow(items[i], kind, id) && forall j :: i < j < |items| ==> !NamesRow(items[j], kind, id)
  }

  // A batch gives a row the wrap of its last item naming it, if one does.
  lemma {:induction false} NewWrapIsLast(items: seq<Rewrapped>, kind: WrapKind, id: nat)
    ensures NewWrap(items, kind, id).None? <==> forall i :: 0 <= i < |items| ==> !NamesRow(items[i], kind, id)
    ensures forall i :: LastNaming(items, kind, id, i) ==> NewWrap(items, kind, id) == Some(items[i].wrap)
  {
    if items != [] {
      NewWrapIsLast(items[1..], kind, id);
      var rest := items[1..];
      assert forall j :: 1 <= j < |items| ==> items[j] == rest[j - 1];
      forall i | LastNaming(items, kind, id, i) ensures NewWrap(items, kind, id) == Some(items[i].wrap) {
        if i > 0 {
          assert forall j :: i - 1 < j < |rest| ==> rest[j] == items[j + 1];
          assert LastNaming(rest, kind, id, i - 1);
        }
      }
    }
  }

  // ---- What an account holds ----

  // A recipient's row opens to it once the workflow is completed, or if it is also the
  // owner or a signer.
  predicate OpenTo(v: Vault, address: string, r: Recipient) {
    && r.workflow in v.workflows
    && (|| v.workflows[r.workflow].status == Completed
        || v.workflows[r.workflow].owner == Lower(address)
        || exists s :: s in v.signers && s.workflow == r.workflow && s.address == Lower(address))
  }

  predicate HoldsWrap(v: Vault, address: string, now: int, h: Held) {
    match h.kind
    case GrantWrap =>
      exists g :: g in v.grants && g.id == h.id && g.key == h.wrap && g.grantee == Lower(address)
        && (g.expiresAt == None || g.expiresAt.value > now)
    case SignerWrap =>
      exists s :: s in v.signers && s.id == h.id && s.key == Some(h.wrap) && s.address == Lower(address)
        && s.workflow in v.workflows
    case RecipientWrap =>
      exists r :: r in v.recipients && r.id == h.id && r.key == Some(h.wrap) && r.address == Lower(address)
        && OpenTo(v, address, r)
  }

  // Main result: an account holds the keys of its live grants, of its rows as a signer,
  // and of its rows as a recipient of a workflow released to it or its own.
  lemma HeldExactly(v: Vault, address: string, now: int, h: Held)
    ensures h in HeldBy(v, address, now) <==> HoldsWrap(v, address, now, h)
  {
    HeldGrants(v, address, now, h);
    HeldSigners(v, address, now, h);
    HeldRecipients(v, address, now, h);
  }

  lemma HeldGrants(v: Vault, address: string, now: int, h: Held)
    ensures h in Map(HeldGrant(), Filter(GrantOf(address, now), v.grants))
       <==> h.kind == GrantWrap && HoldsWrap(v, address, now, h)
  {
    HeldListed(HeldGrant(), Filter(GrantOf(address, now), v.grants), h);
  }

  lemma HeldSigners(v: Vault, address: string, now: int, h: Held)
    ensures h in Map(HeldSigner(), Filter(SignerFor(v, address), v.signers))
       <==> h.kind == SignerWrap && HoldsWrap(v, address, now, h)
  {
    HeldListed(HeldSigner(), Filter(SignerFor(v, address), v.signers), h);
    forall s | s in v.signers && s.address == Lower(address) && s.workflow in v.workflows
      ensures s.workflow in ReadableWorkflows(v, address)
    {
      assert s.workflow in Signing(v.signers, address);
    }
  }

  lemma RecipientReads(v: Vault, address: string, r: Recipient)
    requires r in v.recipients && r.address == Lower(address)
    ensures r.workflow in ReadableWorkflows(v, address) <==> OpenTo(v, address, r)
  {
    assert r.workflow in Receiving(v.recipients, address);
  }

  lemma HeldRecipients(v: Vault, address: string, now: int, h: Held)
    ensures h in Map(HeldRecipient(), Filter(RecipientFor(v, address), v.recipients))
       <==> h.kind == RecipientWrap && HoldsWrap(v, address, now, h)
  {
    HeldListed(HeldRecipient(), Filter(RecipientFor(v, address), v.recipients), h);
    forall r | r in v.recipients && r.address == Lower(address)
      ensures RecipientFor(v, address)(r) <==> r.key.Some? && OpenTo(v, address, r)
    {
      RecipientReads(v, address, r);
    }
  }

  lemma HeldListed<T(!new)>(f: T -> Held, xs: seq<T>, h: Held)
    ensures h in Map(f, xs) <==> exists x :: x in xs && f(x) == h
  {
    forall x | x in xs && f(x) == h ensures h in Map(f, xs) {
      var i :| 0 <= i < |xs| && xs[i] == x;
      assert Map(f, xs)[i] == h;
    }
  }

  // ---- The answer to a batch ----

  predicate FaultyItem(env: Env, v: Vault, now: int, caller: string, kid: Option<string>, item: Rewrapped, status: nat) {
    if !HoldsRow(HeldBy(v, caller, now), item) then status == 404
    else !(kid.Some? && IsWrappedKeyFor(env.loads, item.wrap, kid.value)) && status == 400
  }

  predicate Faultless(env: Env, v: Vault, now: int, caller: string, kid: Option<string>, item: Rewrapped) {
    HoldsRow(HeldBy(v, caller, now), item) && kid.Some? && IsWrappedKeyFor(env.loads, item.wrap, kid.value)
  }

  lemma {:induction false} FirstFaultIs(fault: Rewrapped -> nat, items: seq<Rewrapped>, i: nat)
    requires i < |items| && fault(items[i]) != 200 && forall j :: 0 <= j < i ==> fault(items[j]) == 200
    ensures FirstFault(fault, items) == fault(items[i])
  {
    if i > 0 {
      assert fault(items[0]) == 200;
      assert forall j :: 1 <= j < |items| ==> items[j] == items[1..][j - 1];
      FirstFaultIs(fault, items[1..], i - 1);
    }
  }

  // Main result: a batch whose every item names a row the caller holds, with a wrap of
  // the caller's current key, is written whole, and gives each row the wrap of the last
  // item naming it. Any other changes nothing and is answered by its first fault.
  lemma RewrapAsAsked(env: Env, v: Vault, now: int, caller: string, kid: Option<string>, items: seq<Rewrapped>)
    ensures var out := DoRewrap(env, v, now, caller, kid, items);
      && (out.status == 200 <==> forall i :: 0 <= i < |items| ==> Faultless(env, v, now, caller, kid, items[i]))
      && (forall i :: 0 <= i < |items| && !Faultless(env, v, now, caller, kid, items[i])
                      && (forall j :: 0 <= j < i ==> Faultless(env, v, now, caller, kid, items[j]))
                      ==> out.v == v && FaultyItem(env, v, now, caller, kid, items[i], out.status))
  {
    var fault := Fault(env.loads, HeldBy(v, caller, now), kid);
    FaultlessIsAcceptable(env.loads, HeldBy(v, caller, now), kid, items);
    forall i | 0 <= i < |items| && !Faultless(env, v, now, caller, kid, items[i])
               && (forall j :: 0 <= j < i ==> Faultless(env, v, now, caller, kid, items[j]))
      ensures FirstFault(fault, items) == fault(items[i]) != 200
    {
      forall j | 0 <= j < i ensures fault(items[j]) == 200 {
        assert Faultless(env, v, now, caller, kid, items[j]);
      }
      FirstFaultIs(fault, items, i);
    }
  }

  // The rows after a batch: the same ones, in place, each with its new key or its own.
  lemma RewrapWrites(env: Env, v: Vault, now: int, caller: string, kid: Option<string>, items: seq<Rewrapped>)
    requires DoRewrap(env, v, now, caller, kid, items).status == 200
    ensures var after := DoRewrap(env, v, now, caller, kid, items).v;
      && after.secrets == v.secrets && after.workflows == v.workflows && after.users == v.users && after.next == v.next
      && |after.grants| == |v.grants| && |after.signers| == |v.signers| && |after.recipients| == |v.recipients|
      && (forall i :: 0 <= i < |v.grants| ==>
            after.grants[i] == v.grants[i].(key := NewWrap(items, GrantWrap, v.grants[i].id).GetOr(v.grants[i].key)))
      && (forall i :: 0 <= i < |v.signers| ==>
            after.signers[i] == v.signers[i].(key := Rekeyed(items, SignerWrap, v.signers[i].id, v.signers[i].key)))
      && (forall i :: 0 <= i < |v.recipients| ==>
            after.recipients[i]
            == v.recipients[i].(key := Rekeyed(items, RecipientWrap, v.recipients[i].id, v.recipients[i].key)))
  {
  }

  function Rekeyed(items: seq<Rewrapped>, kind: WrapKind, id: nat, key: Option<string>): Option<string> {
    if NewWrap(items, kind, id).Some? then NewWrap(items, kind, id) else key
  }
}
