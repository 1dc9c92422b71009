/**
What the values of a signed body may hold, as code points and lengths: which texts
stand for an identifier, an address or a key id, which key maps are accepted, and so
which statements have a body at all.
*/
module Alphabets {
  import opened Text
  import opened CanonicalJson
  import opened SignedBodies

  // ---- Characters ----

  // Digits and the letters a to f.
  predicate HexCode(n: int) { 48 <= n <= 57 || 97 <= n <= 102 }

  // Letters, digits, '-' and '_'.
  predicate IdCode(n: int) { 48 <= n <= 57 || 65 <= n <= 90 || 97 <= n <= 122 || n == 45 || n == 95 }

  predicate Hex(s: string) { forall i :: 0 <= i < |s| ==> HexCode(s[i] as int) }

  // So many hex digits, and perhaps one newline after them.
  predicate HexOf(s: string, n: nat) {
    || (|s| == n && Hex(s))
    || (|s| == n + 1 && Hex(s[..n]) && s[n] as int == 10)
  }

  predicate Id(s: string) { 1 <= |s| <= 64 && forall i :: 0 <= i < |s| ==> IdCode(s[i] as int) }

  lemma IdentifierExactly(s: string)
    ensures IsSignedIdentifier(s) <==> Id(s)
  {
  }

  lemma HexExactly(s: string)
    ensures IsHexText(s) <==> s != "" && Hex(s)
  {
  }

  lemma AddressExactly(s: string)
    ensures IsValidAddress(s) <==> HexOf(s, 96)
    ensures IsValidKeyId(s) <==> HexOf(s, 32)
  {
  }

  // ---- Key maps ----

  function Listed(ms: Members): seq<(string, Json)> {
    match ms
    case NoMembers => []
    case Member(k, v, rest) => [(k, v)] + Listed(rest)
  }

  predicate Ascii(s: string) { forall i :: 0 <= i < |s| ==> s[i] as int < 128 }

  // An ASCII name for an ASCII text, or for a number below 2^31.
  predicate FieldOk(kv: (string, Json)) {
    Ascii(kv.0) && ((kv.1.Str? && Ascii(kv.1.s)) || (kv.1.Num? && 0 <= kv.1.n < 2147483648))
  }

  predicate EntryOk(kv: (string, Json)) {
    && Ascii(kv.0) && kv.1.Obj? && Listed(kv.1.members) != []
    && forall f :: f in Listed(kv.1.members) ==> FieldOk(f)
  }

  lemma {:induction false} FieldsListed(ms: Members)
    ensures WrappedFields(ms) <==> forall f :: f in Listed(ms) ==> FieldOk(f)
    ensures ms.Member? <==> Listed(ms) != []
  {
    if ms.Member? {
      FieldsListed(ms.rest);
      var head := (ms.key, ms.value);
      assert head in Listed(ms) && (FieldOk(head) <==> IsAscii(ms.key) && (AsciiStr(ms.value) || SmallInt(ms.value)));
      assert forall f :: f in Listed(ms) <==> f == (ms.key, ms.value) || f in Listed(ms.rest);
    }
  }

  lemma {:induction false} EntriesListed(ms: Members)
    ensures EnvelopeEntries(ms) <==> forall e :: e in Listed(ms) ==> EntryOk(e)
  {
    if ms.Member? {
      EntriesListed(ms.rest);
      if ms.value.Obj? { FieldsListed(ms.value.members); }
      var head := (ms.key, ms.value);
      assert head in Listed(ms);
      assert EntryOk(head) <==> IsAscii(ms.key) && ms.value.Obj? && ms.value.members.Member? && WrappedFields(ms.value.members);
      assert forall e :: e in Listed(ms) <==> e == (ms.key, ms.value) || e in Listed(ms.rest);
    }
  }

  // A key map is accepted if and only if it is an object of objects, none of them empty,
  // whose names are ASCII and whose values are ASCII texts or numbers below 2^31.
  lemma EnvelopeExactly(keys: Json)
    ensures EnvelopeShape(keys)
       <==> keys.Obj? && Listed(keys.members) != [] && forall e :: e in Listed(keys.members) ==> EntryOk(e)
  {
    if keys.Obj? { EntriesListed(keys.members); }
  }

  // ---- Statements ----

  ghost predicate Origin(s: string) { exists host, port :: OriginParts(s, host, port) }

  predicate Below53(v: Json) { v.Num? && 0 <= v.n < 9007199254740992 }

  // What each builder takes.
  ghost predicate Takes(st: Statement) {
    match st
    case Login(nonce, origin, deployment, key) =>
      nonce != "" && Hex(nonce) && Origin(origin) && Id(deployment) && (key.None? || Hex(key.value))
    case Attestation(address, publicKey) => HexOf(address, 96) && publicKey != "" && Hex(publicKey)
    case Rotation(address, oldKid, newKid, at) =>
      HexOf(address, 96) && HexOf(oldKid, 32) && HexOf(newKid, 32) && oldKid != newKid && 0 <= at < 9007199254740992
    case Approval(_, _, _) => true
    case Message(sender, conv, gid, sid, ts, seqNo, _, keys) =>
      && HexOf(sender, 96) && (HexOf(conv, 96) || Id(conv)) && (gid == "" || Id(gid))
      && sid.Str? && Id(sid.s) && Below53(ts) && Below53(seqNo) && (keys == Null || EnvelopeShape(keys))
    case Deletion(nonce, mode, _, origin, deployment) =>
      nonce != "" && Hex(nonce) && mode in {"leave", "erase"} && Origin(origin) && Id(deployment)
    case ConversationErase(nonce, kind, conversation, _, origin, deployment) =>
      && nonce != "" && Hex(nonce) && Origin(origin) && Id(deployment)
      && ((kind == "dm" && HexOf(conversation, 96)) || (kind == "group" && Id(conversation)))
  }

  lemma LoginTaken(st: Statement)
    requires st.Login?
    ensures Accepted(st) <==> Takes(st)
  {
    OriginExactly(st.origin);
    IdentifierExactly(st.deployment);
    HexExactly(st.nonce);
    HexExactly(st.key.GetOr(""));
  }

  lemma DeletionTaken(st: Statement)
    requires st.Deletion?
    ensures Accepted(st) <==> Takes(st)
  {
    OriginExactly(st.origin);
    IdentifierExactly(st.deployment);
    HexExactly(st.nonce);
  }

  lemma EraseTaken(st: Statement)
    requires st.ConversationErase?
    ensures Accepted(st) <==> Takes(st)
  {
    OriginExactly(st.origin);
    IdentifierExactly(st.deployment);
    HexExactly(st.nonce);
    IdentifierExactly(st.conversation);
    AddressExactly(st.conversation);
  }

  lemma MessageTaken(st: Statement)
    requires st.Message?
    ensures Accepted(st) <==> Takes(st)
  {
    AddressExactly(st.sender);
    AddressExactly(st.conv);
    IdentifierExactly(st.conv);
    IdentifierExactly(st.gid);
    if st.sid.Str? { IdentifierExactly(st.sid.s); }
  }

  lemma KeysTaken(st: Statement)
    requires st.Attestation? || st.Rotation? || st.Approval?
    ensures Accepted(st) <==> Takes(st)
  {
    if st.Attestation? {
      AddressExactly(st.address);
      HexExactly(st.publicKey);
    } else if st.Rotation? {
      AddressExactly(st.address);
      AddressExactly(st.oldKid);
      AddressExactly(st.newKid);
    }
  }

  // Main result: a statement has a body exactly if its builder takes its arguments.
  lemma BodyExists(sha: string -> string, st: Statement)
    ensures Body(sha, st).Some? <==> Takes(st)
  {
    match st
    case Login(_, _, _, _) => LoginTaken(st);
    case Deletion(_, _, _, _, _) => DeletionTaken(st);
    case ConversationErase(_, _, _, _, _, _) => EraseTaken(st);
    case Message(_, _, _, _, _, _, _, _) => MessageTaken(st);
    case _ => KeysTaken(st);
  }
}
