/**
The bytes an identity signs. Every body is `label=value` lines without escaping,
under a header that names its purpose, so one string must never be readable as
two statements. SHA-384 is a function parameter: all that is used of it is that
its hex digest has no line break.
*/
module SignedBodies {
  import opened Text
  import opened CanonicalJson

  const KEM_ALG := "HKDFwSHA384_P384_ML-KEM-768_CatKDF"
  const DS_HEADER := "Kryptolog Signed Message v1"
  const TWO_53: int := 0x20_0000_0000_0000

  // ---- Alphabets of the interpolated values ----

  // `[A-Za-z0-9_-]{1,64}`, matched in full.
  predicate IsSignedIdentifier(s: string) {
    1 <= |s| <= 64 && forall i :: 0 <= i < |s| ==> IsIdChar(s[i])
  }

  // `[0-9a-f]+`, matched in full.
  predicate IsHexText(s: string) { s != "" && AllHex(s) }

  // `^[0-9a-f]{n}$` under `.match`: `$` also matches before one final newline.
  predicate MatchesHex(s: string, n: nat) {
    (|s| == n && AllHex(s)) || (|s| == n + 1 && s[n] == '\n' && AllHex(s[..n]))
  }

  predicate IsValidAddress(s: string) { MatchesHex(s, 96) }

  predicate IsValidKeyId(s: string) { MatchesHex(s, 32) }

  predicate IsHostChar(c: char) { 'a' <= c <= 'z' || IsDigit(c) || c == '.' || c == '-' }

  predicate IsHost(s: string) { s != "" && forall i :: 0 <= i < |s| ==> IsHostChar(s[i]) }

  predicate IsPort(s: string) { 1 <= |s| <= 5 && forall i :: 0 <= i < |s| ==> IsDigit(s[i]) }

  function IndexOf(s: string, c: char): (i: nat)
    ensures i <= |s| && c !in s[..i] && (i < |s| ==> s[i] == c)
  {
    if s == "" || s[0] == c then 0
    else
      var i := IndexOf(s[1..], c);
      assert s[..i + 1] == [s[0]] + s[1..][..i];
      i + 1
  }

  predicate IsHostPort(s: string) {
    var i := IndexOf(s, ':');
    IsHost(s[..i]) && (i < |s| ==> IsPort(s[i + 1..]))
  }

  // `https?://[a-z0-9.-]+(:[0-9]{1,5})?`, matched in full.
  predicate IsCanonicalOrigin(s: string) {
    ("http://" <= s && IsHostPort(s[7..])) || ("https://" <= s && IsHostPort(s[8..]))
  }

  // ---- Statements ----

  // The value of a message's `ct`; Redacted is None.
  datatype Ciphertext = Redacted | Serialized(text: string) | Sealed(iv: string, content: string)

  function CanonicalCiphertext(ct: Ciphertext): string
    requires !ct.Redacted?
  {
    match ct
    case Serialized(text) => text
    case Sealed(iv, content) => iv + "." + content
  }

  // One call to one of the builders, with its arguments.
  datatype Statement =
    | Login(nonce: string, origin: string, deployment: string, key: Option<string>)
    | Attestation(address: string, publicKey: string)
    | Rotation(address: string, oldKid: string, newKid: string, at: int)
    | Approval(workflow: int, secret: int, ctHash: string)
    | Message(sender: string, conv: string, gid: string, sid: Json, ts: Json, seqNo: Json, ct: Ciphertext, keys: Json)
    | Deletion(nonce: string, mode: string, redactions: seq<string>, origin: string, deployment: string)
    | ConversationErase(nonce: string, kind: string, conversation: string, redactions: seq<string>,
                        origin: string, deployment: string)

  function Context(st: Statement): string {
    match st
    case Login(_, _, _, _) => "login"
    case Attestation(_, _) => "key-attestation"
    case Rotation(_, _, _, _) => "key-rotation"
    case Approval(_, _, _) => "multisig-approval"
    case Message(_, _, _, _, _, _, _, _) => "message"
    case Deletion(_, _, _, _, _) => "account-deletion"
    case ConversationErase(_, _, _, _, _, _) => "conversation-erase"
  }

  predicate SafeCount(v: Json) { v.Num? && 0 <= v.n < TWO_53 }

  // What each builder accepts; outside it the builder raises.
  predicate Accepted(st: Statement) {
    match st
    case Login(nonce, origin, deployment, key) =>
      IsHexText(nonce) && IsCanonicalOrigin(origin) && IsSignedIdentifier(deployment)
      && (key.GetOr("") != "" ==> IsHexText(key.GetOr("")))
    case Attestation(address, publicKey) => IsValidAddress(address) && IsHexText(publicKey)
    case Rotation(address, oldKid, newKid, at) =>
      IsValidAddress(address) && IsValidKeyId(oldKid) && IsValidKeyId(newKid) && oldKid != newKid && 0 <= at < TWO_53
    case Approval(_, _, _) => true
    case Message(sender, conv, gid, sid, ts, seqNo, _, keys) =>
      (keys.Null? || EnvelopeShape(keys))
      && sid.Str? && IsSignedIdentifier(sid.s)
      && IsValidAddress(sender) && (IsValidAddress(conv) || IsSignedIdentifier(conv))
      && (gid != "" ==> IsSignedIdentifier(gid))
      && SafeCount(ts) && SafeCount(seqNo)
    case Deletion(nonce, mode, _, origin, deployment) =>
      IsHexText(nonce) && (mode == "leave" || mode == "erase")
      && IsCanonicalOrigin(origin) && IsSignedIdentifier(deployment)
    case ConversationErase(nonce, kind, conversation, _, origin, deployment) =>
      IsHexText(nonce)
      && ((kind == "dm" && IsValidAddress(conversation)) || (kind == "group" && IsSignedIdentifier(conversation)))
      && IsCanonicalOrigin(origin) && IsSignedIdentifier(deployment)
  }

  function KeysText(keys: Json): string
    requires keys.Null? || EnvelopeShape(keys)
  {
    if keys.Null? then "null"
    else
      EnvelopeSpells(keys);
      CanonicalText(keys).value
  }

  function CiphertextLine(ct: Ciphertext): string {
    if ct.Redacted? then "redacted=1" else "ct=" + CanonicalCiphertext(ct)
  }

  function Lines(sha: string -> string, st: Statement): (ls: seq<string>)
    requires Accepted(st)
  {
    match st
    case Login(nonce, origin, deployment, key) =>
      ["Sign in to Kryptolog", "origin=" + origin, "deployment=" + deployment, "nonce=" + nonce,
       "encryption-key-alg=" + (if key.GetOr("") != "" then KEM_ALG else ""),
       "encryption-key=" + key.GetOr("")]
    case Attestation(address, publicKey) =>
      ["address=" + address, "encryption-alg=" + KEM_ALG, "encryption=" + publicKey]
    case Rotation(address, oldKid, newKid, at) =>
      ["address=" + address, "old-kid=" + oldKid, "new-kid=" + newKid, "new-alg=" + KEM_ALG, "ts=" + IntText(at)]
    case Approval(workflow, secret, ctHash) =>
      ["workflow=" + IntText(workflow), "secret=" + IntText(secret), "ct=" + ctHash]
    case Message(sender, conv, gid, sid, ts, seqNo, ct, keys) =>
      ["from=" + sender, "conv=" + conv, "gid=" + gid, "sid=" + sid.s, "ts=" + IntText(ts.n),
       "seq=" + IntText(seqNo.n), "keysh=" + sha(KeysText(keys)), CiphertextLine(ct)]
    case Deletion(nonce, mode, redactions, origin, deployment) =>
      ["origin=" + origin, "deployment=" + deployment, "nonce=" + nonce, "mode=" + mode,
       "redactions=" + sha(RedactionKeysText(redactions))]
    case ConversationErase(nonce, kind, conversation, redactions, origin, deployment) =>
      ["origin=" + origin, "deployment=" + deployment, "nonce=" + nonce,
       "conversation=" + (kind + ":" + conversation),
       "redactions=" + sha(RedactionKeysText(redactions))]
  }

  function JoinLines(ls: seq<string>): string
    requires ls != []
  {
    if |ls| == 1 then ls[0] else ls[0] + ("\n" + JoinLines(ls[1..]))
  }

  function DomainSeparate(context: string, body: string): string {
    DS_HEADER + ("\n" + (("context=" + context) + ("\n" + body)))
  }

  // The signed bytes; None where the builder raises.
  function Body(sha: string -> string, st: Statement): Option<string> {
    if Accepted(st) then Some(DomainSeparate(Context(st), JoinLines(Lines(sha, st)))) else None
  }

  // ---- Lines can be read back ----

  predicate NewlineFree(s: string) { '\n' !in s }

  // A line is a label and a value; the value may end in the one newline `$` lets through.
  predicate ProperLine(s: string) {
    s != "" && s[0] != '\n' && NewlineFree(s[..|s| - 1])
  }

  // Where a body continues after a line.
  predicate Continues(s: string) { s != "" && s[0] != '\n' }

  lemma LineLength(v: string, r: string, w: string, t: string)
    requires ProperLine(v) && ProperLine(w) && Continues(r) && Continues(t)
    requires v + ("\n" + r) == w + ("\n" + t)
    ensures |v| <= |w|
  {
    var s, s' := v + ("\n" + r), w + ("\n" + t);
    assert s[|w|] == s'[|w|] && s[|v|] == s'[|v|];
  }

  // The first line of a body and the rest of it are determined by the text.
  lemma Peel(v: string, r: string, w: string, t: string)
    requires ProperLine(v) && ProperLine(w) && Continues(r) && Continues(t)
    requires v + ("\n" + r) == w + ("\n" + t)
    ensures v == w && r == t
  {
    LineLength(v, r, w, t);
    LineLength(w, t, v, r);
    var s, s' := v + ("\n" + r), w + ("\n" + t);
    assert v == s[..|v|] && w == s'[..|w|];
    assert r == s[|v| + 1..] && t == s'[|w| + 1..];
  }

  predicate ProperLines(ls: seq<string>) {
    ls != [] && Continues(ls[|ls| - 1]) && forall i :: 0 <= i < |ls| - 1 ==> ProperLine(ls[i])
  }

  lemma JoinContinues(ls: seq<string>)
    requires ProperLines(ls)
    ensures Continues(JoinLines(ls))
  {
    if |ls| > 1 {
      assert ProperLine(ls[0]);
    }
  }

  lemma {:induction false} JoinInjective(a: seq<string>, b: seq<string>)
    requires ProperLines(a) && ProperLines(b) && |a| == |b|
    requires JoinLines(a) == JoinLines(b)
    ensures a == b
  {
    if |a| > 1 {
      assert ProperLines(a[1..]) && ProperLines(b[1..]);
      JoinContinues(a[1..]);
      JoinContinues(b[1..]);
      assert ProperLine(a[0]) && ProperLine(b[0]);
      Peel(a[0], JoinLines(a[1..]), b[0], JoinLines(b[1..]));
      JoinInjective(a[1..], b[1..]);
      assert a == [a[0]] + a[1..] && b == [b[0]] + b[1..];
    }
  }

  ghost predicate HexDigests(sha: string -> string) {
    forall x :: AllHex(sha(x))
  }

  // A value that spoils no line: at most its last character is a newline.
  predicate LineValue(s: string) { s == "" || NewlineFree(s[..|s| - 1]) }

  lemma LabelProper(tag: string, value: string)
    requires Continues(tag) && NewlineFree(tag) && LineValue(value)
    ensures ProperLine(tag + value)
  {
    var s := tag + value;
    if value != "" {
      assert s[..|s| - 1] == tag + value[..|value| - 1];
    } else {
      assert s == tag;
    }
  }

  lemma OriginValue(s: string)
    requires IsCanonicalOrigin(s)
    ensures NewlineFree(s)
  {
    var n := if "http://" <= s && IsHostPort(s[7..]) then 7 else 8;
    var rest := s[n..];
    var i := IndexOf(rest, ':');
    assert forall j :: 0 <= j < n ==> s[j] != '\n';
    forall k | 0 <= k < |rest| ensures rest[k] != '\n' {
      if k < i {
        assert rest[k] == rest[..i][k];
      } else if k > i {
        assert rest[k] == rest[i + 1..][k - i - 1];
      }
    }
    assert s == s[..n] + rest;
  }

  predicate IsPortPart(s: string) { s == "" || (s[0] == ':' && IsPort(s[1..])) }

  predicate OriginParts(s: string, host: string, port: string) {
    IsHost(host) && IsPortPart(port) && (s == "http://" + (host + port) || s == "https://" + (host + port))
  }

  // An accepted origin is one of the two schemes, a host, and perhaps a port.
  lemma OriginExactly(s: string)
    ensures IsCanonicalOrigin(s) <==> exists host, port :: OriginParts(s, host, port)
  {
    if IsCanonicalOrigin(s) {
      var n := if "http://" <= s && IsHostPort(s[7..]) then 7 else 8;
      var host, port := SplitHost(s[n..]);
      assert s == s[..n] + s[n..];
      assert OriginParts(s, host, port);
    }
    forall host, port | OriginParts(s, host, port) ensures IsCanonicalOrigin(s) {
      HostPortOf(host, port);
      assert ("http://" + (host + port))[7..] == host + port && ("https://" + (host + port))[8..] == host + port;
    }
  }

  lemma SplitHost(s: string) returns (host: string, port: string)
    requires IsHostPort(s)
    ensures IsHost(host) && IsPortPart(port) && s == host + port
  {
    var i := IndexOf(s, ':');
    host, port := s[..i], s[i..];
    assert port == "" || port[1..] == s[i + 1..];
  }

  lemma HostPortOf(host: string, port: string)
    requires IsHost(host) && IsPortPart(port)
    ensures IsHostPort(host + port)
  {
    var s := host + port;
    var i := IndexOf(s, ':');
    assert forall k :: 0 <= k < |host| ==> s[k] == host[k] && s[k] != ':';
    assert s[..|host|] == host && s[|host|..] == port;
    if port != "" {
      assert s[|host|] == ':';
      assert s[|host| + 1..] == port[1..];
    }
  }

  lemma LoginProper(sha: string -> string, st: Statement)
    requires Accepted(st) && st.Login?
    ensures ProperLines(Lines(sha, st))
  {
    OriginValue(st.origin);
    LabelProper("Sign in to Kryptolog", "");
    LabelProper("origin=", st.origin);
    LabelProper("deployment=", st.deployment);
    LabelProper("nonce=", st.nonce);
    LabelProper("encryption-key-alg=", if st.key.GetOr("") != "" then KEM_ALG else "");
    var ls := Lines(sha, st);
    assert ls[0] == "Sign in to Kryptolog" + "";
    assert ls[5][0] == 'e';
  }

  lemma AddressValue(s: string)
    requires IsValidAddress(s)
    ensures LineValue(s)
  {
  }

  // Lines that name the suite.
  lemma AlgLine(tag: string)
    requires Continues(tag) && NewlineFree(tag)
    ensures ProperLine(tag + KEM_ALG)
  {
    LabelProper(tag, KEM_ALG);
  }

  lemma RotationProper(sha: string -> string, st: Statement)
    requires Accepted(st) && st.Rotation?
    ensures ProperLines(Lines(sha, st))
  {
    AddressValue(st.address);
    LabelProper("address=", st.address);
    LabelProper("old-kid=", st.oldKid);
    LabelProper("new-kid=", st.newKid);
    AlgLine("new-alg=");
    var last := "ts=" + IntText(st.at);
    assert last[0] == 't';
  }

  lemma AttestationProper(sha: string -> string, st: Statement)
    requires Accepted(st) && st.Attestation?
    ensures ProperLines(Lines(sha, st))
  {
    AddressValue(st.address);
    LabelProper("address=", st.address);
    AlgLine("encryption-alg=");
    assert Lines(sha, st)[2][0] == 'e';
  }

  lemma MessageProper(sha: string -> string, st: Statement)
    requires Accepted(st) && st.Message? && AllHex(sha(KeysText(st.keys)))
    ensures ProperLines(Lines(sha, st))
  {
    AddressValue(st.sender);
    LabelProper("from=", st.sender);
    LabelProper("conv=", st.conv);
    LabelProper("gid=", st.gid);
    LabelProper("sid=", st.sid.s);
    LabelProper("ts=", IntText(st.ts.n));
    LabelProper("seq=", IntText(st.seqNo.n));
    LabelProper("keysh=", sha(KeysText(st.keys)));
    assert Lines(sha, st)[7][0] in "rc";
  }

  lemma DeletionProper(sha: string -> string, st: Statement)
    requires Accepted(st) && st.Deletion?
    ensures ProperLines(Lines(sha, st))
  {
    OriginValue(st.origin);
    LabelProper("origin=", st.origin);
    LabelProper("deployment=", st.deployment);
    LabelProper("nonce=", st.nonce);
    LabelProper("mode=", st.mode);
    assert Lines(sha, st)[4][0] == 'r';
  }

  lemma EraseProper(sha: string -> string, st: Statement)
    requires Accepted(st) && st.ConversationErase?
    ensures ProperLines(Lines(sha, st))
  {
    OriginValue(st.origin);
    LabelProper("origin=", st.origin);
    LabelProper("deployment=", st.deployment);
    LabelProper("nonce=", st.nonce);
    LabelProper(st.kind + ":", st.conversation);
    LabelProper("conversation=", st.kind + ":" + st.conversation);
    assert Lines(sha, st)[4][0] == 'r';
  }

  lemma LinesProper(sha: string -> string, st: Statement)
    requires Accepted(st) && HexDigests(sha)
    ensures ProperLines(Lines(sha, st))
  {
    match st
    case Login(_, _, _, _) => LoginProper(sha, st);
    case Rotation(_, _, _, _) => RotationProper(sha, st);
    case Message(_, _, _, _, _, _, _, keys) =>
      assert AllHex(sha(KeysText(keys)));
      MessageProper(sha, st);
    case Deletion(_, _, _, _, _) => DeletionProper(sha, st);
    case ConversationErase(_, _, _, _, _, _) => EraseProper(sha, st);
    case Attestation(_, _) => AttestationProper(sha, st);
    case Approval(_, _, _) =>
  }

  // ---- No two statements share their bytes ----

  // The same builder called with the same arguments, up to the digests of the
  // key map and the redaction set and to the canonical text of the ciphertext.
  ghost predicate SameStatement(sha: string -> string, a: Statement, b: Statement)
    requires Accepted(a) && Accepted(b)
  {
    match a
    case Login(nonce, origin, deployment, key) =>
      b.Login? && nonce == b.nonce && origin == b.origin && deployment == b.deployment
      && key.GetOr("") == b.key.GetOr("")
    case Attestation(_, _) => a == b
    case Rotation(_, _, _, _) => a == b
    case Approval(_, _, _) => a == b
    case Message(sender, conv, gid, sid, ts, seqNo, ct, keys) =>
      b.Message? && sender == b.sender && conv == b.conv && gid == b.gid && sid == b.sid
      && ts == b.ts && seqNo == b.seqNo
      && sha(KeysText(keys)) == sha(KeysText(b.keys))
      && (ct.Redacted? <==> b.ct.Redacted?)
      && (!ct.Redacted? && !b.ct.Redacted? ==> CanonicalCiphertext(ct) == CanonicalCiphertext(b.ct))
    case Deletion(nonce, mode, redactions, origin, deployment) =>
      b.Deletion? && nonce == b.nonce && mode == b.mode && origin == b.origin && deployment == b.deployment
      && sha(RedactionKeysText(redactions)) == sha(RedactionKeysText(b.redactions))
    case ConversationErase(nonce, kind, conversation, redactions, origin, deployment) =>
      b.ConversationErase? && nonce == b.nonce && kind == b.kind && conversation == b.conversation
      && origin == b.origin && deployment == b.deployment
      && sha(RedactionKeysText(redactions)) == sha(RedactionKeysText(b.redactions))
  }

  lemma Unlabel(tag: string, v: string, w: string)
    requires tag + v == tag + w
    ensures v == w
  {
    assert v == (tag + v)[|tag|..] && w == (tag + w)[|tag|..];
  }

  lemma DomainsDisjoint(c: string, d: string, v: string, w: string)
    requires NewlineFree(c) && NewlineFree(d) && Continues(v) && Continues(w)
    requires DomainSeparate(c, v) == DomainSeparate(d, w)
    ensures c == d && v == w
  {
    LabelProper("context=", c);
    LabelProper("context=", d);
    LabelProper(DS_HEADER, "");
    assert DS_HEADER + "" == DS_HEADER;
    Peel(DS_HEADER, ("context=" + c) + ("\n" + v), DS_HEADER, ("context=" + d) + ("\n" + w));
    Peel("context=" + c, v, "context=" + d, w);
    Unlabel("context=", c, d);
  }

  lemma SameLines(sha: string -> string, a: Statement, b: Statement)
    requires Accepted(a) && Accepted(b) && Context(a) == Context(b)
    requires Lines(sha, a) == Lines(sha, b)
    ensures SameStatement(sha, a, b)
  {
    var la, lb := Lines(sha, a), Lines(sha, b);
    match a
    case Login(nonce, origin, deployment, key) =>
      Unlabel("origin=", origin, b.origin);
      Unlabel("deployment=", deployment, b.deployment);
      Unlabel("nonce=", nonce, b.nonce);
      Unlabel("encryption-key=", key.GetOr(""), b.key.GetOr(""));
    case Attestation(address, publicKey) =>
      Unlabel("address=", address, b.address);
      Unlabel("encryption=", publicKey, b.publicKey);
    case Rotation(address, oldKid, newKid, at) =>
      Unlabel("address=", address, b.address);
      Unlabel("old-kid=", oldKid, b.oldKid);
      Unlabel("new-kid=", newKid, b.newKid);
      Unlabel("ts=", IntText(at), IntText(b.at));
      IntTextInjective(at, b.at);
    case Approval(workflow, secret, ctHash) =>
      Unlabel("workflow=", IntText(workflow), IntText(b.workflow));
      Unlabel("secret=", IntText(secret), IntText(b.secret));
      Unlabel("ct=", ctHash, b.ctHash);
      IntTextInjective(workflow, b.workflow);
      IntTextInjective(secret, b.secret);
    case Message(sender, conv, gid, sid, ts, seqNo, ct, keys) =>
      SameMessageLines(sha, a, b);
    case Deletion(nonce, mode, redactions, origin, deployment) =>
      Unlabel("origin=", origin, b.origin);
      Unlabel("deployment=", deployment, b.deployment);
      Unlabel("nonce=", nonce, b.nonce);
      Unlabel("mode=", mode, b.mode);
      Unlabel("redactions=", sha(RedactionKeysText(redactions)), sha(RedactionKeysText(b.redactions)));
    case ConversationErase(nonce, kind, conversation, redactions, origin, deployment) =>
      Unlabel("origin=", origin, b.origin);
      Unlabel("deployment=", deployment, b.deployment);
      Unlabel("nonce=", nonce, b.nonce);
      Unlabel("conversation=", kind + ":" + conversation, b.kind + ":" + b.conversation);
      Unlabel("redactions=", sha(RedactionKeysText(redactions)), sha(RedactionKeysText(b.redactions)));
      SameConversation(kind, conversation, b.kind, b.conversation);
  }

  lemma SameConversation(k: string, c: string, k': string, c': string)
    requires (k == "dm" || k == "group") && (k' == "dm" || k' == "group")
    requires k + ":" + c == k' + ":" + c'
    ensures k == k' && c == c'
  {
    assert (k + ":" + c)[0] == k[0] && (k' + ":" + c')[0] == k'[0];
    Unlabel(k + ":", c, c');
  }

  lemma SameMessageLines(sha: string -> string, a: Statement, b: Statement)
    requires Accepted(a) && Accepted(b) && a.Message? && b.Message?
    requires Lines(sha, a) == Lines(sha, b)
    ensures SameStatement(sha, a, b)
  {
    var la, lb := Lines(sha, a), Lines(sha, b);
    Unlabel("from=", a.sender, b.sender);
    Unlabel("conv=", a.conv, b.conv);
    Unlabel("gid=", a.gid, b.gid);
    Unlabel("sid=", a.sid.s, b.sid.s);
    Unlabel("ts=", IntText(a.ts.n), IntText(b.ts.n));
    Unlabel("seq=", IntText(a.seqNo.n), IntText(b.seqNo.n));
    IntTextInjective(a.ts.n, b.ts.n);
    IntTextInjective(a.seqNo.n, b.seqNo.n);
    Unlabel("keysh=", sha(KeysText(a.keys)), sha(KeysText(b.keys)));
    assert CiphertextLine(a.ct) == la[7] == lb[7] == CiphertextLine(b.ct);
    SameCiphertextLine(a.ct, b.ct);
  }

  // The redacted form is disjoint from every ciphertext, whatever its text.
  lemma SameCiphertextLine(x: Ciphertext, y: Ciphertext)
    requires CiphertextLine(x) == CiphertextLine(y)
    ensures x.Redacted? <==> y.Redacted?
    ensures !x.Redacted? ==> CanonicalCiphertext(x) == CanonicalCiphertext(y)
  {
    assert CiphertextLine(x)[0] == CiphertextLine(y)[0];
    if !x.Redacted? {
      Unlabel("ct=", CanonicalCiphertext(x), CanonicalCiphertext(y));
    }
  }

  lemma ContextNewlineFree(st: Statement)
    ensures NewlineFree(Context(st))
  {
  }

  lemma SameLineCount(sha: string -> string, a: Statement, b: Statement)
    requires Accepted(a) && Accepted(b) && Context(a) == Context(b)
    ensures |Lines(sha, a)| == |Lines(sha, b)|
  {
  }

  lemma TextDecidesLines(c: string, d: string, a: seq<string>, b: seq<string>)
    requires NewlineFree(c) && NewlineFree(d) && ProperLines(a) && ProperLines(b)
    requires DomainSeparate(c, JoinLines(a)) == DomainSeparate(d, JoinLines(b))
    ensures c == d && (|a| == |b| ==> a == b)
  {
    JoinContinues(a);
    JoinContinues(b);
    DomainsDisjoint(c, d, JoinLines(a), JoinLines(b));
    if |a| == |b| {
      JoinInjective(a, b);
    }
  }

  // Main result: equal signed bytes come from one builder with equal fields.
  lemma NoTwoBodiesCollide(sha: string -> string, a: Statement, b: Statement)
    requires HexDigests(sha)
    requires Body(sha, a).Some? && Body(sha, a) == Body(sha, b)
    ensures Accepted(a) && Accepted(b) && SameStatement(sha, a, b)
  {
    LinesProper(sha, a);
    LinesProper(sha, b);
    ContextNewlineFree(a);
    ContextNewlineFree(b);
    TextDecidesLines(Context(a), Context(b), Lines(sha, a), Lines(sha, b));
    SameLineCount(sha, a, b);
    SameLines(sha, a, b);
  }

  lemma KeysTextDecides(x: Json, y: Json)
    requires x.Null? || (EnvelopeShape(x) && WellFormed(x))
    requires y.Null? || (EnvelopeShape(y) && WellFormed(y))
    ensures KeysText(x) == KeysText(y) <==> MeaningOf(x) == MeaningOf(y)
  {
    if !x.Null? { EnvelopeSpells(x); }
    if !y.Null? { EnvelopeSpells(y); }
    CanonicalDecides(x, y);
  }

  // With no digest collision between the two, a message body also fixes the
  // key map as a map, whatever order it was built in.
  lemma MessageFixesKeys(sha: string -> string, a: Statement, b: Statement)
    requires HexDigests(sha)
    requires Body(sha, a).Some? && Body(sha, a) == Body(sha, b) && a.Message?
    requires b.Message? ==> (a.keys.Null? || WellFormed(a.keys)) && (b.keys.Null? || WellFormed(b.keys))
    requires b.Message? && Accepted(a) && Accepted(b) ==>
               (sha(KeysText(a.keys)) == sha(KeysText(b.keys)) ==> KeysText(a.keys) == KeysText(b.keys))
    ensures b.Message? && MeaningOf(a.keys) == MeaningOf(b.keys)
  {
    NoTwoBodiesCollide(sha, a, b);
    KeysTextDecides(a.keys, b.keys);
  }

  // And a deletion body fixes the redaction keys as a set: none can be dropped.
  lemma DeletionFixesRedactions(sha: string -> string, a: Statement, b: Statement)
    requires HexDigests(sha)
    requires Body(sha, a).Some? && Body(sha, a) == Body(sha, b)
    requires a.Deletion? || a.ConversationErase?
    requires b.Deletion? || b.ConversationErase? ==> NoRepeats(a.redactions) && NoRepeats(b.redactions)
    requires b.Deletion? || b.ConversationErase? ==>
               (sha(RedactionKeysText(a.redactions)) == sha(RedactionKeysText(b.redactions))
                ==> RedactionKeysText(a.redactions) == RedactionKeysText(b.redactions))
    ensures a.Deletion? == b.Deletion? && a.ConversationErase? == b.ConversationErase?
    ensures SetOf(a.redactions) == SetOf(b.redactions)
  {
    NoTwoBodiesCollide(sha, a, b);
    RedactionKeysDecided(a.redactions, b.redactions);
  }
}
