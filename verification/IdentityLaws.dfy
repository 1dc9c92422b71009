/**
What each request on the directory is accepted for and what it then writes, told from
the request and the row it finds: how long a challenge lives, who a login lets in and
under which name and key, and what the other requests leave of a row.
*/
module IdentityLaws {
  import opened Challenges
  import opened Text
  import opened SignedBodies
  import opened Identity

  // ---- Challenges ----

  // An issued challenge is good for its address for five minutes to the millisecond, and
  // of the others exactly the expired ones go.
  lemma ChallengeIssued(d: Directory, address: string, nonce: string, now: int, later: int)
    ensures var after := DoChallenge(d, address, nonce, now);
      && after.token.None?
      && after.status == (if !IsValidAddress(Lower(address)) then 400
                          else if nonce in d.nonces && d.nonces[nonce].expires > now then 500 else 200)
      && (after.status != 200 ==> after.d == d)
      && (after.status == 200 ==>
            && after.d == d.(nonces := after.d.nonces)
            && (Live(after.d.nonces, Lower(address), nonce, later) <==> later < now + 300000)
            && (forall other :: other != Lower(address) ==> !Live(after.d.nonces, other, nonce, later))
            && (forall n :: n != nonce ==>
                  && (n in after.d.nonces <==> n in d.nonces && d.nonces[n].expires > now)
                  && (n in after.d.nonces ==> after.d.nonces[n] == d.nonces[n])))
  {
  }

  // ---- What a login must show ----

  // The key is one the address names, the challenge is signed for this server, and a new
  // encryption key comes with the identity's attestation, which comes with nothing else.
  predicate Proves(env: Env, rq: LoginRequest, a: string) {
    && env.served(rq.origin, rq.deployment) && env.binds(rq.identityKey, a) && env.validIdentity(rq.identityKey)
    && Body(env.sha, SignedBodies.Login(rq.nonce, rq.origin, rq.deployment, rq.key)).Some?
    && env.verify(rq.identityKey, Body(env.sha, SignedBodies.Login(rq.nonce, rq.origin, rq.deployment, rq.key)).value, rq.signature)
    && (if rq.key.GetOr("") == "" then rq.attestation.GetOr("") == ""
        else
          && env.validKey(rq.key.value) && rq.attestation.Some?
          && rq.attestation.value != "" && Body(env.sha, Attestation(a, rq.key.value)).Some?
          && env.verify(rq.identityKey, Body(env.sha, Attestation(a, rq.key.value)).value, rq.attestation.value))
  }

  lemma ProvesIs(env: Env, rq: LoginRequest, a: string)
    ensures VerifyPayload(env, rq, a) == 200 <==> Proves(env, rq, a)
    ensures VerifyPayload(env, rq, a) == 401 <==>
      && env.served(rq.origin, rq.deployment) && env.binds(rq.identityKey, a) && env.validIdentity(rq.identityKey)
      && !(&& Body(env.sha, SignedBodies.Login(rq.nonce, rq.origin, rq.deployment, rq.key)).Some?
           && env.verify(rq.identityKey, Body(env.sha, SignedBodies.Login(rq.nonce, rq.origin, rq.deployment, rq.key)).value,
                         rq.signature))
    ensures VerifyPayload(env, rq, a) in {200, 400, 401}
  {
  }

  // ---- Names ----

  // The name somebody is admitted under: the one they ask for, else the one their row
  // kept, else the start of their address.
  function NameAsked(env: Env, rq: LoginRequest, a: string, kept: Option<string>): Option<string> {
    if rq.username.Some? then env.normalize(rq.username.value)
    else if kept.Some? && kept.value != "" then kept
    else Some(if |a| > 7 then a[..7] else a)
  }

  ghost predicate HeldByAnother(env: Env, users: map<string, User>, a: string, name: string) {
    exists b :: b in users && b != a && users[b].username.Some? && env.fold(users[b].username.value) == env.fold(name)
  }

  function Published(env: Env, key: string, attestation: Option<string>, u: User): User {
    u.(key := Some(key), alg := Some("HKDFwSHA384_P384_ML-KEM-768_CatKDF"), kid := Some(env.keyId(key)), attestation := attestation)
  }

  // The row somebody is admitted with.
  function Newcomer(env: Env, rq: LoginRequest, name: string): User {
    var bare := User(rq.identityKey, Some(name), None, None, None, None, None, 0, false, false);
    if rq.key.GetOr("") == "" then bare else Published(env, rq.key.value, rq.attestation, bare)
  }

  function Returner(env: Env, rq: LoginRequest, name: string, u: User, now: int): User {
    var bare := User(rq.identityKey, Some(name), None, None, None, None, Some(now), u.tokenVersion, false, u.blocked);
    if rq.key.GetOr("") == "" then bare else Published(env, rq.key.value, rq.attestation, bare)
  }

  ghost function AdmissionStatus(env: Env, users: map<string, User>, rq: LoginRequest, a: string, kept: Option<string>): nat {
    var name := NameAsked(env, rq, a, kept);
    if name.None? then 400
    else if HeldByAnother(env, users, a, name.value) then 409
    else if rq.key == Some("") then 500
    else if !rq.invited then 403 else 200
  }

  lemma Admissions(env: Env, d: Directory, rq: LoginRequest, a: string, row: User, now: int, returning: bool)
    requires rq.key.GetOr("") == "" ==> rq.attestation.GetOr("") == ""
    ensures var after := Admit(env, d, rq, a, row, now, returning);
      && after.status == AdmissionStatus(env, d.users, rq, a, row.username)
      && (after.status != 200 ==> after == Answer(d, after.status, None))
      && (after.status == 200 ==>
            && NameAsked(env, rq, a, row.username).Some?
            && after.token == Some(Token(a, row.tokenVersion))
            && var name := NameAsked(env, rq, a, row.username).value;
               after.d == d.(users := d.users[a :=
                 if returning then Returner(env, rq, name, row, now)
                 else Newcomer(env, rq, name).(changedAt := row.changedAt, tokenVersion := row.tokenVersion, blocked := row.blocked)]))
  {
  }

  // ---- Logins ----

  // A challenge issued to this address, not expired.
  predicate Answers(d: Directory, rq: LoginRequest, a: string, now: int) {
    rq.nonce in d.nonces && d.nonces[rq.nonce].address == a && now < d.nonces[rq.nonce].expires
  }

  ghost function LoginStatus(env: Env, d: Directory, rq: LoginRequest, now: int): nat {
    var a := Lower(rq.address);
    if !Answers(d, rq, a, now) then 400
    else if !Proves(env, rq, a) then (if VerifyPayload(env, rq, a) == 401 then 401 else 400)
    else if a !in d.users then AdmissionStatus(env, d.users, rq, a, None)
    else if !d.users[a].deleted then 200
    else if d.users[a].blocked then 410
    else AdmissionStatus(env, d.users, rq, a, d.users[a].username)
  }

  // An active account that sends its key again: the attestation is filled in if it is missing.
  function Refilled(rq: LoginRequest, u: User): User {
    if u.attestation == None || u.attestation == Some("") then u.(attestation := rq.attestation) else u
  }

  // The row a login leaves. To an active account it changes nothing but the key, and the
  // key only if another one is sent.
  ghost predicate RowAfterLogin(env: Env, d: Directory, rq: LoginRequest, now: int, after: User) {
    var a := Lower(rq.address);
    var sent := rq.key.GetOr("");
    if a !in d.users then
      NameAsked(env, rq, a, None).Some? && after == Newcomer(env, rq, NameAsked(env, rq, a, None).value)
    else
      var u := d.users[a];
      if u.deleted then
        NameAsked(env, rq, a, u.username).Some? && after == Returner(env, rq, NameAsked(env, rq, a, u.username).value, u, now)
      else if sent == "" then after == u
      else if u.key == Some(sent) then after == Refilled(rq, u)
      else after == Published(env, sent, rq.attestation, u.(changedAt := if u.key.Some? then Some(now) else u.changedAt))
  }

  // Main result: which logins are accepted, what the others are told in their order, and
  // what an accepted one writes: the one row, and a token of its version. The challenge
  // is spent by every attempt that answers it.
  lemma LoginAsAsked(env: Env, d: Directory, rq: LoginRequest, now: int)
    requires Sane(env) && Inv(env, d)
    ensures var after := DoLogin(env, d, rq, now);
      var a := Lower(rq.address);
      && after.status == LoginStatus(env, d, rq, now)
      && after.d.rotations == d.rotations
      && after.d.nonces == (if Answers(d, rq, a, now) then d.nonces - {rq.nonce} else d.nonces)
      && (after.status != 200 ==> after.token.None? && after.d.users == d.users)
      && (after.status == 200 ==>
            && a in after.d.users && after.d.users == d.users[a := after.d.users[a]]
            && RowAfterLogin(env, d, rq, now, after.d.users[a])
            && after.token == Some(Token(a, after.d.users[a].tokenVersion)))
  {
    var a := Lower(rq.address);
    ProvesIs(env, rq, a);
    if Answers(d, rq, a, now) && Proves(env, rq, a) {
      var spent := d.(nonces := d.nonces - {rq.nonce});
      if a !in d.users {
        Admissions(env, spent, rq, a, Fresh(rq.identityKey), now, false);
      } else if d.users[a].deleted {
        Admissions(env, spent, rq, a, d.users[a], now, true);
      } else {
        RefreshedRow(env, d, rq, a, now);
      }
    }
  }

  lemma RefreshedRow(env: Env, d: Directory, rq: LoginRequest, a: string, now: int)
    requires Inv(env, d) && a in d.users && !d.users[a].deleted && Proves(env, rq, a)
    ensures var u, sent := d.users[a], rq.key.GetOr("");
      Refreshed(env, u, rq, now) ==
        if sent == "" then u
        else if u.key == Some(sent) then Refilled(rq, u)
        else Published(env, sent, rq.attestation, u.(changedAt := if u.key.Some? then Some(now) else u.changedAt))
  {
    assert UserOk(env, a, d.users[a]);
  }

  // The token a login mints authenticates its account, and no other.
  lemma LoginAuthenticates(env: Env, d: Directory, rq: LoginRequest, now: int)
    requires Sane(env) && Inv(env, d) && DoLogin(env, d, rq, now).status == 200
    ensures var after := DoLogin(env, d, rq, now);
      after.token.Some? && after.token.value.address == Lower(rq.address) && Authenticates(after.d, after.token.value)
  {
    LoginAsAsked(env, d, rq, now);
    LoweredOnce(rq.address);
  }

  lemma LoweredOnce(s: string)
    ensures Lower(Lower(s)) == Lower(s)
  {
  }

  // And it does so over any requests that follow until the account logs out or departs.
  lemma {:induction false} SessionLasts(env: Env, d: Directory, rqs: seq<Request>, t: Token)
    requires Sane(env) && Inv(env, d) && Authenticates(d, t)
    requires forall i :: 0 <= i < |rqs| ==>
      && (rqs[i].Logout? ==> Lower(rqs[i].token.address) != Lower(t.address))
      && (rqs[i].Depart? ==> rqs[i].address != Lower(t.address))
    ensures Authenticates(Run(env, d, rqs), t)
    decreases |rqs|
  {
    if rqs != [] {
      HandleInv(env, d, rqs[0]);
      SessionStep(env, d, rqs[0], t);
      SessionLasts(env, Handle(env, d, rqs[0]).d, rqs[1..], t);
    }
  }

  lemma SessionStep(env: Env, d: Directory, rq: Request, t: Token)
    requires Sane(env) && Inv(env, d) && Authenticates(d, t)
    requires (rq.Logout? ==> Lower(rq.token.address) != Lower(t.address)) && (rq.Depart? ==> rq.address != Lower(t.address))
    ensures Authenticates(Handle(env, d, rq).d, t)
  {
    var a := Lower(t.address);
    if Subject(rq) != Some(a) {
      SubjectOnly(env, d, rq);
    } else {
      OwnKeepsSession(env, d, rq, t);
    }
  }

  lemma OwnKeepsSession(env: Env, d: Directory, rq: Request, t: Token)
    requires Sane(env) && Inv(env, d) && Authenticates(d, t) && Subject(rq) == Some(Lower(t.address))
    requires !rq.Logout? && !rq.Depart?
    ensures Authenticates(Handle(env, d, rq).d, t)
  {
    match rq
    case Login(login, now) => LoginKeepsSession(env, d, login, now, t);
    case Rename(other, name) => RenameKeepsSession(env, d, other, name, t);
    case Rotate(_, _, _, _, _, _) => RotationKeepsSession(env, d, rq, t);
  }

  lemma RenameKeepsSession(env: Env, d: Directory, other: Token, name: Option<string>, t: Token)
    requires Authenticates(d, t)
    ensures Authenticates(DoRename(env, d, other, name).d, t)
  {
  }

  lemma LoginKeepsSession(env: Env, d: Directory, rq: LoginRequest, now: int, t: Token)
    requires Sane(env) && Inv(env, d) && Authenticates(d, t)
    ensures Authenticates(DoLogin(env, d, rq, now).d, t)
  {
    LoginAsAsked(env, d, rq, now);
  }

  lemma RotationKeepsSession(env: Env, d: Directory, rq: Request, t: Token)
    requires rq.Rotate? && Authenticates(d, t)
    ensures Authenticates(Handle(env, d, rq).d, t)
  {
  }

  // ---- The other requests ----

  // A logout ends every session of its account, whichever token asked for it.
  lemma LoggedOut(d: Directory, t: Token)
    ensures var after := DoLogout(d, t);
      var a := Lower(t.address);
      if !Authenticates(d, t) then after == Answer(d, 401, None)
      else
        && after.status == 200 && after.token.None?
        && after.d == d.(users := d.users[a := d.users[a].(tokenVersion := d.users[a].tokenVersion + 1)])
        && forall other: Token :: Lower(other.address) == a && Authenticates(d, other) ==> !Authenticates(after.d, other)
  {
  }

  // A rename changes the caller's own name, to a normalized one that no other account holds.
  lemma Renamed(env: Env, d: Directory, t: Token, name: Option<string>)
    ensures var a := Lower(t.address);
      DoRename(env, d, t, name) ==
        if !Authenticates(d, t) then Answer(d, 401, None)
        else if name == None then Answer(d, 200, None)
        else if env.normalize(name.value) == None then Answer(d, 400, None)
        else if HeldByAnother(env, d.users, a, env.normalize(name.value).value) then Answer(d, 409, None)
        else Answer(d.(users := d.users[a := d.users[a].(username := env.normalize(name.value))]), 200, None)
  {
  }

  // ---- Rotations ----

  ghost predicate Attested(env: Env, u: User, a: string, key: string, attestation: string) {
    && Body(env.sha, Attestation(a, key)).Some?
    && env.verify(u.identityKey, Body(env.sha, Attestation(a, key)).value, attestation)
  }

  ghost function RotateStatus(env: Env, d: Directory, t: Token, key: string, attestation: string, at: int, signature: string, now: int): nat {
    if !Authenticates(d, t) then 401
    else
      var a := Lower(t.address);
      var u := d.users[a];
      if u.key.None? then 409
      else if !env.validKey(key) || u.key.value == key || !(-600000 <= now - at <= 600000) then 400
      else if Body(env.sha, Attestation(a, key)).None? then 500
      else if !Attested(env, u, a, key, attestation) then 400
      else
        var edge := Body(env.sha, Rotation(a, env.keyId(u.key.value), env.keyId(key), at));
        if edge.None? then 500 else if !env.verify(u.identityKey, edge.value, signature) then 401 else 200
  }

  // A rotation replaces the published key by a valid, different and attested one, within
  // ten minutes of the server's clock, by a signature over the edge between the two; and
  // it is added to the history.
  lemma RotatedAsAsked(env: Env, d: Directory, t: Token, key: string, attestation: string, at: int, signature: string, now: int)
    requires Inv(env, d)
    requires forall k :: env.keyId(k) != ""
    ensures var after := DoRotate(env, d, t, key, attestation, at, signature, now);
      var a := Lower(t.address);
      && after.status == RotateStatus(env, d, t, key, attestation, at, signature, now) && after.token.None?
      && (after.status != 200 ==> after.d == d)
      && (after.status == 200 ==>
            && a in d.users && d.users[a].key.Some?
            && after.d.users == d.users[a := Published(env, key, Some(attestation), d.users[a].(changedAt := Some(now)))]
            && after.d.rotations == d.rotations + [Record(a, env.keyId(d.users[a].key.value), env.keyId(key), at, signature)]
            && after.d.nonces == d.nonces)
  {
    if Authenticates(d, t) {
      var a := Lower(t.address);
      assert UserOk(env, a, d.users[a]);
    }
  }

  // ---- Departures ----

  // What a departure leaves of a row: no key, no session, and on an erase no name and no
  // way back. The account's challenges go, and on an erase its key history.
  lemma Departed(env: Env, d: Directory, a: string, mode: Mode)
    ensures var after := DoDepart(env, d, a, mode);
      if a !in d.users || d.users[a].deleted then after == Answer(d, 410, None)
      else
        var u := d.users[a];
        && after.status == 200 && after.token.None?
        && after.d.users == d.users[a := User(u.identityKey, if mode == Erase then None else u.username,
                                              None, None, None, None, None, u.tokenVersion + 1, true, u.blocked || mode == Erase)]
        && (forall n :: n in after.d.nonces <==> n in d.nonces && d.nonces[n].address != a)
        && (forall n :: n in after.d.nonces ==> after.d.nonces[n] == d.nonces[n])
        && (forall r :: r in after.d.rotations <==> r in d.rotations && (mode == Erase ==> r.address != a))
  {
  }
}
