/**
The identity directory: login, return, key rotation, logout and departure, with
the encryption key each address publishes, its username and its session version.
*/
module Identity {
  import opened Challenges
  import opened Text
  import opened SignedBodies

  // What the server delegates or is configured with. `binds` says that an
  // identity key is the one an address names; `normalize` is None for a username
  // that is refused; `fold` is the lower case usernames are compared in.
  datatype Env = Env(
    sha: string -> string,
    verify: (string, string, string) -> bool,
    binds: (string, string) -> bool,
    validIdentity: string -> bool,
    validKey: string -> bool,
    keyId: string -> string,
    normalize: string -> Option<string>,
    fold: string -> string,
    served: (string, string) -> bool)

  // An address is the digest of one identity key and no digest is empty; nor is a
  // normalized name.
  ghost predicate Sane(env: Env) {
    && (forall k, k', a :: env.binds(k, a) && env.binds(k', a) ==> k == k')
    && (forall k, a :: env.binds(k, a) ==> a != "")
    && (forall n :: env.normalize(n).Some? ==> env.normalize(n).value != "")
  }

  datatype User = User(
    identityKey: string,
    username: Option<string>,
    key: Option<string>, alg: Option<string>, kid: Option<string>, attestation: Option<string>,
    changedAt: Option<int>,
    tokenVersion: nat,
    deleted: bool,
    blocked: bool)

  datatype Record = Record(address: string, oldKid: string, newKid: string, at: int, signature: string)

  // `rotations` is the key history the directory serves, oldest first.
  datatype Directory = Directory(users: map<string, User>, nonces: map<string, Nonce>, rotations: seq<Record>)

  datatype Token = Token(address: string, version: nat)

  datatype Kind = Registered | Returned | KeyChanged | SameKey

  datatype LoginRequest = LoginRequest(
    address: string, nonce: string, origin: string, deployment: string,
    identityKey: string, signature: string,
    key: Option<string>, attestation: Option<string>,
    username: Option<string>, invited: bool)

  datatype Mode = Leave | Erase

  datatype Request =
    | Challenge(address: string, nonce: string, now: int)
    | Login(rq: LoginRequest, now: int)
    | Logout(token: Token)
    | Rename(token: Token, name: Option<string>)
    | Rotate(token: Token, key: string, attestation: string, at: int, signature: string, now: int)
    | Depart(address: string, mode: Mode)

  datatype Answer = Answer(d: Directory, status: nat, token: Option<Token>)

  // ---- Sessions ----

  // `user_for_token`
  predicate Authenticates(d: Directory, t: Token) {
    && Lower(t.address) in d.users
    && !d.users[Lower(t.address)].deleted
    && t.version == d.users[Lower(t.address)].tokenVersion
  }

  // ---- The encryption key and what is derived from it ----

  // `set_encryption_key`
  function WithKey(env: Env, u: User, key: Option<string>, attestation: Option<string>): User {
    if key.GetOr("") == "" then u.(key := key, alg := None, kid := None, attestation := None)
    else u.(key := key, alg := Some(KEM_ALG), kid := Some(env.keyId(key.value)), attestation := attestation)
  }

  predicate Attests(env: Env, identityKey: string, address: string, key: string, attestation: string) {
    var body := Body(env.sha, Attestation(address, key));
    body.Some? && env.verify(identityKey, body.value, attestation)
  }

  // ---- Login ----

  // `_verify_login_payload`, after the challenge is spent: 200, or why not.
  function VerifyPayload(env: Env, rq: LoginRequest, address: string): nat {
    var body := Body(env.sha, SignedBodies.Login(rq.nonce, rq.origin, rq.deployment, rq.key));
    if !env.served(rq.origin, rq.deployment) then 400
    else if !env.binds(rq.identityKey, address) then 400
    else if !env.validIdentity(rq.identityKey) then 400
    else if !(body.Some? && env.verify(rq.identityKey, body.value, rq.signature)) then 401
    else if rq.key.GetOr("") != "" && !env.validKey(rq.key.value) then 400
    else if rq.key.GetOr("") != "" && rq.attestation.GetOr("") == "" then 400
    else if rq.attestation.GetOr("") != "" && rq.key.GetOr("") == "" then 400
    else if rq.attestation.GetOr("") != "" && !Attests(env, rq.identityKey, address, rq.key.value, rq.attestation.value) then 400
    else 200
  }

  // `username_taken`
  predicate Taken(env: Env, users: map<string, User>, name: string, except: string) {
    exists a :: a in users && a != except && users[a].username.Some? && env.fold(users[a].username.value) == env.fold(name)
  }

  function Prefix(address: string): string { if |address| <= 7 then address else address[..7] }

  // `_claim_username`: the name, or why not.
  datatype Claim = Claimed(name: string) | NotClaimed(status: nat)

  function ClaimUsername(env: Env, users: map<string, User>, wish: Option<string>, address: string, current: Option<string>): Claim {
    if wish.Some? && env.normalize(wish.value).None? then NotClaimed(400)
    else
      var name :=
        if wish.Some? then env.normalize(wish.value).value
        else if current.GetOr("") != "" then current.value
        else Prefix(address);
      if Taken(env, users, name, address) then NotClaimed(409) else Claimed(name)
  }

  function Fresh(identityKey: string): User {
    User(identityKey, None, None, None, None, None, None, 0, false, false)
  }

  function Put(d: Directory, address: string, u: User): Directory { d.(users := d.users[address := u]) }

  // `_register_user` and `_revive_user`: the row as it is written. An empty key is
  // refused by the table's CHECK, so it never gets that far.
  function Admitted(env: Env, row: User, rq: LoginRequest, name: string, now: int, returning: bool): User {
    WithKey(env, row.(username := Some(name), identityKey := rq.identityKey, deleted := false,
                      changedAt := if returning then Some(now) else row.changedAt),
            rq.key, rq.attestation)
  }

  function Admit(env: Env, d: Directory, rq: LoginRequest, address: string, row: User, now: int, returning: bool): Answer {
    match ClaimUsername(env, d.users, rq.username, address, row.username)
    case NotClaimed(status) => Answer(d, status, None)
    case Claimed(name) =>
      if rq.key == Some("") then Answer(d, 500, None)
      else if !rq.invited then Answer(d, 403, None)
      else Answer(Put(d, address, Admitted(env, row, rq, name, now, returning)), 200, Some(Token(address, row.tokenVersion)))
  }

  // The update of an identity that is already there.
  function Refreshed(env: Env, u: User, rq: LoginRequest, now: int): User {
    if rq.key.GetOr("") != "" && u.key != rq.key then
      WithKey(env, u.(changedAt := if u.key.GetOr("") != "" then Some(now) else u.changedAt), rq.key, rq.attestation)
    else if rq.attestation.GetOr("") != "" && u.attestation.GetOr("") == "" then u.(attestation := rq.attestation)
    else u
  }

  // `_upsert_identity`
  function Upsert(env: Env, d: Directory, rq: LoginRequest, address: string, now: int): Answer {
    if address !in d.users then Admit(env, d, rq, address, Fresh(rq.identityKey), now, false)
    else
      var u := d.users[address];
      if u.deleted then
        if u.blocked then Answer(d, 410, None) else Admit(env, d, rq, address, u, now, true)
      else Answer(Put(d, address, Refreshed(env, u, rq, now)), 200, Some(Token(address, u.tokenVersion)))
  }

  // `_login`: the challenge is spent first and stays spent.
  function DoLogin(env: Env, d: Directory, rq: LoginRequest, now: int): Answer {
    var address := Lower(rq.address);
    if !Live(d.nonces, address, rq.nonce, now) then Answer(d, 400, None)
    else
      var spent := d.(nonces := Spend(d.nonces, address, rq.nonce, now));
      var verdict := VerifyPayload(env, rq, address);
      if verdict != 200 then Answer(spent, verdict, None) else Upsert(env, spent, rq, address, now)
  }

  // ---- The other requests ----

  function DoLogout(d: Directory, t: Token): Answer {
    if !Authenticates(d, t) then Answer(d, 401, None)
    else
      var a := Lower(t.address);
      Answer(Put(d, a, d.users[a].(tokenVersion := d.users[a].tokenVersion + 1)), 200, None)
  }

  function DoRename(env: Env, d: Directory, t: Token, name: Option<string>): Answer {
    if !Authenticates(d, t) then Answer(d, 401, None)
    else if name.None? then Answer(d, 200, None)
    else if env.normalize(name.value).None? then Answer(d, 400, None)
    else
      var a, normalized := Lower(t.address), env.normalize(name.value).value;
      if Taken(env, d.users, normalized, a) then Answer(d, 409, None)
      else Answer(Put(d, a, d.users[a].(username := Some(normalized))), 200, None)
  }

  const ROTATION_CLOCK_SKEW_MS: int := 10 * 60 * 1000

  function Abs(n: int): nat { if n < 0 then -n else n }

  // `rotate`: from the key the server holds, and from no other.
  function DoRotate(env: Env, d: Directory, t: Token, key: string, attestation: string, at: int, signature: string, now: int): Answer {
    if !Authenticates(d, t) then Answer(d, 401, None)
    else
      var a := Lower(t.address);
      var u := d.users[a];
      if u.key.GetOr("") == "" || u.kid.GetOr("") == "" then Answer(d, 409, None)
      else if !env.validKey(key) then Answer(d, 400, None)
      else if u.key == Some(key) then Answer(d, 400, None)
      else if Abs(now - at) > ROTATION_CLOCK_SKEW_MS then Answer(d, 400, None)
      else if Body(env.sha, Attestation(a, key)).None? then Answer(d, 500, None)
      else if !Attests(env, u.identityKey, a, key, attestation) then Answer(d, 400, None)
      else
        var edge := Body(env.sha, Rotation(a, u.kid.value, env.keyId(key), at));
        if edge.None? then Answer(d, 500, None)
        else if !env.verify(u.identityKey, edge.value, signature) then Answer(d, 401, None)
        else
          var record := Record(a, u.kid.value, env.keyId(key), at, signature);
          Answer(Put(d, a, WithKey(env, u, Some(key), Some(attestation)).(changedAt := Some(now)))
                   .(rotations := d.rotations + [record]), 200, None)
  }

  // `_strip_identity`
  function Stripped(env: Env, u: User, mode: Mode): User {
    WithKey(env, u, None, None).(
      username := if mode == Erase then None else u.username,
      changedAt := None,
      tokenVersion := u.tokenVersion + 1,
      deleted := true,
      blocked := u.blocked || mode == Erase)
  }

  function RecordsWithout(rotations: seq<Record>, address: string): (r: seq<Record>)
    ensures forall x :: x in r <==> x in rotations && x.address != address
  {
    if rotations == [] then []
    else (if rotations[0].address != address then [rotations[0]] else []) + RecordsWithout(rotations[1..], address)
  }

  // The end of a departure that was authorized: the row stripped, the challenges
  // swept, and on an erase the key history gone.
  function DoDepart(env: Env, d: Directory, address: string, mode: Mode): Answer {
    if address !in d.users || d.users[address].deleted then Answer(d, 410, None)
    else
      var stripped := Put(d, address, Stripped(env, d.users[address], mode));
      Answer(stripped.(nonces := map n | n in d.nonces && d.nonces[n].address != address :: d.nonces[n],
                       rotations := if mode == Erase then RecordsWithout(d.rotations, address) else d.rotations), 200, None)
  }

  // `get_nonce`
  function DoChallenge(d: Directory, address: string, nonce: string, now: int): Answer {
    if !IsValidAddress(Lower(address)) then Answer(d, 400, None)
    else
      match Issue(d.nonces, Lower(address), nonce, now)
      case None => Answer(d, 500, None)
      case Some(nonces) => Answer(d.(nonces := nonces), 200, None)
  }

  function Handle(env: Env, d: Directory, rq: Request): Answer {
    match rq
    case Challenge(address, nonce, now) => DoChallenge(d, address, nonce, now)
    case Login(rq, now) => DoLogin(env, d, rq, now)
    case Logout(t) => DoLogout(d, t)
    case Rename(t, name) => DoRename(env, d, t, name)
    case Rotate(t, key, attestation, at, signature, now) => DoRotate(env, d, t, key, attestation, at, signature, now)
    case Depart(address, mode) => DoDepart(env, d, address, mode)
  }

  // ---- The invariant ----

  // A published key carries its suite, its id and an attestation that verifies
  // for this address and this key; without a key, none of the four is there.
  predicate KeyOk(env: Env, address: string, u: User) {
    match u.key
    case None => u.alg.None? && u.kid.None? && u.attestation.None?
    case Some(k) =>
      && k != "" && u.alg == Some(KEM_ALG) && u.kid == Some(env.keyId(k))
      && u.attestation.Some? && Attests(env, u.identityKey, address, k, u.attestation.value)
  }

  predicate UserOk(env: Env, address: string, u: User) {
    && env.binds(u.identityKey, address)
    && KeyOk(env, address, u)
    && (u.deleted ==> u.key.None?)
    && (if u.blocked then u.deleted && u.username.None? else u.username.GetOr("") != "")
  }

  // Every served rotation is signed by its identity.
  predicate Signed(env: Env, users: map<string, User>, r: Record) {
    && r.address in users
    && var edge := Body(env.sha, Rotation(r.address, r.oldKid, r.newKid, r.at));
       edge.Some? && env.verify(users[r.address].identityKey, edge.value, r.signature)
  }

  // No two accounts hold one name, a departed account that kept its name included.
  predicate NamesApart(env: Env, users: map<string, User>) {
    forall a, b :: a in users && b in users && a != b && users[a].username.Some? && users[b].username.Some?
      ==> env.fold(users[a].username.value) != env.fold(users[b].username.value)
  }

  predicate Inv(env: Env, d: Directory) {
    && (forall a :: a in d.users ==> UserOk(env, a, d.users[a]))
    && NamesApart(env, d.users)
    && (forall r :: r in d.rotations ==> Signed(env, d.users, r))
  }

  // ---- One row rewritten ----

  // A row rewritten under the same identity key keeps the history signed.
  lemma PutInv(env: Env, d: Directory, a: string, u: User)
    requires Inv(env, d) && UserOk(env, a, u)
    requires a in d.users ==> u.identityKey == d.users[a].identityKey
    requires u.username.Some? ==> !Taken(env, d.users, u.username.value, a)
    ensures Inv(env, Put(d, a, u))
  {
    forall r | r in d.rotations ensures Signed(env, Put(d, a, u).users, r) {
      assert Signed(env, d.users, r);
    }
  }

  lemma SameNamePut(env: Env, d: Directory, a: string, u: User)
    requires Inv(env, d) && a in d.users && UserOk(env, a, u)
    requires u.identityKey == d.users[a].identityKey && u.username == d.users[a].username
    ensures Inv(env, Put(d, a, u))
  {
    PutInv(env, d, a, u);
  }

  // ---- Requests keep the invariant ----

  lemma AdmitInv(env: Env, d: Directory, rq: LoginRequest, a: string, row: User, now: int, returning: bool)
    requires Sane(env) && Inv(env, d) && VerifyPayload(env, rq, a) == 200 && !row.blocked
    requires a in d.users ==> row == d.users[a]
    ensures Inv(env, Admit(env, d, rq, a, row, now, returning).d)
  {
    var claim := ClaimUsername(env, d.users, rq.username, a, row.username);
    if claim.Claimed? && rq.key != Some("") && rq.invited {
      if a in d.users { assert UserOk(env, a, d.users[a]); }
      PutInv(env, d, a, Admitted(env, row, rq, claim.name, now, returning));
    }
  }

  lemma RefreshedOk(env: Env, rq: LoginRequest, a: string, u: User, now: int)
    requires Sane(env) && UserOk(env, a, u) && !u.deleted && VerifyPayload(env, rq, a) == 200
    ensures UserOk(env, a, Refreshed(env, u, rq, now))
  {
    assert rq.identityKey == u.identityKey;
  }

  lemma UpsertInv(env: Env, d: Directory, rq: LoginRequest, a: string, now: int)
    requires Sane(env) && Inv(env, d) && VerifyPayload(env, rq, a) == 200
    ensures Inv(env, Upsert(env, d, rq, a, now).d)
  {
    if a !in d.users {
      AdmitInv(env, d, rq, a, Fresh(rq.identityKey), now, false);
    } else {
      var u := d.users[a];
      assert UserOk(env, a, u);
      if u.deleted {
        if !u.blocked { AdmitInv(env, d, rq, a, u, now, true); }
      } else {
        RefreshedOk(env, rq, a, u, now);
        SameNamePut(env, d, a, Refreshed(env, u, rq, now));
      }
    }
  }

  lemma LoginInv(env: Env, d: Directory, rq: LoginRequest, now: int)
    requires Sane(env) && Inv(env, d)
    ensures Inv(env, DoLogin(env, d, rq, now).d)
  {
    var a := Lower(rq.address);
    var spent := d.(nonces := Spend(d.nonces, a, rq.nonce, now));
    assert Inv(env, spent);
    if VerifyPayload(env, rq, a) == 200 { UpsertInv(env, spent, rq, a, now); }
  }

  lemma RenameInv(env: Env, d: Directory, t: Token, name: Option<string>)
    requires Sane(env) && Inv(env, d)
    ensures Inv(env, DoRename(env, d, t, name).d)
  {
    if DoRename(env, d, t, name).d != d {
      var a, normalized := Lower(t.address), env.normalize(name.value).value;
      assert UserOk(env, a, d.users[a]);
      PutInv(env, d, a, d.users[a].(username := Some(normalized)));
    }
  }

  lemma RotatedOk(env: Env, a: string, u: User, key: string, attestation: string, now: int)
    requires UserOk(env, a, u) && !u.deleted && key != "" && Attests(env, u.identityKey, a, key, attestation)
    ensures UserOk(env, a, WithKey(env, u, Some(key), Some(attestation)).(changedAt := Some(now)))
  {
  }

  // A valid key is not the empty text: an attestation body needs a key in hex.
  lemma AttestedNotEmpty(env: Env, identityKey: string, a: string, key: string, attestation: string)
    requires Attests(env, identityKey, a, key, attestation)
    ensures key != ""
  {
  }

  lemma RecordAdded(env: Env, d: Directory, r: Record)
    requires Inv(env, d) && Signed(env, d.users, r)
    ensures Inv(env, d.(rotations := d.rotations + [r]))
  {
  }

  lemma RotateInv(env: Env, d: Directory, t: Token, key: string, attestation: string, at: int, signature: string, now: int)
    requires Inv(env, d)
    ensures Inv(env, DoRotate(env, d, t, key, attestation, at, signature, now).d)
  {
    if DoRotate(env, d, t, key, attestation, at, signature, now).status == 200 {
      var a := Lower(t.address);
      var u := d.users[a];
      assert UserOk(env, a, u);
      AttestedNotEmpty(env, u.identityKey, a, key, attestation);
      RotatedOk(env, a, u, key, attestation, now);
      var rotated := WithKey(env, u, Some(key), Some(attestation)).(changedAt := Some(now));
      SameNamePut(env, d, a, rotated);
      RecordAdded(env, Put(d, a, rotated), Record(a, u.kid.value, env.keyId(key), at, signature));
    }
  }

  lemma DepartInv(env: Env, d: Directory, a: string, mode: Mode)
    requires Inv(env, d)
    ensures Inv(env, DoDepart(env, d, a, mode).d)
  {
    if a in d.users && !d.users[a].deleted {
      var u := d.users[a];
      assert UserOk(env, a, u);
      PutInv(env, d, a, Stripped(env, u, mode));
    }
  }

  lemma HandleInv(env: Env, d: Directory, rq: Request)
    requires Sane(env) && Inv(env, d)
    ensures Inv(env, Handle(env, d, rq).d)
  {
    match rq
    case Challenge(_, _, _) =>
    case Login(rq, now) => LoginInv(env, d, rq, now);
    case Logout(t) =>
    case Rename(t, name) => RenameInv(env, d, t, name);
    case Rotate(t, key, attestation, at, signature, now) => RotateInv(env, d, t, key, attestation, at, signature, now);
    case Depart(address, mode) => DepartInv(env, d, address, mode);
  }

  function Run(env: Env, d: Directory, rqs: seq<Request>): Directory
    decreases |rqs|
  {
    if rqs == [] then d else Run(env, Handle(env, d, rqs[0]).d, rqs[1..])
  }

  // Main result: over any run every published key is attested by its identity
  // and identified by its hash, every served rotation is signed, and no two
  // accounts, departed ones that kept theirs included, hold one name.
  lemma {:induction false} InvRun(env: Env, d: Directory, rqs: seq<Request>)
    requires Sane(env) && Inv(env, d)
    ensures Inv(env, Run(env, d, rqs))
    decreases |rqs|
  {
    if rqs != [] {
      HandleInv(env, d, rqs[0]);
      InvRun(env, Handle(env, d, rqs[0]).d, rqs[1..]);
    }
  }

  // ---- Sessions over whole runs ----

  // What no request undoes: an account stays, its version never falls, and a
  // block is for good.
  predicate Later(d: Directory, d': Directory, a: string)
    requires a in d.users
  {
    && a in d'.users
    && d.users[a].tokenVersion <= d'.users[a].tokenVersion
    && (d.users[a].blocked ==> d'.users[a].blocked && d'.users[a].deleted)
  }

  // The one account a request can touch.
  function Subject(rq: Request): Option<string> {
    match rq
    case Challenge(_, _, _) => None
    case Login(rq, _) => Some(Lower(rq.address))
    case Logout(t) => Some(Lower(t.address))
    case Rename(t, _) => Some(Lower(t.address))
    case Rotate(t, _, _, _, _, _) => Some(Lower(t.address))
    case Depart(address, _) => Some(address)
  }

  // A request rewrites one row at most, and removes none.
  predicate OnlyRow(d: Directory, d': Directory, a: string) {
    forall x :: x in d.users ==> x in d'.users && (x != a ==> d'.users[x] == d.users[x])
  }

  lemma UpsertRow(env: Env, d: Directory, rq: LoginRequest, a: string, now: int)
    ensures OnlyRow(d, Upsert(env, d, rq, a, now).d, a)
  {
  }

  lemma LoginRow(env: Env, d: Directory, rq: LoginRequest, now: int)
    ensures OnlyRow(d, DoLogin(env, d, rq, now).d, Lower(rq.address))
  {
    var a := Lower(rq.address);
    var spent := d.(nonces := Spend(d.nonces, a, rq.nonce, now));
    if Live(d.nonces, a, rq.nonce, now) && VerifyPayload(env, rq, a) == 200 {
      UpsertRow(env, spent, rq, a, now);
    }
  }

  lemma RotateRow(env: Env, d: Directory, t: Token, key: string, attestation: string, at: int, signature: string, now: int)
    ensures OnlyRow(d, DoRotate(env, d, t, key, attestation, at, signature, now).d, Lower(t.address))
  {
  }

  lemma SubjectOnly(env: Env, d: Directory, rq: Request)
    ensures OnlyRow(d, Handle(env, d, rq).d, Subject(rq).GetOr(""))
    ensures Subject(rq).None? ==> Handle(env, d, rq).d.users == d.users
  {
    match rq
    case Challenge(_, _, _) =>
    case Login(rq, now) => LoginRow(env, d, rq, now);
    case Logout(_) =>
    case Rename(_, _) =>
    case Rotate(t, key, attestation, at, signature, now) => RotateRow(env, d, t, key, attestation, at, signature, now);
    case Depart(_, _) =>
  }

  lemma LoginLater(env: Env, d: Directory, rq: LoginRequest, now: int)
    requires Lower(rq.address) in d.users && UserOk(env, Lower(rq.address), d.users[Lower(rq.address)])
    ensures Later(d, DoLogin(env, d, rq, now).d, Lower(rq.address))
  {
  }

  lemma RotateLater(env: Env, d: Directory, t: Token, key: string, attestation: string, at: int, signature: string, now: int)
    requires Lower(t.address) in d.users && UserOk(env, Lower(t.address), d.users[Lower(t.address)])
    ensures Later(d, DoRotate(env, d, t, key, attestation, at, signature, now).d, Lower(t.address))
  {
  }

  lemma RenameLater(env: Env, d: Directory, t: Token, name: Option<string>)
    requires Lower(t.address) in d.users && UserOk(env, Lower(t.address), d.users[Lower(t.address)])
    ensures Later(d, DoRename(env, d, t, name).d, Lower(t.address))
  {
  }

  lemma DepartLater(env: Env, d: Directory, a: string, mode: Mode)
    requires a in d.users && UserOk(env, a, d.users[a])
    ensures Later(d, DoDepart(env, d, a, mode).d, a)
  {
  }

  lemma HandleLater(env: Env, d: Directory, rq: Request, a: string)
    requires Inv(env, d) && a in d.users
    ensures Later(d, Handle(env, d, rq).d, a)
  {
    assert UserOk(env, a, d.users[a]);
    SubjectOnly(env, d, rq);
    if Subject(rq) == Some(a) {
      match rq
      case Login(rq, now) => LoginLater(env, d, rq, now);
      case Logout(t) =>
      case Rename(t, name) => RenameLater(env, d, t, name);
      case Rotate(t, key, attestation, at, signature, now) => RotateLater(env, d, t, key, attestation, at, signature, now);
      case Depart(address, mode) => DepartLater(env, d, address, mode);
    } else {
    }
  }

  lemma {:induction false} RunLater(env: Env, d: Directory, rqs: seq<Request>, a: string)
    requires Sane(env) && Inv(env, d) && a in d.users
    ensures Later(d, Run(env, d, rqs), a)
    decreases |rqs|
  {
    if rqs == [] {
      assert UserOk(env, a, d.users[a]);
    } else {
      HandleInv(env, d, rqs[0]);
      HandleLater(env, d, rqs[0], a);
      RunLater(env, Handle(env, d, rqs[0]).d, rqs[1..], a);
    }
  }

  // A request that ends an account's sessions: a logout, or a departure.
  predicate Ends(env: Env, d: Directory, rq: Request, a: string) {
    && Handle(env, d, rq).status == 200
    && ((rq.Logout? && Lower(rq.token.address) == a) || (rq.Depart? && rq.address == a))
  }

  lemma RunSplit(env: Env, d: Directory, before: seq<Request>, after: seq<Request>)
    ensures Run(env, d, before + after) == Run(env, Run(env, d, before), after)
    decreases |before|
  {
    if before == [] {
      assert before + after == after;
    } else {
      assert (before + after)[1..] == before[1..] + after;
      RunSplit(env, Handle(env, d, before[0]).d, before[1..], after);
    }
  }

  // Main result: a token minted before a logout or a departure never
  // authenticates again, whatever happens next, a return included.
  lemma OldTokensDie(env: Env, d: Directory, before: seq<Request>, ending: Request, after: seq<Request>, t: Token)
    requires Sane(env) && Inv(env, d) && Lower(t.address) in d.users
    requires t.version <= d.users[Lower(t.address)].tokenVersion
    requires Ends(env, Run(env, d, before), ending, Lower(t.address))
    ensures !Authenticates(Run(env, d, before + [ending] + after), t)
  {
    var a := Lower(t.address);
    var mid := Run(env, d, before);
    RunSplit(env, d, before + [ending], after);
    RunSplit(env, d, before, [ending]);
    InvRun(env, d, before);
    RunLater(env, d, before, a);
    HandleInv(env, mid, ending);
    assert Run(env, mid, [ending]) == Handle(env, mid, ending).d;
    RunLater(env, Handle(env, mid, ending).d, after, a);
  }

  // Main result: an erased identity is gone for good. It stays blocked, no token
  // of its authenticates, and no login brings it back.
  lemma ErasedForGood(env: Env, d: Directory, rqs: seq<Request>, a: string, t: Token, rq: LoginRequest, now: int)
    requires Sane(env) && Inv(env, d) && a in d.users && d.users[a].blocked
    requires Lower(t.address) == a && Lower(rq.address) == a
    ensures var later := Run(env, d, rqs);
      && a in later.users && later.users[a].blocked
      && !Authenticates(later, t) && DoLogin(env, later, rq, now).status != 200
  {
    RunLater(env, d, rqs, a);
  }

  // A request adds no challenge but the one it issues.
  lemma HandleNonces(env: Env, d: Directory, rq: Request, nonce: string)
    requires nonce in Handle(env, d, rq).d.nonces && (rq.Challenge? ==> rq.nonce != nonce)
    ensures nonce in d.nonces && d.nonces[nonce] == Handle(env, d, rq).d.nonces[nonce]
  {
    if rq.Login? { LoginNonces(env, d, rq.rq, rq.now); }
  }

  lemma LoginNonces(env: Env, d: Directory, rq: LoginRequest, now: int)
    ensures DoLogin(env, d, rq, now).d.nonces == Spend(d.nonces, Lower(rq.address), rq.nonce, now)
  {
    UpsertNonces(env, d.(nonces := Spend(d.nonces, Lower(rq.address), rq.nonce, now)), rq, Lower(rq.address), now);
  }

  lemma UpsertNonces(env: Env, d: Directory, rq: LoginRequest, a: string, now: int)
    ensures Upsert(env, d, rq, a, now).d.nonces == d.nonces
  {
  }

  lemma {:induction false} RunNonces(env: Env, d: Directory, rqs: seq<Request>, nonce: string)
    requires forall i :: 0 <= i < |rqs| && rqs[i].Challenge? ==> rqs[i].nonce != nonce
    requires nonce in Run(env, d, rqs).nonces
    ensures nonce in d.nonces && d.nonces[nonce] == Run(env, d, rqs).nonces[nonce]
    decreases |rqs|
  {
    if rqs != [] {
      RunNonces(env, Handle(env, d, rqs[0]).d, rqs[1..], nonce);
      HandleNonces(env, d, rqs[0], nonce);
    }
  }

  // Main result: a challenge is good for one attempt, in its five minutes. A login
  // that succeeds found it live, and whatever one attempt answered, no later one
  // succeeds with that challenge, over any run that does not issue its nonce again.
  lemma OneLoginPerChallenge(
    env: Env, d: Directory, rq: LoginRequest, now: int, rqs: seq<Request>, again: LoginRequest, later: int)
    requires Lower(again.address) == Lower(rq.address) && again.nonce == rq.nonce && now <= later
    requires forall i :: 0 <= i < |rqs| && rqs[i].Challenge? ==> rqs[i].nonce != rq.nonce
    ensures DoLogin(env, d, rq, now).status == 200 ==> Live(d.nonces, Lower(rq.address), rq.nonce, now)
    ensures DoLogin(env, Run(env, DoLogin(env, d, rq, now).d, rqs), again, later).status == 400
  {
    var d1 := DoLogin(env, d, rq, now).d;
    var d2 := Run(env, d1, rqs);
    LoginNonces(env, d, rq, now);
    if rq.nonce in d2.nonces { RunNonces(env, d1, rqs, rq.nonce); }
  }

  // ---- Returning to one's name ----

  // A leaver who asks for no name claims the one they left with.
  lemma KeptNameClaimed(env: Env, d: Directory, a: string)
    requires Inv(env, d) && a in d.users && !d.users[a].blocked
    ensures d.users[a].username.Some?
    ensures ClaimUsername(env, d.users, None, a, d.users[a].username) == Claimed(d.users[a].username.value)
  {
    assert UserOk(env, a, d.users[a]);
  }

  // Main result: in every reachable state, a leaver who comes back asking for no
  // name is not refused one, and is back under the name they left with.
  lemma ReturningName(env: Env, rqs: seq<Request>, a: string, rq: LoginRequest, now: int)
    requires Sane(env) && a == Lower(rq.address) && rq.username.None?
    requires var d := Run(env, Directory(map[], map[], []), rqs);
      a in d.users && d.users[a].deleted && !d.users[a].blocked
    ensures var d := Run(env, Directory(map[], map[], []), rqs);
      && DoLogin(env, d, rq, now).status != 409
      && (DoLogin(env, d, rq, now).status == 200 ==>
            a in DoLogin(env, d, rq, now).d.users && DoLogin(env, d, rq, now).d.users[a].username == d.users[a].username)
  {
    var d := Run(env, Directory(map[], map[], []), rqs);
    InvRun(env, Directory(map[], map[], []), rqs);
    KeptNameClaimed(env, d, a);
  }

  // And it is kept: nothing anyone does while the account is away takes it.
  lemma NameKeptWhileAway(env: Env, d: Directory, rq: Request, a: string)
    requires Inv(env, d) && a in d.users && d.users[a].deleted
    requires !(rq.Login? && Lower(rq.rq.address) == a)
    ensures a in Handle(env, d, rq).d.users && Handle(env, d, rq).d.users[a] == d.users[a]
  {
    SubjectOnly(env, d, rq);
    if Subject(rq) == Some(a) {
      match rq
      case Logout(t) =>
      case Rename(t, _) =>
      case Rotate(t, _, _, _, _, _) =>
      case Depart(_, _) =>
    }
  }

  // ---- Rotations ----

  // Main result: an accepted rotation follows an edge out of the key the server
  // held, signed by the identity, and is recorded as that edge.
  lemma RotationFollowsSignedEdge(env: Env, d: Directory, t: Token, key: string, attestation: string, at: int, signature: string, now: int)
    requires Inv(env, d) && DoRotate(env, d, t, key, attestation, at, signature, now).status == 200
    ensures var a, after := Lower(t.address), DoRotate(env, d, t, key, attestation, at, signature, now).d;
      && a in d.users && d.users[a].kid.Some? && after.users[a].kid == Some(env.keyId(key))
      && d.users[a].kid.value != env.keyId(key)
      && after.rotations == d.rotations + [Record(a, d.users[a].kid.value, env.keyId(key), at, signature)]
      && Signed(env, after.users, after.rotations[|d.rotations|])
  {
    assert UserOk(env, Lower(t.address), d.users[Lower(t.address)]);
  }

  // One signed text is one edge, so the signature of a recorded rotation moves
  // nobody from any other key.
  lemma EdgeTextDecides(sha: string -> string, a: string, from: string, to: string, at: int,
                        a': string, from': string, to': string, at': int)
    requires HexDigests(sha)
    requires Body(sha, Rotation(a, from, to, at)).Some?
    requires Body(sha, Rotation(a, from, to, at)) == Body(sha, Rotation(a', from', to', at'))
    ensures a == a' && from == from' && to == to' && at == at'
  {
    NoTwoBodiesCollide(sha, Rotation(a, from, to, at), Rotation(a', from', to', at'));
  }

  lemma LoginMovesKey(env: Env, d: Directory, rq: LoginRequest, now: int)
    requires Lower(rq.address) in d.users && VerifyPayload(env, rq, Lower(rq.address)) != 200
    ensures DoLogin(env, d, rq, now).d.users == d.users
  {
  }

  lemma RefusedRotationKeeps(env: Env, d: Directory, t: Token, key: string, attestation: string, at: int, signature: string, now: int)
    requires DoRotate(env, d, t, key, attestation, at, signature, now).status != 200
    ensures DoRotate(env, d, t, key, attestation, at, signature, now).d == d
  {
  }

  lemma RenameKeepsKey(env: Env, d: Directory, t: Token, name: Option<string>, a: string)
    requires a in d.users
    ensures a in DoRename(env, d, t, name).d.users && DoRename(env, d, t, name).d.users[a].kid == d.users[a].kid
  {
  }

  lemma DepartKey(env: Env, d: Directory, a: string, mode: Mode)
    requires a in d.users
    ensures var users := DoDepart(env, d, a, mode).d.users;
      a in users && (users[a].kid == d.users[a].kid || users[a].kid.None?)
  {
  }

  // Main result: an account's published key moves only by its own signature: a
  // login it signed, a rotation it signed, or its departure, which clears it.
  lemma KeyMovesBySignature(env: Env, d: Directory, rq: Request, a: string)
    requires Inv(env, d) && a in d.users
    ensures a in Handle(env, d, rq).d.users
    ensures Handle(env, d, rq).d.users[a].kid != d.users[a].kid ==>
      || (rq.Rotate? && Lower(rq.token.address) == a && Handle(env, d, rq).status == 200)
      || (rq.Login? && Lower(rq.rq.address) == a && VerifyPayload(env, rq.rq, a) == 200)
      || (rq.Depart? && rq.address == a && Handle(env, d, rq).d.users[a].kid.None?)
  {
    SubjectOnly(env, d, rq);
    if Subject(rq) == Some(a) {
      match rq
      case Login(rq, now) => if VerifyPayload(env, rq, a) != 200 { LoginMovesKey(env, d, rq, now); }
      case Logout(_) =>
      case Rename(t, name) => RenameKeepsKey(env, d, t, name, a);
      case Rotate(t, key, attestation, at, signature, now) =>
        if Handle(env, d, rq).status != 200 { RefusedRotationKeeps(env, d, t, key, attestation, at, signature, now); }
      case Depart(_, mode) => DepartKey(env, d, a, mode);
    }
  }
}
