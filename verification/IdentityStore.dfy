/** The authentication and rotation endpoints as methods on the stored rows. */
module IdentityStore {
  import opened Challenges
  import opened Text
  import opened SignedBodies
  import opened Identity

  class Store {
    const env: Env
    var users: map<string, User>
    var nonces: map<string, Nonce>
    var rotations: seq<Record>

    function State(): Directory
      reads this
    {
      Directory(users, nonces, rotations)
    }

    constructor (env: Env)
      ensures this.env == env && State() == Directory(map[], map[], [])
    {
      this.env := env;
      users, nonces, rotations := map[], map[], [];
    }

    // `get_nonce`
    method IssueNonce(address: string, nonce: string, now: int) returns (status: nat)
      modifies this`nonces
      ensures Answer(State(), status, None) == DoChallenge(old(State()), address, nonce, now)
    {
      var a := Lower(address);
      if !IsValidAddress(a) { return 400; }
      var kept := map n | n in nonces && nonces[n].expires > now :: nonces[n];
      if nonce in kept { return 500; }
      nonces := kept[nonce := Nonce(a, now + CHALLENGE_LIFETIME_MS)];
      status := 200;
    }

    // `claim_nonce`: the delete is the guard, so one caller wins.
    method ClaimNonce(address: string, nonce: string, now: int) returns (won: bool)
      modifies this`nonces
      ensures won == Live(old(nonces), address, nonce, now)
      ensures nonces == Spend(old(nonces), address, nonce, now)
    {
      won := Live(nonces, address, nonce, now);
      if won { nonces := nonces - {nonce}; }
    }

    // `_claim_username`
    method NameFor(wish: Option<string>, address: string, current: Option<string>) returns (claim: Claim)
      ensures claim == ClaimUsername(env, users, wish, address, current)
    {
      var name := "";
      if wish.Some? {
        var normalized := env.normalize(wish.value);
        if normalized.None? { return NotClaimed(400); }
        name := normalized.value;
      } else if current.Some? && current.value != "" {
        name := current.value;
      } else {
        name := Prefix(address);
      }
      var taken := IsTaken(name, address);
      if taken { return NotClaimed(409); }
      claim := Claimed(name);
    }

    // `username_taken`
    method IsTaken(name: string, except: string) returns (taken: bool)
      ensures taken <==> Taken(env, users, name, except)
    {
      taken := exists a :: a in users && a != except && users[a].username.Some? && env.fold(users[a].username.value) == env.fold(name);
    }

    // `_revive_user`, and `_register_user` on a fresh row.
    method AdmitUser(rq: LoginRequest, address: string, row: User, now: int, returning: bool) returns (status: nat, token: Option<Token>)
      modifies this`users
      ensures Answer(State(), status, token) == Admit(env, old(State()), rq, address, row, now, returning)
    {
      var claim := NameFor(rq.username, address, row.username);
      if claim.NotClaimed? { return claim.status, None; }
      if rq.key == Some("") { return 500, None; }
      var u := row.(username := Some(claim.name), identityKey := rq.identityKey, deleted := false);
      if returning { u := u.(changedAt := Some(now)); }
      u := WithKey(env, u, rq.key, rq.attestation);
      if !rq.invited { return 403, None; }
      users := users[address := u];
      return 200, Some(Token(address, row.tokenVersion));
    }

    // `_upsert_identity`
    method UpsertIdentity(rq: LoginRequest, address: string, now: int) returns (status: nat, token: Option<Token>)
      modifies this`users
      ensures Answer(State(), status, token) == Upsert(env, old(State()), rq, address, now)
    {
      if address !in users {
        status, token := AdmitUser(rq, address, Fresh(rq.identityKey), now, false);
        return;
      }
      var u := users[address];
      if u.deleted {
        if u.blocked { return 410, None; }
        status, token := AdmitUser(rq, address, u, now, true);
        return;
      }
      if rq.key.GetOr("") != "" && u.key != rq.key {
        if u.key.GetOr("") != "" { u := u.(changedAt := Some(now)); }
        u := WithKey(env, u, rq.key, rq.attestation);
      } else if rq.attestation.GetOr("") != "" && u.attestation.GetOr("") == "" {
        u := u.(attestation := rq.attestation);
      }
      users := users[address := u];
      return 200, Some(Token(address, u.tokenVersion));
    }

    // `_login`: claim, verify, upsert.
    method LogIn(rq: LoginRequest, now: int) returns (status: nat, token: Option<Token>)
      modifies this`users, this`nonces
      ensures Answer(State(), status, token) == DoLogin(env, old(State()), rq, now)
    {
      var address := Lower(rq.address);
      var won := ClaimNonce(address, rq.nonce, now);
      if !won { return 400, None; }
      var verdict := VerifyPayload(env, rq, address);
      if verdict != 200 { return verdict, None; }
      status, token := UpsertIdentity(rq, address, now);
    }

    method LogOut(t: Token) returns (status: nat)
      modifies this`users
      ensures Answer(State(), status, None) == DoLogout(old(State()), t)
    {
      if !Authenticates(State(), t) { return 401; }
      var a := Lower(t.address);
      users := users[a := users[a].(tokenVersion := users[a].tokenVersion + 1)];
      status := 200;
    }

    method UpdateUser(t: Token, name: Option<string>) returns (status: nat)
      modifies this`users
      ensures Answer(State(), status, None) == DoRename(env, old(State()), t, name)
    {
      if !Authenticates(State(), t) { return 401; }
      if name.None? { return 200; }
      var normalized := env.normalize(name.value);
      if normalized.None? { return 400; }
      var a := Lower(t.address);
      var taken := IsTaken(normalized.value, a);
      if taken { return 409; }
      users := users[a := users[a].(username := normalized)];
      status := 200;
    }

    // `rotate`
    method RotateKey(t: Token, key: string, attestation: string, at: int, signature: string, now: int) returns (status: nat)
      modifies this`users, this`rotations
      ensures Answer(State(), status, None) == DoRotate(env, old(State()), t, key, attestation, at, signature, now)
    {
      if !Authenticates(State(), t) { return 401; }
      var a := Lower(t.address);
      var u := users[a];
      if u.key.GetOr("") == "" || u.kid.GetOr("") == "" { return 409; }
      if !env.validKey(key) { return 400; }
      if u.key == Some(key) { return 400; }
      if Abs(now - at) > ROTATION_CLOCK_SKEW_MS { return 400; }
      if Body(env.sha, Attestation(a, key)).None? { return 500; }
      if !Attests(env, u.identityKey, a, key, attestation) { return 400; }
      var oldKid, newKid := u.kid.value, env.keyId(key);
      var edge := Body(env.sha, Rotation(a, oldKid, newKid, at));
      if edge.None? { return 500; }
      if !env.verify(u.identityKey, edge.value, signature) { return 401; }
      rotations := rotations + [Record(a, oldKid, newKid, at, signature)];
      users := users[a := WithKey(env, u, Some(key), Some(attestation)).(changedAt := Some(now))];
      status := 200;
    }

    // The identity's share of a deletion: `_strip_identity` and the sweeps.
    method StripIdentity(address: string, mode: Mode) returns (status: nat)
      modifies this
      ensures Answer(State(), status, None) == DoDepart(env, old(State()), address, mode)
    {
      if address !in users || users[address].deleted { return 410; }
      var u := users[address];
      if mode == Erase {
        rotations := RecordsWithout(rotations, address);
        u := u.(username := None);
      }
      nonces := map n | n in nonces && nonces[n].address != address :: nonces[n];
      u := WithKey(env, u, None, None);
      u := u.(changedAt := None, tokenVersion := u.tokenVersion + 1, deleted := true, blocked := u.blocked || mode == Erase);
      users := users[address := u];
      status := 200;
    }
  }
}
