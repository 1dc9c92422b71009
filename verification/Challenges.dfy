/**
Single-use challenges. Anyone may ask for one in anyone's name, so an address can
have several; each is good for five minutes and for one claim.
*/
module Challenges {
  import opened Text

  const CHALLENGE_LIFETIME_MS: int := 5 * 60 * 1000

  // A row of the table, stored under its nonce.
  datatype Nonce = Nonce(address: string, expires: int)

  predicate Live(nonces: map<string, Nonce>, address: string, nonce: string, now: int) {
    nonce in nonces && nonces[nonce].address == address && nonces[nonce].expires > now
  }

  // `claim_nonce`: the delete is the guard, and takes a live challenge only.
  function Spend(nonces: map<string, Nonce>, address: string, nonce: string, now: int): map<string, Nonce> {
    if Live(nonces, address, nonce, now) then nonces - {nonce} else nonces
  }

  // `get_nonce`: expired rows are purged first. None where the primary key refuses.
  function Issue(nonces: map<string, Nonce>, address: string, nonce: string, now: int): Option<map<string, Nonce>> {
    var kept := map n | n in nonces && nonces[n].expires > now :: nonces[n];
    if nonce in kept then None else Some(kept[nonce := Nonce(address, now + CHALLENGE_LIFETIME_MS)])
  }
}
