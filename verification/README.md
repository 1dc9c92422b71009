# Kryptolog, verified

Kryptolog is an end-to-end encrypted messenger and vault whose server never reads
content. What it promises is therefore about protocol state: which rows exist, who
may read them, and which bytes a signature commits to. This project models that
state in Dafny and proves the promises over every input and every run.

| file | what it models |
|---|---|
| Text.dfy, Lists.dfy, Pages.dfy | spellings and orders of strings, selections of rows, streamed pages |
| CanonicalJson.dfy, SignedBodies.dfy, Base64.dfy | the bytes a signature commits to |
| Alphabets.dfy, BodyReaders.dfy | which values those bytes may hold, and a reader of them that knows nothing of how they are built |
| Messages.dfy, Erase.dfy, MessageStore.dfy | stored messages and the resumable erase |
| EraseClient.dfy | the client that drives an erase round after round |
| Retention.dfy, MessageRuns.dfy | the age-based purge, and whole runs of the message tables |
| ClientSessions.dfy, SessionRuns.dfy, SessionReuse.dfy | session rotation in the client that sends |
| Deliveries.dfy | from the devices that send to the tables that store: what stays readable |
| Wraps.dfy, Rewraps.dfy, WrapLaws.dfy | stale wrapped keys, their pages and their re-wrapping |
| Vaults.dfy, Multisig.dfy, MultisigSteps.dfy, Releases.dfy, Grants.dfy, VaultStore.dfy | secrets, grants and multisig workflows |
| VaultLaws.dfy, VaultAccess.dfy, WorkflowRuns.dfy | what a vault request is accepted for and what it writes; a workflow from its creation to its release |
| Groups.dfy, GroupLaws.dfy | group membership and the succession of its owner |
| Teardowns.dfy | messages and group membership in one run |
| Quota.dfy, QuotaLaws.dfy | the storage quota as concurrent transactions |
| Challenges.dfy, Identity.dfy, IdentityLaws.dfy, IdentityStore.dfy | logins, the key directory, sessions and departures |

Code that works by changing state is written as classes and loops
(`MessageStore.Store`, `VaultStore.Store`, `Groups.Store`, `IdentityStore.Store`,
`ClientSessions.Messenger`, and the loops beside them), each method proved to leave
what a specification function says. What the source promises is then proved about those
functions, and the files named for readers and laws say what each of them means in terms
that do not mention it: the text read back, the rows told one by one, ages and sizes as
numbers. `dafny verify dfyconfig.toml` checks the whole project.

## What the theorems rest on

- The hash, the signature check, the KEM, `json.loads` and username normalization
  are function parameters. Nothing is assumed of the hash but that a digest is
  lower-case hex; where a collision would matter the conclusion is about digests, or
  the absence of that one collision is a stated hypothesis. `Identity.Sane` says that
  an address names one identity key and is not empty, and that no normalized username
  is; `Wraps.Parses` that the empty text is not JSON;
  `Erase.HoldsKey` that a client can sign what it is asked to.
- A request is one atomic step, except where the interleaving is the point: sends may
  fall between an erase's last check and its delete, a send's end comes later than
  its beginning, and quota transactions are split into their statements, an edit's
  load before the lock included. What an edit or a workflow's deletion does to
  workflows and grants is one step (`Vaults`), since the source takes no lock that
  would make those checks hold across a race.
- Row ids are drawn from a sequence and never reused, as on PostgreSQL, and a channel's
  id is drawn at random and never again. Uniqueness
  constraints are proved as invariants (grants, signers, members, row ids, names).
- `Deliveries`: a message is stored at most `delay` after its session was judged usable,
  by a device whose clock does not run backwards and stands at a fixed distance from the
  server's; two devices of one account never draw one session id; an acknowledged send
  is stored. With a delay of at most a day, and purges that keep at least a day and the
  delay, nothing more is needed: `SessionRuns` proves the 24 hours of the client.
- SQLAlchemy's session writes the columns of a row that differ from what it loaded, and
  no others (`Quota.Merged`).
- `EraseClient.RunErase`: nothing else is done on the account while its client erases; each
  round's challenge is drawn anew and used within its five minutes (`EraseClient.Timely`);
  the client holds the identity's key, runs on an origin the server answers for, and the
  account is active (`EraseClient.Ready`).
- `IdentityLaws.RotatedAsAsked`: no key id is the empty text; a key id is a digest.
- The client sends one message at a time, which is what its disabled send button
  ensures; invalidations and adopted keys may come in between. A begun send is
  answered, fails in its POST, or is given up before it.
- `SessionRuns.Sane`: a session id holds no ':' and a partner's key no '|'; the member
  list the server hands out names each member once, with no ':' in an address and no
  ',' in an address or a key. Addresses and keys the server accepts are hex, and the
  client draws session ids as UUIDs.
- The address and key-id patterns are modelled as `.match` treats them: one newline may
  end an accepted value. No two signed bodies collide all the same.

## Where the code and its own words differ

- A comment beside the redaction check calls an unsignable body unreachable
  (`backend/account_deletion.py:399-403`). It is reachable: the earlier test bounds
  `ts` and `seq` from below only and does not compare a payload's group with its
  channel, and a message's content is stored unparsed (`backend/schemas.py:461`,
  `backend/schemas.py:542`). `Erase.UnspellableRows` gives two such rows,
  `Erase.SpellableMeans` the exact condition on a row, and `Erase.FinishesIffSpellable`
  what follows: rounds can empty the manifest if and only if every row on it meets it.
  One that does not stays, unredacted, until its channel is torn down or a purge takes
  it (`MessageRuns.UnspellableRemains`).
- A comment at `abandonSession` says a session whose first message never reached the
  server is forgotten (`frontend/src/context/MessengerContext.jsx:187-189`). Only a
  failing POST forgets it. If the send that mints a session fails between minting and
  the POST, as when its signature is declined, the session stays active and the next
  message goes out under a key nobody was given: `SessionRuns.DeclinedSignatureStrandsTheKey`.
  `SessionRuns.OpenedIffMintPosted` says exactly when a message's key was delivered.
- An edit's growth is said to count against the quota (`backend/routers/secrets.py:212`).
  It is counted from the lengths loaded before the lock, and a column sent back as it was
  loaded is not written at all. `Quota.LateEditBreaksTheCeiling` and
  `Quota.UnwrittenColumnBreaksTheCeiling` are interleavings that end over the ceiling, the
  second with a secret that has grown in between. `Quota.EditSafeIff` says that the check
  protects the ceiling if and only if the columns the edit writes are together no shorter
  at the check than at the load; `Quota.EveryEditSafeIff` that it does so for every edit if
  and only if neither column is shorter. `Quota.CeilingsHold` holds over runs whose edits
  meet the first condition.
- A round reports how many redactions landed (`backend/account_deletion.py:415`). That
  is the number of keys, and the number of rows only if none is named twice:
  `Erase.ReportedCount`, `Erase.TwoSpellingsOneRow`.
- A page of the manifest is one row long when it is asked for none: `Pages.StreamPage`.
- A login with an empty, rather than absent, encryption key passes the handler and
  meets the table's CHECK (`backend/models.py:142-148`); it is modelled as that failure.

## Model

| member | source | states |
|---|---|---|
| CanonicalJson.CanonicalRoundTrip | backend/auth.py:259-285 | a parser that knows nothing of the printer reads every canonical spelling back, up to member order: the spelling loses nothing |
| CanonicalJson.CanonicalDecides | backend/auth.py:259-285 | two values have one spelling if and only if they mean the same value, whatever order their members were built in |
| CanonicalJson.CanonicalExactly | backend/auth.py:259-285 | a text is the canonical spelling of a value if and only if a strict parser reads it, whole, as that value with every object's members in ascending order; without such a text the value is refused |
| CanonicalJson.EnvelopeSpells | backend/auth.py:288-323 | everything the envelope check accepts has a canonical spelling |
| CanonicalJson.RedactionKeysDecided | backend/auth.py:405-415 | for lists of distinct keys the sorted array text is the same if and only if the sets of keys are |
| CanonicalJson.RedactionKeysRead | backend/auth.py:405-415 | the digested text reads as the array of the keys, each as often as it was given, in ascending order |
| SignedBodies.NoTwoBodiesCollide | backend/auth.py:119-449 | equal signed bytes come from the same builder with every interpolated field equal, up to the digests of the key map and the redaction set and the canonical ciphertext text; which value stands under which label is what BodyReaders reads back |
| BodyReaders.LoginReads | backend/auth.py:147-179 | a plain reader of `label=value` lines finds in every accepted login body the header, the context "login", the labels in their order, and under each of them the origin, deployment, nonce and key that were given, with the suite named exactly when there is a key |
| BodyReaders.AttestationReads | backend/auth.py:182-202 | the same reader finds the address, the suite and the public key an attestation is for |
| BodyReaders.RotationReads | backend/auth.py:205-225 | it finds the address, the old key id under "old-kid", the new one under "new-kid", and the time as a number |
| BodyReaders.ApprovalReads | backend/auth.py:228-237 | it finds the workflow, the secret and, to the end of the text, the digest |
| BodyReaders.MessageReads | backend/auth.py:335-378 | it finds the sender, the conversation, the group and the session, ts under "ts" and seq under "seq" as numbers, a digest of a text that parses to the key map, and then "redacted=1" exactly for a redaction, else the ciphertext |
| BodyReaders.DeletionReads | backend/auth.py:381-418 | it finds the origin, deployment, nonce and mode of a deletion, and the digest of a text that parses to the redaction keys |
| BodyReaders.EraseReads | backend/auth.py:421-449 | it finds the same of a conversation erase, with the kind and name of the conversation |
| SignedBodies.OriginExactly | backend/auth.py:129-136 | an origin is accepted if and only if it is http or https, a host of small letters, digits, dots and dashes, and perhaps a port of one to five digits |
| Alphabets.AddressExactly | backend/security/crypto_validation.py:75-84 | an address is 96 hex digits and a key id 32, in small letters, with perhaps one newline after them, which is what `$` lets through |
| Alphabets.IdentifierExactly | backend/auth.py:128-140 | an identifier is 1 to 64 letters, digits, dashes and underscores |
| Alphabets.EnvelopeExactly | backend/auth.py:288-323 | a key map is accepted if and only if it is an object of objects, none of them empty, with ASCII names and values that are ASCII texts or numbers below 2^31 |
| Alphabets.BodyExists | backend/auth.py:147-449 | which arguments each builder takes and which make it raise, in code points, lengths and numbers |
| SignedBodies.KeysTextDecides | backend/auth.py:335-378 | the key-map text inside a message body is equal if and only if the key maps are equal as maps |
| SignedBodies.MessageFixesKeys | backend/auth.py:335-378 | unless two digests collide, equal message bodies carry the same key map |
| SignedBodies.DeletionFixesRedactions | backend/auth.py:381-449 | unless two digests collide, equal deletion bodies name the same set of redactions, so none can be dropped |
| Base64.IsB64Exactly | backend/security/crypto_validation.py:101-120 | a text is accepted if and only if it is the encoding of some non-empty byte string (sections 3.5 and 4 of RFC 4648) |
| Base64.AcceptedIsCanonical | backend/security/crypto_validation.py:101-120 | decoding is injective on accepted texts, and their length is the budgeted one |
| Base64.EncodeLength | backend/schemas.py:62-64 | an encoding is exactly as long as the size budget computes |
| Base64.EncodesThree | backend/security/crypto_validation.py:101-120 | three bytes, read as one number, are their four base-64 digits (section 4 of RFC 4648), and the rest follows |
| Base64.EncodesTwo | backend/security/crypto_validation.py:101-120 | two bytes are three digits and a pad |
| Base64.EncodesOne | backend/security/crypto_validation.py:101-120 | one byte is two digits and two pads, and no bytes are no text |
| Base64.IsValidSignatureExactly | backend/security/crypto_validation.py:132-142 | a signature text is accepted if and only if it encodes between 3317 and 3413 bytes |
| Messages.OneFate | backend/account_deletion.py:106-199 | every message of one's own is exactly one of deletable, redactable, redacted or kept |
| Messages.FalsyExactly | backend/account_deletion.py:175-199 | which JSON values count as no key map at all: null, false, zero, and the empty text, array and object |
| Messages.ScopesAgree | backend/account_deletion.py:78-92 | the SQL filter and the row check agree on all rows if and only if the scope names a conversation or is the whole account |
| Messages.RouteScopesAgree | backend/routers/conversations.py:52-65 | a scope that comes from the route always agrees with itself |
| Messages.KeyNamesItsRow | backend/account_deletion.py:95-103 | a key spelled by the server parses back to the row it names |
| Text.NatTextPlain | backend/account_deletion.py:95-103 | a number is spelled without a leading zero, and zero as "0" |
| Text.PlainValue | backend/account_deletion.py:95-103 | such a spelling is the only one a number has |
| Text.LowerAt | backend/security/authorization.py:35-37 | normalizing an address changes its ASCII capitals and nothing else, and once is enough |
| Messages.ParseKeyExactly | backend/account_deletion.py:327-345 | a submitted key names a row if and only if it is "dm:" or "group:" followed by digits whose value is the row's id |
| Erase.LeftIsFilteredWalk | backend/account_deletion.py:175-242 | the manifest is the walk of one's own rows, direct messages first, filtered to the redactable ones |
| Erase.RemainingCount | backend/account_deletion.py:245-266 | the set of keys has as many elements as the manifest has rows |
| Erase.VerifyAllAt | backend/account_deletion.py:362-409 | change i of an accepted round is what submission i was verified to, all of them before any is written |
| Erase.RoundEffect | backend/account_deletion.py:296-433 | a landed round turns exactly the rows it names into redactions whose signature verifies from the stored row, changing nothing else in them and no other row |
| Erase.RoundAccepted | backend/account_deletion.py:327-409 | a round is accepted whole if and only if every key names a row that is left and every signature covers that row's redacted form |
| Erase.LeftAfterRound | backend/account_deletion.py:412-433 | what is left after a landed round is what was left before it without the rows named |
| Erase.RowsRedacted | backend/account_deletion.py:412-433 | the number of rows a landed round redacts is the number of distinct rows its keys name |
| Erase.ReportedCount | backend/account_deletion.py:412-433 | the count a round reports is the number of rows it redacted if and only if no row is named under two spellings |
| Erase.TwoSpellingsOneRow | backend/account_deletion.py:337-342 | "dm:7" and "dm:07" are two keys and one row |
| Erase.SpellableMeans | backend/auth.py:359-371 | which redactable rows a signature can be made for at all, in the row's own terms |
| Erase.UnspellableRows | backend/account_deletion.py:164-167 | a stamp of 2^53, or a payload naming another group, makes a row the erase asks for and no signature can cover; one less, or the right group, does not |
| Erase.UnspellableStays | backend/account_deletion.py:380-403 | such a row survives a round whatever is submitted |
| Erase.FinishesIffSpellable | backend/account_deletion.py:362-433 | for a client that holds its key, some series of rounds within the cap leaves nothing to redact if and only if every row left is one a signature can be made for |
| Erase.ClientRoundProgress | backend/account_deletion.py:412-433 | one round over the first rows of the manifest takes exactly those off it |
| Erase.ErasesInRounds | backend/schemas.py:647 | with no new sends, C carriers are erased in max(1, ceil(C/1000)) rounds |
| Erase.EraseAccounting | backend/account_deletion.py:269-289 | at the fixed point one's messages in scope split exactly into deleted, redacted and kept, survivors still holding content number exactly the kept ones, and every other row is untouched |
| Pages.PagesCover | backend/account_deletion.py:202-242 | the pages of a list put together are the list |
| Pages.StreamPage | backend/account_deletion.py:202-242 | streaming, skipping and stopping at a full page computes the slice [offset, offset+limit) of the filtered list |
| MessageStore.ManifestCovers | backend/account_deletion.py:202-266 | the pages of the manifest name exactly the keys a round may use |
| MessageStore.CountKept | backend/account_deletion.py:269-289 | the counter is the number of kept rows on the walk |
| MessageStore.CollectDeletable | backend/account_deletion.py:436-458 | the ids collected are those of the deletable rows, and the counter is their number |
| MessageStore.SubmittedAscend | backend/account_deletion.py:362-409 | submissions are verified in ascending order of their keys |
| MessageStore.VerifyEach | backend/account_deletion.py:362-409 | the verifying loop stops at the first refusal and otherwise returns every change in order |
| MessageStore.ApplyEach | backend/account_deletion.py:412-433 | the writing loop applies the changes in order |
| MessageStore.TearDownExactly | backend/security/authorization.py:455-458 | a channel torn down takes exactly its own group messages with it |
| MessageStore.DeletableIds | backend/account_deletion.py:436-458 | deleting by collected id deletes exactly the deletable rows of one's own in scope |
| MessageStore.Store.RedactableMessages | backend/account_deletion.py:202-242 | one page of the manifest is that slice of the rows left, entry by entry |
| MessageStore.Store.KeptMessages | backend/account_deletion.py:269-289 | the reported count is the number of one's kept rows in scope |
| MessageStore.Store.DeleteOwnMessages | backend/account_deletion.py:436-458 | the table keeps exactly the surviving rows and the count is the number deleted |
| MessageStore.Store.ApplyRedactions | backend/account_deletion.py:412-433 | the table is the round's, it landed exactly if every redaction verified, and a refused round changes nothing |
| MessageStore.Store.PurgeExpiredMessages | backend/retention.py:61-92 | the table is what PurgeExactly says of that period, and the counts add up to the rows that went |
| MessageStore.Store.ClaimNonce | backend/routers/auth.py:87-117 | a challenge is won exactly if it is this address's and unexpired, and winning takes it |
| MessageStore.Store.IssueNonce | backend/routers/auth.py:43-64 | expired challenges go, and a new one is stored beside those there are |
| MessageStore.Store.EraseConversation | backend/routers/conversations.py:184-284 | one request is accepted if and only if the route names a conversation, the challenge is live and this address's, no key repeats, the pair is served, the signature authorizes exactly these keys and every redaction names a row that is left and signs its redacted form; each refusal has its status, in order, and changes no row; an accepted one leaves the table its round leaves, and if that empties the manifest, the final delete and its counts |
| MessageStore.Store.PerformDeletion | backend/routers/account.py:148-280 | the same for an account deletion in either mode, where the account must also be active and a leave carries no redactions; the statuses in order, and what either mode leaves of the messages |
| EraseClient.EntryRebuilds | frontend/src/context/PQCContext.jsx:820-840 | an entry of the manifest suffices to rebuild, field by field, the body the server will verify for its row |
| EraseClient.RedactionReads | backend/account_deletion.py:362-409 | what that body says, read as text, in terms of the stored row: sender, conversation, group, session, ts, seq, a digest of its keys, and "redacted=1" |
| EraseClient.ReadRound | frontend/src/context/PQCContext.jsx:801-818 | the paging loop reads the first 1000 entries of the manifest, or all of them, and none twice |
| EraseClient.SignRedactions | frontend/src/context/PQCContext.jsx:820-840 | every entry is signed, in order, or none if one cannot be spelled |
| EraseClient.SubmissionStands | backend/account_deletion.py:327-409 | what a client that holds its key submits for a row that is left is accepted if and only if a signature can be made for the row |
| EraseClient.RoundVerdict | backend/account_deletion.py:362-409 | a round read and signed by such a client is accepted if and only if all its rows are such rows |
| EraseClient.PrefixWhole | backend/account_deletion.py:380-403 | the run of such rows the manifest begins with is all of it if and only if every row left is one |
| EraseClient.FatesSettled | backend/account_deletion.py:269-289 | no round changes how many messages the final delete will count as deleted or kept |
| EraseClient.RunErase | frontend/src/context/PQCContext.jsx:900-941 | the loop against the endpoint itself: it ends in the summary if and only if a signature can be made for every row left and there are at most 50000, after max(1, ceil(C/1000)) requests, with nothing left to redact and the counts the erase began with; otherwise exactly the rounds before the first row without a signature have landed, 50 at most |
| Retention.PurgeExactly | backend/retention.py:52-92 | a row stays if and only if it is at most N days old, or a row of its table, sender and session is, and will be older within 48 hours; ages as numbers of microseconds |
| Retention.PurgeBounds | backend/retention.py:61-92 | in microseconds of age: nothing as young as N days goes, a row without a session goes exactly when it is older, and nothing outlives N days by more than the span its session covers |
| Retention.SessionsGoWhole | backend/retention.py:66-85 | rows of one session that span at most 48 hours go together or stay together |
| Retention.LongSessionLosesItsKey | backend/retention.py:68-85 | a session one microsecond longer can lose the row with its key and keep a later one |
| Retention.EvolvedKeepsSession | backend/retention.py:52-58 | a redaction moves no row between sessions or in time |
| Retention.RedactionCommutesWithPurge | backend/retention.py:52-85 | writing a round's verified redactions before or after a purge leaves the same rows |
| Retention.RoundCommutesWithPurge | backend/retention.py:52-85 | a whole round and a purge commute if and only if the round is refused anyway, or the purge spares all the rows it names, or none |
| Retention.StraddlingRound | backend/retention.py:68-85 | a round naming one row a purge takes and one it spares lands before the purge and is refused after it |
| Retention.CollectProtected | backend/retention.py:70-76 | the set comprehension collects the sessions with a row in the grace window |
| Retention.DeleteInBatches | backend/retention.py:86-89 | deleting in batches of 500 deletes exactly the listed rows |
| Retention.PurgeTable | backend/retention.py:67-90 | one table keeps exactly the rows that stay and the count is the number that went |
| Retention.BothTables | backend/retention.py:67-91 | purging one table after the other is purging both at once |
| MessageRuns.NoRunLosesAKey | backend/account_deletion.py:296-458 | over any interleaving of sends, rounds, deletes, teardowns and purges a row with a wrapped key stays, with its key, session, position, sender and conversation, unless its channel was torn down or a purge took it at its age |
| MessageRuns.RunEvolves | backend/account_deletion.py:296-324 | the row an id names stays one row over any run, and all it can lose is its ciphertext, to a redaction its author signed |
| MessageRuns.UnspellableRemains | backend/account_deletion.py:380-403 | over any run a redactable row no signature can be made for stays as it is, unless its channel is torn down or a purge takes it at its age |
| MessageRuns.GoneStaysGone | backend/security/authorization.py:455-458 | a deleted row never comes back under its id |
| MessageRuns.MessagesStayReadable | backend/retention.py:43-92 | with sessions spanning at most the grace and at most every retention period, each stored message has every key-bearing row of its session stored, unchanged |
| MessageRuns.NothingElseIsLost | backend/account_deletion.py:296-458 | over any run a stored message is still there, as itself or redacted by its author, unless its channel was torn down, a purge took it at its age, or, if it carries no key, its author erased it |
| MessageRuns.SendStores | backend/routers/groups.py:273-328 | a send stores its row beside those there are |
| Deliveries.DevicesConform | frontend/src/context/MessengerContext.jsx:180-198 | what devices that rotate their sessions send goes, session by session, to one place, stamped less than a day and the delivery delay apart |
| Deliveries.SentStaysReadable | backend/retention.py:43-92 | over any run of the tables fed by such devices, with a delay of at most a day, each stored message has every key-bearing row of its session stored beside it, unchanged |
| Deliveries.KeylessHasItsKey | frontend/src/context/MessengerContext.jsx:412-461 | over any such run a stored message without keys has a row of its session with a key stored beside it if and only if the send that minted the session got as far as the POST |
| ClientSessions.KeyIdInjective | frontend/src/context/messenger/sessionScope.js:14 | a cache key names one conversation and one session |
| ClientSessions.GateGroupMembers | frontend/src/context/MessengerContext.jsx:143-169 | the loop returns the members that pass and, for each of the others with a key, the first reason it fails |
| ClientSessions.GatePasses | frontend/src/context/MessengerContext.jsx:143-169 | only a member whose key is attested is wrapped to, and, but for oneself, only while that key is the one last confirmed |
| ClientSessions.GateSplits | frontend/src/context/MessengerContext.jsx:143-169 | members with a key are each either wrapped to or refused |
| ClientSessions.SafeSetDecides | frontend/src/context/MessengerContext.jsx:692-697 | equal set strings mean the same members under the same keys |
| ClientSessions.SafeSetForgetsOrder | frontend/src/context/MessengerContext.jsx:692-697 | the same members under the same keys give one set string, in whatever order they are listed |
| ClientSessions.WrapItems | frontend/src/context/MessengerContext.jsx:704-708 | the wrapped-key map holds exactly the gated (address, key) pairs |
| ClientSessions.WrapKeys | frontend/src/context/MessengerContext.jsx:704-708 | the loop fills in that map |
| SessionRuns.SessionsAreBounded | frontend/src/context/MessengerContext.jsx:181-184 | over any run no session carries more than 100 messages, and none is begun 24 hours or more after the session was |
| ClientSessions.Messenger.StartSession | frontend/src/context/MessengerContext.jsx:185 | a new session starts at sequence number 0 now |
| ClientSessions.Messenger.NextSeq | frontend/src/context/MessengerContext.jsx:186 | sequence numbers are handed out once each, in order |
| ClientSessions.Messenger.AbandonSession | frontend/src/context/MessengerContext.jsx:190-198 | a session whose opener failed is forgotten as the conversation's active one |
| ClientSessions.Messenger.InvalidateGroupSession | frontend/src/context/messenger/useMessageSessions.js:50-56 | invalidation drops the active session of one channel |
| ClientSessions.Messenger.AdoptSessions | frontend/src/context/messenger/useMessageSessions.js:118-144 | an adopted key never replaces a cached one and never becomes a send session |
| ClientSessions.Messenger.OpenGroup | frontend/src/context/MessengerContext.jsx:659-736 | the first half of a group send reuses a session or mints one exactly as the specification decides |
| ClientSessions.Messenger.OpenPartner | frontend/src/context/MessengerContext.jsx:412-447 | the first half of a direct send does the same for the two keys it is wrapped for, which WrappedForThePartner names |
| ClientSessions.Messenger.Answered | frontend/src/context/MessengerContext.jsx:738-747 | the second half abandons a session only when its opener was not delivered |
| SessionRuns.InvariantStep | frontend/src/context/MessengerContext.jsx:180-198 | every send begun, given up or answered, every invalidation and every adopted key keeps the client's records in agreement with what it sent |
| SessionRuns.EveryRunIsDisciplined | frontend/src/context/MessengerContext.jsx:171-198 | over any run sequence numbers in a session rise and stay below 100, a message without keys follows the send that minted its session less than 24 hours before it, under the same key and for the same recipients, and no session is minted twice |
| SessionReuse.NextFollowsExactly | frontend/src/context/MessengerContext.jsx:412-436 | after any run, the next message of a conversation goes out under the session of the one just ended, with the next number and no keys, if and only if the session's key was not lost in its POST, the recipients and their keys are the same, it has carried fewer than 100 messages and was begun less than 24 hours before; otherwise it starts a session of its own at number 0 with its keys |
| SessionReuse.SameWanted | frontend/src/context/MessengerContext.jsx:413-418 | two sends are recorded as wrapped for the same if and only if they are for the same people under the same keys |
| SessionReuse.DroppedMints | frontend/src/context/messenger/useMessageSessions.js:50-56 | after an invalidation the next message starts a new session |
| SessionReuse.LearningChangesNoSend | frontend/src/context/messenger/useMessageSessions.js:118-144 | over any run, adopting keys from history changes nothing about the message that is due |
| SessionReuse.AdoptedKeys | frontend/src/context/messenger/useMessageSessions.js:118-144 | which keys are held after an adoption, and that nothing else changes |
| SessionRuns.OpenedIffMintPosted | frontend/src/context/MessengerContext.jsx:412-461 | over any run the key of a message without keys was delivered before it if and only if the send that minted its session got as far as the POST |
| SessionRuns.DeclinedSignatureStrandsTheKey | frontend/src/context/MessengerContext.jsx:420-453 | two sends, the first given up at its signature: the second is delivered without keys under a key that was not |
| SessionRuns.WrappedForTheGatedSet | frontend/src/context/MessengerContext.jsx:659-747 | every group message goes out under a session minted for exactly the (address, key) pairs the gate passed at that send; an earlier message carried those wraps to the server if and only if the minting send got as far as the POST |
| SessionRuns.WrappedForThePartner | frontend/src/context/MessengerContext.jsx:412-461 | over any run every direct message goes out under a session whose key is wrapped, under "recip" for the partner's key at that very send, under "sender" for the sender's own exactly if there is one, and for nobody else; an earlier message carried those wraps to the server if and only if the minting send got as far as the POST |
| Wraps.AcceptedWrapNamesItsKey | backend/security/crypto_validation.py:264-302 | a wrap accepted for a key names that key and no other, and is not empty |
| WrapLaws.WrapExactly | backend/security/crypto_validation.py:253-292 | a wrap is accepted for a key if and only if it is an object with exactly the six fields of one of its two shapes, version 5, the suite's name and that key id, around encodings of 1185 bytes, of 12, and of 48 or more than 16 |
| Wraps.StaleWraps | backend/security/key_rotation.py:178-194 | the page is the slice of the stale rows, in order |
| WrapLaws.StaleExactly | backend/security/key_rotation.py:178-195 | a held wrap is stale if and only if it does not name the current key; one that names none is stale too |
| Wraps.FirstFault | backend/security/key_rotation.py:214-222 | a batch is accepted exactly if no item is at fault |
| Wraps.FaultlessIsAcceptable | backend/security/key_rotation.py:204-222 | that is exactly when every item names a held row and a wrap of the current key |
| Wraps.StaleAfterRewrap | backend/security/key_rotation.py:204-226 | an accepted batch takes exactly the rows it names off the stale list |
| Wraps.PageFromOffset | backend/security/key_rotation.py:178-194 | asking from past the unreadable rows hands out the first unseen stale ones |
| Wraps.RewrapStaleKeys | frontend/src/context/PQCContext.jsx:503-547 | the client's walk ends, is handed each stale wrap once and in order, and leaves stale exactly those it could not open |
| Rewraps.KeyedStep | backend/models.py:223-302 | every request keeps row ids unique and in order |
| Rewraps.RewrapRewritesHeld | backend/security/key_rotation.py:143-226 | an accepted batch rewrites the caller's held list in place and nothing else in it |
| Rewraps.HeldOnce | backend/security/key_rotation.py:143-175 | the held list names each row once |
| WrapLaws.HeldExactly | backend/security/key_rotation.py:143-175 | an account holds exactly the keys of its live grants, of its rows as a signer, and of its rows as a recipient of a workflow that is completed, or that it also owns or signs |
| WrapLaws.RewrapAsAsked | backend/security/key_rotation.py:204-226 | a batch is written whole if and only if every item names a row the caller holds with a wrap of the current key; otherwise nothing changes, and the answer is the first fault's |
| WrapLaws.NewWrapIsLast | backend/security/key_rotation.py:222-226 | a row gets the wrap of the last item that names it |
| WrapLaws.RewrapWrites | backend/security/key_rotation.py:222-226 | after a batch every row is where it was, with its new key or its own, and nothing else has changed |
| Vaults.ReadableIsCanRead | backend/security/authorization.py:364-415 | the listing query selects a workflow exactly if the single-workflow rule accepts it |
| Multisig.WhoCanRead | backend/security/authorization.py:171-195 | a workflow's secret is readable by its owner and signers, and by its recipients exactly once it is completed |
| Multisig.ListingAgrees | backend/security/authorization.py:364-415 | under the invariant the two reading rules agree on every workflow |
| Multisig.TallyVote | backend/routers/multisig.py:356-371 | one signer's approval raises the count by one |
| MultisigSteps.CountsAgree | backend/routers/multisig.py:356-371 | counting rows and counting ballots give the same quorum and the same tally |
| MultisigSteps.CreateWorkflowStep | backend/routers/multisig.py:71-141 | creating a workflow keeps the invariant and starts it uncompleted |
| MultisigSteps.SignStep | backend/routers/multisig.py:424-463 | a signature short of the quorum keeps the invariant and completes nothing |
| MultisigSteps.CompleteStep | backend/routers/multisig.py:424-463 | the completing signature keeps the invariant: quorum, verified approvals and a key for every recipient |
| MultisigSteps.RejectStep | backend/routers/multisig.py:497-511 | a rejection keeps the invariant |
| MultisigSteps.WithoutWorkflowsStep | backend/routers/multisig.py:541-565 | deleting uncompleted workflows disturbs no other |
| MultisigSteps.ShareStep | backend/routers/secrets.py:272-294 | sharing a secret no workflow manages disturbs no workflow |
| MultisigSteps.EraseStep | backend/account_deletion.py:538-617 | erasing an account keeps the invariant and every completed workflow |
| Releases.HandleStep | backend/routers/multisig.py:337-565 | every request, accepted or refused, keeps the invariant and does to each workflow only what a step may |
| Releases.RunEffect | backend/routers/multisig.py:398-565 | over any run a workflow leaves pending at most once, disappears only uncompleted, and once completed keeps everything |
| Releases.CompletedMeansQuorum | backend/routers/multisig.py:356-371 | in every reachable state a workflow is completed if and only if its quorum of distinct signers approved the ciphertext stored now |
| Releases.SealedUntilReleased | backend/security/authorization.py:155-195 | in every reachable state, until completion nobody but owner and signers can read the secret |
| Releases.ReleaseIsPermanent | backend/routers/multisig.py:285-353 | after completion the workflow, its secret, approvals and recipients stay, every recipient holds a key and every approval verifies |
| Releases.ReleasedApprovalsVerify | backend/routers/multisig.py:337-353 | the same, for the signature check the server makes over the stored ciphertext |
| Releases.RejectionIsFinal | backend/routers/multisig.py:506-511 | a rejected workflow is never completed |
| Releases.SignatureCounts | backend/routers/multisig.py:442-463 | an accepted signature casts the signer's ballot and no other, and completes exactly at the quorum |
| Releases.CompletionOpens | backend/routers/multisig.py:453-459 | a completing signature lets every recipient in, each with a key |
| Releases.ApprovalBinds | backend/auth.py:228-237 | an approval text fixes the workflow, the secret and the ciphertext digest |
| Releases.ApprovalTextReads | backend/auth.py:228-237 | the text a signer approves reads back as the workflow, the secret and the digest of the stored ciphertext |
| VaultLaws.WorkflowAsAsked | backend/routers/multisig.py:51-141 | which creations are accepted, the refusals of the others in order, and that an accepted one stores, beside everything there was, one pending workflow of the caller's with the threshold sent, over a new secret with the name and data sent; one row for each different signer with the key supplied for it, and one for each recipient with its key or none |
| VaultLaws.AdmissibleIsMayCreate | backend/routers/multisig.py:72-106 | in the words of the request: a threshold between one and the number of different signers, a key for every signer, and an active account for everyone named |
| WorkflowRuns.FixedRun | backend/routers/multisig.py:400-463 | over any run, as long as the workflow is there its threshold, its signers and its secret are those it was created with |
| WorkflowRuns.ReleasedAsAsked | backend/routers/multisig.py:51-463 | take any creation the server accepts and any requests after it: if the workflow is completed in the end, at least as many different addresses have approved it as the request asked for, each named in it as a signer, each by a signature over the ciphertext sent with it |
| VaultAccess.SecretCreated | backend/routers/secrets.py:91-141 | a new secret with the name and data sent, and the caller's grant to it, if there is room |
| VaultAccess.SecretEdited | backend/routers/secrets.py:204-230 | the owner, and nobody else, edits a secret no workflow manages; it then has the name and data sent; and the refusals in order |
| VaultAccess.SecretDeleted | backend/routers/secrets.py:235-251 | the same for a delete, which takes exactly the grants to that secret with it |
| VaultAccess.SecretShared | backend/routers/secrets.py:256-348 | the owner, and nobody else, opens a secret no workflow manages, to an active account other than its own; the grantee then has one grant, with the key and expiry sent, and no other grant changes; and the refusals in order |
| VaultAccess.GrantRevoked | backend/routers/secrets.py:353-389 | a grantee, or the owner of the secret, takes a grant away, and only that one; never the owner's own, nor one of a managed secret |
| VaultAccess.NothingToRevoke | backend/routers/secrets.py:353-389 | a revocation of no grant is a 404 and changes nothing |
| VaultAccess.GrantsPurged | backend/security/authorization.py:130-152 | exactly the expired grants of the secret and grantee asked about go |
| VaultAccess.SignDecided | backend/routers/multisig.py:400-463 | the answer to an approval, in order: no such workflow, not its signer, not pending, signed already, a signature that does not verify, keys too early or not one for each recipient, or accepted |
| VaultAccess.WorkflowSigned | backend/routers/multisig.py:442-463 | an accepted approval writes the caller's own row, and if it completes the workflow, the status and the recipients' keys as sent; nothing else |
| VaultAccess.WorkflowRejected | backend/routers/multisig.py:480-511 | a signer of a pending workflow may reject it, and is on record for it |
| VaultAccess.WorkflowDeleted | backend/routers/multisig.py:529-569 | the owner may delete a workflow that is not completed; exactly its rows, its secret and the grants to that go |
| VaultAccess.AccountErased | backend/account_deletion.py:538-593 | which workflows, approvals and recipient rows the end of an account takes, and that it takes no others |
| VaultAccess.SecretsErased | backend/account_deletion.py:538-617 | which secrets it takes: those of its workflows that are not completed, and its own that no other workflow manages |
| VaultAccess.GrantsErased | backend/account_deletion.py:596-617 | which grants it takes: those to such secrets, and those it held |
| VaultAccess.SecretsAreTheOwners | backend/security/authorization.py:198-216 | whatever is asked, a stored secret changes or goes only by its owner's edit or delete while no workflow manages it, by the owner's deletion of the uncompleted workflow it is in, or with the owner's account |
| VaultAccess.GrantsAreTheOwners | backend/security/authorization.py:198-248 | whatever is asked, a grant that was not there before is its maker's own on a secret made with it, one the owner shared, or the grantee's own with a new wrap |
| VaultAccess.ApprovalsAreTheSigners | backend/routers/multisig.py:400-463 | whatever is asked, an approval that was not there before is the caller's own, by the signature sent |
| Grants.GrantsStayUnique | backend/routers/secrets.py:329-348 | every request leaves at most one grant per secret and grantee |
| Grants.ShareOpens | backend/routers/secrets.py:284-294 | an accepted share lets the grantee in until exactly its expiry, whatever an earlier share said |
| Grants.RevokeCloses | backend/routers/secrets.py:362-381 | after an accepted revocation no grant is left serving the key |
| Grants.PurgeIsInvisible | backend/security/authorization.py:98-152 | deleting expired grants changes nobody's access from then on |
| Grants.OwnerKeepsGrant | backend/security/authorization.py:219-227 | the owner's own grant survives every share and every revocation |
| VaultStore.CountSigned | backend/routers/multisig.py:364-370 | the loop counts the signer rows that have signed |
| VaultStore.ReleaseRecipientKeys | backend/routers/multisig.py:285-334 | keys are attached exactly if none is for a stranger and no recipient is left without one |
| VaultStore.CheckItems | backend/security/key_rotation.py:213-222 | the loop answers with the first fault |
| VaultStore.Store.CreateSecretWithOwnerGrant | backend/routers/secrets.py:91-141 | a secret and its owner's grant are stored together if the quota has room, and neither if it has not |
| VaultStore.Store.UpdateSecret | backend/routers/secrets.py:204-230 | an edit and its refusals, in the order they are decided |
| VaultStore.Store.DeleteSecret | backend/routers/secrets.py:235-251 | a delete takes the grants with it, and is refused for a managed secret |
| VaultStore.Store.ShareSecret | backend/routers/secrets.py:256-294 | a share and its refusals, in the order they are decided |
| VaultStore.Store.UpsertGrant | backend/routers/secrets.py:329-348 | one grant per pair: created, or its wrap and expiry replaced |
| VaultStore.Store.RevokeGrant | backend/routers/secrets.py:353-389 | a revocation and its refusals |
| VaultStore.Store.PurgeExpiredGrants | backend/security/authorization.py:130-152 | exactly the expired grants in scope go, and the count is their number |
| VaultStore.Store.CreateMultisigWorkflow | backend/routers/multisig.py:51-141 | the method leaves what WorkflowAsAsked says of the request: normalization, the checks, and all the rows written |
| VaultStore.Store.IsCompletingSignature | backend/routers/multisig.py:356-371 | whether the signature about to be recorded reaches the quorum |
| VaultStore.Store.SignMultisigWorkflow | backend/routers/multisig.py:400-463 | a signature, its refusals, and the release it may complete |
| VaultStore.Store.RejectMultisigWorkflow | backend/routers/multisig.py:480-511 | a rejection and its refusals |
| VaultStore.Store.DeleteMultisigWorkflow | backend/routers/multisig.py:529-569 | a delete of a workflow that is not completed, with its rows and its secret |
| VaultStore.Store.EraseOwnedWorkflows | backend/account_deletion.py:538-593 | deleting one owned workflow after another in any order is deleting them all |
| VaultStore.Store.EraseOwnedSecrets | backend/account_deletion.py:596-617 | unmanaged secrets and held grants go |
| VaultStore.Store.RewrapKeys | backend/security/key_rotation.py:204-226 | every item is checked before any is written |
| Groups.Successor | backend/security/authorization.py:436-462 | the heir is an admin if there is one, else a longest-standing member |
| GroupLaws.HeirIsFirst | backend/security/authorization.py:460-462 | of several who could inherit it is the one listed first |
| Groups.SuccessionOk | backend/security/authorization.py:436-473 | when an owner leaves others behind the heir becomes the one owner |
| Groups.DepartOk | backend/routers/groups.py:472-489 | a departure deletes the channel exactly if the member was alone in it, and otherwise leaves it in order without them |
| Groups.HandleOk | backend/routers/groups.py:58-578 | every request keeps every channel in order |
| Groups.EveryRunInOrder | backend/models.py:371-392 | over any run each channel has one to fifty members, each once, and exactly one owner, the recorded one |
| Groups.OwnerOnlyLeaves | backend/security/authorization.py:308-326 | an accepted removal that takes the owner away was the owner's own |
| Groups.AdminsMadeByOwner | backend/security/authorization.py:299-305 | a member becomes an admin only by the owner's request |
| GroupLaws.GroupCreated | backend/routers/groups.py:58-119 | which channels are created, and the refusals in order: at most 50 different members, all active and with a key; a new one has the caller as owner, everyone named once as a plain member, and nobody else |
| GroupLaws.MemberAdded | backend/routers/groups.py:360-403 | an owner or an admin, and nobody else, adds an active account with a key to a channel of fewer than 50, as a plain member; and the refusals in order |
| GroupLaws.RoleChanged | backend/routers/groups.py:524-556 | the owner, and nobody else, makes and unmakes admins; that row changes, by its role alone |
| GroupLaws.MemberRemoved | backend/routers/groups.py:439-490 | anyone leaves, the owner removes anyone, an admin removes plain members; what the channel then looks like, row by row; and the refusals in order |
| GroupLaws.Departs | backend/security/authorization.py:436-473 | what a channel looks like without a member: gone if there was nobody else, and otherwise every other row as it was, with an heir as owner if the owner left |
| GroupLaws.AllLeft | backend/account_deletion.py:461-511 | leaving every group does that to each channel the address is in, and nothing to the others |
| GroupLaws.MembersComeByInvitation | backend/security/authorization.py:289-296 | whatever is asked, an address comes into a channel only by being named at its creation or added by its owner or an admin |
| GroupLaws.MembersGoByRight | backend/security/authorization.py:308-326 | whatever is asked, an address goes from a channel only by leaving, or by being removed by the owner, or as a plain member by an admin |
| Groups.LeaveAllIsLeavingEach | backend/account_deletion.py:461-511 | leaving every group is applying the leave endpoint to each, in any order |
| Groups.OrphanPassIdle | backend/account_deletion.py:513-535 | after that no channel still points at the leaver, so the second pass does nothing |
| Teardowns.EmptiedIffLastLeaves | backend/security/authorization.py:436-458 | a request deletes a channel if and only if its last member leaves it, by the endpoint or by leaving every group |
| Teardowns.StoredHasAMember | backend/routers/groups.py:284-296 | over any run of messages and membership together, every stored group message belongs to a channel with a member in it |
| Teardowns.KeysOutliveMembers | backend/account_deletion.py:296-458 | over any such run a stored row with a wrapped key stays, its envelope unchanged, unless the last member left its channel or a purge took it at its age |
| Teardowns.DepartureRows | backend/account_deletion.py:461-535 | the end of an account erase deletes its messages and then exactly the channels it was alone in |
| Groups.PickSuccessor | backend/security/authorization.py:460-462 | the search finds that heir |
| Groups.Store.CreateGroup | backend/routers/groups.py:58-119 | a channel with the caller as owner, or the refusal |
| Groups.Store.AddMember | backend/routers/groups.py:360-403 | a plain member added, or the refusal |
| Groups.Store.LeaveChannel | backend/security/authorization.py:436-473 | succession first, then every row of the leaver |
| Groups.Store.RemoveMember | backend/routers/groups.py:439-490 | a removal or a leave, or the refusal |
| Groups.Store.UpdateMemberRole | backend/routers/groups.py:524-556 | a promotion or a demotion, or the refusal |
| Groups.Store.LeaveAllGroups | backend/account_deletion.py:461-535 | both passes, in whatever order the memberships are read |
| Quota.InvStep | backend/security/quota.py:51-101 | every statement of every transaction, every load and every delete between them keeps the ceilings and what the open transactions have read; the character ceiling as long as no edit takes the lock after the columns it writes have shrunk |
| Quota.CeilingsHold | backend/routers/secrets.py:501-560 | in any interleaving no committed state has an owner over the count and no file decodes to more than 50 MiB; nor is an owner over the characters, if no edit takes the lock after the columns it writes have shrunk |
| Quota.EditSafeIff | backend/routers/secrets.py:214-227 | whatever text an edit writes to its columns, its check protects the ceiling if and only if those columns are together no shorter at the check than when it loaded them |
| Quota.EveryEditSafeIff | backend/routers/secrets.py:214-227 | the check protects the ceiling from every edit of what was loaded, whichever columns it writes, if and only if neither name nor data is shorter than it was loaded |
| Quota.LateEditBreaksTheCeiling | backend/routers/secrets.py:214-229 | two edits that load before either locks, and a secret created between them, leave an owner at twice the ceiling |
| Quota.UnwrittenColumnBreaksTheCeiling | backend/routers/secrets.py:214-229 | an edit that sends the name back as it loaded it leaves another edit's longer name in place: the owner ends at 29 of 20 although the secret grew between load and check |
| Quota.EditCommits | backend/routers/secrets.py:214-229 | an edit whose written columns are no shorter than it loaded them commits within the ceilings |
| Quota.DeleteShrinks | backend/security/quota.py:56-77 | a delete that takes no lock only lowers what is counted |
| Quota.SecretCommits | backend/routers/secrets.py:108-136 | a creation that checked under the lock commits within the ceilings |
| Quota.ChunkCommits | backend/routers/secrets.py:513-549 | an upload that checked under the lock commits within both its ceilings |
| Quota.BytesUnderChars | backend/routers/secrets.py:530-539 | three quarters of the stored characters never undercount the decoded bytes |
| QuotaLaws.Counts | backend/security/quota.py:56-92 | what is counted: nothing without rows; a new secret adds one and the characters of its name and data to its owner and nothing to others, a new chunk its characters to the owner of its secret and to that file |
| QuotaLaws.DeleteTakes | backend/routers/secrets.py:235-251 | a delete takes exactly the secrets it names and their chunks |
| QuotaLaws.CreationLands | backend/routers/secrets.py:108-136 | left to itself a creation commits if and only if there is room for one more secret and for its characters, and then adds that secret and nothing else |
| QuotaLaws.UploadLands | backend/routers/secrets.py:501-560 | left to itself an upload commits if and only if it is base64 for a secret of the caller's and there is room for it under both ceilings, the file's being 52428800 bytes; it adds that chunk, unless its index is taken |
| QuotaLaws.EditLandsExactly | backend/routers/secrets.py:204-230 | left to itself an edit commits if and only if it is no longer than what it loaded or there is room for what it adds; it writes the columns it changes and leaves the others |
| Identity.HandleInv | backend/routers/auth.py:314-372 | every request keeps published keys attested, rotations signed and names apart |
| Identity.InvRun | backend/models.py:123-164 | over any run a published key has its suite, its hash as id and a verifying attestation, or none of the four is there |
| Identity.OldTokensDie | backend/dependencies.py:89-112 | a token minted before a logout or a departure never authenticates again, a return included |
| Identity.ErasedForGood | backend/security/authorization.py:87-95 | an erased identity stays blocked: no token of its authenticates and no login brings it back |
| Identity.OneLoginPerChallenge | backend/routers/auth.py:87-117 | a login succeeds only on a live challenge, and after one attempt with it, whatever the answer, no later attempt over any run succeeds with it unless its nonce is issued again |
| Identity.ReturningName | backend/routers/auth.py:196-221 | in every reachable state a leaver who returns asking for no name is not refused one, and is back under the name they left with |
| Identity.NameKeptWhileAway | backend/account_deletion.py:646-663 | nothing anyone else does touches a departed account's row |
| Identity.RotationFollowsSignedEdge | backend/security/key_rotation.py:72-115 | an accepted rotation follows an edge out of the key the server held, signed by the identity, and is recorded as that edge |
| Identity.EdgeTextDecides | backend/auth.py:205-225 | one signed rotation text is one edge, so a recorded one moves nobody from another key |
| Identity.KeyMovesBySignature | backend/routers/auth.py:314-372 | a published key moves only by a login or a rotation its identity signed, or goes with a departure |
| Identity.RunLater | backend/account_deletion.py:666-675 | over any run a session version never falls and a block is never lifted |
| IdentityLaws.ChallengeIssued | backend/routers/auth.py:30-64 | an issued challenge is good for its address alone, until 300000 milliseconds later exactly; of the others the expired ones go |
| IdentityLaws.LoginAsAsked | backend/routers/auth.py:120-424 | which logins are accepted, what the others are answered in order, and what an accepted one writes: the one row and a token of its version; to an active account nothing but the key, and that only if another is sent; every attempt that answers a challenge spends it |
| IdentityLaws.ProvesIs | backend/routers/auth.py:120-193 | what a login must show: an identity key the address names, its signature over the challenge for this server, and for a new encryption key the identity's attestation |
| IdentityLaws.Admissions | backend/routers/auth.py:196-311 | the name somebody is admitted under, the refusals in order, and the row of a newcomer or a returner |
| IdentityLaws.LoginAuthenticates | backend/dependencies.py:89-112 | the token a login mints authenticates its account |
| IdentityLaws.SessionLasts | backend/dependencies.py:89-112 | and does so over any run in which the account neither logs out nor departs |
| IdentityLaws.LoggedOut | backend/routers/auth.py:429-451 | a logout changes the version alone, and ends every session of the account |
| IdentityLaws.Renamed | backend/routers/users.py:24-55 | a rename changes the caller's name alone, to a normalized one no other account holds; and the refusals in order |
| IdentityLaws.RotatedAsAsked | backend/security/key_rotation.py:72-115 | a rotation replaces the published key by a valid, different and attested one, within 600000 milliseconds of the server's clock, by a signature over the edge between the two key ids; the refusals in order; and the history with that edge added |
| IdentityLaws.Departed | backend/account_deletion.py:637-675 | what a departure leaves of the row in either mode, and which challenges and records go |
| IdentityStore.Store.IssueNonce | backend/routers/auth.py:43-64 | expired challenges go, and a new one is good for five minutes beside those there are |
| IdentityStore.Store.ClaimNonce | backend/routers/auth.py:107-117 | a challenge is won exactly if it is this address's and unexpired, and winning takes it |
| IdentityStore.Store.NameFor | backend/routers/auth.py:196-221 | the name claimed, or why it is refused |
| IdentityStore.Store.IsTaken | backend/security/usernames.py:140-150 | whether another account holds the name, case folded |
| IdentityStore.Store.AdmitUser | backend/routers/auth.py:237-311 | a registration or a return, and its refusals |
| IdentityStore.Store.UpsertIdentity | backend/routers/auth.py:314-372 | register, return, key change, backfill or plain login |
| IdentityStore.Store.LogIn | backend/routers/auth.py:414-424 | claim, verify, upsert, in that order |
| IdentityStore.Store.LogOut | backend/routers/auth.py:429-451 | a logout raises the session version by one |
| IdentityStore.Store.UpdateUser | backend/routers/users.py:24-55 | a rename, or why it is refused |
| IdentityStore.Store.RotateKey | backend/security/key_rotation.py:72-115 | a rotation, or why it is refused |
| IdentityStore.Store.StripIdentity | backend/account_deletion.py:637-675 | what a departure clears, keeps and raises |

## Left out

- Real cryptography, TLS, JWT encoding and expiry, HTTP routing, request parsing, rate limits, audit logs, push and WebSocket delivery: the code delegates or they carry no protocol state.
- Messages.ParseKey: reads ASCII digits only, where Python's `isdigit` also accepts other Unicode digits.
- Messages.Payload: a stored content is the fields the server reads out of it; that writing a redacted payload and parsing it again gives those fields back is taken for granted, and a field the server never reads is not kept.
- MessageStore.Store: direct and group messages are one sequence tagged by kind, updated as a value; aliasing of ORM rows is not modelled.
- MessageStore.Store.PerformDeletion: the group, workflow, secret and identity halves of a deletion are in Groups, Vaults and Identity; here the channels it empties are a parameter, which Teardowns ties to the groups; one transaction over all the halves is not assembled.
- MessageStore.Store.EraseConversation: the cap of 1000 redactions a request and the shape of its fields are request validation, refused before the handler; the same for PerformDeletion.
- EraseClient.RunErase: rate limits, failing requests and messages sent while it runs are not modelled; MessageRuns and FinishesIffSpellable cover sends in between on the server's side.
- Deliveries.SentStaysReadable: every account whose rows carry a session is taken to use devices that rotate as the client does; clocks that drift against each other are not modelled.
- ClientSessions.Messenger: React state is read at the moment of the send; a send that runs on state captured before the last invalidation is caught by the set comparison, and is not modelled apart. The trust store's verdicts are parameters.
- ClientSessions.Messenger.AdoptSessions: adoption is one step; in the source the adopted keys are merged after an await, so a key cached meanwhile under the same id is overwritten by the one from history, and a key minted meanwhile may be dropped from the cache.
- Wraps.IsWrappedKeyFor: a format version written as the fraction 5.0, which Python finds equal to 5, is not accepted here.
- Wraps.RewrapStaleKeys: no grant expires during the walk.
- File chunks of a vault secret are in Quota and are no request of Vaults. Uploading one does not ask whether a workflow manages the secret (`backend/routers/secrets.py:511`), so an owner can add chunks before or after approvals; an approval covers the workflow, the secret and the digest of the inline ciphertext, and no theorem here says more.
- Vaults.Request: keys and content are opaque texts; name lengths and the participant limit are request validation.
- Vaults.DoCreateWorkflow: the quota's verdict is a parameter; Quota proves what it guarantees.
- Groups.MembersToBe: members are listed in order of first mention, where the source iterates a set.
- Groups.World: adding a member takes no lock in the source, so two adds racing at 49 members could both land; requests are atomic here.
- Identity.Env: Unicode normalization, script checks and case folding are functions; that SQL and Python fold alike is assumed by using one.
- Identity.Admit: an invite is a yes or no in the request.
- Conversation hiding, invite minting, key transfer, push subscriptions, encrypted group names, migrations and build configuration: no protocol state worth a proof beyond what is here.
