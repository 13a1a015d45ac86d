# MiniVault, verified

A Dafny model of the stateful core of MiniVault and proofs of what it promises. The
server is modelled three times, each closer to the machine than the one before:

* as what a caller may expect, computed from earlier requests and answers only: every
  request of every kind has one theorem that gives its answer, refusals included
  (`VaultHistory`, `KvHistory`, `KeyHistory`, `DataHistory`, `LoginHistory`, `Logins`,
  `Gateway`), beside those about longer stretches of a run (`Tokens`, `Signatures`,
  `DekForLife`, `AuditTrail`, `NonInterference`, `GatewayPrivacy`);
* as a state machine over the real tables, row ids, wrapped keys, associated data, base64
  columns and the audit log (`World`, `VaultEngine`, `KvEngine`, `TransitEngine`, `Machine`),
  proved to answer like a plain abstract machine (`Ideal`, `Simulation`, `Refinement`);
* as the imperative objects of the program, with their fields, loops and buffers
  (`VaultState`, `KvService`, `TransitService`, `KvStore`, `KeyStore`, `AuditRepository`,
  `Accounts`), each method proved equal to the function of the state machine. `Server` puts
  the services over one vault, one audit log and one cipher, handles every request as the
  state machine does, and carries the whole-run theorems to the objects; `Gateway` puts
  logins and sessions in front of it.

Those theorems do not take the functions that do the work at their word. Where one speaks of texts,
it says what they are: characters come from written-out tables (`LowerMeans`, `StripMeans`,
`EncodeMeans`, `NameMeans`), a path, token, digest or passphrase is described part by part
(`AuthorizedMeans`, `ParseMeans`, `DigestMeans`, `PolicyMeans`), an audit row field by field
(`LogMeans`, `VerdictMeans`), and a lemma proves the function used by the objects equal to it.

`Transactions` runs the repositories statement by statement with any number of clients.
`Authenticity` lets an intruder rewrite every table between requests and run AES-GCM under keys
of its own; the running process, the stored vault configuration, the passphrase and the
server's keys are out of its reach. `AnyTables` says what each lookup answers on tables of
any content. `Lockout` bounds passphrase guesses.

How the outside world enters:

* AES-GCM is an ideal cipher: a ledger of everything ever sealed, and opening succeeds on a
  ledger entry only. The length guards and the cutting and joining of ciphertext and tag are
  the program's and are modelled exactly. Ed25519 is a set of accepted (public key, digest,
  signature) triples.
* SHA-256, Argon2id, key derivation and public-key computation are arbitrary functions. No
  theorem assumes that the hashes or the key derivation have no collisions; where one matters,
  the theorem hands it over as its alternative. Of signing keys the whole-run theorems do
  assume that different ones have different public keys of 32 bytes; encryption keys have none.
  Whether bytes decode as a JSON object is an arbitrary predicate too, which the payloads
  written meet.
* Nonces, ciphertext bodies, key material, session tokens and clock readings are inputs. The
  theorems over whole runs of the server require of them what chance gives: a nonce and key
  material never used before, and for a signing key a new public key (`LegalRun`), which holds
  as soon as those drawn in the run differ pairwise (`DistinctDrawsAreLegal`). The authenticity,
  audit, transaction, login and session theorems require nothing of the kind.

Where the code and its comments differ, the model follows the code:

* `src/audit/repository.py:72-77` says the stored head makes a deleted tail detectable. It is,
  until `log` is called again, which links to the last row left and overwrites the head
  (`HeadIsHealed`), and unless the whole table is emptied (`LimitsOfVerify`).
* `src/transit/ciphertext.py:39` prints any positive version, `src/transit/ciphertext.py:25`
  reads at most nine digits (`FormatParses`, `DecryptsExactlyWhen`).
* `src/transit/service.py:79-80` says a key row cannot be copied onto another key. That holds
  exactly for rows whose `signing_algorithm` column, which the schema leaves free, has no colon
  (`UnwrapIsAuthentic`). With one it fails: registration takes `ann@example.org` and
  `ann@example.org:n` (`src/api/auth_schemas.py:6`), and a row of the first can be made to open
  the second's key named `ENCRYPT_DECRYPT` (`ForeignMaterialUnwraps`).
* `src/core/vault.py:94-95` answers an empty passphrase with a corrupted-configuration error,
  because key derivation raises `ValueError` for it at `src/core/kdf.py:50-51`. Over HTTP the
  request schema refuses it first; `UnlockRestoresTheDek` speaks of a direct call of the service.

## Model

| member | source | states |
|---|---|---|
| Text.LowerMeans | src/auth/repository.py:13-15 | lower and upper case replace exactly the letters of two tables, letter for letter, and nothing else |
| Text.StripMeans | src/auth/repository.py:13-15 | trimming cuts exactly the longest margins of listed white-space characters off both ends |
| Text.NumeralMeans | src/transit/ciphertext.py:45 | a printed number has its decimal digits in their places |
| Base64.DecodeEncode | src/core/encoding.py:4-11 | decoding undoes encoding, for all byte strings |
| Base64.EncodeDecode | src/core/encoding.py:4-11 | an accepted text prints back to itself exactly when its pad bits are zero (section 3.5 of RFC 4648) |
| Base64.EncodeShape | src/core/encoding.py:4-5 | printed base64 is whole quads and never holds a colon |
| Base64.EncodeMeans | src/core/encoding.py:4-5 | printed base64 is the coding of section 4 of RFC 4648: letters of its table, every three bytes as one number of 24 bits, the tail filled with zero bits and pads |
| Base64.DecodeAccepts | src/core/encoding.py:8-11 | exactly whole quads of letters with at most two pads at the end are decoded, into three bytes for four letters |
| Base64.DecodeMeans | src/core/encoding.py:8-11 | each decoded quad stands for its three bytes, pad bits dropped |
| Crypto.EncryptedOpens | src/core/crypto.py:23-46 | what was encrypted, split into ciphertext and tag and joined again, opens to its plaintext for as long as the ledger grows |
| Crypto.ColumnsOpen | src/kv/service.py:78-104 | storing a blob as base64 columns and reading it back changes nothing about how it decrypts |
| Crypto.OpenedWasSealed | src/core/crypto.py:35-46 | whatever opens was sealed under exactly that key, associated data and nonce |
| Crypto.LengthsChecked | src/core/crypto.py:23-46 | keys of other than 32 bytes, nonces of other than 12 and tags of other than 16 are refused, and nothing else is |
| TransitToken.FormatParses | src/transit/ciphertext.py:36-85 | parsing a printed token gives back name, version and blob for every valid name (`v2` too) and every version of at most nine digits, and refuses every longer version |
| TransitToken.FormatInjective | src/transit/ciphertext.py:36-45 | two equal prints, in either framing and for every version the printer takes, are prints of the same name, version and blob |
| TransitToken.ParseAccepts | src/transit/ciphertext.py:48-85 | whatever is accepted has a valid name, a version in range, a 12-byte nonce and a 16-byte tag |
| TransitToken.ParseNormalises | src/transit/ciphertext.py:48-85 | printing what was parsed and parsing again gives the same result |
| TransitToken.ParsePrints | src/transit/ciphertext.py:48-85 | printing what was parsed gives the very text exactly when it has no explicit `v1` segment and zero pad bits |
| TransitToken.NameMeans | src/transit/ciphertext.py:24 | valid names are one to sixty-four characters of a written-out table |
| TransitToken.ParseMeans | src/transit/ciphertext.py:48-85 | exactly the texts `vault:name:payload` and `vault:vN:name:payload`, with N up to nine digits and a payload of at least 28 bytes, are read, each as the name, version, nonce, body and tag it spells |
| TransitToken.FormatMeans | src/transit/ciphertext.py:36-45 | the text printed for every valid name and positive version, and no other is printed |
| KvPaths.AuthorizedMeans | src/kv/service.py:38-51 | a requester is let in exactly when the path is `secret/`, a segment without a slash that is the requester once trimmed and put in lower case, a slash, and something behind it |
| KvPaths.OneOwner | src/kv/paths.py:4-11 | no path lets in two requesters |
| KvPaths.OwnPaths | src/kv/paths.py:4-11 | a normal email owns the paths below `secret/<email>/` exactly when it has no slash, and otherwise none at all |
| Aad.KvAadInjective | src/kv/service.py:54-61 | the KV associated data determines owner, path and version over all authorised pairs, colons included |
| Aad.DataAadInjective | src/transit/service.py:87-89 | the ciphertext associated data determines owner, key name and version |
| Aad.KeyAadInjective | src/transit/service.py:69-85 | the key associated data determines owner, name, usage, version and the printed algorithm when the parts after the owner hold no colon |
| Aad.AadKindsDisjoint | src/transit/service.py:69-89 | the four kinds of associated data never coincide |
| Aad.AadTexts | src/transit/service.py:69-89 | the three associated texts written out |
| AuditEntry.CanonicalInjective | src/audit/chain.py:47-53 | equal canonical JSON texts come from equal entries, for all strings with quotes, backslashes and control characters and a nullable requester |
| AuditEntry.PreimageInjective | src/audit/chain.py:54 | the hashed text determines the previous hash and all seven fields, whatever the previous hash looks like |
| AuditEntry.CanonicalMeans | src/audit/chain.py:47-53 | the hashed text is the compact JSON object of the entry, keys sorted, a missing requester as null |
| AuditEntry.UnescapeEscape | src/audit/chain.py:48-53 | a JSON reader (section 7 of RFC 8259) finds in an escaped string the string it was |
| AuditEntry.EscapeShape | src/audit/chain.py:48-53 | only quotes, backslashes and control characters are escaped, in the short form where there is one |
| AuditChain.VerifyChain | src/audit/chain.py:58-115 | the loop reports the least failing row with its first failing check in the order sequence, previous hash, entry hash, a head mismatch only when every row chains, and success otherwise |
| AuditChain.DiagnosisIsUnique | src/audit/chain.py:68-115 | exactly one verdict meets that description, for every table and expected head |
| AuditChain.GenuineChains | src/audit/repository.py:35-77 | a log any sequence of calls built has one row a call, chains, and ends in the stored head |
| AuditChain.TamperEvident | src/audit/repository.py:103-112 | any non-empty table `verify` accepts against the head of a genuine log equals that log in every field and hash, or two different hashed texts with the same hash are at hand |
| AuditChain.VerifyAccepts | src/audit/repository.py:103-112 | `verify` accepts exactly the chaining tables whose last hash is the stored head, the empty table, and any chaining table while no head is stored |
| AuditChain.LimitsOfVerify | src/audit/repository.py:109-112 | an emptied table is accepted, and so are rows forged before anything was logged |
| AuditChain.NoHealing | src/audit/repository.py:35-77 | a row-level fault is reported unchanged after any number of later calls |
| AuditChain.HeadIsHealed | src/audit/repository.py:36-77 | after one more call `verify` accepts exactly the tables whose own rows chain, so truncation is then unseen |
| AuditChain.LogMeans | src/audit/repository.py:20-77 | row k of a log is the k-th call with all its fields, links to sixty-four zeros or the hash before it, and is hashed over link, bar and text; the stored head is the last hash |
| AuditChain.VerdictMeans | src/audit/chain.py:58-115 | the verdict check by check: the first row out of number, not linked or not hashed is blamed with the first of these reasons, and only then the stored head is compared |
| AuditRepository.Repository.Append | src/audit/repository.py:20-77 | one transaction links the new row to the last one and replaces the stored head |
| AuditRepository.Repository.Verify | src/audit/repository.py:103-112 | the verdict is the diagnosis of the stored rows, and it is valid exactly within the stated limits |
| AuditTrail.TrailIsExact | src/kv/service.py:38-51 | in every run the audit log holds one row for each refused KV path or missing or foreign key, in order, with the caller, `ACCESS_DENIED`, the kind, the path or name, `DENIED` and the request's clock, nothing else, and it verifies |
| AuditTrail.StrangersAreRefused | src/kv/service.py:38-51 | in every run a key-value request for somebody else's path is refused and leaves one audit row with caller and path and nothing else; its owner's is never so refused and leaves none |
| VersionedTables.PutKeepsConsistent | src/storage/database.py:45-96 | on tables with distinct ids, versions 1..latest and no orphans an insertion never violates a constraint and leaves them so |
| VersionedTables.RemoveKeepsConsistent | src/storage/database.py:55-96 | a deletion and its cascade leave them so |
| VersionedTables.ListIsContiguous | src/transit/repository.py:113-121 | the versions listed for a record or key are exactly 1, 2, .., latest |
| KvStore.KvRepository.AppendVersion | src/kv/repository.py:23-71 | the transaction allots the next version, then encrypts for it, then inserts it; a failure of either rolls everything back |
| KvStore.KvRepository.DeleteRecord | src/kv/repository.py:108-115 | the record goes with all its versions; the result says whether there was one |
| KeyStore.NamedKeyRepository.CreateKey | src/transit/repository.py:25-53 | a taken name is refused before anything is wrapped; otherwise version 1 is wrapped and stored with its key, or both are rolled back |
| KeyStore.NamedKeyRepository.RotateKey | src/transit/repository.py:55-79 | the next version is wrapped, inserted and pointed at, older ones stay; an unknown name or a failure changes nothing |
| KeyStore.NamedKeyRepository.InsertVersion | src/transit/repository.py:81-97 | the material is wrapped for this very version and inserted unless the version exists |
| KeyStore.NamedKeyRepository.DeleteKey | src/transit/repository.py:132-144 | the key goes with all its versions |
| KvService.Service.Authorize | src/kv/service.py:38-51 | allowed exactly for the owner of the path as described above; any refusal is logged once, written out |
| KvService.Service.Write | src/kv/service.py:71-82 | the whole server state after a write and the answer are those of the KV state machine: authorise, unlocked, and inside one transaction allot, encrypt, insert |
| KvService.Service.Read | src/kv/service.py:84-115 | the same for reading one version, with its refusals in order |
| KvService.Service.Versions | src/kv/service.py:117-131 | the same for listing the history |
| KvService.Service.Delete | src/kv/service.py:133-137 | the same for deleting a path |
| TransitService.Service.OwnedKey | src/transit/service.py:91-102 | a bad name is refused silently, a missing or foreign key alike, with one audit entry, written out |
| TransitService.Service.Unwrap | src/transit/service.py:104-129 | a missing version, a row that does not open and the material are told apart as the state machine does |
| TransitService.Service.CreateKey | src/transit/service.py:178-191 | the whole server state after creating an encryption key and the answer are those of the state machine |
| TransitService.Service.CreateSigningKey | src/transit/service.py:193-209 | the same for a signing key, the algorithm checked before the vault state |
| TransitService.Service.RotateKey | src/transit/service.py:211-227 | the same for rotation |
| TransitService.Service.ListKeys | src/transit/service.py:229-232 | the same for listing the caller's keys in the order of their names |
| TransitService.Service.DeleteKey | src/transit/service.py:234-240 | the same for revocation |
| TransitService.Service.EncryptData | src/transit/service.py:244-265 | the same for encryption under the newest version |
| TransitService.Service.DecryptData | src/transit/service.py:267-289 | the same for decryption, framing validated before any key is looked up |
| TransitService.Service.Sign | src/transit/service.py:293-323 | the same for signing; what is signed is given by `Signatures.DigestMeans` and `DataHistory.SignIsAnswered` |
| TransitService.Service.MatchNewest | src/transit/service.py:366-381 | the newest-first loop stops at the last listed candidate whose stored public key accepts, and at none exactly when none does |
| TransitService.Service.VerifySignature | src/transit/service.py:325-383 | the same for verification, pinned or not; what a verdict means is given by `Signatures.ValidMeansSigned` and `DataHistory.VerifyIsAnswered` |
| VaultState.State.SetDek | src/core/state.py:18-23 | a DEK of 32 bytes goes into a new buffer and the old buffer is zeroed; any other length changes nothing; no copy handed out is touched |
| VaultState.State.GetDek | src/core/state.py:25-29 | the caller gets a fresh copy that is none of the buffers ever used |
| VaultState.State.ClearWithoutLock | src/core/state.py:35-39 | the loop leaves the buffer all zeros, byte by byte in place, before it is dropped |
| VaultState.State.Lock | src/core/state.py:31-33 | no DEK is held, every buffer that ever held one is all zeros, and every copy handed out is intact |
| VaultState.Service.Initialize | src/core/vault.py:33-62 | configuration, ledger, DEK holder and answer are those of the vault state machine |
| VaultState.Service.Unlock | src/core/vault.py:64-99 | the same for unlocking, which locks first |
| VaultState.Service.Lock | src/core/vault.py:101-103 | the same for locking |
| VaultState.Service.Status | src/core/vault.py:111-117 | the status tells initialised and unlocked |
| Server.Server.Handle | main.py:70-95 | one server object over the shared vault, tables, audit log and cipher answers each of the seventeen requests, and moves, as the state machine does |
| Server.Serve | main.py:64-114 | a new server given any requests answers as the run of the state machine; its audit log is exactly the refusals and verifies, its vault is open exactly when the last unlock stands, and its key-value answers follow from the values acknowledged |
| VaultHistory.InitializeIsAnswered | src/core/vault.py:33-62 | initialisation, exactly: refused once the vault is made, then for a weak passphrase, then when no key can be derived, otherwise a made and locked vault |
| VaultHistory.UnlockIsAnswered | src/core/vault.py:64-99 | unlocking, exactly: refused while there is no vault, otherwise decided by passphrase, salt and parameters of the one initialisation |
| VaultHistory.LockIsAnswered | src/core/vault.py:101-117 | locking, exactly: it tells whether there is a vault and drops the DEK and nothing else |
| VaultHistory.ConfigForLife | src/core/vault.py:45-60 | the stored version, derivation name, salt and parameters are those of the initialisation in every continuation |
| DekForLife.OneDekForLife | src/core/vault.py:33-117 | from the first successful initialisation, in every run, the DEK in memory is the one generated then or none |
| DekForLife.UnlockRestoresTheDek | src/core/vault.py:64-99 | every later unlock is decided by the stored salt and parameters, whatever the settings are now: it loads exactly that DEK, or fails with the stated error and leaves the vault locked even if it was open |
| DekForLife.RightPassphraseUnlocks | src/core/vault.py:64-99 | the passphrase of the initialisation always brings the DEK back |
| DekForLife.SecondInitializeRefused | src/core/vault.py:33-35 | a second initialisation is refused and changes nothing |
| DekForLife.OpenExactlyWhenUnlocked | src/core/vault.py:64-117 | the DEK is in memory exactly when the last unlock succeeded and nothing locked or restarted the server since |
| LegalRuns.DistinctDrawsAreLegal | src/core/crypto.py:23-32 | every run whose requests draw pairwise different nonces and key material, and whose signing keys have pairwise different public keys, meets the freshness the whole-run theorems require |
| Refinement.StepRefines | src/transit/service.py:178-383 | one request on any state that represents an ideal one gets the ideal answer and leaves a state that represents the ideal result |
| Refinement.AnswersAreIdeal | src/kv/service.py:71-137 | over every run each answer of tables, ids, wrapped keys and ciphertext is that of plain maps from owner and name to sequences |
| KvHistory.KvAnswersFromHistory | src/kv/service.py:71-137 | in every run a write of the path's owner appends and returns the new length, a read gives the last or the N-th value, a listing 1..n, a delete forgets everything, and every refusal comes in the code's order |
| KeyHistory.KeyAnswersFromHistory | src/transit/service.py:178-240 | in every run creating, rotating and revoking are answered from that key's own life since it was last revoked, versions 1..n |
| Names.BeforeMeans | src/transit/repository.py:123-130 | names are listed by the first character in which they differ, a beginning before its continuations |
| KeyHistory.ListsTheLiving | src/transit/service.py:229-232 | a listing names exactly the caller's living keys in the order of their names, each with its metadata |
| KeyHistory.NewestIsUsed | src/transit/service.py:252-263 | encrypting and signing use the newest version at the time, of a key of the right usage |
| DataHistory.EncryptIsAnswered | src/transit/service.py:244-265 | encryption, exactly: refused for the name, the key, its usage, the vault and the payload, in this order, otherwise the token, written out, under the newest version |
| DataHistory.DecryptIsAnswered | src/transit/service.py:267-289 | decryption, exactly: a text that frames no token is malformed; a framed one is refused for the key, its usage, the vault and the version, in this order, and otherwise opens to what the run sealed as this ciphertext under this key and version and has not revoked since, or is tampered |
| DataHistory.SignIsAnswered | src/transit/service.py:293-323 | signing, exactly: refused for the name, the key, its usage, the algorithm, the vault and the message, in this order, otherwise the signature under the newest version |
| DataHistory.VerifyIsAnswered | src/transit/service.py:325-383 | verification, exactly: refused as signing is, then for a pinned version the key does not have, otherwise the right verdict |
| NonInterference.OwnersDoNotInterfere | src/transit/service.py:91-102 | two runs that agree on a user's own requests and the vault steps give that user identical answers, errors included |
| Tokens.TokensOutliveRotation | src/transit/service.py:211-289 | a token returned at version N decrypts to its plaintext with version N in every continuation in which the vault is open and its key is not revoked, for N of at most nine digits; longer ones are refused as malformed |
| Tokens.RevocationIsFinal | src/transit/service.py:234-240 | once the key was revoked its earlier tokens never decrypt again, for anybody, though the name be created and rotated anew |
| Tokens.TokensOpenForTheirOwner | src/transit/service.py:267-289 | nobody but its owner ever decrypts a token |
| Tokens.DecryptsExactlyWhen | src/transit/service.py:244-289 | presenting a token succeeds if and only if the vault is open, the caller is its owner, the key was not revoked in between and its version has at most nine digits |
| Signatures.DigestMeans | src/transit/service.py:409-419 | the digest of a RAW message is the SHA-256 of its bytes, of a DIGEST of 32 bytes those bytes; bad base64, an unknown type and a wrong length are refused exactly then, in this order |
| Signatures.ValidMeansSigned | src/transit/service.py:325-383 | behind every valid verdict is an earlier request that made this signature with this key under the version reported, unrevoked since, over the same message, or over one that collides with it under SHA-256, which is handed over |
| Signatures.SignaturesOutliveRotation | src/transit/service.py:293-383 | a signature verifies in every continuation without revocation, is never attributed to an older version than its own, and matches its own when pinned |
| Signatures.VerifyTellsTheTruth | src/transit/service.py:346-383 | the verdict is exactly what the run signed: the greatest version that made this signature over the digest of the message, none exactly when none did, and the pinned version alone when pinned |
| RefineData.AcceptsMatches | src/transit/service.py:369-379 | in every state that represents an abstract one, a stored public key accepts exactly the signatures made with its own material |
| Signatures.RawIsDigest | src/transit/service.py:409-420 | a RAW message and the DIGEST of its SHA-256 are the same message |
| Authenticity.LedgerHasProvenance | src/core/crypto.py:23-46 | whatever the tables are rewritten to, each box ever sealed was sealed by a request of the run under the associated data of that request, or by the intruder itself |
| Authenticity.VaultIsKnown | src/core/vault.py:64-99 | under the same intruder the DEK in memory is always one an initialisation generated, and the configuration one it wrote |
| Authenticity.SecretBoxIsSealed | src/core/crypto.py:35-46 | a box under a DEK or key material of the server was sealed by a request, never by the intruder |
| Authenticity.ReadsAreAuthentic | src/kv/service.py:84-115 | with all tables and the log rewritten at will and any encryptions of the intruder under other keys, a read returns only a value once written at exactly that owner, path and version |
| Authenticity.UnwrapIsAuthentic | src/transit/service.py:110-129 | likewise what unwraps was sealed under the row's associated data, and by a request that minted it for exactly that owner, name, usage and version if and only if the row's algorithm column holds no colon |
| Authenticity.DecryptsAreAuthentic | src/transit/service.py:267-289 | likewise decryption returns only what the caller once encrypted under exactly that name and version |
| AnyTables.ReadOnAnyTables | src/kv/service.py:84-115 | on tables of any content a row that opens under owner, path and version to a JSON object is given, a missing one is not found, and every other is refused as tampered |
| AnyTables.UnwrapOnAnyTables | src/transit/service.py:104-129 | on tables of any content a key version is missing, or opens under owner, name, usage, algorithm and version, or is tampered |
| AnyTables.UseOnAnyTables | src/transit/service.py:252-265 | on tables of any content encrypting and signing need the newest row to be there and to unwrap to 32 bytes, and are refused as what is wrong |
| AnyTables.DecryptOnAnyTables | src/transit/service.py:267-289 | on tables of any content a token opens exactly when its version's row unwraps and the token's bytes open under the material, and is refused as what is wrong |
| AnyTables.MatchOnAnyTables | src/transit/service.py:363-381 | on tables of any content the version matched is the last candidate whose stored public key accepts, none exactly when none does |
| AnyTables.UnlockOnAnyConfig | src/core/vault.py:64-99 | on a configuration of any content unlocking tells a corrupted one from a wrong passphrase, and loads exactly the 32 bytes it opens to |
| ForeignRow.ForeignMaterialUnwraps | src/transit/service.py:78-85 | in a run with two registered owners one rewritten row of the first opens the material minted for the second, and nothing was ever minted for the first |
| ForeignRow.OwnersAreNormal | src/auth/repository.py:13-15 | both owners of that run are emails as the users table keeps them |
| Passphrase.HasLongRun | src/core/passphrase.py:87-93 | the loop finds a run exactly when some character stands four times in a row |
| Passphrase.StrongMeans | src/core/passphrase.py:47-80 | a passphrase passes exactly when it is long enough, not padded, of three classes, without a run and without a common word |
| Passphrase.PolicyMeans | src/core/passphrase.py:20-80 | the policy in full: twelve characters, no white space at the ends, three of four kinds by their tables, no character four times in a row, none of the eight words in any case |
| Passphrase.EvaluateMeans | src/core/passphrase.py:47-84 | the issue reported is the first rule broken, in the order length, white space, kinds, repetition, words |
| Gateway.RunSplits | main.py:64-114 | a run of the whole service is the run of its accounts beside the run of its server on the requests that got through |
| Gateway.CallsActForTheGrantee | src/auth/dependencies.py:27-47 | a call with a bearer token is answered as its own request with the user replaced by the one whose login was given a token of that hash, not logged out since and not expired; without such a login it is refused and changes nothing |
| Gateway.EveryServedRequest | main.py:64-114 | every request the server ever got has a call behind it: a vault call, or a user call whose user is replaced by the bearer of its token |
| Gateway.AccountCallsAnswer | src/api/auth_routes.py:16-37 | registration and login are answered as those account requests after the ones so far; a logout needs a valid token, and none of them reaches the server |
| GatewayPrivacy.CallersDoNotInterfere | src/auth/dependencies.py:27-47 | two runs of calls that agree on one user's registrations, logins, logouts, calls and the vault calls give that user the same outcomes, logins and refusals included |
| Gateway.WrittenUserIsIgnored | src/api/kv_routes.py:22-32 | the user a caller writes into a request changes nothing |
| Gateway.Service.Handle | main.py:70-114 | the service object over accounts and server answers and moves as that joint machine, of which the theorems above speak |
| Transactions.StaysOnTrack | src/kv/repository.py:34-69 | every statement of the log, write, create, rotate and delete programs leaves its client's copy at what the program makes of the committed database |
| Transactions.RunSerialized | src/storage/database.py:181-204 | for any number of clients, any interleaving of their statements and any aborts, the committed database is the committed transactions run whole, one after the other |
| Transactions.CommitsWhatWasAsked | src/storage/database.py:181-204 | a finished client's commit adds exactly the transaction it asked for to the committed database and frees the lock; no other event changes what is committed |
| Transactions.EveryStatementAdvances | src/kv/repository.py:34-69 | the holder of the lock is done after at most three statements |
| Transactions.AuditNeverForks | src/audit/repository.py:35-77 | every committed audit log has sequences 1..n in one chain ending in the stored head, holds exactly the committed entries in commit order, and verifies |
| Transactions.VersionsNeverSkip | src/kv/repository.py:34-69 | every committed record and key has versions exactly 1..latest and there are no orphan rows |
| Transactions.VersionsAreCounted | src/kv/repository.py:34-69 | every committed record has as many versions as writes were committed since its deletion, and every key as many as its creation and rotations since it was revoked |
| Transactions.TransactionsGoThrough | src/storage/database.py:181-204 | whenever the lock is free, a new client's job, submitted, begun and executed, is committed as asked, but for the creation of a taken name |
| Transactions.RowsHoldTheirVersion | src/kv/repository.py:26-69 | every committed version row of every record and key holds what a committed job of that very record or key encrypted for that very version |
| Transactions.OnlyDuplicateNamesFail | src/transit/repository.py:35-50 | the only statement a constraint ever refuses is creating a key whose name its owner has |
| Lockout.AlwaysSound | src/auth/service.py:80-88 | the failure count stays between 0 and the limit and the lock is set exactly at the limit |
| Lockout.GuessBound | src/auth/service.py:50-88 | from any account state, in a window of length D without a success at most max * (D div lockout + 1) passphrases are checked |
| Lockout.GuessBoundIsReached | src/auth/service.py:50-88 | the bound is exact for windows of every length: some attempts on an account with a clean counter are checked that often |
| Logins.LoginGuessBound | src/auth/service.py:50-88 | the same bound for one user of the whole service, after any run and among any other requests |
| Logins.IdentifiesTheGrantee | src/auth/dependencies.py:27-47 | a bearer token identifies a caller exactly when a login was given a token of its hash, not logged out since and not expired, and the caller is the user who logged in |
| Logins.AcceptedOrCollision | src/auth/dependencies.py:27-47 | an accepted token was given to that very user, or two different tokens have one hash |
| Logins.LogoutIsFinal | src/auth/service.py:77-78 | a token once accepted and then logged out is never accepted again |
| LoginHistory.LoginIsAnswered | src/auth/service.py:50-75 | login, exactly: an unknown email and a wrong passphrase as invalid, locked while the lock runs, and the right passphrase with its token and an expiry one lifetime on, unless the token's hash was given out before |
| LoginHistory.RightPassphraseLogsIn | src/auth/service.py:67-75 | after any number of wrong ones, when the account is not locked, a passphrase that fits the registered hash logs in and leaves no failure counted and no lock |
| LoginHistory.TableIsStandings | src/auth/repository.py:22-59 | hash, failures in a row and lock of every registered email, computed from requests and answers, are those of the table |
| LoginHistory.RegisterIsAnswered | src/auth/service.py:38-48 | registration, exactly: refused for a mismatch, a weak passphrase and an email registered before, in this order, otherwise done with the hash given |
| LoginHistory.LogoutIsAnswered | src/auth/service.py:77-78 | logging out always succeeds, its token is refused from then on, and tokens of other hashes stand for whom they stood |
| Accounts.UserRepository.Create | src/auth/repository.py:22-41 | a new email gets the next id and a clean account; a known one is refused |
| Accounts.SessionRepository.Create | src/auth/session_repository.py:12-21 | one session a token hash, ever |
| Accounts.SessionRepository.RevokeSession | src/auth/session_repository.py:35-42 | an active session is marked revoked; nothing else changes |
| Accounts.AuthService.Register | src/auth/service.py:38-48 | registration refuses a mismatch, a weak passphrase and a known email, in that order |
| Accounts.AuthService.Login | src/auth/service.py:50-75 | the step-by-step login over the tables is one attempt of the lockout machine, followed on success by a session; `LoginHistory.LoginIsAnswered` says what its answers are |
| Accounts.AuthService.RegisterFailedAttempt | src/auth/service.py:80-88 | one more failure is counted, and at the limit the lock is set from the clock |
| Accounts.AuthService.Logout | src/auth/service.py:77-78 | the session of that token is revoked |

## Left out

- HTTP itself, the bearer scheme, request validation models and error-to-status mapping; calls carry their credentials and are answered with a result or an error kind. A restart is the lock the start-up code performs.
- SQL text, SQLite paging and busy timeouts, legacy-schema detection, and the file handling of the configuration store: tables are maps with the schema's constraints, the configuration is one optional cell. A busy timeout is an abort in `Transactions`.
- The insides of AES-GCM, Ed25519, Argon2id and SHA-256, and the strength of passphrases and of the random source.
- The JSON text of KV payloads: a value is its bytes, and whether they parse is a predicate. Escaping is modelled for audit entries only.
- UTF-8: strings are character sequences. Lower and upper case are those of ASCII; white space is all that `str.strip` removes.
- Excess `=` after whole base64 quads is refused; Python's strict decoder is version-dependent there.
- Reading one user's own audit entries (`list_for_requester`), and the code a refused passphrase is reported with.
- Concurrency inside `login`, whose reads and writes are several transactions, and inside `AuditRepository.verify`, which reads rows and head separately: each is one step.
- Concurrency between a service call and a lock or restart: a request of the state machine is one step; only the repository transactions are interleaved.
- The mutual exclusion of the DEK holder's own thread lock: its methods run one at a time.
- Public keys are taken as the service stored them in the signing theorems: `public_key_b64` is not covered by any associated data, so `Authenticity` says nothing about `verify`.
- Authenticity.UnwrapIsAuthentic: takes the usage column as one of its two values, to which the schema holds it; the algorithm column is unconstrained.
- Tokens.TokensOutliveRotation: the plaintext is compared as bytes and comes back as canonical base64, as the service encodes it.
- Signatures.VerifyTellsTheTruth: speaks of runs with fresh key material and of rows the service wrote; signature bytes are inputs, so the same bytes may be accepted under two versions and the greatest is reported.
- Logins.LoginGuessBound: one user's logins come one after the other, with the limits constant; other requests may come at any time.
- GatewayPrivacy.CallersDoNotInterfere: assumes that the tokens drawn for one user's logins hash apart from those drawn for anybody else's.
- An intruder who replaces the stored configuration, or who knows a DEK or key material of the server, is outside `Authenticity`.
- Authenticity.ReadsAreAuthentic: a write whose row a tampered table refused counts as a write, since its ciphertext was made.
- Timing equalisation for unknown users, environment settings, sample generation and the batch files.
