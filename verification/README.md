# PassValet: verified models

PassValet is a local vault for API keys with an agent that collects keys through the browser. This project models
the parts of it whose correctness is hard to see from any one function, and proves what they promise for all
inputs, all runs and all interleavings. `dafny verify dfyconfig.toml` checks everything.

| modules | what they model |
|---|---|
| `EnvFile`, `EnvMerge`, `EnvRewriter`, `Injectors` | the `.env` rewriter: records with multi-line quoted values, the escaper, the in-place rewrite and the append step, and any number of injectors under the directory lock |
| `Bits`, `Base32`, `Recovery` | the recovery key: base32 on a truncating 32-bit accumulator, its printed form, and what parsing tolerates |
| `Redact` | the redactor: one leftmost pass for each fixed shape of a secret, then a generic pass |
| `Crypto`, `Tables`, `VaultStore`, `VaultRun` | the vault: a KEK, a verifier, a recovery copy, and a wrapped key for each stored secret |
| `UnlockProtocol`, `UnlockService` | where the KEK is kept: keychain, then database, with crashes and failures between any two steps; the calls as they run take the steps of the protocol |
| `Timestamps`, `Manifest`, `Sessions`, `SessionRun` | sessions: lifetimes compared as text in SQL, grants, revocation, and the accounts of every read |
| `Conversation`, `Anthropic`, `OpenAi` | conversations with a provider, pruning, and the two wire formats |
| `Ladder`, `AgentTexts`, `AgentLoop`, `Runner` | the agent loop: as a function of everything its environment answers, and as the loops and queues that compute it |
| `AgentBudget`, `AgentAbort`, `AgentCaptures`, `AgentSuccess`, `AgentDialogue`, `AgentReplies`, `AgentPages`, `AgentAcceptance`, `AgentSecrecy` | what holds of every run: what it may spend, that an abort is final, that its report is true, that it can succeed, what it tells the provider and when the two APIs accept that, and that captured values do not show |
| `RunControl` | abort and resume as interleaved atomic steps on a flag and a signal |
| `Peer` | matching JSON-RPC responses to calls, with timeouts and a connection that may close |
| `A11y`, `A11yNodes` | the accessibility tree as numbered text within a budget, and the references of a browser session |

Code that changes state step by step is modelled by classes and loops, each proved against a function that says
what it computes; the properties are then proved of that function. Protocols between several parties are state
machines whose steps may interleave in any order.

Cryptography is ideal: a sealed blob opens exactly under its key and its associated data, and derived keys are
equal only if everything they were derived from is. Randomness, clocks, answers of the provider, the browser, the
keychain and the user are parameters. Every database write may fail.

## Where the code falls short

- Merging a `.env` file twice is not always the same as merging it once: reading a line drops one carriage return,
  so a line that ends in two changes on every pass (`EnvMerge.MergeNotIdempotent`). `EnvMerge.MergeIdempotent` says
  exactly when it is the same.
- A call registered after the reader of its connection has failed all pending calls is answered by nobody and waits
  for its timeout, unless the writer has stopped by then (`Peer.LateCallWaits`). `Peer.AfterTheReader` says that
  these are exactly the calls left unanswered.
- A reply that neither says nor calls anything becomes, in the Chat Completions format, a message with neither
  `content` nor `tool_calls` in every later request (`AgentAcceptance.SilenceIsRefused`).
  `AgentAcceptance.OpenAiAccepts` says exactly which requests are free of such messages.
- A reply with the empty text, or a browser call that comes back blank, becomes an empty text block in the Messages
  format (`AgentAcceptance.EmptyTextIsRefused`, `AgentAcceptance.BlankPageIsRefused`).
  `AgentAcceptance.AnthropicAccepts` says exactly which requests are free of such blocks.
- A focusable node of role `generic` counts as interactive, but its role is among those that are never listed, so it
  never gets a reference (`A11y.FocusableDivIsMissing`). `A11y.ReferencedIff` says exactly which interactive nodes get one.

## Model

| member | source | states |
|---|---|---|
| `EnvFile.EscapeAllIsEscapeEach` | crates/passvalet-cli/src/project.rs:304-307 | four whole-text replacements done one after another escape each character once: no replacement touches what an earlier one produced |
| `EnvFile.QuoteEnvRoundTrip` | crates/passvalet-cli/src/project.rs:296-310 | every value can be read back from its quoted form |
| `EnvFile.QuoteEnvInjective` | crates/passvalet-cli/src/project.rs:296-310 | different values have different quoted forms |
| `EnvFile.QuoteEnvScans` | crates/passvalet-cli/src/project.rs:296-310 | a quoted value is closed under the rewriter's own quote scan, so it never starts a multi-line record |
| `EnvFile.QuotedUnlessPlain` | crates/passvalet-cli/src/project.rs:296-310 | a value goes unquoted if and only if it is made of ASCII letters, digits and `-_./:+=`; a quoted one has a double quote at both ends |
| `EnvFile.NamesAre` | crates/passvalet-cli/src/project.rs:314-322 | names are non-empty words of ASCII letters, digits and underscores that do not start with a digit |
| `EnvFile.AssignComplete` | crates/passvalet-cli/src/project.rs:296-310 | an emitted `KEY=value` line is, read by the rewriter, exactly one complete record for that key, without line breaks |
| `EnvFile.KeyIsSpelled` | crates/passvalet-cli/src/project.rs:342-347 | the key of a line is `k` if and only if the line reads: white space, then `export ` or nothing, then `k` with white space around it, then `=`; only a name `export` must touch what follows it, or it is the prefix |
| `EnvFile.CommentHasNoKey` | crates/passvalet-cli/src/project.rs:343-347 | a line whose first character after white space is `#` assigns nothing and opens no quote |
| `EnvFile.NoEqualsNoKey` | crates/passvalet-cli/src/project.rs:343-347 | neither does a line without `=` |
| `EnvFile.ClosesIff` | crates/passvalet-cli/src/project.rs:357-366 | the character scan finds the closing quote if and only if the text holds that quote unescaped; in double quotes a character is escaped if a backslash precedes it that is not itself escaped, in single quotes none is |
| `EnvFile.RecordEnds` | crates/passvalet-cli/src/project.rs:349-377 | a record is one line unless its value starts with a quote; then it ends with the first line that holds that quote unescaped |
| `EnvFile.RecordLengthLocal` | crates/passvalet-cli/src/project.rs:349-377 | where a record ends does not depend on the lines after it |
| `EnvFile.ParseComplete` | crates/passvalet-cli/src/project.rs:342-385 | parsing cuts the file into complete records and loses no line |
| `EnvFile.ParseFlatten` | crates/passvalet-cli/src/project.rs:342-385 | complete records written one after another are read back as themselves |
| `EnvFile.StripCRKeepsShape` | crates/passvalet-cli/src/project.rs:341-353 | losing a trailing carriage return changes neither the key of a line nor the quote it opens |
| `EnvMerge.WrittenIsRead` | crates/passvalet-cli/src/project.rs:343-398 | written records are read back one by one, each line short of one trailing carriage return |
| `EnvMerge.MergeIsOverride` | crates/passvalet-cli/src/project.rs:341-398 | re-reading the result gives the old records in order, rewritten where their key has a value, then only the appended block |
| `EnvMerge.MergeKeepsOthers` | crates/passvalet-cli/src/project.rs:341-398 | a key without a value keeps its definitions: same number, same order, same lines up to one carriage return per line |
| `EnvMerge.MergeDefines` | crates/passvalet-cli/src/project.rs:341-398 | after a merge every key with a value has the line `k=quote_env(v)`, and no record starts with a line that spells any other assignment of the key, with or without `export` |
| `EnvMerge.MergeKeepsPlaces` | crates/passvalet-cli/src/project.rs:339-398 | record by record: a merged key's record becomes its assignment, every other keeps its lines up to one carriage return each; after them come, if keys are missing, a blank line unless there is one, the banner, and one assignment for each, in byte order |
| `EnvMerge.MergeTwice` | crates/passvalet-cli/src/project.rs:341-398 | what a second merge of the same values writes: the same records, short of one more carriage return per line |
| `EnvMerge.MergeIdempotent` | crates/passvalet-cli/src/project.rs:341-398 | merging the same values again succeeds, and gives the identical text if and only if no kept record has a line that still ends in a carriage return after one was stripped |
| `EnvMerge.MergeIdempotentWithoutCR` | crates/passvalet-cli/src/project.rs:341-398 | in particular merging is idempotent for every file without carriage returns |
| `EnvMerge.MergeNotIdempotent` | crates/passvalet-cli/src/project.rs:341-385 | the condition is needed, whatever is merged: a file of one blank line with two carriage returns changes again on the second merge |
| `EnvRewriter.ScanQuote` | crates/passvalet-cli/src/project.rs:357-372 | the character loop with its escape flag finds out whether a quote is closed |
| `EnvRewriter.ReadRecord` | crates/passvalet-cli/src/project.rs:349-377 | reading a record takes exactly its lines, or fails exactly if its quote never closes |
| `EnvRewriter.RewriteLines` | crates/passvalet-cli/src/project.rs:339-385 | the record loop rewrites every record of the parse and leaves exactly the values whose key was not seen |
| `EnvRewriter.AppendRemaining` | crates/passvalet-cli/src/project.rs:386-394 | the append step writes the separating blank line, the banner and the missing keys in map order, or nothing |
| `EnvRewriter.LinesAreMerged` | crates/passvalet-cli/src/project.rs:342-396 | the two loops together write exactly the merged records |
| `EnvRewriter.EnvPath.MergeEnvFile` | crates/passvalet-cli/src/project.rs:313-420 | the file is untouched or holds exactly the merged text, a missing file counting as an empty one; success means the latter; invalid names, an unreadable file and an unterminated quote change nothing |
| `EnvRewriter.EnvPath.WritePrivate` | crates/passvalet-cli/src/project.rs:401-420 | replacing the file is all or nothing and never goes through a link |
| `Injectors.StepKeepsInv` | crates/passvalet-cli/src/project.rs:326-334 | each lock, read, replace, unlock or failing step keeps: the file is the replay of the merges in lock order, and what the lock holder has read is the current file |
| `Injectors.RunsAreSerial` | crates/passvalet-cli/src/project.rs:326-398 | in every interleaving the file is what the merges give one after another in lock order |
| `Injectors.MergeKeepsDefinition` | crates/passvalet-cli/src/project.rs:341-398 | a merge of other keys leaves such an assignment as it is |
| `Injectors.NoWriterIsLost` | crates/passvalet-cli/src/project.rs:326-398 | in every interleaving every key any injector wrote is assigned the value of the last injector that wrote it, and no record starts with a line that spells any other assignment of it |
| `Injectors.SuccessIsKept` | crates/passvalet-cli/src/project.rs:326-398 | once an injector has reported success each of its keys is assigned in the file: by its own value if no other injector writes the key, by the value of one that does otherwise |
| `Bits.ShiftIn` | crates/passvalet-core/src/recovery.rs:67-68 | shifting a chunk into the truncating 32-bit accumulator appends its bits to the pending ones |
| `Bits.ShiftOut` | crates/passvalet-core/src/recovery.rs:69-73 | taking the top pending bits leaves the rest unchanged |
| `Base32.Base32Encode` | crates/passvalet-core/src/recovery.rs:62-80 | the accumulator loop computes the symbols of the bit string, padded with zeros at the end |
| `Base32.Base32Decode` | crates/passvalet-core/src/recovery.rs:82-96 | the accumulator loop computes the whole bytes of the symbols' bits, or fails exactly on a foreign character |
| `Base32.DecodeEncode` | crates/passvalet-core/src/recovery.rs:62-96 | every byte string of every length survives encoding and decoding |
| `Base32.EncodeDecode` | crates/passvalet-core/src/recovery.rs:62-96 | encoding what was decoded gives the same text if and only if the bits decoding drops are fewer than five and all zero |
| `Base32.EncodeDecode40` | crates/passvalet-core/src/recovery.rs:62-96 | so it does for every 40-symbol text |
| `Recovery.RejectedOnlyForLengthOrChecksum` | crates/passvalet-core/src/recovery.rs:31-46 | after cleaning, only the length and the checksum can be wrong: decoding never fails |
| `Recovery.ParseIff` | crates/passvalet-core/src/recovery.rs:31-60 | parsing yields a secret if and only if the cleaned text is the encoding of those 25 bytes followed by their checksum |
| `Recovery.CleanFormat` | crates/passvalet-core/src/recovery.rs:18-60 | the printed key cleans to its secret's symbols and checksum |
| `Recovery.FormatLooks` | crates/passvalet-core/src/recovery.rs:18-29 | a printed key has 52 characters, a hyphen at every sixth and nowhere else: eight groups of five and one of four |
| `Recovery.ChecksumIs` | crates/passvalet-core/src/recovery.rs:57-60 | the checksum's four symbols are the first twenty bits of the digest of the secret |
| `Recovery.RespellingsParse` | crates/passvalet-core/src/recovery.rs:18-60 | any recasing, inserted separator or O/0, I/L/1, U/V respelling of a printed key parses to its secret |
| `Recovery.AlikeIff` | crates/passvalet-core/src/recovery.rs:34-55 | nothing else is folded: two letters or digits clean to the same symbol only if they are the same letter in either case or in the same look-alike group |
| `Redact.MatchEndIsLongest` | crates/passvalet-agent/src/redact.rs:8-28 | the greedy scanner finds a match at a position if and only if some substring there has the shape |
| `Redact.NoLongerMatch` | crates/passvalet-agent/src/redact.rs:8-28 | what it finds is the longest such substring |
| `Redact.PatternsAreKeys` | crates/passvalet-agent/src/redact.rs:8-28 | the 19 fixed patterns match exactly the keys spelled out as literal prefixes, alphabets and lengths, and the tokens of three dotted runs after `eyJ` |
| `Redact.MaskSeparates` | crates/passvalet-agent/src/redact.rs:43-64 | a mask between two texts makes no match that neither of them had |
| `Redact.WeaveKeepsAbsence` | crates/passvalet-agent/src/redact.rs:43-64 | masking any tokens of a text never creates a match of a shape that was absent |
| `Redact.PassRemovesShape` | crates/passvalet-agent/src/redact.rs:43-64 | a pass leaves nothing of its own shape |
| `Redact.PassMasksFirst` | crates/passvalet-agent/src/redact.rs:43-64 | a pass replaces the first key of its pattern, as far as it reaches, by `[REDACTED `, its preview and `]`, goes on after it, and leaves everything before it |
| `Redact.RedactedIsClean` | crates/passvalet-agent/src/redact.rs:8-64 | for every input, whatever the generic pass masks, no substring of the output is a key |
| `Redact.TextWithoutKeysStays` | crates/passvalet-agent/src/redact.rs:43-64 | text without keys passes the fixed patterns unchanged |
| `Redact.PreviewShows` | crates/passvalet-core/src/model.rs:318-327 | two values have the same preview if and only if they are longer than eight and agree in their first four and last four characters, or neither is and they have the same length, up to four counting as four |
| `Redact.RedactedIsEmpty` | crates/passvalet-agent/src/redact.rs:43-64 | redaction neither empties a text nor fills an empty one |
| `Redact.RedactAgain` | crates/passvalet-agent/src/redact.rs:43-64 | redacting twice only repeats the generic pass |
| `Redact.Redact` | crates/passvalet-agent/src/redact.rs:43-64 | the loop over the passes computes the redaction |
| `Tables.ReadIsLookup` | crates/passvalet-core/src/vault.rs:391-416 | decrypting a row is looking up in the plain map the tables stand for |
| `Tables.UpsertOverrides` | crates/passvalet-core/src/vault.rs:316-389 | an insert or an overwrite under the row's old id changes exactly one entry of the plain map, to the trimmed value |
| `Tables.WithoutRemoves` | crates/passvalet-core/src/vault.rs:435-457 | deleting a row removes exactly its entry |
| `Tables.RewrapKeepsView` | crates/passvalet-core/src/vault.rs:233-255 | rewrapping every row key leaves the plain map as it is, under the new KEK |
| `Tables.OldKekReadsNothing` | crates/passvalet-core/src/vault.rs:233-255 | after rewrapping the old KEK reads no row |
| `Tables.MovedRowStaysShut` | crates/passvalet-core/src/vault.rs:328-330 | a row moved under another id opens for nobody |
| `Tables.SwappedBoxesStayShut` | crates/passvalet-core/src/vault.rs:328-330 | nor does one that is given the wrapped key of another row, or another row's value, even sealed with its own key |
| `VaultStore.Vault.Initialize` | crates/passvalet-core/src/vault.rs:134-169 | the vault is created under one KEK with an empty map, the given columns and, if asked for, a recovery copy; or nothing happens, and only because there is a vault or a write failed |
| `VaultStore.Vault.Unlock` | crates/passvalet-core/src/vault.rs:180-197 | a KEK is installed if and only if it opens the verifier |
| `VaultStore.Vault.UnlockWithRecovery` | crates/passvalet-core/src/vault.rs:201-215 | a recovery key unlocks if and only if it spells the current recovery secret |
| `VaultStore.Vault.Lock` | crates/passvalet-core/src/vault.rs:217-224 | locking forgets the KEK even if the audit row fails |
| `VaultStore.Vault.RewrapRows` | crates/passvalet-core/src/vault.rs:233-255 | the transaction's loop, half old and half new at every turn, rewraps all rows or fails |
| `VaultStore.Vault.Rekey` | crates/passvalet-core/src/vault.rs:226-271 | changing the KEK is all or nothing; afterwards exactly the new KEK unlocks, exactly the new recovery secret recovers, the stored values are the same, and of the rows only the wrapped keys have changed |
| `VaultStore.Vault.RegenerateRecovery` | crates/passvalet-core/src/vault.rs:273-281 | a new recovery key replaces the previous one; the secrets, the provider, the salt, the verifier, the credential and the user handle stay |
| `VaultStore.Vault.PutSecret` | crates/passvalet-core/src/vault.rs:316-389 | storing overrides one entry with the trimmed value and touches no other row: an old row keeps its id, a new one comes last; a locked vault, a blank value and a failed write store nothing |
| `VaultStore.Vault.ReadSecretValue` | crates/passvalet-core/src/vault.rs:391-416 | while unlocked, reading is looking up in the plain map |
| `VaultStore.Vault.DeleteSecret` | crates/passvalet-core/src/vault.rs:435-457 | deleting removes exactly the rows of that id with their entry, says so in the audit log, and an unknown id is no error |
| `VaultRun.Serve` | crates/passvalet-core/src/vault.rs:134-457 | of all requests only storing and deleting change the plain map, in one entry: a store that of its name, always if it succeeds, a deletion that of the row with its id, always if it succeeds and there is one; and only a setup or a rekeying changes the provider, the salt or the verifier, all of them or nothing |
| `VaultRun.Run` | crates/passvalet-core/src/vault.rs:134-457 | in every run, with any writes failing, the tables stay sound under one KEK and stand for the map that the stores and deletions alone produce |
| `UnlockProtocol.StepKeepsInv` | apps/desktop/src-tauri/src/unlock.rs:155-272 | every step of every setup, rebind, unlock, vault operation or crash keeps the key of a Touch ID database reachable |
| `UnlockProtocol.RunKeepsInv` | apps/desktop/src-tauri/src/unlock.rs:155-272 | so does every run of any number of concurrent calls |
| `UnlockProtocol.KeyIsNeverLost` | apps/desktop/src-tauri/src/unlock.rs:76-97 | at every point of every run: if the database says Touch ID, the keychain yields a KEK that opens the verifier, and the KEK in memory, if any, opens it too |
| `UnlockService.Service.ReadKeychain` | apps/desktop/src-tauri/src/unlock.rs:76-97 | the loop over the two slots reads the entry for the salt, else the legacy one |
| `UnlockService.Service.WriteKeychain` | apps/desktop/src-tauri/src/unlock.rs:99-121 | a failed write leaves the keychain as it was or with a partial entry under the fresh salt |
| `UnlockService.Service.Setup` | apps/desktop/src-tauri/src/unlock.rs:155-212 | a setup takes steps of the protocol and, whatever fails, the stored key stays reachable; success leaves the vault initialised and unlocked, and the only excuses are no presence, no passkey secret, or a failed write to the keychain or the database |
| `UnlockService.Service.Unlock` | apps/desktop/src-tauri/src/unlock.rs:214-253 | an unlock takes steps of the protocol; with Touch ID only a refused presence check or a failed audit write can fail; with a passkey, a key that opens the verifier is installed and any other refused |
| `UnlockService.Service.Rebind` | apps/desktop/src-tauri/src/unlock.rs:255-272 | a rebind takes steps of the protocol; one that fails leaves the database as it was, and has one of the same excuses or found the vault locked; a success changes the KEK and keeps the values |
| `UnlockService.Service.Work` | crates/passvalet-core/src/vault.rs:199-457 | a recovery unlock, a lock, a store, a deletion and a new recovery key are each one step of the protocol, and leave the provider, the salt and the verifier as they are |
| `Timestamps.DateFromOrder` | crates/passvalet-core/src/vault.rs:105-110 | later days have later calendar dates |
| `Timestamps.FractionOrder` | crates/passvalet-core/src/vault.rs:105-110 | fractions of 0, 3, 6 or 9 digits before `+00:00` sort as text by their value |
| `Timestamps.TextOrderIsTimeOrder` | crates/passvalet-core/src/vault.rs:105-110 | up to the year 9999, comparing the rendered timestamps byte by byte is comparing the instants |
| `Timestamps.DateIsRight` | crates/passvalet-core/src/vault.rs:505-524 | the date of a day is a real one and, by the closed form of the proleptic Gregorian calendar, that many days after the start of year 0 |
| `Timestamps.RenderReads` | crates/passvalet-core/src/vault.rs:505-524 | up to the year 9999 a rendered timestamp has the punctuation of RFC 3339 and reads as its instant: the date, the time of day, and the fraction in the fewest of 0, 3, 6 or 9 digits that lose nothing |
| `Manifest.ClampTtl` | crates/passvalet-core/src/manifest.rs:13-15 | a lifetime is always between one minute and seven days, and is the requested one if that already is |
| `Manifest.Validate` | crates/passvalet-core/src/manifest.rs:17-64 | the loop with its set of seen requests accepts exactly the acceptable manifests |
| `Manifest.ValidIdsAre` | crates/passvalet-core/src/services.rs:366-371 | identifiers are 1 to 64 lower-case ASCII letters, digits, underscores and hyphens |
| `Sessions.ActiveCountsAgree` | crates/passvalet-core/src/vault.rs:105-110 | the count SQL takes by comparing text is the number of sessions that `is_active` accepts |
| `Sessions.AccountedRead` | crates/passvalet-core/src/vault.rs:632-684 | a counted, audited and returned read keeps the three counts of its session equal |
| `Sessions.AllDead` | crates/passvalet-core/src/vault.rs:588-605 | after revoking what is active no token issued so far belongs to an active session |
| `Sessions.SessionTable.CreateSession` | crates/passvalet-core/src/vault.rs:502-547 | an acceptable manifest gets, unless a write fails, an unrevoked and unread session under the given id and token that grants exactly the requested pairs, from now for the seconds asked for, or the nearer of a minute and seven days, or an hour if none are asked for |
| `Sessions.SessionTable.RevokeSession` | crates/passvalet-core/src/vault.rs:577-586 | exactly the named session is revoked, and its tokens are dead; an unknown id is an error |
| `Sessions.SessionTable.RevokeAllSessions` | crates/passvalet-core/src/vault.rs:588-605 | exactly the active sessions are revoked, as many as reported, and every token issued so far is dead |
| `Sessions.SessionTable.ResolveSession` | crates/passvalet-core/src/vault.rs:608-629 | an unknown token, a revoked session and an expired one are refused, each with its own error; any other token resolves to its session |
| `Sessions.SessionTable.ReadKey` | crates/passvalet-core/src/vault.rs:632-684 | unless a write fails, a read of a granted, stored key through an active session of an unlocked vault returns the stored value, counted and audited, and any other read the error of the first of these that it lacks |
| `Sessions.SessionTable.RecordRead` | crates/passvalet-core/src/vault.rs:671-684 | the counter and the audit row of one read keep the accounts, or no value is handed out |
| `Sessions.SessionTable.PurgeOldSessions` | crates/passvalet-core/src/vault.rs:686-692 | exactly the sessions whose expiry instant is before the cutoff are deleted, for cutoffs up to the year 9999; beyond, those that sort before it as text |
| `SessionRun.Serve` | crates/passvalet-core/src/vault.rs:502-692 | every call keeps the table valid, and work on the vault disturbs no session's accounts |
| `SessionRun.Run` | crates/passvalet-core/src/vault.rs:502-692 | in every run with any writes failing: values returned equal KeyRead rows and are at most the read count, all equal if no write failed; each value was granted, unrevoked and inside the lifetime; each one through a token of the run was for a pair that the manifest of that token's creation requests, within the lifetime it asks for; and from any point on none goes out through a token dead by then, which after a successful revocation are those it names |
| `Conversation.PrunedKeeps` | crates/passvalet-agent/src/run.rs:644-669 | pruning leaves the smaller of `keep` and the number of images, and every turn, call, result and text |
| `Conversation.NewestStay` | crates/passvalet-agent/src/run.rs:644-669 | it is the newest images that stay: of the last turns, however many, as many as there are, up to `keep` |
| `Conversation.PrunedWellFormed` | crates/passvalet-agent/src/run.rs:644-669 | pruning keeps a conversation well formed |
| `Conversation.PruneImages` | crates/passvalet-agent/src/run.rs:644-669 | the two nested loops, newest first, compute the pruning |
| `Conversation.ExchangeIsWellFormed` | crates/passvalet-agent/src/run.rs:354-362 | an assistant turn and a user turn that answers all its calls in order extend a well-formed conversation |
| `Anthropic.ConvertMessages` | crates/passvalet-agent/src/providers/anthropic.rs:33-71 | the loops compute the translation |
| `Anthropic.WellFormedIsInOrder` | crates/passvalet-agent/src/providers/anthropic.rs:33-71 | a well-formed conversation becomes alternating turns, no list of blocks empty, each one's tool uses last and answered in order by the first blocks of the next |
| `Anthropic.AcceptableUnlessHollow` | crates/passvalet-agent/src/providers/anthropic.rs:33-71 | they have, besides, no empty text anywhere if and only if no message of the conversation holds one, in its content or in an answer |
| `Anthropic.ReadsBack` | crates/passvalet-agent/src/providers/anthropic.rs:33-71 | there is one turn per message, and reading a turn gives back its parts, calls and results in order, but for tool names and the two stand-ins for nothing |
| `OpenAi.ConvertMessages` | crates/passvalet-agent/src/providers/openai_compat.rs:23-106 | the loops compute the translation |
| `OpenAi.WellFormedIsInOrder` | crates/passvalet-agent/src/providers/openai_compat.rs:23-106 | a well-formed conversation becomes a system message and then messages in which every `tool_calls` list is followed at once by its `tool` messages, in order, `tool` messages are nowhere else, and user messages have parts; at least one message for every turn |
| `OpenAi.AcceptableUnlessSilent` | crates/passvalet-agent/src/providers/openai_compat.rs:23-106 | every assistant message has, besides, content or calls if and only if no turn of the conversation is silent: without calls, and without text or with one empty text |
| `OpenAi.PrefixIsAccepted` | crates/passvalet-agent/src/providers/openai_compat.rs:23-106 | after any number of turns exactly the last assistant turn's calls are unanswered |
| `OpenAi.ResultTextIs` | crates/passvalet-agent/src/providers/openai_compat.rs:54-79 | an answer's text, built part by part, is one line for each part, a note standing for an image; empty texts at the start are no lines, and a note is never the first line |
| `OpenAi.ReadsBack` | crates/passvalet-agent/src/providers/openai_compat.rs:23-106 | reading the messages gives back, in order, the prompt and everything the conversation says and nothing else: an assistant's texts joined by newlines, every call with its id, name and printed arguments, every answer under the id of its call, marked if it failed, and every part and image of a user turn |
| `OpenAi.SilentTurn` | crates/passvalet-agent/src/providers/openai_compat.rs:27-53 | a turn becomes a message with neither content nor calls if and only if it has no call and no text, or one empty text |
| `Ladder.ModelLadder.constructor` | crates/passvalet-agent/src/ladder.rs:13-22 | a ladder starts on its first model |
| `Ladder.ModelLadder.NoteSuccess` | crates/passvalet-agent/src/ladder.rs:32-34 | a success clears the failure count and nothing else |
| `Ladder.ModelLadder.NoteFailure` | crates/passvalet-agent/src/ladder.rs:37-46 | a failure counts, or climbs one model and says which |
| `Ladder.ModelLadder.ForceEscalate` | crates/passvalet-agent/src/ladder.rs:49-57 | a provider error climbs one model unless on the last |
| `Ladder.HistoryIs` | crates/passvalet-agent/src/ladder.rs:24-57 | after any history the index is on the list and equals the escalations, and below the last model the count is the streak of failures since the last success or escalation, and under three |
| `Ladder.ClimbsOnTheThird` | crates/passvalet-agent/src/ladder.rs:37-46 | below the last model a failure climbs if and only if exactly two failures precede it in a streak |
| `AgentLoop.CallsProgress` | crates/passvalet-agent/src/run.rs:365-588 | the calls of a reply each take a step and at most one browser call, and are answered in order by one text each, unless one of them ends the run |
| `AgentLoop.RoundUses` | crates/passvalet-agent/src/run.rs:289-608 | every round that does not end the run uses up a step, or no step and a model |
| `AgentBudget.RunStaysInBudget` | crates/passvalet-agent/src/run.rs:289-608 | for all answers of provider, browser, vault and user: at most `max_steps` browser calls, at most `max_steps + models - 1` requests, and the ladder ends on its list |
| `AgentBudget.RequestBoundIsMet` | crates/passvalet-agent/src/run.rs:318-334 | that bound is exact: a provider that is always rate limited is asked that often |
| `AgentBudget.ErrorEndsIff` | crates/passvalet-agent/src/provider.rs:118-127 | a provider error ends the run if and only if it is a malformed answer, an unsupported model, or a status below 500 other than 429 |
| `AgentBudget.RoundTellsLadder` | crates/passvalet-agent/src/run.rs:354-608 | a round of tool calls that goes on leaves one exchange behind with every call answered, and tells the ladder of a failure if and only if an answer is an error |
| `AgentAbort.AbortIsFinal` | crates/passvalet-agent/src/run.rs:289-592 | a read of the abort flag that finds it set is the last one and the run ends as aborted; there are at least as many reads as requests, browser calls and stores |
| `AgentAbort.CaptureStoresExactly` | crates/passvalet-agent/src/run.rs:447-475 | a capture reaches the vault if and only if its key was asked for, the flag was clear after the browser answered and the value is not blank; it stores that value, trimmed, under that key |
| `AgentSuccess.CooperationSucceeds` | crates/passvalet-agent/src/run.rs:242-609 | if the browser and the vault cooperate and nobody aborts, one reply that asks for every wanted key and then says it is done ends in success |
| `AgentSuccess.CooperationIsPossible` | crates/passvalet-agent/src/run.rs:242-609 | for every job there is such an environment |
| `AgentCaptures.OutcomeIsTruthful` | crates/passvalet-agent/src/run.rs:380-626 | the captured list is duplicate-free and exactly the keys the vault accepted, each announced with its value's preview, all of them wanted and not blank; success means every wanted key was accepted, a partial outcome splits the wanted keys, failure means nothing was accepted |
| `AgentCaptures.StoredAccounted` | crates/passvalet-agent/src/run.rs:463-497 | one call of the vault's store keeps the captured list, the stores and the announcements in agreement |
| `AgentCaptures.FinishedOnce` | crates/passvalet-agent/src/run.rs:211-240 | exactly one `Finished` event is published, last, with the outcome; a collection ends its browser session once, keeping the tabs if and only if the outcome is a failure or partial, and a rotation touches no browser |
| `AgentDialogue.PruneText` | crates/passvalet-agent/src/run.rs:644-669 | there is nothing to prune in a conversation of text |
| `AgentDialogue.RequestsAreProper` | crates/passvalet-agent/src/run.rs:281-608 | every request of every run names a model of the ladder and carries a well-formed conversation without images, in which no answer of a browser tool contains a key |
| `AgentDialogue.RequestsAreInOrder` | crates/passvalet-agent/src/run.rs:302-317 | both translations of every request of every run have the order of turns, calls and answers that their APIs ask for |
| `AgentReplies.RequestsCarryReplies` | crates/passvalet-agent/src/run.rs:302-608 | every request carries exactly the replies to the earlier ones, in order, and a blank answer if and only if one of the browser calls made before it came back without text and state |
| `AgentPages.RequestsTellPages` | crates/passvalet-agent/src/run.rs:529-582 | the answers of page tools that a request carries are, in order, exactly those of the browser calls made before it: for each one text, the redaction of the page's text followed by its tab, title and address if the browser gave them, or of the error |
| `AgentPages.PageStepIsReported` | crates/passvalet-agent/src/run.rs:529-573 | each such call is reported once, under its step and name, by the first 400 characters of that text and the first 200 of its masked arguments |
| `AgentTexts.OpeningMentions` | crates/passvalet-agent/src/run.rs:281-284 | the first message names the tab and the address |
| `AgentTexts.CaptureMentions` | crates/passvalet-agent/src/run.rs:484-492 | an accepted capture is answered with its key, the length and the preview of its value, and what is still missing, in this order |
| `AgentTexts.FailuresMention` | crates/passvalet-agent/src/run.rs:268-600 | every text about a failure gives its reason |
| `AgentTexts.ProviderErrorsMention` | crates/passvalet-agent/src/provider.rs:104-116 | a provider error gives its detail, its status and body, or its model |
| `AgentAcceptance.OpenAiAccepts` | crates/passvalet-agent/src/providers/openai_compat.rs:23-106 | request k of any run is acceptable in the Chat Completions format if and only if no reply to an earlier request had no calls and no text or the empty one |
| `AgentAcceptance.AnthropicAccepts` | crates/passvalet-agent/src/providers/anthropic.rs:33-71 | request k of any run is acceptable in the Messages format if and only if no reply to an earlier request had the empty text and no browser call made before it came back blank |
| `AgentAcceptance.SilenceIsRefused` | crates/passvalet-agent/src/run.rs:343-357 | a run whose second Chat Completions request is not acceptable: its first reply says and calls nothing |
| `AgentAcceptance.EmptyTextIsRefused` | crates/passvalet-agent/src/run.rs:343-357 | a run whose second Messages request is not acceptable: its first reply has the empty text |
| `AgentAcceptance.BlankPageIsRefused` | crates/passvalet-agent/src/run.rs:529-573 | a run whose second Messages request is not acceptable: its first browser call comes back blank |
| `AgentSecrecy.StoreAlike` | crates/passvalet-agent/src/run.rs:463-497 | storing two values of equal length and preview under the same verdict leaves the same public state |
| `AgentSecrecy.RunFromAlike` | crates/passvalet-agent/src/run.rs:289-608 | two environments that differ only in such values keep two runs publicly equal round by round |
| `AgentSecrecy.DifferentYetAlike` | crates/passvalet-core/src/model.rs:318-327 | there are different values with equal length and preview, so the next statement is not about equal runs only |
| `AgentSecrecy.RunsLookTheSame` | crates/passvalet-agent/src/run.rs:211-626 | if two environments answer alike but for captured values that agree on trimmed length and fingerprint, all requests, browser calls, events and the outcome are the same |
| `Runner.Runner.MakeCalls` | crates/passvalet-agent/src/run.rs:365-588 | the loop over a reply's calls stops at the first that ends the run |
| `Runner.Runner.Loop` | crates/passvalet-agent/src/run.rs:289-608 | the outer loop terminates, by steps left and then models left, with the outcome the model predicts |
| `Runner.Runner.RunInner` | crates/passvalet-agent/src/run.rs:242-609 | a collection run: the events, requests, browser calls and stores it leaves behind are those of the model |
| `Runner.Session.Run` | crates/passvalet-agent/src/run.rs:211-240 | a whole run: its events and `session_end` calls are those of the model |
| `Runner.StopsTheRest` | crates/passvalet-agent/src/run.rs:365-588 | once a call has ended the run the calls after it change nothing |
| `RunControl.StepKeepsInv` | crates/passvalet-agent/src/run.rs:117-140 | every step of any task or caller keeps: once an abort has returned nobody is parked without a delivered signal |
| `RunControl.NoLostAbort` | crates/passvalet-agent/src/run.rs:117-140 | so does every interleaving |
| `RunControl.NobodyStaysParked` | crates/passvalet-agent/src/run.rs:117-140 | from the start of a run, in every interleaving: once a call of `abort` has returned no task is parked |
| `RunControl.SignalEndsPause` | crates/passvalet-agent/src/run.rs:407-446 | a resume or abort signal sent after the pause was published ends it within two of the task's own steps, whatever else happens |
| `RunControl.AbortEndsEveryWait` | crates/passvalet-agent/src/run.rs:117-140 | once an abort has returned every wait ends within two of the task's own steps |
| `RunControl.NoPauseSurvivesTheFlag` | crates/passvalet-agent/src/run.rs:429-436 | with the flag set no pause goes on with the work |
| `RunControl.SignalledIff` | crates/passvalet-agent/src/run.rs:126-128 | while a pause lasts it becomes signalled if and only if a signal is sent |
| `RunControl.OnlyLaterSignalsCount` | crates/passvalet-agent/src/run.rs:407-446 | a pause that a task enters is signalled if and only if a signal is sent after it registered: an earlier one is forgotten |
| `RunControl.NoAbortWithoutCall` | crates/passvalet-agent/src/run.rs:117-140 | from the start of a run, in every interleaving: a task is aborted only once some call of `abort` has set the flag |
| `RunControl.WhatEndsAWait` | crates/passvalet-agent/src/run.rs:407-446 | a wait ends only by its own step or, for a request, its answer: a pause that goes on has been signalled, and what aborts has seen the flag |
| `Peer.StepKeepsInv` | crates/passvalet-ipc/src/peer.rs:110-147 | every step of callers, timeouts, reader and writer keeps the table consistent |
| `Peer.IdsAreNotReused` | crates/passvalet-ipc/src/peer.rs:116-118 | in every interleaving no two calls share an id, and every pending entry belongs to its own call, still in progress |
| `Peer.AnswersAreOwn` | crates/passvalet-ipc/src/peer.rs:125-139 | an answered call got a reply sent under its own id, or the closing error; no call ever finds its channel dropped |
| `Peer.StepKeepsCalls` | crates/passvalet-ipc/src/peer.rs:125-134 | a call keeps its id and ends at most once |
| `Peer.AfterTheReader` | crates/passvalet-ipc/src/peer.rs:141-146 | once the reader has gone, a call in the table has been answered if and only if it was registered before; a later one can only fail to send or time out |
| `Peer.LateCallWaits` | crates/passvalet-ipc/src/peer.rs:110-146 | such a late call happens, and it waits with nobody to answer it |
| `Peer.FirstReplyWins` | crates/passvalet-ipc/src/peer.rs:135-139 | the first response to a waiting call is the one it ends with, whatever is read later, unless its timeout comes first: with its error if it has one, else its result |
| `Peer.PlainCallIsAnswered` | crates/passvalet-ipc/src/peer.rs:110-139 | from the start, a call that is sent and gets a response ends with its result and leaves nothing behind |
| `Peer.OtherLinesChangeNothing` | crates/passvalet-ipc/src/peer.rs:216-239 | a request, a line without a numeric id and a response to no pending call change nothing for any call |
| `Peer.Table.TakeId` | crates/passvalet-ipc/src/peer.rs:116 | the next number, once |
| `Peer.Table.Insert` | crates/passvalet-ipc/src/peer.rs:117-118 | the entry under the call's id |
| `Peer.Table.Remove` | crates/passvalet-ipc/src/peer.rs:121-131 | a call's own entry is taken out |
| `Peer.Table.Resolve` | crates/passvalet-ipc/src/peer.rs:135-139 | the entry is taken out and answered, or nothing happens |
| `Peer.Table.Dispatch` | crates/passvalet-ipc/src/peer.rs:216-239 | requests go to the queue, responses to the call with their id, and the rest nowhere |
| `Peer.Table.FailAll` | crates/passvalet-ipc/src/peer.rs:141-146 | the loop empties the table and answers every call in it |
| `A11y.Builder.Append` | apps/extension/src/a11y.ts:99-122 | a node is numbered and registered before its line is measured |
| `A11y.Builder.Visit` | apps/extension/src/a11y.ts:82-128 | the recursive visit puts out the rows of the depth-first walk, as far as the budget goes |
| `A11y.BuildTree` | apps/extension/src/a11y.ts:65-135 | the traversal from the roots or from the scoped node |
| `A11y.CappedIsPrefix` | apps/extension/src/a11y.ts:115-121 | the output is the longest prefix of the uncapped walk whose lines fit, and is marked as capped if and only if something is missing |
| `A11y.SameTags` | apps/extension/src/a11y.ts:98-103 | the two filters number the same nodes alike at every depth and indentation |
| `A11y.ModesAgree` | apps/extension/src/a11y.ts:98-103 | "interactive" and "all" reads that are not capped register identical references |
| `A11y.AllRegistered` | apps/extension/src/a11y.ts:100-103 | the registered references are consecutive numbers, each with its row's node; when the output is capped the last of them may belong to the row that no longer fitted and was not shown |
| `A11y.ReferencedNodes` | apps/extension/src/a11y.ts:82-127 | the nodes that get a reference are exactly the visited ones that are visible, of an interactive role and in the document, in the order they are visited |
| `A11yNodes.StartsAre` | apps/extension/src/a11y.ts:67-80 | a read starts from the first node with the backend id asked for, or, if none was asked for or it is gone, from the nodes without a known parent |
| `A11yNodes.VisitedIff` | apps/extension/src/a11y.ts:82-127 | the walk visits exactly the nodes at most so many levels below its start |
| `A11yNodes.ReadShows` | apps/extension/src/a11y.ts:65-128 | a read, before it is capped, puts out exactly the listed nodes at most `maxDepth` levels below where it starts |
| `A11yNodes.ListedMeans` | apps/extension/src/a11y.ts:94-98 | listed are the visible nodes of an interactive role and, unless only those are wanted, the visible ones with a name or a value whose role is not one of the five that are skipped |
| `A11yNodes.LineTells` | apps/extension/src/a11y.ts:104-114 | a line tells the level and the reference of its node |
| `A11y.ListedIff` | apps/extension/src/a11y.ts:94-98 | a visible interactive node is listed if and only if its role is in the interactive set |
| `A11y.ReferencedIff` | apps/extension/src/a11y.ts:65-135 | a visible interactive node of the document that a read visits gets a reference if and only if its role is in the interactive set |
| `A11y.FocusableDivIsMissing` | apps/extension/src/a11y.ts:94-98 | a page of one focusable `generic` node: visible, interactive, and read as nothing |
| `A11y.RefNamesDiffer` | apps/extension/src/a11y.ts:101 | reference names are different for different numbers |
| `A11y.Session.ResolveRef` | apps/extension/src/executor.ts:245-249 | a known reference denotes the node it was given out for; any other is an error |
| `A11y.Session.Take` | apps/extension/src/executor.ts:369-372 | no reference of a read was ever given out before in the session |
| `A11y.Session.ReadPage` | apps/extension/src/executor.ts:355-374 | a read restricted to a reference uses the node that reference was given out for, and fails on an unknown one; the depth is the nearest in 1 to 60 |
| `A11y.Session.Find` | apps/extension/src/executor.ts:376-386 | a search numbers its nodes afresh as well |
| `A11y.Session.Navigate` | apps/extension/src/executor.ts:346 | navigation forgets the references but not the counter |

## Left out

- HTTP, JSON parsing, the MCP server, the command line, the user interface and the extension's page commands: plumbing around the modelled parts.
- Real cryptography, SQLite, the file system, the keychain and the passkey calls: replaced by the ideal functions, maps, cells and failures described above. Nonces, zeroing of memory and the length checks inside the ciphers are not modelled, and database reads do not fail.
- The prompt queue, the run registry, settings, the service tables and the listing queries: each of their properties is short.
- Columns that no property here depends on: labels, sources, metadata and timestamps of secrets, agent names and purposes of sessions, details of audit rows other than event, session and key.
- Redact.Redact: the generic pass of the redactor is any choice of disjoint tokens to mask, none in the empty text, not its own expression, and nothing is claimed about repeating it.
- Recovery.ParseIff: SHA-256 is a parameter; nothing depends on which digest it is.
- Bits.ShiftIn: the bitwise or of the accumulator with the next chunk is written as a sum, which it is because the shift leaves those bits zero.
- EnvRewriter.EnvPath.MergeEnvFile: text that is not UTF-8 is an unreadable file; permissions and the temporary file's name are not modelled.
- UnlockService.Service.Setup: the passkey prompt is a parameter that yields a secret or nothing; the salt's hexadecimal slot name is the salt itself.
- Timestamps.TextOrderIsTimeOrder: stops at the year 9999, where the rendering stops having four-digit years.
- Sessions.SessionTable.CreateSession: requires that the expiry is before the year 10000, that the clock does not go back, and that ids and tokens are drawn afresh.
- AgentLoop.RoundUses: the three-second wait before a retry takes no time. The system prompt, the tool definitions and the token limit are the same in every request and are not part of it, and the run id is not part of an event.
- AgentLoop.CallsProgress: a tool call's arguments are their printed text and the five string fields the loop reads.
- AgentBudget.RunStaysInBudget: the step counter is unbounded, but never exceeds `max_steps`, which fits its type.
- Anthropic.AcceptableUnlessHollow, OpenAi.AcceptableUnlessSilent: of what the two APIs ask for, only the order of turns, calls and answers and the absence of empty messages and texts.
- RunControl.StepKeepsInv: creating and enabling a notification is one step, and a provider's answer may end the wait for it at any time.
- Peer.StepKeepsInv: ids are unbounded, where the program's wrap around after 2^64 calls; cancelling a call from outside is not modelled.
- A11y.Builder.Append: quoting and shortening of names, values and properties are the node's own text, and a line's length counts characters rather than UTF-16 units; references are kept as numbers, whose names differ by `A11y.RefNamesDiffer`.
- A11yNodes.LineTells: for roles that start with neither a blank nor a bracket, as every role the browser reports does.
- A11y.Session.Find: the scoring and sorting of matches.
- A11y.BuildTree: the closing notice of a capped output and the text for an empty one.
- Conversation.NewestStay: within one content list the code keeps the first images rather than the last; only how many of them stay is stated.
