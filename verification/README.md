# A verified model of juridical's audit log and mutation protocol

juridical lets automation propose a mutation of a container fleet, lets a human
approve it, and runs it once. Two state machines carry that promise, and this
project models both in Dafny and proves what they keep over every run.

- **The anchored, hash-chained audit log** (`Json`, `StringMaps`, `Records`,
  `Chain`, `Lines`, `LogFile`, `Redaction`, `Anchors`, `AuditLog`, `CrashRuns`).
  A record is sealed with a hash over its JSON line and linked to the record
  before it. The log is one file, the head it should have is a second file, the
  anchor. `Chain` proves that one (seq, hash) pair pins the whole history.
  `AuditLog` holds the log as a class over a disk of text, with the rollback of
  `Append` as the code has it. `CrashRuns` interleaves the two writes of an append
  with I/O failures and crashes at every point, and with adoptions of an anchor.
- **Plan, approve, execute** (`Blast`, `Source`, `Tokens`, `Plans`, `Protocol*`,
  `Engine`). `Protocol` is a transition system with one program counter per
  call: a step is one locked region or one call out of the engine, so the steps
  of concurrent calls interleave freely. `ProtocolSafety` gives the invariant,
  `ProtocolTheorems`, `ProtocolRequests` and `ProtocolReceipts` what follows for
  every run, and `ProtocolRuns` shows that the runs spoken of exist. `Engine` is the engine in
  the source's own form, a class whose methods are tied step by step to that
  transition system by a ghost trace.
- **Smaller cores**: the cursor pagination of the audit endpoint (`Pagination`)
  and the fleet percentage in binary64 (`Float64`, `FleetPct`, `FleetPctExact`;
  `Arithmetic` holds the integer lemmas, `Options` the type of missing values).

Each method with a loop or with state is proved against a function of its
inputs or of the old state, and the lemmas are about that function. What these
functions mean is told a second time without them, by predicates no operation
uses (`AnswerMeans`, `SealedFrom`, `PlanSays`, `RowSays`, `Presents`, `Places`
and others), so that a contract does not move along with a body.

## Premises

- SHA-256 is an arbitrary function, `Digest` on texts and `KeyOf` on secrets.
  No injectivity is assumed: where a hash has to identify something, the lemma
  concludes that it does *or* that two named records (or plans) are a collision.
  Where stated, `NeverGenesis` says that no digest is the empty genesis string.
- A Dafny `char` is a Unicode scalar value, so strings are valid Unicode.
  Redaction works on bytes in the source; its words are ASCII, so searching
  characters is the same search.
- One process writes the log, and Append writes a line whole or not at all, except
  in `LogFile.LostNewlineHidesNext`, which is about a lost newline. What a file
  holds besides is arbitrary text in `AuditLog`, and what Append wrote in
  `CrashRuns`.
- Sequence numbers and identifiers stay below 2^64 where a lemma says so;
  `Records.Succ` wraps as the source does.
- The secrets of minted tokens are fresh: no two have one key.
- What the clock, the random source, the topology, the action, the file system
  and the audit sink answer is a parameter of each step, and the theorems hold
  for all answers. `wild` is what the platform makes of a float that does not
  fit an int; `fold` is simple case folding, as `strings.EqualFold` uses it.
- What was synced survives a crash; a line whose `Sync` failed may be lost by one,
  and a rename whose directory was not synced may be undone by one. No tool runs
  beside a process that has the log open.
- In `CrashRuns` the log file can be opened; what its text makes of reading it is
  modelled. A file that cannot be opened is a case of `AuditLog.Disk`.
- Params maps are not changed by their owner after they were handed over.

## Where the code and its documentation differ

The model follows the code; each difference is a proved statement.

- The fleet percentage is documented as the exact ceiling. It is one too high
  exactly when 100·i/n is 7, 14, 28, 55 or 56: 7 of 100 gives 8
  (`FleetPctExact.FleetPctIsCeilingIff`, `FleetPctExact.SevenOfAHundred`). Past
  some 7.9·10^13 units of inventory it can be one too low
  (`FleetPctExact.UnderReportsPast`), and it is documented as clamped to 0..100
  although a conversion out of range is not, where the platform gives a negative
  number (`FleetPct.ClampedCeilingIffInRange`).
- "Non-empty log, anchor missing: refused" is decided on the head's number, not
  on emptiness: one well-hashed record numbered 0 opens without an anchor
  (`Anchors.MissingAnchorRefusedIff`, `Anchors.ZeroSeqLogNeedsNoAnchor`). Logs
  that `Append` writes start at 1 (`Anchors.GenuineNeedsAnchor`).
- Warn-mode breaches are documented as permitted, yet `Within` is required under
  every mode (`Blast.ExecuteGuardIsNotWithin`).
- `Append` rolls its counter back on any line error, also when the line landed
  and only `Sync` failed. The next line then repeats a number and the chain is
  broken for good (`AuditLog.UnsyncedLineBreaksNext`); the log verifies exactly
  until then (`CrashRuns.LogVerifiesIff`).
- `Append` does not check the reader's line limit: one record with a line of
  4 MiB or more makes the whole log unreadable, and once it is synced, for good
  (`LogFile.ReadBackIffShort`, `CrashRuns.OversizedLineClosesLog`).
- Adoption accepts any text that reads and verifies, also one without its last
  newline. The next record is then appended, anchored and not read back, and the
  log is reported as truncated (`AuditLog.AdoptionReopensIff`,
  `AuditLog.MissingNewlineTruncates`).
- Adoption does not check that the lines it covers are synced. If a crash then
  loses some, the log is reported as truncated, or as tampered with once it has
  grown back (`CrashRuns.TruncatedIffAnchoredLinesLost`,
  `CrashRuns.AdoptionIsRiskyIff`).
- The plan hash leaves out who proposed. A token runs any plan of the same
  content, and the execute row names *that* plan's proposer, so separation of
  duties holds for the pair that was approved and not always for the row
  (`ProtocolReceipts.ExecuteRowDutiesIff`, `ProtocolRuns.RowMayNameAnotherProposer`).

## Model

| member | source | states |
|---|---|---|
| `Json.GetPut` | internal/audit/log.go:161-166 | Reading the first JSON value of a text undoes writing it: the value comes back whole and what is left is exactly the text that followed, whatever non-digit text that is. |
| `Json.EscapedShows` | internal/audit/log.go:120 | Every character of a string is written as itself, as its short escape or as its code in four hex digits (section 7 of RFC 8259), and raw exactly when it is neither a control, quote or backslash nor one of those that HTML or JavaScript could misread. |
| `Json.MarshalInjective` | internal/approve/hash.go:41-42 | Distinct values have distinct canonical texts, so a hash of the text covers the value. |
| `Json.PutTail` | internal/audit/log.go:120-125 | The text of a value holds no raw newline and does not depend on what follows, so one line is one record. |
| `Json.GetExtend` | internal/audit/log.go:161-166 | What stands behind a value on its line does not change which value is read, unless it is a number at the very end. |
| `StringMaps.SortedKeys` | internal/approve/hash.go:53-57 | The keys of a map in canonical order: every key once, none added, ascending. |
| `StringMaps.LexLeqPrecedes` | internal/approve/hash.go:57 | That order puts one key before another exactly when it is the start of the other, or has the smaller character where the two first differ. |
| `StringMaps.MapRoundTrip` | internal/audit/record.go:30 | A params map survives encoding, and a nil map stays apart from an empty one. |
| `Records.RecordRoundTrip` | internal/audit/record.go:23-40 | Decoding the object of a record gives the record, all sixteen fields. |
| `Records.RecordFieldsNamed` | internal/audit/record.go:23-40 | In the object written, each of the sixteen fields of the record is found under its own documented name. |
| `Records.PayloadInjective` | internal/audit/chain.go:15-23 | Two records with one hashed payload agree in every field but their own hash. |
| `Chain.Verify` | internal/audit/chain.go:29-48 | The loop stops at the least index whose link, hash or number is wrong, names which of the three it is, and returns -1 exactly when the chain relation holds throughout. |
| `Chain.FaultMeans` | internal/audit/chain.go:29-48 | Told without the chain functions: a link fault is a previous hash other than the last record's, a hash fault one other than the digest of the line with its own hash emptied, a number fault one other than the last plus one modulo 2^64, looked for in this order; and there is none exactly when all three hold. |
| `Chain.FirstBrokenIsLeast` | internal/audit/chain.go:25-28 | A prefix of any sequence is a chain if and only if it ends no later than where Verify stops. |
| `Chain.HeadHashPinsHistory` | internal/audit/chain.go:29-48 | Two verified chains with the same head hash are equal record for record, or hold two records that collide; no bound on their lengths and none on the first number. |
| `Chain.EditBreaksHere` | internal/audit/chain.go:35-41 | Editing the payload of record i alone is reported at i, or is a collision with the old record i. |
| `Chain.ResealedEditBreaksNext` | internal/audit/chain.go:32-41 | Editing record i and recomputing its hash is reported at i+1, or is a collision; on the last record it passes. |
| `Chain.RelinkedEditBreaksHere` | internal/audit/chain.go:32-44 | Moving a record's link, or the number of any record but the first, resealed or not, is reported at that record; the first record's number is free. |
| `Chain.RemovalBreaksHere` | internal/audit/chain.go:32-34 | Removing a record other than the last is reported where it stood. |
| `Chain.BreakPersists` | internal/audit/chain.go:29-48 | No appended records repair a break or move where it is reported. |
| `Lines.ReadAll` | internal/audit/log.go:134-169 | The scanner loop yields what splitting, carriage-return dropping, skipping of empty lines and decoding yield line by line, and the first malformed or oversized line fails it. |
| `Lines.ReadLineCases` | internal/audit/log.go:144-167 | What one line is read as, told by its bytes and its end: too long with 4 MiB or more, a carriage return included; else nothing when it is empty or a carriage return alone; else what is decoded of it without the carriage return. |
| `Lines.DecodeJoined` | internal/audit/log.go:146-168 | For any decoder, splitting undoes joining: newline-free lines are read one by one, and reading goes on with the text after them. |
| `Lines.Utf8SizeIsBytes` | internal/audit/log.go:145 | The reader's limit counts the bytes of UTF-8 (section 3 of RFC 3629), one to four a character. |
| `LogFile.FileTextAppend` | internal/audit/log.go:114-127 | Appending one encoded line to the file is appending one record to the sequence. |
| `LogFile.LeadingSpaceIgnored` | internal/audit/log.go:161-166 | JSON white space before the value on a line plays no part in what is decoded. |
| `LogFile.ReadBackIffShort` | internal/audit/log.go:134-169 | Reading back what was written gives the same records if and only if every line is under the limit; otherwise nothing of the log can be read. |
| `LogFile.ReadBackKeepsChain` | internal/audit/log.go:102-112 | After a read-back every recomputed hash matches: the file verifies exactly when the records written did. |
| `LogFile.LostNewlineHidesNext` | internal/audit/log.go:161-166 | When an append lost only its newline, reading back loses exactly the next record and keeps all others. |
| `LogFile.ReadAfterAppend` | internal/audit/log.go:120-168 | A record appended to any readable text is read back if and only if the last line of that text was blank and the line fits; behind an unfinished record it is not there, and nothing else changes. |
| `Redaction.LowerInPlace` | internal/audit/record.go:78-86 | The in-place loop leaves the buffer holding the lower-cased text, non-letters untouched. |
| `Redaction.ContainsASCII` | internal/audit/record.go:88-98 | True if and only if the needle stands somewhere in the text, the empty needle included. |
| `Redaction.IsSecretKey` | internal/audit/record.go:68-76 | The two loops together decide whether a lower-cased key contains a listed word. |
| `Redaction.SecretKeyInAnyCase` | internal/audit/record.go:44-86 | A key is secret if and only if it spells one of the thirteen listed words at some place in any mix of ASCII letter cases. |
| `Redaction.Redact` | internal/audit/record.go:53-66 | Whatever order the map is ranged in, the result is the masked map. |
| `Redaction.RedactedMasks` | internal/audit/record.go:51-66 | Masking replaces the value of every secret key, keeps the key set, every other value and nil-ness, and is idempotent. |
| `Redaction.RedactedFixpoint` | internal/audit/record.go:51-66 | Redaction leaves params alone if and only if no secret key has a value other than the marker. |
| `Anchors.AnchorPinsHistory` | internal/audit/anchor.go:227-263 | Against the anchor of a non-empty log Append wrote, every verified sequence is classified by its head: behind is Truncated, ahead is LogAheadOfAnchor, level and different is Tampered or a collision, and accepted means the log itself or a collision. |
| `Anchors.ProperPrefixIsTruncated` | internal/audit/anchor.go:253-254 | Every proper prefix of a genuine log still verifies and is refused as truncated by the log's anchor; the log is refused as ahead by the anchor of every non-empty proper prefix. |
| `Anchors.MissingAnchorRefusedIff` | internal/audit/anchor.go:240-252 | With no anchor a verified log is refused if and only if its head number is not zero. |
| `Anchors.GenuineNeedsAnchor` | internal/audit/anchor.go:240-247 | A log Append wrote is refused without its anchor unless it is empty. |
| `Anchors.ZeroSeqLogNeedsNoAnchor` | internal/audit/anchor.go:240-252 | The input that shows the difference: a single well-hashed record numbered 0 opens with no anchor, and with an anchor for the empty log. |
| `Anchors.PriorMatchesIffOneAppended` | internal/audit/anchor.go:360-382 | With one excess record over the anchor of a genuine log, the empty log included, the prior link matches exactly when taking the last record off gives that log back, up to a collision. |
| `Anchors.CheckAnchorCases` | internal/audit/anchor.go:227-263 | The six answers on verified records, each with its exact condition on the anchor and on the number and hash of the last record: corrupt, missing, truncated, ahead, tampered, and agreement. |
| `Anchors.VerdictMeans` | internal/audit/log.go:35-47 | Over any two files: the answer is the reading error exactly when the log does not read, else the first break exactly when the chain is broken, and else the anchor case; so a corrupt anchor beside any verified log is refused as corrupt. |
| `Anchors.ExitCodeMeaning` | cmd/juridical/audit.go:90-109 | On a verified sequence checked against a genuine log's anchor: exit 0 means the log is there whole (or a collision), any other code that it is not, and 3 exactly that the head is ahead. |
| `AuditLog.Log.Open` | internal/audit/log.go:29-54 | Told by cases on the file, its chain, the anchor and the last record's number and hash: a disk is opened exactly when its text reads, its chain verifies, and its anchor is absent under number 0, or names the last record, or is numbered 0 as the log is; else the first reason that fails is given, a corrupt anchor included. The opened log continues from the last record's number and hash, and the disk is untouched. |
| `AuditLog.Log.Append` | internal/audit/log.go:56-100 | A returned record has the eleven plain fields of the one submitted, its time or the clock's if it had none, its params masked and else kept, the next number modulo 2^64, the link to the head and the digest of its own line. For every outcome of the two writes, the text, the anchor, the counter and the link left behind are stated, and which error is reported. |
| `AuditLog.FinalizeSeals` | internal/audit/log.go:63-77 | Field by field, the record that any append seals is the one submitted, masked, numbered, linked and hashed, whether or not it is written. |
| `AuditLog.Log.ReadRecords` | internal/audit/log.go:102-112 | If the file is what Append wrote of some records, a file-mode read returns these very records, or an error exactly when one of their lines is too long; an in-memory log returns its chain. |
| `AuditLog.WriteAnchor` | internal/audit/anchor.go:112-174 | Whichever of its calls fails, at every moment and after a crash at any moment the anchor is the old one or the whole new one, never a partial one; the new one is in place exactly from the rename on, and success is reported exactly when at most the directory sync failed. |
| `AuditLog.InitAnchor` | internal/audit/anchor.go:285-309 | Succeeds if and only if there is no anchor, the text reads and verifies, and the write is reported done; then the anchor is the head read. The log is never changed, nor the anchor by any refusal. |
| `AuditLog.InspectAnchor` | internal/audit/anchor.go:344-385 | Gives the answer Open gives on the same disk, told by the same cases, with a snapshot of the last number and hash, the anchor, their difference and the prior link, each field stated. |
| `AuditLog.AuditVerify` | cmd/juridical/audit.go:90-162 | The exit code, told from the disk: 1 exactly when the log does not read or verify; of one that does, 5 exactly for a corrupt anchor, 4 for a missing one over a numbered head, 3 for a head ahead of it, 2 for one behind it or level with another hash, and else 0. |
| `AuditLog.DiskStepIsFileStep` | internal/audit/log.go:82-99 | On a file Append wrote, a step on its text is the step on the records it was written from. |
| `AuditLog.AdoptionReopens` | internal/audit/anchor.go:265-309 | For a log Append wrote: after an adoption Open accepts, and the next append continues at the head's number plus one, linked to its hash; the log then opens again if and only if the new line is under the limit. |
| `AuditLog.AdoptionReopensIff` | internal/audit/anchor.go:265-309 | For every text that reads and verifies, put right by hand or not: Open accepts it after an adoption, and the next append continues one past its head and linked to it; the log then opens again if and only if the text ended in a newline, or in a blank unfinished line, and the new line fits. If it held an unfinished record, the anchored record is not read and the log is reported as truncated. |
| `AuditLog.MissingNewlineTruncates` | internal/audit/log.go:114-168 | The text that shows the difference: any verified log without its last newline is adopted and opens, and the next append, which succeeds, makes it truncated. |
| `AuditLog.FileRefinesMemory` | internal/audit/log.go:59-132 | Over any run in which an error means nothing was written, re-reading the text of the file gives the chain an in-memory log builds from the appends that landed, or fails exactly when one of its lines is too long; counter and link name its head. |
| `AuditLog.RunsStayChained` | internal/audit/log.go:59-100 | Such runs keep a verified chain, its head in the counter and link, and every stored row redacted. |
| `AuditLog.RowsStayRedacted` | internal/audit/log.go:68 | Every row that any run of appends stores is redacted, whatever fails and whether or not the chain holds. |
| `AuditLog.AddedRecordsAreTheAppends` | internal/audit/log.go:56-100 | Over any run, whatever fails, the records added are one for one and in order those of the appends whose line landed, each with the fields its append submitted. |
| `AuditLog.RunsStayGenuine` | internal/audit/log.go:59-100 | From an empty log they number records 1, 2, 3 and so on. |
| `AuditLog.UnsyncedLineBreaksNext` | internal/audit/log.go:82-85 | The premise is needed: after a line that landed while Sync failed, the next line that lands makes Verify stop at it, whatever is appended later. |
| `CrashRuns.AppendIsTwoSteps` | internal/audit/log.go:82-99 | One append of the log object is one line step and, if the line succeeded, one anchor step of the crash model, with the same file, anchor and head. |
| `CrashRuns.RunKeepsInv` | internal/audit/log.go:29-100 | The invariant of all runs: the log is genuine up to a break through a stale handle, and every anchor that may reappear is absent or the head of a genuine log, a synced prefix unless an adoption put it there over lines not synced. |
| `CrashRuns.LogVerifiesIff` | internal/audit/log.go:59-100 | At every point of every run the log verifies if and only if it holds no line written through a stale handle, and else stops at the first such line. |
| `CrashRuns.CrashSafety` | internal/audit/anchor.go:227-263 | After any run of failures, crashes and adoptions, a log that verifies is genuine, its anchor is absent or the head of a genuine log, and Open says exactly what the line lengths and the number of records then covered imply, the unreadable case included; ExcessRecords is their difference. |
| `CrashRuns.CarefulRunsNeverTruncate` | internal/audit/anchor.go:227-263 | If adoptions are made over synced lines only, Open answers nil exactly when the anchor covers all records, AnchorMissing exactly with none over a non-empty log, LogAheadOfAnchor else, and the read error when a line is too long: never truncation, tampering or corruption. |
| `CrashRuns.TruncatedIffAnchoredLinesLost` | internal/audit/anchor.go:248-262 | Truncated is reported if and only if an adoption covered lines a later crash lost and the log is shorter than it was; as long, it is Tampered or there is a collision; longer, it is LogAheadOfAnchor. |
| `CrashRuns.AdoptionIsRiskyIff` | internal/audit/anchor.go:285-309 | In every reachable world where an adoption goes through, a crash right after it can end in Truncated if and only if some line on disk was not synced. |
| `CrashRuns.AdoptionOverUnsyncedTruncates` | internal/audit/anchor.go:285-309 | One such run from a fresh disk, for any record of ordinary length: a line whose Sync failed, a restart, an adoption and a power loss end in Truncated. |
| `CrashRuns.OversizedLineClosesLog` | internal/audit/log.go:114-168 | Once a line of 4 MiB or more is synced, Open fails to read the log after every further run. |
| `CrashRuns.ExcessCountsAppends` | internal/audit/anchor.go:376-381 | ExcessRecords is the number of lines that landed, less those a crash lost, since the surviving anchor was written. |
| `CrashRuns.SyncedRecordsPersist` | internal/audit/log.go:128-131 | Over any run, what has been synced is never lost, changed or reordered. |
| `Tokens.HexDecodeEncode` | internal/approve/token.go:69-83 | Decoding the hex of a secret gives the secret back. |
| `Tokens.HexEncodeAt` | internal/approve/token.go:69 | The text handed out shows byte k of the secret as its two lower-case hex digits at 2k and 2k+1. |
| `Tokens.SpellingsOf` | internal/approve/token.go:83-86 | A text decodes to a secret if and only if it is the secret's hex with letters in either case. |
| `Tokens.SpellingsShareAKey` | internal/approve/token.go:83-90 | Whatever spelling presents it, one secret names one stored token. |
| `Tokens.TokenStore.Mint` | internal/approve/token.go:51-70 | Succeeds if and only if there is a plan hash and randomness; then exactly one entry is set, holding the hash, the pair and the time plus the TTL, unconsumed, and the returned text is the hex that names it. A failure changes nothing. |
| `Tokens.TokenStore.ConsumeToken` | internal/approve/token.go:82-106 | Told from the one token whose 32-byte secret the text spells: unknown exactly when there is none, consumed, expired and mismatched in this order, and success exactly else; then that token is marked consumed and nothing else changes. A failure leaves the store as it was. |
| `Tokens.ConsumedNeverReverts` | internal/approve/token.go:79-106 | Over any run with fresh secrets no token is dropped or rebound, and none becomes unconsumed. |
| `Tokens.ConsumedAtMostOnce` | internal/approve/token.go:79-106 | Over any run with fresh secrets each key is consumed successfully at most once, never if it was before, and exactly when the store ends up saying so. |
| `Plans.CopyCanonically` | internal/approve/hash.go:46-63 | The copy has the same entries, and a nil map becomes an empty one. |
| `Plans.PlanHashPinsContent` | internal/approve/hash.go:12-44 | Two plans whose action, backend, project, params, bound, reach and target agree (nil and empty params identified) have one hash; two plans with one hash agree in these seven or collide. |
| `Plans.TupleFieldsNamed` | internal/approve/hash.go:15-42 | In the object that is hashed, each of the seven fields is found under its own name, nil params as empty ones. |
| `Plans.TrimSpaceSplits` | internal/approve/sod.go:28-31 | Trimming an identity takes white space off both ends, all of it and nothing else. |
| `Plans.DutiesKeptIff` | internal/approve/sod.go:24-35 | Without the comparison it is computed by: NotHuman exactly when no human or only white space approves; SelfApproval exactly when a human named otherwise approves and the two trimmed names have one length and agree under case folding at every position; else the duties are kept. Padding either name with white space changes no answer. |
| `Plans.DutiesIgnoreCase` | internal/approve/sod.go:31-33 | Replacing either trimmed name by one that agrees with it under case folding at every position changes no answer. |
| `Plans.FormatIDInjective` | internal/engine/engine.go:301-307 | Zero padding loses nothing: under one prefix, distinct numbers give distinct ids. |
| `Plans.FormatIDShape` | internal/engine/engine.go:301-307 | An id is its prefix, an underscore and the decimal digits of its number, padded with zeros to six and no further. |
| `Blast.Evaluate` | internal/blast/within.go:53-83 | The early-exit loop yields BLOCK if and only if some exceeded axis blocks, else WARN if and only if some exceeded axis warns. The breaches are exactly those of exceeded axes that are not off, each with its ceiling, the count that exceeds it and its mode, in the order hosts, service, fleet percentage. |
| `Blast.BreachesExact` | internal/blast/within.go:54-71 | An axis is in the breach list if and only if it is exceeded and not off. |
| `Blast.BreachesMean` | internal/blast/within.go:54-71 | A breach is listed if and only if its mode is not off and it tells the axis, the declared ceiling and the higher count; for the service axis, 1 and a count other than one. |
| `Blast.BoundFieldsNamed` | internal/blast/bound.go:24-28 | In the object written for a bound, each ceiling is found under its own documented name. |
| `Blast.ReachFieldsNamed` | internal/blast/reach.go:8-13 | In the object written for a reach, each count is found under its own documented name. |
| `Blast.WithinIsAllowed` | internal/blast/within.go:36-83 | A reach within bound is ALLOW under every mode setting, with no breach listed. |
| `Blast.ExecuteGuardIsNotWithin` | internal/engine/engine.go:238-239 | What Execute refuses is exactly what is not within bound, whatever the modes. |
| `Blast.AllBlockIsExact` | internal/blast/within.go:48-83 | With every axis blocking and a count that is not negative, BLOCK is exactly "not within". |
| `Blast.WithinIsMonotone` | internal/blast/within.go:39-46 | Raising the host or fleet ceiling keeps what was within, and no ceiling admits a reach of other than one service. |
| `Source.ReachOf` | internal/source/source.go:32-49 | The loop counts exactly the distinct non-empty hosts as hosts, the distinct non-empty services as services and all containers as instances. |
| `Source.ReachIgnoresOrder` | internal/source/source.go:32-49 | Listing the containers in another order gives the same reach. |
| `Source.CountsAtMostInstances` | internal/source/source.go:29-49 | Neither distinct count exceeds the number of containers. |
| `Source.OneServiceIff` | internal/source/source.go:39-45 | The service count is one if and only if some service is named and all named services are the same. |
| `Source.TwoServicesAreNeverWithin` | internal/blast/within.go:39-46 | A set naming two different services is within no bound. |
| `Float64.RoundError` | internal/blast/reach.go:26 | Rounding to binary64 (section 4.3.1 of IEEE 754-2019) has relative error at most 2^-53. |
| `Float64.RoundNearestEven` | internal/blast/reach.go:26 | Between 2^52 and 2^53 rounding takes the nearest integer, and of two equally near the even one. |
| `Float64.RoundScaled` | internal/blast/reach.go:26 | Rounding commutes with any number of doublings, so that what holds between 2^52 and 2^53 holds at every magnitude, relative to it. |
| `Float64.RoundMonotone` | internal/blast/reach.go:26 | Rounding keeps order. |
| `FleetPct.FleetPctMonotone` | internal/blast/reach.go:19-31 | More instances never report less, and a larger positive inventory never reports more, for all counts whose result fits an int. |
| `FleetPct.UnknownInventoryIsMaximal` | internal/blast/reach.go:15-25 | An inventory of zero or less reports 100 of any non-empty set, which is no less than any positive inventory reports; an empty set is always 0. |
| `FleetPct.FleetPctBounds` | internal/blast/reach.go:15-31 | Up to 79010519778429 units of inventory and for any count whose result fits an int, the reported percentage is never below the exact clamped ceiling and at most one above it. |
| `FleetPct.FleetPctNear` | internal/blast/reach.go:15-31 | For any inventory it is at most one off the exact clamped ceiling on either side. |
| `FleetPct.ClampedCeilingIffInRange` | internal/blast/reach.go:26-30 | The result is the clamped ceiling on every platform if and only if the ceiling fits an int; otherwise it is the platform's value, clamped above only. |
| `FleetPct.RatioInRange` | internal/blast/reach.go:26 | It fits whenever the count is at most 2^56 times the inventory. |
| `FleetPctExact.FleetPctIsCeilingIff` | internal/blast/reach.go:15-31 | Up to the same inventory and for any count whose result fits an int, it is the exact clamped ceiling if and only if 100·i/n is not one of five whole numbers, and one above it when it is. |
| `FleetPctExact.SevenOfAHundred` | internal/blast/reach.go:26 | The smallest input that shows the difference: 7 of 100 is reported as 8. |
| `FleetPctExact.TwiceTheRatioIsOutOfRange` | internal/blast/reach.go:26 | The ratio is tight up to a factor of two: at 2^57 to 1 the platform's out-of-range value is reported. |
| `FleetPctExact.UnderReportsPast` | internal/blast/reach.go:26 | The bound on the inventory is sharp to 24 units: 65578731416116 of 79010519778453 is reported as 83, its ceiling being 84. |
| `Pagination.HandleAudit` | internal/api/api.go:221-275 | Refused exactly for an event that is none of the five or a limit below 1; an unreadable log is an internal error; else the page holds, in log order, the first wanted records up to the limit, 100 by default and 1000 at most, and the cursor is the last one's number exactly when more are wanted. |
| `Pagination.CollectPage` | internal/api/api.go:259-274 | The early-exit loop collects the first matches in order and sets the cursor exactly when more remain. |
| `Pagination.PageServesFirst` | internal/api/api.go:259-274 | Told by places in any log, ascending or not: record k of the page stands at the k-th place of a record past the cursor with the event asked for, and the cursor is set exactly when there is a further place. |
| `Pagination.FilterIsTheMatches` | internal/api/api.go:261-267 | On an ascending log the matches are exactly the records past the cursor with the event, in strictly ascending seq order, so each once. |
| `Pagination.FilterResumes` | internal/api/api.go:261-271 | Resuming after the k-th match yields the matches after the k-th: none is repeated, none skipped. |
| `Pagination.WalkCollectsLastLog` | internal/api/api.go:219-275 | Following the cursor to its end over a log that grows between pages collects exactly the matches of the log the last page saw, and before the end a prefix of them. |
| `Pagination.WalkPagesExact` | internal/api/api.go:219-275 | Over a fixed log the walk ends after exactly max(1, ceil(matches / limit)) pages with all matches collected. |
| `Pagination.GenuineIsAscending` | internal/audit/log.go:63-64 | Every log Append writes meets the order these results ask for. |
| `ProtocolSafety.StepKeepsInv` | internal/engine/engine.go:109-264 | Every single step of any call keeps the invariant, in whatever state the other calls are. |
| `ProtocolSafety.RunKeepsInv` | internal/engine/engine.go:109-264 | So does every interleaving of any number of calls. |
| `ProtocolTheorems.AttemptsWereApproved` | internal/engine/engine.go:168-252 | In every interleaving the action is called at most once per minted token; that token was consumed no later than mint time plus TTL, was minted for an executable plan within bound by a pair the duties admit; the live reach of the same call is within bound; and what is run has the content of the approved plan, or the two plans collide. |
| `ProtocolTheorems.NoTwoServicesRun` | internal/engine/engine.go:233-246 | A matched set naming two services is behind no minted token and no action call, under any enforcement setting. |
| `ProtocolTheorems.DrawnIDIsUnused` | internal/engine/engine.go:132-151 | In every interleaving, the id a Plan call has drawn names no stored plan until that call stores it. |
| `ProtocolTheorems.PlansAreImmutable` | internal/engine/engine.go:131-151 | Whatever runs on, a stored id keeps its plan and proposer, each plan carries its own id and the hash of its own fields, and two ids with one hash store one content or collide. |
| `ProtocolTheorems.RenderedExecutableIff` | internal/engine/engine.go:128-143 | A rendered plan is executable if and only if its reach is within its bound, under every mode setting. |
| `ProtocolTheorems.StoredExecutableIff` | internal/approve/plan.go:34-38 | So is every plan stored in any interleaving. |
| `ProtocolRequests.RunsDoWhatWasAsked` | internal/engine/engine.go:109-252 | In every interleaving each stored plan, each plan a token was minted for and each plan run says, field by field, what a well-formed request begun in the run asked for, on a reach and target resolved for that call; and each action is called with that request's action and params on a reach rechecked in the run. |
| `ProtocolReceipts.ReceiptsBoundWhatWasDone` | internal/engine/engine.go:223-264 | Whatever audit writes fail: successful Executes are at most the execute rows, these at most the completed actions, these at most the attempts, these at most the consumed tokens; and the approve and execute rows are those of their tokens, one each. |
| `ProtocolReceipts.ExecuteRowsNameTheirAttempts` | internal/engine/engine.go:247-257 | In every run each execute row is of a distinct attempt, told field by field: the action and params called; the live reach of that call; the backend, project, bound, plan hash and proposer of the plan run; the approver the token was minted for; the verdict ALLOW; and the outcome that action returned. |
| `ProtocolReceipts.ApproveRowsNameTheirMints` | internal/engine/engine.go:189-197 | In every run each approve row carries, told field by field, the plan, the proposer and the approver its token was minted for. |
| `ProtocolReceipts.EachExecutionHasItsApproval` | internal/engine/engine.go:189-257 | If secrets come only from Approve, consumed tokens are at most the approve rows, and each execute row has its own earlier approve row of the same token with the same plan hash and approver. |
| `ProtocolReceipts.ExecuteRowDutiesIff` | internal/engine/engine.go:253-257 | For the attempt behind each execute row: the duties hold of the row if and only if the approver the token was minted for and the proposer of the stored plan presented are not one person, and always when that plan has the approved plan's proposer. |
| `ProtocolRuns.PlanCallStores` | internal/engine/engine.go:109-155 | A well-formed request whose target resolves can always be rendered and stored under the next id. |
| `ProtocolRuns.ApproveCallReturns` | internal/engine/engine.go:168-197 | An executable plan and an admissible approver can always yield a token and its row. |
| `ProtocolRuns.ExecuteCallRuns` | internal/engine/engine.go:216-264 | A live token bound to a stored plan's hash runs that plan when the live reach is within bound, with a row naming that plan's proposer and the token's approver. |
| `ProtocolRuns.RowMayNameAnotherProposer` | internal/engine/engine.go:255 | For any admissible pair and any other proposer, the approver included, there is a run whose execute row names these two. |
| `Engine.Engine.Plan` | internal/engine/engine.go:106-155 | Renders exactly when the action is known, the bound in range, no dormant dimension given and the target resolved. Then the plan has, field by field, the request's action, backend, project, params and bound, the resolved reach and target, the modes in force, the two times, the next id and the hash of its own fields; it is stored under that id with its proposer, and its row tells it. Every refusal keeps the plans and the counter, gives its reason and leaves a row of the request. The steps taken are steps of the transition system. |
| `Engine.Engine.Approve` | internal/engine/engine.go:165-197 | A token is returned if and only if the hash matches, the plan is executable, the duties admit the pair, the mint succeeds and its row is recorded; the token stored is bound to the plan's hash and the pair, unconsumed and expiring after the TTL. Otherwise the first failing check is the error. But for an unknown plan or a failed mint one row is submitted, told field by field. Plans and counter are unchanged. |
| `Engine.Engine.Execute` | internal/engine/engine.go:213-264 | Succeeds if and only if the plan is known, the token consumable, the live reach within bound, the action successful and its row recorded; otherwise the first failing check is the error. But for an unknown plan or action one row is submitted, told field by field: after the token was consumed it names its approver and, once resolved, the live reach, and of a success what the action returned. The token is spent exactly when it was consumable, whatever comes after. |
| `Engine.Engine.RunAction` | internal/engine/engine.go:247-264 | The action is called exactly once, and success is reported only with its row recorded. |
| `Engine.EngineReceipts` | internal/engine/engine.go:213-264 | Of any engine object at any time: its successful executions, execute rows, action calls and spent tokens form a chain of at-mosts. |

## Left out

- The HTTP server, bearer and forward-auth identities, the status mapping and the command line: plumbing around the modelled calls.
- `since` and `limit` parsing in the audit endpoint: they come parsed, an unparseable cursor is a bad request in the source.
- The tolerance of Go's JSON decoder (other key case, key order, duplicate or missing keys, whitespace): the decoder modelled is the inverse of the encoder.
- The bytes of the anchor file: it is absent, unreadable as exactly one anchor, or a (seq, hash) pair.
- SHA-256, the random source and constant-time comparison inside: see the premises.
- File permissions, temporary files and fsync inside, several processes on one log, and partial lines other than a lost newline.
- Strings with invalid UTF-8, which the encoder replaces, so that a re-read record hashes differently.
- Topology providers, restarters and deployers, and the parameter handling of single actions: their answers are arbitrary.
- The texts of errors and of refuse rows: a refuse row carries an arbitrary outcome text.
- Plan expiry, break-glass and the image verdict: no modelled code enforces them. `ExpiresAt` of a plan is stored and never read; only the token's expiry counts.
- The registry, the version, key parsing and loopback checks: easy members.
- CrashRuns.CrashSafety: is stated for logs that hold no line written through a stale handle; with one, LogVerifiesIff says where Verify stops and Open refuses the chain.
- FleetPct.FleetPctBounds: is stated up to 79010519778429 units of inventory. 24 units further it fails (UnderReportsPast); beyond, FleetPctNear holds for any inventory, and which inputs are exact is not said.
- FleetPctExact.FleetPctIsCeilingIff: is stated up to the same inventory, for the same reason.
- Engine.Engine.Execute: one call at a time; interleaved calls are the business of the Protocol modules, of which the engine's trace is a run. The audit sink it writes to answers as it likes and stands for AuditLog.Log.
- AuditLog.WriteAnchor: the removal of the temporary file after a failure is not modelled; nothing reads that file.
- AuditLog.Log.Append: locking is not modelled; appends are serialized in the source by a mutex.
