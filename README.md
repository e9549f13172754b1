# err-otp: the one-time-password gate, modelled in Dafny

`otp.py` is an Errbot plugin that puts a second factor in front of chosen bot
commands. Administrators flag commands as protected and grant each user a TOTP
secret. A command filter lets a protected command through only when its caller
proved a valid OTP within the last day. A stale caller's invocation is held back
in a backlog. When that caller later sends a valid code as a direct message,
the plugin marks the caller verified and replays the held-back invocations.

The model has six files:

- `wrappers.dfy`: `Option`.
- `otp_types.dfy`: senders, messages, the identity an OTP record is filed under (`Ident`), secret records, backlog entries and outgoing notices.
- `freshness.dfy`: the constants, the freshness test and `Gate`, the decision the command filter takes, with its properties.
- `backlog.dfy`: the backlog drain as pure functions. `Drain` is the intended behaviour and `DrainAsWritten` is the code's behaviour (see Findings). It also holds lemmas on ordering, completeness and conservation.
- `pyint.dfy`: the subset of Python's `int(str)` that decides whether a message is an OTP attempt, and its round trip with `str(n)`.
- `plugin.dfy`: the plugin object as class `Plugin.Otp`. Its fields are `cmds`, `secrets` and `backlog`. Three ghost fields record what the plugin hands to the bot's dispatcher (`replayed`), everything it ever queued (`enqueued`) and what it sends (`outbox`). `Valid()` is the exactly-once invariant: every queued invocation is either still pending or replayed once. It also says each pending invocation is filed under the identity of its own message.

Modelling choices:

- Time is an `Instant`: a count of microseconds since `datetime(MINYEAR, 1, 1)`. So `BEGINNING_OF_TIMES` is 0 and `OTP_EXPIRATION` is 86 400 000 000.
- The wall clock is the `now` parameter.
- The TOTP check is the `totpValid(secret, code, now)` parameter of `CallbackMessage`.
- A freshly generated secret is the `newSecret` parameter of `Secret` and `Reset`.
- Each method is modelled as one atomic step; the source's locking does not guarantee this (see Left out).

## Model

| member | source | states |
|---|---|---|
| `OtpTypes.Ident` | otp.py:18-21 | the identity is the sender's `aclattr` when it has one, otherwise its `person` |
| `Freshness.Stale` | otp.py:159 | a record is stale when more than `OTP_EXPIRATION` has passed since its last verification (strict `>`); its properties are `ExpirationBoundary` and `GrantedIsStale` |
| `Freshness.Granted` | otp.py:98 | the record a grant files: the new secret, no failed attempts, last verified at `BEGINNING_OF_TIMES`; `GrantedIsStale` states its effect |
| `Freshness.Verified` | otp.py:131-132 | the record after a successful OTP: same secret and attempts, last verified now; `VerifiedPasses` states its effect |
| `Freshness.Gate` | otp.py:150-166 | the filter's decision (Allow, NoSecret or Expired) from the protected set, the secret table, the identity, the command and the clock; characterised by `GateAllowsIff` and `UnprotectedPasses` |
| `Freshness.UnprotectedPasses` | otp.py:150-166 | a command not in the protected set is allowed for every caller, with or without a secret |
| `Freshness.GateAllowsIff` | otp.py:150-166 | for a protected command: allowed iff the caller has a record that is not stale; NoSecret iff no record; Expired iff a stale record (fail closed) |
| `Freshness.ExpirationBoundary` | otp.py:159 | staleness is strict `>`: exactly one day after a verification is still fresh, one microsecond later is stale; 23h59m fresh, 24h01m stale |
| `Freshness.GrantedIsStale` | otp.py:158-164 | a freshly granted or reset record is stale at any instant after the first day of year 1, so its holder is held back |
| `Freshness.VerifiedPasses` | otp.py:130-132 | after a successful verification at `now`, the identity passes every protected command at `now` |
| `Freshness.GateIgnoresOtherRecords` | otp.py:153-159 | the decision for one identity depends on that identity's record only |
| `Backlog.Drain` | otp.py:135-142 | the intended drain: replayed entries are `Matching`, kept entries are `Others`, no exception; its properties are the `Drain*` lemmas below |
| `Backlog.DrainAsWritten` | otp.py:135-142 | the drain as written: the leading run of the identity's entries is replayed; at an entry of another identity it raises with the backlog unchanged, otherwise the backlog empties; its properties are the `AsWritten*` lemmas below |
| `Backlog.DrainAppend` | otp.py:135-142 | the drain commutes with appending: entries queued later are replayed or kept after earlier ones |
| `Backlog.DrainSelects` | otp.py:136-141 | the drain replays only entries of the verified identity and keeps only entries of other identities, all taken from the backlog |
| `Backlog.DrainPartitions` | otp.py:135-142 | replayed plus kept entries are exactly the old backlog as a multiset: nothing is lost or duplicated |
| `Backlog.DrainLeavesNoneOf` | otp.py:136-142 | after the drain no entry of the verified identity remains |
| `Backlog.DrainKeepsOthersPending` | otp.py:140-142 | for every other identity, the pending entries after the drain are exactly the ones before, in the same order |
| `Backlog.ReplayInQueueOrder` | otp.py:136-139 | two invocations E1, E2 of one identity, queued in that order with any entries before, between and after them, are replayed in that order, interleaved with the identity's other entries exactly as queued |
| `Backlog.LeadingRun` | otp.py:136-141 | the as-written loop gets through a prefix of the backlog whose entries all belong to the verified identity; it stops at the first entry of another identity |
| `Backlog.AsWrittenAgreesOnOneIdentity` | otp.py:135-142 | when every pending entry belongs to the verified identity, the code as written drains exactly as intended |
| `Backlog.AsWrittenRaisesOnOtherIdentity` | otp.py:141 | any pending entry of another identity makes the code as written raise and leave the whole backlog in place |
| `Backlog.AsWrittenReplaysTwice` | otp.py:136-142 | with the verified identity's entry queued before another identity's entry, two valid OTPs replay it twice under the code as written; the intended drain replays it once |
| `PyInt.ParseInt` | otp.py:114-117 | `int(msg.body)`: strip the whitespace `int` strips (ASCII space and `\t\n\v\f\r`, and the non-ASCII characters `str.isspace` accepts), one optional sign, then a digit string; `None` is the `ValueError` the callback catches. Its properties are `ParseShow`, `ParseIgnoresSurroundingSpace`, `ParseNonNegative`, `ParseNegative` and `ParseNeedsDigit` |
| `PyInt.ParseDigits` | otp.py:115 | an unsigned digit string is accepted exactly when it is nonempty and every character is a digit or an underscore with a digit on either side |
| `PyInt.ParseShow` | otp.py:115 | `int(str(n)) == n` for every integer `n` |
| `PyInt.ParseIgnoresSurroundingSpace` | otp.py:115 | a character `int` strips, put before or after the body, does not change what `int` reads |
| `PyInt.SeparatorNotStripped` | otp.py:115-117 | an information separator (U+001C) before a digit is not stripped: the body is not an integer, so the message is ignored |
| `PyInt.ParseNonNegative` | otp.py:115 | a well-formed digit string (ASCII digits, single underscores between digits) reads as its decimal value |
| `PyInt.ParseNegative` | otp.py:115 | `-` followed by a well-formed digit string reads as minus its decimal value |
| `PyInt.ParseNeedsDigit` | otp.py:114-117 | a body without a decimal digit is not an OTP attempt |
| `Plugin.Join` | otp.py:90 | `'\n'.join(lines)`: the lines separated by single newlines; `Cmds` states the reply through it |
| `Plugin.Otp.constructor` | otp.py:40-61 | the plugin starts with no protected commands, no secrets and an empty backlog, and satisfies the exactly-once invariant |
| `Plugin.Otp.ZapAll` | otp.py:64-67 | the protected set and the secret table become empty; the backlog is kept |
| `Plugin.Otp.AddCmd` | otp.py:70-75 | the protected set becomes the old set plus `name`, so adding a present name changes nothing; the reply names the command |
| `Plugin.Otp.DelCmd` | otp.py:78-85 | for an absent name, the set is unchanged and the reply is the "not in the list" message; otherwise the set is the old set minus `name` and the reply confirms the removal |
| `Plugin.Otp.Cmds` | otp.py:88-90 | the reply is the header followed by every protected command exactly once, one per line, in an order the method chooses (Python leaves set order open) |
| `Plugin.Otp.Secret` | otp.py:93-103 | `secrets[idd]` becomes `(newSecret, 0, BEGINNING_OF_TIMES)` and every other record is unchanged; a provisioning notice goes to `idd` |
| `Plugin.Otp.Reset` | otp.py:106-108 | exactly the same effect and reply as `Secret` |
| `Plugin.Otp.OtpFilter` | otp.py:147-166 | the result is pass-through when `Gate` allows, otherwise suppressed. Only an Expired decision appends exactly `(idd, msg, cmd, args)` to the backlog. NoSecret and Expired each send their notice. The protected set and secret table never change |
| `Plugin.Otp.CallbackMessage` | otp.py:110-144 | a groupchat message, a non-integer body, an identity without a record or a rejected code changes nothing. On success the record keeps its secret and attempts and gets `lastVerified = now`, the identity's entries are replayed in order and removed, the others are kept in order, and the invariant is preserved. Every replayed invocation was sent by the verifying identity |
| `Plugin.Otp.DrainBacklog` | otp.py:134-142 | the intended drain: the backlog becomes `Others`, the replayed log grows by `Matching`, and the exactly-once invariant is preserved. Every replayed invocation was sent by `idd`, and no invocation sent by `idd` stays pending |
| `Plugin.Otp.DrainBacklogAsWritten` | otp.py:134-142 | the drain as written: it replays the leading run, raises at the first other identity and leaves the backlog unchanged, or empties a backlog holding only the identity's entries |
| `Plugin.SplitBacklog` | otp.py:135-141 | the loop, walked once over the backlog, yields exactly `Others` as the kept entries and `Matching` as the replayed ones, each in order |

## Left out

- QR rendering (`makeQRCode`, `makeQRCodeMessage`, otp.py:23-34): the provisioning notice records only the account and the secret, not the rendered text.
- pyotp: `random_base32` becomes the `newSecret` parameter and `TOTP.verify` becomes the `totpValid` parameter. The debug read of `TOTP.now` and `provisioning_uri` are not modelled. So the model cannot show that a code valid under an earlier secret fails after a re-grant. It shows only that verification consults the current record's secret.
- Message delivery: `send` and `build_identifier` are recorded in the ghost `outbox`, not performed.
- Replay execution: `_bot._process_command` is recorded as an append to the ghost `replayed` log.
- Locking (otp.py:43-44) and concurrency: each method is one atomic step. Races are not modelled. One example is `callback_message` checking the record outside the lock and then re-reading it under the lock, where a concurrent `otp_zapall` would raise `KeyError`.
- Persistence through `stored` and `self[key]` (otp.py:47-61): `cmds` and `secrets` are plain fields.
- Logging, the `botcmd`/`cmdfilter` decorators and their admin-only checks are not modelled.
- The two clock reads (pyotp's own time and `datetime.now()` at otp.py:132) are one `now` parameter.
- `datetime`'s upper bound (year 9999) and its overflow are not modelled: `Instant` is unbounded.
- `PyInt.ParseInt` and `PyInt.ParseShow` assume a Python without the limit on decimal int/str conversion (`sys.int_max_str_digits`, 4300 digits by default since 3.11 and the 3.7-3.10 security releases of 2022). Under that limit a body of more than 4300 digits is a `ValueError` (so the message is ignored), and `str(n)` raises for such `n`. The model parses any length.
- Python's `int` also accepts non-ASCII decimal digits (for example Arabic-Indic digits). `PyInt.ParseInt` accepts ASCII digits only.

## Notes on the code's behaviour

The model follows the code, which does the following:

- No lockout exists. The failure counter `attempts` is never incremented or reset, and `OTP_MAX_NB_FAILS` (otp.py:15) is never read.
- A grant or reset sets `last_verified` back to `BEGINNING_OF_TIMES` (otp.py:98), so an identity's last verification time can move backwards. Otherwise only a successful OTP (otp.py:132) changes it, to the wall-clock time `datetime.now()`.
- `otp_zapall` clears the protected set and the secrets but not the backlog.
- The filter ignores `dry_run`, so a dry run of a stale caller's command is queued too.

## Findings

| source | as written | input that shows it | evidently intended | confidence | as-written member | corrected member |
|---|---|---|---|---|---|---|
| otp.py:141 | the loop keeps an entry of another identity by calling `list.append` with four arguments. This raises `TypeError`, so `self.backlog` is never reassigned | backlog `[(alice, m1, deploy, a), (bob, m2, deploy, b)]`, then alice sends a valid OTP twice: her `deploy` is replayed after each OTP and stays queued, while bob's entry, at which `append` raises, is never replayed and also stays queued | append the tuple, so the verified identity's entries are replayed once and removed and every other entry is kept in order | high; not executed | `Backlog.AsWrittenReplaysTwice` | `Plugin.Otp.DrainBacklog` |
