/**
 * The decision `otpfilter` takes for one command invocation (otp.py:150-166):
 * let it through, or hold it back because the caller has no secret or has not
 * proved an OTP recently enough.
 */
module Freshness {

  import opened OtpTypes

  /** One day (otp.py:12), in microseconds. */
  const OtpExpiration: int := 86_400_000_000

  /** `datetime(MINYEAR, 1, 1)` (otp.py:16): the origin of `Instant`, so no instant is earlier. */
  const BeginningOfTimes: Instant := 0

  /**
   * Declared as the failure threshold (otp.py:15); nothing in the plugin reads it,
   * so failed attempts never lock an identity out.
   */
  const OtpMaxNbFails: int := 10

  /** The record a grant or a reset stores (otp.py:98). */
  function Granted(secret: string): SecretRecord
  {
    SecretRecord(secret, 0, BeginningOfTimes)
  }

  /** The record after a successful verification at `now` (otp.py:131-132). */
  function Verified(rec: SecretRecord, now: Instant): SecretRecord
  {
    rec.(lastVerified := now)
  }

  /** `now - lastotp > OTP_EXPIRATION` (otp.py:159): strictly more than a day has passed. */
  predicate Stale(rec: SecretRecord, now: Instant)
  {
    now - rec.lastVerified > OtpExpiration
  }

  datatype Decision =
    | Allow       // pass the invocation through unchanged
    | NoSecret    // suppress: the caller must ask an administrator for a secret
    | Expired     // suppress and hold back until the caller sends a valid OTP

  function Gate(cmds: set<string>, secrets: map<string, SecretRecord>, idd: string, cmd: string, now: Instant): Decision
  {
    if cmd !in cmds then Allow
    else if idd !in secrets then NoSecret
    else if Stale(secrets[idd], now) then Expired
    else Allow
  }

  /** Commands nobody flagged are never filtered, whoever calls them. */
  lemma UnprotectedPasses(cmds: set<string>, secrets: map<string, SecretRecord>, idd: string, cmd: string, now: Instant)
    requires cmd !in cmds
    ensures Gate(cmds, secrets, idd, cmd, now) == Allow
  {
  }

  /**
   * Fail closed: a protected command is let through exactly when its caller
   * holds a secret that was verified no more than a day ago.
   */
  lemma GateAllowsIff(cmds: set<string>, secrets: map<string, SecretRecord>, idd: string, cmd: string, now: Instant)
    requires cmd in cmds
    ensures Gate(cmds, secrets, idd, cmd, now) == Allow <==> idd in secrets && !Stale(secrets[idd], now)
    ensures Gate(cmds, secrets, idd, cmd, now) == NoSecret <==> idd !in secrets
    ensures Gate(cmds, secrets, idd, cmd, now) == Expired <==> idd in secrets && Stale(secrets[idd], now)
  {
  }

  /**
   * The freshness boundary is inclusive: exactly one day after a verification
   * the caller is still let through, one microsecond later it is not; in
   * particular a verification is still good 23h59m later and no longer 24h01m later.
   */
  lemma ExpirationBoundary(rec: SecretRecord)
    ensures !Stale(rec, rec.lastVerified + OtpExpiration)
    ensures Stale(rec, rec.lastVerified + OtpExpiration + 1)
    ensures !Stale(rec, rec.lastVerified + 86_340_000_000)
    ensures Stale(rec, rec.lastVerified + 86_460_000_000)
  {
  }

  /**
   * A freshly granted (or reset) secret has never been verified: at any instant
   * later than the first day of year 1 its holder is held back on a protected command.
   */
  lemma GrantedIsStale(cmds: set<string>, secrets: map<string, SecretRecord>, idd: string, secret: string, cmd: string, now: Instant)
    requires cmd in cmds && now > OtpExpiration
    ensures Gate(cmds, secrets[idd := Granted(secret)], idd, cmd, now) == Expired
  {
  }

  /**
   * Right after a successful verification at `now` the identity passes every
   * protected command, so the commands replayed from the backlog would pass the filter.
   */
  lemma VerifiedPasses(cmds: set<string>, secrets: map<string, SecretRecord>, idd: string, cmd: string, now: Instant)
    requires idd in secrets
    ensures Gate(cmds, secrets[idd := Verified(secrets[idd], now)], idd, cmd, now) == Allow
  {
  }

  /** A record in the table decides only for its own identity. */
  lemma GateIgnoresOtherRecords(cmds: set<string>, secrets: map<string, SecretRecord>, idd: string, other: string, rec: SecretRecord, cmd: string, now: Instant)
    requires other != idd
    ensures Gate(cmds, secrets[other := rec], idd, cmd, now) == Gate(cmds, secrets, idd, cmd, now)
  {
  }
}
