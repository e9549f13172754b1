/**
 * The OTP plugin object of otp.py:37-166: the protected-command set, the secret
 * table and the backlog, and the administrative commands, command filter and
 * message callback that change them. Each method is modelled as one atomic
 * step; the source's locking (otp.py:43-44) does not guarantee this.
 */
module Plugin {

  import opened Wrappers
  import opened PyInt
  import opened OtpTypes
  import opened Freshness
  import opened Backlog

  const CmdsHeader := "Commands with mandatory OTP:\n"
  const NoSecretText := "You need to contact your administrator to get an OTP token for those commands."
  const ExpiredText := "OTP expired, send an OTP directly to the bot to unlock this command."
  const VerifiedText := "OTP verified OK."

  /** `'\n'.join(lines)`. */
  function Join(lines: seq<string>): string
  {
    if |lines| == 0 then ""
    else if |lines| == 1 then lines[0]
    else Join(lines[..|lines| - 1]) + "\n" + lines[|lines| - 1]
  }

  lemma JoinSnoc(lines: seq<string>, last: string)
    ensures Join(lines + [last]) == if lines == [] then last else Join(lines) + "\n" + last
  {
    assert (lines + [last])[..|lines|] == lines;
  }

  /** `order` lists every element of `s` exactly once. */
  ghost predicate Enumerates(order: seq<string>, s: set<string>)
  {
    && (forall x :: x in order <==> x in s)
    && (forall i, j :: 0 <= i < j < |order| ==> order[i] != order[j])
  }

  /** The invocation `otpfilter` appends to the backlog (otp.py:162-163): only when the caller is stale. */
  function HeldBack(d: Decision, e: Entry): seq<Entry>
  {
    if d == Expired then [e] else []
  }

  /** The message `otpfilter` sends the caller when it suppresses the invocation (otp.py:156, otp.py:161). */
  function Challenge(d: Decision, frm: Sender): seq<Notice>
  {
    match d
    case Allow => []
    case NoSecret => [Text(frm, NoSecretText)]
    case Expired => [Text(frm, ExpiredText)]
  }

  /** What the command filter hands back to the dispatcher: the invocation unchanged, or `(None, None, None)`. */
  datatype FilterResult =
    | Pass(msg: Message, cmd: string, args: string)
    | Suppress

  class Otp {
    /** `self['cmds']`: the commands that need a fresh OTP. */
    var cmds: set<string>
    /** `self['secrets']`: identity to `(secret, attempts, last_verified)`. */
    var secrets: map<string, SecretRecord>
    /** `self.backlog`: invocations held back until their caller sends a valid OTP. */
    var backlog: seq<Entry>
    /** The invocations handed to the bot's dispatcher for replay, in order. */
    ghost var replayed: seq<Entry>
    /** Every invocation ever put in the backlog, in order. */
    ghost var enqueued: seq<Entry>
    /** Every message the plugin sent, in order. */
    ghost var outbox: seq<Notice>

    /**
     * Each held-back invocation is either still pending or has been replayed,
     * exactly once; and each is filed under the identity of its own message.
     */
    ghost predicate Valid()
      reads this
    {
      && multiset(backlog) + multiset(replayed) == multiset(enqueued)
      && forall e :: e in backlog ==> e.idd == Ident(e.msg)
    }

    /** The plugin as `__init__` and `activate` leave it (otp.py:40-44, otp.py:56-61). */
    constructor ()
      ensures Valid()
      ensures cmds == {} && secrets == map[] && backlog == []
      ensures replayed == [] && enqueued == [] && outbox == []
    {
      cmds, secrets, backlog := {}, map[], [];
      replayed, enqueued, outbox := [], [], [];
    }

    /** `otp_zapall`: forget every protected command and every secret; the backlog is not touched. */
    method ZapAll()
      requires Valid()
      modifies this`cmds, this`secrets
      ensures Valid()
      ensures cmds == {} && secrets == map[]
    {
      cmds := {};
      secrets := map[];
    }

    /** `otp_addcmd`: flag `name` as needing a fresh OTP. */
    method AddCmd(name: string) returns (reply: string)
      requires Valid()
      modifies this`cmds
      ensures Valid()
      ensures cmds == old(cmds) + {name}
      ensures reply == "Added '" + name + "' to OTP only commands."
    {
      cmds := cmds + {name};
      reply := "Added '" + name + "' to OTP only commands.";
    }

    /** `otp_delcmd`: unflag `name`, or say that it was not flagged. */
    method DelCmd(name: string) returns (reply: string)
      requires Valid()
      modifies this`cmds
      ensures Valid()
      ensures name !in old(cmds) ==> cmds == old(cmds) && reply == name + " is not in the list of OTPed commands"
      ensures name in old(cmds) ==> cmds == old(cmds) - {name} && reply == "Removed '" + name + "' from OTP only commands."
    {
      if name !in cmds {
        reply := name + " is not in the list of OTPed commands";
        return;
      }
      cmds := cmds - {name};
      reply := "Removed '" + name + "' from OTP only commands.";
    }

    /**
     * `otp_cmds`: the header, then every protected command on a line of its own,
     * each exactly once, in the set's iteration order (which Python leaves open).
     */
    method Cmds() returns (reply: string, ghost order: seq<string>)
      ensures Enumerates(order, cmds)
      ensures reply == CmdsHeader + Join(order)
    {
      var rest := cmds;
      var lines := "";
      order := [];
      while rest != {}
        invariant rest <= cmds
        invariant forall x :: x in order <==> x in cmds && x !in rest
        invariant forall i, j :: 0 <= i < j < |order| ==> order[i] != order[j]
        invariant lines == Join(order)
        invariant order == [] <==> rest == cmds
        decreases rest
      {
        var c :| c in rest;
        assert c !in order;
        JoinSnoc(order, c);
        lines := if rest == cmds then c else lines + "\n" + c;
        order := order + [c];
        rest := rest - {c};
      }
      reply := CmdsHeader + lines;
    }

    /**
     * `otp_secret`: file `newSecret` (a fresh `pyotp.random_base32()`) for `idd`
     * as never verified, replacing any earlier record, and send the provisioning code.
     */
    method Secret(idd: string, newSecret: string) returns (reply: string)
      requires Valid()
      modifies this`secrets, this`outbox
      ensures Valid()
      ensures secrets == old(secrets)[idd := Granted(newSecret)]
      ensures outbox == old(outbox) + [Provisioning(idd, newSecret)]
      ensures reply == "New secret set for " + idd + " and message sent."
    {
      secrets := secrets[idd := Granted(newSecret)];
      outbox := outbox + [Provisioning(idd, newSecret)];
      reply := "New secret set for " + idd + " and message sent.";
    }

    /** `otp_reset`: the same as `otp_secret`. */
    method Reset(idd: string, newSecret: string) returns (reply: string)
      requires Valid()
      modifies this`secrets, this`outbox
      ensures Valid()
      ensures secrets == old(secrets)[idd := Granted(newSecret)]
      ensures outbox == old(outbox) + [Provisioning(idd, newSecret)]
      ensures reply == "New secret set for " + idd + " and message sent."
    {
      reply := Secret(idd, newSecret);
    }

    /**
     * `otpfilter`: let an invocation through, or suppress it; a caller with a
     * secret but no verification in the last day also has it held back. The
     * source ignores `dry_run`, so a dry run queues the invocation all the same.
     */
    method OtpFilter(msg: Message, cmd: string, args: string, dryRun: bool, now: Instant) returns (r: FilterResult)
      requires Valid()
      modifies this`backlog, this`enqueued, this`outbox
      ensures Valid()
      ensures r == (if Gate(cmds, secrets, Ident(msg), cmd, now) == Allow then Pass(msg, cmd, args) else Suppress)
      ensures backlog == old(backlog) + HeldBack(Gate(cmds, secrets, Ident(msg), cmd, now), Entry(Ident(msg), msg, cmd, args))
      ensures enqueued == old(enqueued) + HeldBack(Gate(cmds, secrets, Ident(msg), cmd, now), Entry(Ident(msg), msg, cmd, args))
      ensures outbox == old(outbox) + Challenge(Gate(cmds, secrets, Ident(msg), cmd, now), msg.frm)
    {
      if cmd in cmds {
        var idd := Ident(msg);
        if idd !in secrets {
          outbox := outbox + [Text(msg.frm, NoSecretText)];
          return Suppress;
        }
        var lastOtp := secrets[idd].lastVerified;
        if now - lastOtp > OtpExpiration {
          var e := Entry(idd, msg, cmd, args);
          outbox := outbox + [Text(msg.frm, ExpiredText)];
          backlog := backlog + [e];
          enqueued := enqueued + [e];
          assert multiset(backlog) == multiset(old(backlog)) + multiset{e};
          assert multiset(enqueued) == multiset(old(enqueued)) + multiset{e};
          return Suppress;
        }
      }
      r := Pass(msg, cmd, args);
    }

    /**
     * `callback_message`: a direct message whose body is an integer that the
     * TOTP library accepts for the sender's secret (`totpValid`, standing for
     * `pyotp.TOTP(secret).verify(code)` at `now`) marks the sender verified now
     * and replays the sender's held-back invocations; any other message changes nothing.
     * The drain is the intended one (`DrainBacklog`): as written, otp.py:141 raises
     * at the first entry of another identity (see `DrainBacklogAsWritten`).
     */
    method CallbackMessage(msg: Message, now: Instant, totpValid: (string, int, Instant) -> bool)
      requires Valid()
      modifies this`secrets, this`backlog, this`replayed, this`outbox
      ensures Valid()
      ensures var idd := Ident(msg); var code := ParseInt(msg.body);
        if msg.kind == "groupchat" || code.None? || idd !in old(secrets)
           || !totpValid(old(secrets)[idd].secret, code.value, now)
        then
          && secrets == old(secrets) && backlog == old(backlog)
          && replayed == old(replayed) && outbox == old(outbox)
        else
          && secrets == old(secrets)[idd := Verified(old(secrets)[idd], now)]
          && backlog == Drain(old(backlog), idd).backlog
          && replayed == old(replayed) + Drain(old(backlog), idd).replayed
          && outbox == old(outbox) + [Text(msg.frm, VerifiedText)]
      ensures |old(replayed)| <= |replayed|
      ensures forall e :: e in replayed[|old(replayed)|..] ==> Ident(e.msg) == Ident(msg)
    {
      if msg.kind == "groupchat" {
        return;
      }
      var code := ParseInt(msg.body);
      if code.None? {
        return;
      }
      var idd := Ident(msg);
      if idd !in secrets {
        return;
      }
      var rec := secrets[idd];
      if totpValid(rec.secret, code.value, now) {
        outbox := outbox + [Text(msg.frm, VerifiedText)];
        secrets := secrets[idd := Verified(rec, now)];
        DrainBacklog(idd);
      }
    }

    /**
     * The drain of otp.py:134-142 as intended: replay `idd`'s entries in order, keep
     * the others. Since entries are filed under their own message's identity, what
     * is replayed is exactly the invocations whose sender is `idd`.
     */
    method DrainBacklog(idd: string)
      requires Valid()
      modifies this`backlog, this`replayed
      ensures Valid()
      ensures backlog == Drain(old(backlog), idd).backlog
      ensures replayed == old(replayed) + Drain(old(backlog), idd).replayed
      ensures forall e :: e in Drain(old(backlog), idd).replayed ==> Ident(e.msg) == idd
      ensures forall e :: e in backlog ==> Ident(e.msg) != idd
    {
      var kept;
      ghost var fired;
      kept, fired := SplitBacklog(backlog, idd);
      DrainPartitions(backlog, idd);
      DrainSelects(backlog, idd);
      backlog := kept;
      replayed := replayed + fired;
    }

    /**
     * The drain of otp.py:134-142 as written: `idd`'s entries are replayed up to
     * the first entry of another identity, where `list.append` raises `TypeError`
     * (`raised`) and `self.backlog` keeps every entry, the replayed ones included.
     * This breaks `Valid()`: those entries will be replayed again.
     */
    method DrainBacklogAsWritten(idd: string) returns (raised: bool)
      modifies this`backlog, this`replayed
      ensures backlog == DrainAsWritten(old(backlog), idd).backlog
      ensures replayed == old(replayed) + DrainAsWritten(old(backlog), idd).replayed
      ensures raised == DrainAsWritten(old(backlog), idd).raised
    {
      var i := 0;
      while i < |backlog|
        invariant i <= |backlog| && backlog == old(backlog)
        invariant forall k :: 0 <= k < i ==> backlog[k].idd == idd
        invariant replayed == old(replayed) + backlog[..i]
      {
        var e := backlog[i];
        if e.idd != idd {
          LeadingRunIs(backlog, idd, i);
          return true;
        }
        assert backlog[..i + 1] == backlog[..i] + [e];
        replayed := replayed + [e];
        i := i + 1;
      }
      LeadingRunIs(backlog, idd, i);
      assert backlog[..i] == backlog;
      backlog := [];
      raised := false;
    }
  }

  /**
   * A client of the contracts above, in three steps. First an administrator
   * protects `deploy` and Alice, who has no secret, is refused without
   * anything being queued.
   */
  method DeployScenarioRefused(invocation: Message, args: string, t0: Instant) returns (otp: Otp)
    requires Ident(invocation) == "alice"
    ensures otp.Valid() && otp.cmds == {"deploy"} && otp.secrets == map[]
    ensures otp.backlog == [] && otp.replayed == []
  {
    otp := new Otp();
    var reply := otp.AddCmd("deploy");
    assert Gate(otp.cmds, otp.secrets, "alice", "deploy", t0) == NoSecret;
    var r := otp.OtpFilter(invocation, "deploy", args, false, t0);
    assert r == Suppress;
  }

  /** Then Alice is granted a secret; her next `deploy` is held back and queued. */
  method DeployScenarioQueued(otp: Otp, invocation: Message, args: string, secret: string, t0: Instant)
    requires otp.Valid() && otp.cmds == {"deploy"} && otp.secrets == map[]
    requires otp.backlog == [] && otp.replayed == []
    requires Ident(invocation) == "alice" && t0 > OtpExpiration
    modifies otp
    ensures otp.Valid() && otp.cmds == {"deploy"} && otp.secrets == map["alice" := Granted(secret)]
    ensures otp.backlog == [Entry("alice", invocation, "deploy", args)] && otp.replayed == []
  {
    var reply := otp.Secret("alice", secret);
    GrantedIsStale(otp.cmds, map[], "alice", secret, "deploy", t0);
    var r := otp.OtpFilter(invocation, "deploy", args, false, t0);
    assert r == Suppress;
  }

  /**
   * The rest of that scenario: Alice's valid code replays the queued `deploy`
   * exactly once with its original arguments, after which `deploy` passes.
   */
  method DeployScenarioReplay(otp: Otp, codeMsg: Message, invocation: Message, args: string, secret: string, t1: Instant,
                              totpValid: (string, int, Instant) -> bool)
    requires otp.Valid() && otp.cmds == {"deploy"} && otp.secrets == map["alice" := Granted(secret)]
    requires otp.backlog == [Entry("alice", invocation, "deploy", args)] && otp.replayed == []
    requires Ident(codeMsg) == "alice" && codeMsg.kind == "chat" && Ident(invocation) == "alice"
    requires ParseInt(codeMsg.body).Some? && totpValid(secret, ParseInt(codeMsg.body).value, t1)
    modifies otp
  {
    var queued := Entry("alice", invocation, "deploy", args);
    DrainCons(queued, [], "alice");
    assert [queued] + [] == [queued];
    assert Drain([queued], "alice") == DrainOutcome([queued], [], false);
    otp.CallbackMessage(codeMsg, t1, totpValid);
    assert otp.backlog == [] && otp.replayed == [queued];
    var r := otp.OtpFilter(invocation, "deploy", args, false, t1 + 1);
    assert r == Pass(invocation, "deploy", args);
  }

  /**
   * The loop of otp.py:135-141 as intended: walk the backlog once, handing each
   * entry of `idd` to the dispatcher (`fired`, in order) and keeping every other
   * entry (`kept`, in order).
   */
  method SplitBacklog(b: seq<Entry>, idd: string) returns (kept: seq<Entry>, ghost fired: seq<Entry>)
    ensures kept == Others(b, idd) && fired == Matching(b, idd)
  {
    kept, fired := [], [];
    var i := 0;
    while i < |b|
      invariant i <= |b|
      invariant kept == Others(b[..i], idd)
      invariant fired == Matching(b[..i], idd)
    {
      var e := b[i];
      assert b[..i + 1] == b[..i] + [e];
      DrainAppend(b[..i], [e], idd);
      DrainCons(e, [], idd);
      assert [e] + [] == [e];
      if e.idd == idd {
        fired := fired + [e];
      } else {
        kept := kept + [e];
      }
      i := i + 1;
    }
    assert b[..i] == b;
  }
}
