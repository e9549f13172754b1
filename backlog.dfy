/**
 * The backlog of command invocations held back by `otpfilter`, and what a
 * successful OTP does to it in `callback_message` (otp.py:134-142): every entry
 * of the verified identity is replayed, in backlog order, and the others stay.
 *
 * The loop at otp.py:136-141 keeps an entry of another identity with
 * `new_blacklog.append(bl_idd, bl_msg, bl_cmd, bl_args)`; `list.append` takes one
 * argument, so that call raises `TypeError` and `self.backlog` is never
 * reassigned. `DrainAsWritten` is that behaviour, `Drain` the evident intent.
 */
module Backlog {

  import opened OtpTypes

  /** The entries of `idd`, in backlog order: what a successful OTP replays. */
  function Matching(b: seq<Entry>, idd: string): (r: seq<Entry>)
  {
    if b == [] then [] else (if b[0].idd == idd then [b[0]] else []) + Matching(b[1..], idd)
  }

  /** The entries of every other identity, in backlog order: what stays queued. */
  function Others(b: seq<Entry>, idd: string): (r: seq<Entry>)
  {
    if b == [] then [] else (if b[0].idd != idd then [b[0]] else []) + Others(b[1..], idd)
  }

  /**
   * Filtering commutes with enqueueing: entries queued later are replayed
   * (or kept) after the ones queued earlier.
   */
  lemma {:induction false} DrainAppend(b1: seq<Entry>, b2: seq<Entry>, idd: string)
    ensures Matching(b1 + b2, idd) == Matching(b1, idd) + Matching(b2, idd)
    ensures Others(b1 + b2, idd) == Others(b1, idd) + Others(b2, idd)
  {
    if b1 == [] {
      assert b1 + b2 == b2;
    } else {
      var rest := b1[1..];
      assert b1 == [b1[0]] + rest;
      assert b1 + b2 == [b1[0]] + (rest + b2);
      DrainAppend(rest, b2, idd);
      DrainCons(b1[0], rest + b2, idd);
      DrainCons(b1[0], rest, idd);
    }
  }

  lemma DrainCons(e: Entry, rest: seq<Entry>, idd: string)
    ensures Matching([e] + rest, idd) == (if e.idd == idd then [e] else []) + Matching(rest, idd)
    ensures Others([e] + rest, idd) == (if e.idd != idd then [e] else []) + Others(rest, idd)
  {
    assert ([e] + rest)[1..] == rest;
  }

  /** The drain replays only entries of `idd` and keeps only entries of other identities. */
  lemma {:induction false} DrainSelects(b: seq<Entry>, idd: string)
    ensures forall e :: e in Matching(b, idd) ==> e in b && e.idd == idd
    ensures forall e :: e in Others(b, idd) ==> e in b && e.idd != idd
  {
    if b != [] {
      DrainSelects(b[1..], idd);
      DrainCons(b[0], b[1..], idd);
      assert b == [b[0]] + b[1..];
    }
  }

  /** Draining loses and duplicates nothing: replayed and kept entries together are the old backlog. */
  lemma {:induction false} DrainPartitions(b: seq<Entry>, idd: string)
    ensures multiset(Matching(b, idd)) + multiset(Others(b, idd)) == multiset(b)
  {
    if b != [] {
      var rest := b[1..];
      DrainPartitions(rest, idd);
      assert b == [b[0]] + rest;
      DrainCons(b[0], rest, idd);
      assert multiset(b) == multiset{b[0]} + multiset(rest);
    }
  }

  /** No entry of the verified identity outlives the drain. */
  lemma {:induction false} DrainLeavesNoneOf(b: seq<Entry>, idd: string)
    ensures Matching(Others(b, idd), idd) == []
  {
    if b != [] {
      DrainLeavesNoneOf(b[1..], idd);
      if b[0].idd != idd {
        assert Others(b, idd) == [b[0]] + Others(b[1..], idd);
        DrainCons(b[0], Others(b[1..], idd), idd);
      } else {
        assert Others(b, idd) == Others(b[1..], idd);
      }
    }
  }

  /** Draining one identity leaves the pending entries of every other identity exactly as they were. */
  lemma {:induction false} DrainKeepsOthersPending(b: seq<Entry>, idd: string, other: string)
    requires other != idd
    ensures Matching(Others(b, idd), other) == Matching(b, other)
  {
    if b != [] {
      DrainKeepsOthersPending(b[1..], idd, other);
      if b[0].idd != idd {
        assert Others(b, idd) == [b[0]] + Others(b[1..], idd);
        DrainCons(b[0], Others(b[1..], idd), other);
      } else {
        assert Others(b, idd) == Others(b[1..], idd);
        assert Matching(b, other) == Matching(b[1..], other);
      }
    }
  }

  /**
   * Replay order: an invocation of `idd` queued before another one of `idd` is
   * replayed before it, whatever else is queued before, between or after them.
   */
  lemma ReplayInQueueOrder(b1: seq<Entry>, e1: Entry, b2: seq<Entry>, e2: Entry, b3: seq<Entry>, idd: string)
    requires e1.idd == idd && e2.idd == idd
    ensures Matching(b1 + [e1] + b2 + [e2] + b3, idd)
         == Matching(b1, idd) + [e1] + Matching(b2, idd) + [e2] + Matching(b3, idd)
  {
    DrainAppend(b1 + [e1] + b2 + [e2], b3, idd);
    DrainAppend(b1 + [e1] + b2, [e2], idd);
    DrainAppend(b1 + [e1], b2, idd);
    DrainAppend(b1, [e1], idd);
    assert Matching([e1], idd) == [e1];
    assert Matching([e2], idd) == [e2];
  }

  /** The longest prefix of the backlog made of entries of `idd`. */
  function LeadingRun(b: seq<Entry>, idd: string): (r: seq<Entry>)
    ensures |r| <= |b| && r == b[..|r|]
    ensures forall e :: e in r ==> e.idd == idd
    ensures |r| < |b| ==> b[|r|].idd != idd
  {
    if b != [] && b[0].idd == idd then [b[0]] + LeadingRun(b[1..], idd) else []
  }

  /** The leading run of `idd` ends at the first entry of another identity. */
  lemma {:induction false} LeadingRunIs(b: seq<Entry>, idd: string, n: nat)
    requires n <= |b|
    requires forall k :: 0 <= k < n ==> b[k].idd == idd
    requires n == |b| || b[n].idd != idd
    ensures LeadingRun(b, idd) == b[..n]
  {
    if n > 0 {
      LeadingRunIs(b[1..], idd, n - 1);
      assert b[..n] == [b[0]] + b[1..][..n - 1];
    }
  }

  /** What a drain replays, what it leaves as the backlog, and whether it raised. */
  datatype DrainOutcome = DrainOutcome(replayed: seq<Entry>, backlog: seq<Entry>, raised: bool)

  /** The drain as the intent of otp.py:135-142 is: replay `idd`'s entries, keep the rest. */
  function Drain(b: seq<Entry>, idd: string): DrainOutcome
  {
    DrainOutcome(Matching(b, idd), Others(b, idd), false)
  }

  /**
   * The drain as otp.py:135-142 is written: entries of `idd` are replayed until
   * the first entry of another identity, whose `append` raises; the backlog is
   * then left as it was. Only a backlog holding nothing but `idd`'s entries is
   * drained to empty.
   */
  function DrainAsWritten(b: seq<Entry>, idd: string): DrainOutcome
  {
    var run := LeadingRun(b, idd);
    if |run| < |b| then DrainOutcome(run, b, true) else DrainOutcome(run, [], false)
  }

  /** When every pending entry belongs to the verified identity, the code as written does what was meant. */
  lemma {:induction false} AsWrittenAgreesOnOneIdentity(b: seq<Entry>, idd: string)
    requires forall e :: e in b ==> e.idd == idd
    ensures DrainAsWritten(b, idd) == Drain(b, idd)
  {
    AllMatching(b, idd);
  }

  lemma {:induction false} AllMatching(b: seq<Entry>, idd: string)
    requires forall e :: e in b ==> e.idd == idd
    ensures LeadingRun(b, idd) == b && Matching(b, idd) == b && Others(b, idd) == []
  {
    if b != [] {
      assert forall e :: e in b[1..] ==> e in b;
      AllMatching(b[1..], idd);
    }
  }

  /**
   * Any pending entry of another identity makes the code as written raise and
   * keep the whole backlog, including the entries it has just replayed.
   */
  lemma AsWrittenRaisesOnOtherIdentity(b: seq<Entry>, idd: string, k: nat)
    requires k < |b| && b[k].idd != idd
    ensures DrainAsWritten(b, idd).raised
    ensures DrainAsWritten(b, idd).backlog == b
    ensures forall e :: e in DrainAsWritten(b, idd).replayed ==> e in b
  {
  }

  /**
   * The consequence: with an entry of `idd` queued before one of another
   * identity, two successful OTPs replay that entry twice, where the intended
   * drain replays it once and then has nothing left for `idd`.
   */
  lemma AsWrittenReplaysTwice(mine: Entry, theirs: Entry, idd: string)
    requires mine.idd == idd && theirs.idd != idd
    ensures var first := DrainAsWritten([mine, theirs], idd);
            var second := DrainAsWritten(first.backlog, idd);
            first.raised && second.raised && first.replayed + second.replayed == [mine, mine]
    ensures var first := Drain([mine, theirs], idd);
            var second := Drain(first.backlog, idd);
            first.replayed + second.replayed == [mine] && second.backlog == [theirs]
  {
    var b := [mine, theirs];
    assert b[1..] == [theirs] && [theirs][1..] == [];
    assert LeadingRun(b, idd) == [mine];
    assert DrainAsWritten(b, idd) == DrainOutcome([mine], b, true);
    assert b == [mine] + [theirs];
    DrainCons(theirs, [], idd);
    assert [theirs] + [] == [theirs];
    assert Matching([theirs], idd) == [] && Others([theirs], idd) == [theirs];
    DrainCons(mine, [theirs], idd);
    assert Matching(b, idd) == [mine] && Others(b, idd) == [theirs];
  }
}
