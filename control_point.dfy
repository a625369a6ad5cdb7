/**
 * The Fitness Machine Control Point write protocol the client follows to set an
 * ERG target (section 4.16 of the Bluetooth Fitness Machine Service 1.0
 * specification): command sequences tried in order, each write awaited before
 * the next, a sequence abandoned at its first rejected write, and the call
 * done at the first sequence whose writes are all accepted.
 *
 * The trainer's answers are an oracle: `replies[n]` says whether the n-th
 * write of the call is accepted; writes past its end are rejected.
 */
module ControlPoint {
  import opened Wrappers
  import opened Bytes
  import opened Constants

  type Command = seq<byte>

  const RequestControl: Command := [OpRequestControl as byte]
  const StartResume: Command := [OpStartResume as byte]

  /**
   * The sequences `set_target_power` tries: request control, start/resume and the
   * target; request control and the target; the target alone.
   */
  function ErgSequences(setTarget: Command): (seqs: seq<seq<Command>>)
    ensures |seqs| == 3 && forall k :: 0 <= k < 3 ==> |seqs[k]| > 0 && seqs[k][|seqs[k]| - 1] == setTarget
  {
    [[RequestControl, StartResume, setTarget], [RequestControl, setTarget], [setTarget]]
  }

  /**
   * The opcodes on the wire: request control 0x00 and start/resume 0x07 open the
   * first sequence, request control opens the second; reset is 0x01 and set
   * target power 0x05.
   */
  lemma ErgOpcodes(setTarget: Command)
    ensures ErgSequences(setTarget)[0][0] == [0x00] && ErgSequences(setTarget)[0][1] == [0x07]
    ensures ErgSequences(setTarget)[1][0] == [0x00]
    ensures OpReset == 0x01 && OpSetTargetPower == 0x05
  {
  }

  /** The n-th write of the call is accepted. */
  predicate Accepted(replies: seq<bool>, n: nat) { n < |replies| && replies[n] }

  /** Every write of `cmds`, made from write number `start` on, is accepted. */
  predicate AllAccepted(cmds: seq<Command>, replies: seq<bool>, start: nat) {
    forall n :: start <= n < start + |cmds| ==> Accepted(replies, n)
  }

  /**
   * The writes a sequence makes from its `i`-th command on: up to and including
   * the first rejected one, or all of them.
   */
  function WritesMade(cmds: seq<Command>, replies: seq<bool>, start: nat, i: nat): (n: nat)
    requires i <= |cmds|
    decreases |cmds| - i
    ensures i <= n <= |cmds|
  {
    if i == |cmds| then i
    else if !Accepted(replies, start + i) then i + 1
    else WritesMade(cmds, replies, start, i + 1)
  }

  /** The writes of a call and the index of the sequence that succeeded, if any. */
  datatype Outcome = Outcome(written: seq<Command>, succeeded: Option<nat>)

  /** Sequences from `k` on, the first of them starting at write number `start`. */
  function Protocol(seqs: seq<seq<Command>>, k: nat, replies: seq<bool>, start: nat): Outcome
    requires k <= |seqs|
    decreases |seqs| - k
  {
    if k == |seqs| then Outcome([], None)
    else if AllAccepted(seqs[k], replies, start) then Outcome(seqs[k], Some(k))
    else
      var n := WritesMade(seqs[k], replies, start, 0);
      var rest := Protocol(seqs, k + 1, replies, start + n);
      Outcome(seqs[k][..n] + rest.written, rest.succeeded)
  }

  /**
   * A sequence stops exactly at its first rejected write: every earlier write is
   * accepted, and the last one made is rejected unless all were accepted.
   */
  lemma {:induction false} WritesMadeStop(cmds: seq<Command>, replies: seq<bool>, start: nat, i: nat)
    requires i <= |cmds|
    requires forall m :: start <= m < start + i ==> Accepted(replies, m)
    decreases |cmds| - i
    ensures var n := WritesMade(cmds, replies, start, i);
      (forall m :: start <= m < start + n - 1 ==> Accepted(replies, m)) &&
      (AllAccepted(cmds, replies, start) ==> n == |cmds|) &&
      (!AllAccepted(cmds, replies, start) ==> n >= 1 && !Accepted(replies, start + n - 1))
  {
    if i < |cmds| && Accepted(replies, start + i) {
      WritesMadeStop(cmds, replies, start, i + 1);
    }
  }

  /**
   * The call succeeds with sequence `j` only after all its writes were
   * accepted, and they are the last writes made: nothing is written after the
   * succeeding sequence.
   */
  lemma {:induction false} ProtocolSuccess(seqs: seq<seq<Command>>, k: nat, replies: seq<bool>, start: nat)
    requires k <= |seqs|
    decreases |seqs| - k
    ensures var o := Protocol(seqs, k, replies, start);
      o.succeeded.Some? ==>
        k <= o.succeeded.value < |seqs| && |seqs[o.succeeded.value]| <= |o.written| &&
        o.written[|o.written| - |seqs[o.succeeded.value]|..] == seqs[o.succeeded.value] &&
        AllAccepted(seqs[o.succeeded.value], replies, start + |o.written| - |seqs[o.succeeded.value]|)
  {
    if k < |seqs| && !AllAccepted(seqs[k], replies, start) {
      var n := WritesMade(seqs[k], replies, start, 0);
      ProtocolSuccess(seqs, k + 1, replies, start + n);
      var rest := Protocol(seqs, k + 1, replies, start + n);
      var o := Protocol(seqs, k, replies, start);
      if rest.succeeded.Some? {
        var s := seqs[rest.succeeded.value];
        assert o.written[|o.written| - |s|..] == rest.written[|rest.written| - |s|..];
      }
    }
  }

  /** A call that fails ends on a rejected write. */
  lemma {:induction false} ProtocolFailure(seqs: seq<seq<Command>>, k: nat, replies: seq<bool>, start: nat)
    requires k <= |seqs|
    requires forall j :: k <= j < |seqs| ==> |seqs[j]| > 0
    decreases |seqs| - k
    ensures var o := Protocol(seqs, k, replies, start);
      o.succeeded.None? && k < |seqs| ==> |o.written| > 0 && !Accepted(replies, start + |o.written| - 1)
  {
    if k < |seqs| && !AllAccepted(seqs[k], replies, start) {
      var n := WritesMade(seqs[k], replies, start, 0);
      WritesMadeStop(seqs[k], replies, start, 0);
      ProtocolFailure(seqs, k + 1, replies, start + n);
      var rest := Protocol(seqs, k + 1, replies, start + n);
      var o := Protocol(seqs, k, replies, start);
      if rest.succeeded.None? {
        if k + 1 == |seqs| {
          assert o.written == seqs[k][..n];
        } else {
          assert o.written[|o.written| - 1] == rest.written[|rest.written| - 1];
        }
      }
    }
  }

  /** When every write of a sequence is accepted, it is the one that succeeds and nothing follows it. */
  lemma FirstAcceptedSequenceWins(seqs: seq<seq<Command>>, k: nat, replies: seq<bool>, start: nat)
    requires k < |seqs| && AllAccepted(seqs[k], replies, start)
    ensures Protocol(seqs, k, replies, start) == Outcome(seqs[k], Some(k))
  {
  }

  /** With the trainer accepting everything the first sequence is written and succeeds. */
  lemma ErgAllAccepted(setTarget: Command)
    ensures Protocol(ErgSequences(setTarget), 0, [true, true, true], 0) ==
      Outcome([RequestControl, StartResume, setTarget], Some(0))
  {
    assert AllAccepted(ErgSequences(setTarget)[0], [true, true, true], 0);
  }

  /** A rejected start/resume write falls back to the second sequence, which succeeds. */
  lemma ErgStartResumeRejected(setTarget: Command)
    ensures Protocol(ErgSequences(setTarget), 0, [true, false, true, true], 0) ==
      Outcome([RequestControl, StartResume, RequestControl, setTarget], Some(1))
  {
    var seqs := ErgSequences(setTarget);
    var replies := [true, false, true, true];
    assert !Accepted(replies, 1);
    assert WritesMade(seqs[0], replies, 0, 0) == 2;
    assert AllAccepted(seqs[1], replies, 2);
    assert seqs[0][..2] == [RequestControl, StartResume];
  }

  /** A trainer that rejects every write gets the first command of each sequence, and the call fails. */
  lemma ErgAllRejected(setTarget: Command)
    ensures Protocol(ErgSequences(setTarget), 0, [], 0) ==
      Outcome([RequestControl, RequestControl, setTarget], None)
  {
    var seqs := ErgSequences(setTarget);
    assert !Accepted([], 0) && !Accepted([], 1) && !Accepted([], 2);
    assert WritesMade(seqs[0], [], 0, 0) == 1 && WritesMade(seqs[1], [], 1, 0) == 1 && WritesMade(seqs[2], [], 2, 0) == 1;
    assert seqs[0][..1] == [RequestControl] && seqs[1][..1] == [RequestControl] && seqs[2][..1] == [setTarget];
    assert Protocol(seqs, 2, [], 2) == Outcome([setTarget], None);
    assert Protocol(seqs, 1, [], 1) == Outcome([RequestControl, setTarget], None);
  }
}
