/**
 * The SPI transport seen from the driver: an ordered trace of register
 * writes `(addr, data)`. A transport may fail; from its first failure on,
 * every further write fails too, so a failure is fixed by the number of
 * writes that get through (`failAt`, or never when `None`).
 */
module Bus {
  import opened Wrappers
  import opened Words

  type Write = (B8, bv64)

  /** A driver error: the ID check failed, or the transport failed. */
  datatype GpuError = GpuNotDetected | Transport

  datatype Bus = Bus(trace: seq<Write>, failAt: Option<nat>)

  function Min(a: nat, b: nat): nat {
    if a < b then a else b
  }

  /** How many of the next `n` writes the transport accepts. */
  function Accepted(b: Bus, n: nat): (k: nat)
    ensures k <= n
    ensures b.failAt.None? ==> k == n
  {
    match b.failAt
    case None => n
    case Some(limit) => if limit <= |b.trace| then 0 else Min(n, limit - |b.trace|)
  }

  /** One register write: appended to the trace, or a transport error with no effect. */
  function WriteReg(b: Bus, addr: B8, data: bv64): (r: (Bus, Result<(), GpuError>))
    ensures r.1.Success? <==> Accepted(b, 1) == 1
    ensures r.1.Success? ==> r.0 == b.(trace := b.trace + [(addr, data)])
    ensures r.1.Failure? ==> r.0 == b && r.1.error == Transport
  {
    if b.failAt.Some? && b.failAt.value <= |b.trace| then (b, Failure(Transport))
    else (b.(trace := b.trace + [(addr, data)]), Success(()))
  }

  /**
   * A sequence of writes joined by `?`: performed in order up to the first
   * failure, which is returned. The trace gains exactly the accepted prefix.
   */
  function Run(b: Bus, script: seq<Write>): (r: (Bus, Result<(), GpuError>))
    ensures r.0 == b.(trace := b.trace + script[..Accepted(b, |script|)])
    ensures r.1 == if Accepted(b, |script|) == |script| then Success(()) else Failure(Transport)
    decreases |script|
  {
    if script == [] then (b, Success(()))
    else
      var (b1, res) := WriteReg(b, script[0].0, script[0].1);
      if res.Failure? then (b1, res)
      else
        var r := Run(b1, script[1..]);
        assert b1.trace + script[1..][..Accepted(b1, |script| - 1)]
            == b.trace + script[..Accepted(b, |script|)];
        r
  }

  /** What a script does, stated without recursion: the accepted prefix, and success iff that is all of it. */
  function Outcome(b: Bus, script: seq<Write>): (Bus, Result<(), GpuError>) {
    var k := Accepted(b, |script|);
    (b.(trace := b.trace + script[..k]), if k == |script| then Success(()) else Failure(Transport))
  }

  lemma RunOutcome(b: Bus, script: seq<Write>)
    ensures Run(b, script) == Outcome(b, script)
  {
  }

  /** A prefix that is refused in part leaves the rest refused. */
  lemma AcceptedStops(b: Bus, n1: nat, n2: nat)
    requires Accepted(b, n1) < n1
    ensures Accepted(b, n1 + n2) == Accepted(b, n1)
  {
  }

  /** After `n1` accepted writes, the transport goes on where it stood. */
  lemma AcceptedContinues(b: Bus, b2: Bus, n1: nat, n2: nat)
    requires Accepted(b, n1) == n1
    requires b2.failAt == b.failAt && |b2.trace| == |b.trace| + n1
    ensures Accepted(b, n1 + n2) == n1 + Accepted(b2, n2)
  {
  }

  /** The non-recursive reading of a concatenated script splits the same way. */
  lemma OutcomeAppend(b: Bus, s1: seq<Write>, s2: seq<Write>)
    ensures Outcome(b, s1 + s2)
      == (if Outcome(b, s1).1.Success? then Outcome(Outcome(b, s1).0, s2) else Outcome(b, s1))
  {
    var k1 := Accepted(b, |s1|);
    if k1 == |s1| {
      var b1 := b.(trace := b.trace + s1);
      var k2 := Accepted(b1, |s2|);
      assert s1[..k1] == s1;
      assert Outcome(b, s1).0 == b1;
      AcceptedContinues(b, b1, |s1|, |s2|);
      assert (s1 + s2)[..|s1| + k2] == s1 + s2[..k2];
      assert (b.trace + s1) + s2[..k2] == b.trace + (s1 + s2[..k2]);
    } else {
      AcceptedStops(b, |s1|, |s2|);
      assert (s1 + s2)[..k1] == s1[..k1];
    }
  }

  /** Performing two scripts one after the other is performing their concatenation. */
  lemma RunAppend(b: Bus, s1: seq<Write>, s2: seq<Write>)
    ensures Run(b, s1 + s2) == (if Run(b, s1).1.Success? then Run(Run(b, s1).0, s2) else Run(b, s1))
  {
    RunOutcome(b, s1);
    RunOutcome(b, s1 + s2);
    RunOutcome(Run(b, s1).0, s2);
    OutcomeAppend(b, s1, s2);
  }

  /** A failed script leaves a proper prefix of itself in the trace. */
  lemma FailureLeavesProperPrefix(b: Bus, script: seq<Write>)
    requires Run(b, script).1.Failure?
    ensures exists k :: 0 <= k < |script| && Run(b, script).0.trace == b.trace + script[..k]
  {
    var k := Accepted(b, |script|);
    assert Run(b, script).0.trace == b.trace + script[..k];
  }
}
