/**
  The runtime comparison page's reading of one benchmark run: for each of the
  three averaged timings, the percentage by which gVisor differs from Docker,
  and the sentence that calls gVisor "slower" or "faster" than Docker.
*/
module RuntimeComparison {

  /** The averages the comparison endpoint reports for one runtime, in ms. */
  datatype RuntimeAverages = RuntimeAverages(avgInitTimeMs: real, avgExecTimeMs: real, avgTotalTimeMs: real)

  /** The three timings compared, in the order of the page's tabs. */
  datatype Phase = Init | Exec | Total

  function Average(r: RuntimeAverages, p: Phase): real
  {
    match p
    case Init => r.avgInitTimeMs
    case Exec => r.avgExecTimeMs
    case Total => r.avgTotalTimeMs
  }

  /** The percentage by which `gvisor` differs from the `docker` baseline,
      0 when the baseline is 0: applying the percentage to a non-zero baseline
      gives back `gvisor`. */
  function PercentDelta(docker: real, gvisor: real): (delta: real)
    ensures docker == 0.0 ==> delta == 0.0
    ensures docker != 0.0 ==> docker + docker * delta / 100.0 == gvisor
  {
    if docker != 0.0 then ((gvisor - docker) / docker) * 100.0 else 0.0
  }

  datatype Direction = Slower | Faster

  /** "gVisor ... is `percent`% slower/faster than Docker". */
  datatype Verdict = Verdict(direction: Direction, percent: real)

  /** The signed difference a verdict speaks for: positive when it says slower. */
  function Signed(v: Verdict): real
  {
    if v.direction == Slower then v.percent else -v.percent
  }

  /** The sentence for a difference: "slower" exactly when it is positive,
      "faster" otherwise (a zero difference too), with its absolute value. */
  function Describe(diff: real): (v: Verdict)
    ensures v.percent >= 0.0
    ensures v.direction == Slower <==> diff > 0.0
    ensures Signed(v) == diff
  {
    if diff > 0.0 then Verdict(Slower, diff) else Verdict(Faster, if diff < 0.0 then -diff else diff)
  }

  /** What the page shows for one phase: the delta and its sentence. */
  datatype PhaseReport = PhaseReport(phase: Phase, delta: real, verdict: Verdict)

  function ComparePhase(docker: RuntimeAverages, gvisor: RuntimeAverages, p: Phase): (r: PhaseReport)
    ensures r.phase == p
    ensures Average(docker, p) == 0.0 ==> r.delta == 0.0
    ensures Average(docker, p) != 0.0 ==>
              Average(docker, p) + Average(docker, p) * r.delta / 100.0 == Average(gvisor, p)
    ensures Signed(r.verdict) == r.delta
  {
    var delta := PercentDelta(Average(docker, p), Average(gvisor, p));
    PhaseReport(p, delta, Describe(delta))
  }

  /** The three phase reports of a benchmark, initialisation, execution, total. */
  function Compare(docker: RuntimeAverages, gvisor: RuntimeAverages): (rs: seq<PhaseReport>)
    ensures |rs| == 3 && rs[0].phase == Init && rs[1].phase == Exec && rs[2].phase == Total
    ensures forall i :: 0 <= i < |rs| ==> rs[i] == ComparePhase(docker, gvisor, rs[i].phase)
  {
    [ComparePhase(docker, gvisor, Init), ComparePhase(docker, gvisor, Exec), ComparePhase(docker, gvisor, Total)]
  }

  /** Against a positive baseline the delta has the sign of gVisor's excess time. */
  lemma DeltaSign(docker: real, gvisor: real)
    requires docker > 0.0
    ensures PercentDelta(docker, gvisor) > 0.0 <==> gvisor > docker
    ensures PercentDelta(docker, gvisor) == 0.0 <==> gvisor == docker
    ensures PercentDelta(docker, gvisor) < 0.0 <==> gvisor < docker
  {
    var delta := PercentDelta(docker, gvisor);
    assert docker * delta / 100.0 == gvisor - docker;
    assert docker * delta == 100.0 * (gvisor - docker);
    if delta > 0.0 {
      assert docker * delta > 0.0;
    } else if delta < 0.0 {
      assert docker * delta < 0.0;
    }
  }

  /** With a positive Docker average, a phase reads "slower" exactly when
      gVisor's average is larger, and "faster" with 0% when they are equal. */
  lemma SlowerIffLonger(docker: RuntimeAverages, gvisor: RuntimeAverages, p: Phase)
    requires Average(docker, p) > 0.0
    ensures (ComparePhase(docker, gvisor, p).verdict.direction == Slower) == (Average(gvisor, p) > Average(docker, p))
    ensures Average(gvisor, p) == Average(docker, p) ==>
              ComparePhase(docker, gvisor, p).verdict == Verdict(Faster, 0.0)
  {
    DeltaSign(Average(docker, p), Average(gvisor, p));
  }

  /** With a zero Docker average the delta is 0 and the phase reads "0% faster",
      whatever gVisor's average is. */
  lemma ZeroBaselineReadsFaster(docker: RuntimeAverages, gvisor: RuntimeAverages, p: Phase)
    requires Average(docker, p) == 0.0
    ensures ComparePhase(docker, gvisor, p) == PhaseReport(p, 0.0, Verdict(Faster, 0.0))
  {
  }

  /** A Docker average of 100 ms against gVisor averages of 150 ms and 80 ms. */
  lemma DeltaExamples()
    ensures PercentDelta(100.0, 150.0) == 50.0 && Describe(PercentDelta(100.0, 150.0)) == Verdict(Slower, 50.0)
    ensures PercentDelta(100.0, 80.0) == -20.0 && Describe(PercentDelta(100.0, 80.0)) == Verdict(Faster, 20.0)
    ensures PercentDelta(0.0, 80.0) == 0.0
  {
  }

  /** Across the whole report: where Docker's average is positive, each
      phase's sentence says "slower" exactly when gVisor's average is larger. */
  lemma CompareDirections(docker: RuntimeAverages, gvisor: RuntimeAverages)
    ensures forall r :: r in Compare(docker, gvisor) && Average(docker, r.phase) > 0.0 ==>
              (r.verdict.direction == Slower) == (Average(gvisor, r.phase) > Average(docker, r.phase))
  {
    forall p: Phase | Average(docker, p) > 0.0
      ensures (ComparePhase(docker, gvisor, p).verdict.direction == Slower) == (Average(gvisor, p) > Average(docker, p))
    {
      SlowerIffLonger(docker, gvisor, p);
    }
  }
}
