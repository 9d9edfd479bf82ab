/**
 * Two runs of the load-balancer test driven through the registry's methods,
 * as sequential calls: what the fairness check answers along the way.
 */
module Scenarios {
  import opened Wrappers
  import opened Token
  import opened Registry

  /** A container that sends no `Host` header is known by its body, trimmed. */
  lemma BodyIdentity()
    ensures Identity(Response("", Text(" C\n"))) == Some("C")
  {
    assert TrimOf(" C\n", 1, 2);
    IdentityFromBody("", " C\n", 1, 2);
    assert " C\n"[1..2] == "C";
  }

  /** The first six answers of a round over three replicas, A, B, A, C, B, A,
      interleaved with a failed request and a failed body read, which record
      nothing. Container C answers without a `Host` header. */
  method FirstSix(reg: SampleRegistry)
    requires reg.Valid() && reg.counts == map[]
    modifies reg
    ensures reg.Valid() && reg.counts == map["A" := 3, "B" := 2, "C" := 1]
  {
    BodyIdentity();
    reg.Sample(Response("A", ReadFailed));
    reg.Sample(RequestFailed);
    reg.Sample(Response("B", Text("ignored")));
    reg.Sample(Response("A", ReadFailed));
    reg.Sample(Response("", Text(" C\n")));
    reg.Sample(Response("", ReadFailed));
    reg.Sample(Response("B", ReadFailed));
    reg.Sample(Response("A", ReadFailed));
  }

  /** The round A, B, A, C, B, A, C, B over three replicas. After six answers C
      has been seen once; the seventh answer completes the round. */
  method RoundRobin() returns (afterSix: Verdict, afterSeven: Verdict, afterEight: Verdict)
    ensures afterSix == NotTwice("C")
    ensures afterSeven == Converged && afterEight == Converged
  {
    var reg := new SampleRegistry();
    FirstSix(reg);
    afterSix := reg.Check(3);
    BodyIdentity();
    reg.Sample(Response("", Text(" C\n")));
    afterSeven := reg.Check(3);
    reg.Sample(Response("B", ReadFailed));
    afterEight := reg.Check(3);
  }

  /** Four distinct containers where three are expected: the check reports the
      overshoot, cancels the shared context, and keeps doing so. */
  method TooManyContainers() returns (first: Verdict, second: Verdict, cancelled: bool)
    ensures first == Overshoot(3, 4) && second == Overshoot(3, 5)
    ensures cancelled
  {
    var reg := new SampleRegistry();
    reg.Record("A");
    reg.Record("B");
    reg.Record("C");
    reg.Record("D");
    assert |reg.counts| == 4;
    first := reg.Check(3);
    reg.Sample(Response("E", ReadFailed));
    assert |reg.counts| == 5;
    second := reg.Check(3);
    cancelled := reg.cancelled;
  }
}
