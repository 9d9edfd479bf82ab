/**
 * The sample registry of the external load-balancer test: a map from container
 * identity to the number of probes that container answered, filled by the
 * sampling loop, and the fairness check that decides from it whether the load
 * balancer has reached every replica at least twice.
 */
module Registry {
  import opened Wrappers
  import opened Token

  type Counts = map<string, nat>

  /** A container must have answered this many probes before the check passes. */
  const MinHits: nat := 2

  /** How many probes `t` has answered; an absent token has answered none. */
  function Hits(m: Counts, t: string): nat {
    if t in m then m[t] else 0
  }

  /** Every token in the registry has answered at least once. */
  predicate Positive(m: Counts) {
    forall t :: t in m ==> m[t] >= 1
  }

  /** The registry after one probe answered by `token`: a known token's count
      goes up by one, an unknown token is added with count 1. */
  function Recorded(m: Counts, token: string): Counts {
    if token in m then m[token := m[token] + 1] else m[token := 1]
  }

  /** Recording raises the recorded token's count by exactly one, leaves every
      other count alone, and adds at most that token to the distinct set. */
  lemma RecordedCounts(m: Counts, token: string)
    ensures Hits(Recorded(m, token), token) == Hits(m, token) + 1
    ensures forall t :: t != token ==> Hits(Recorded(m, token), t) == Hits(m, t)
    ensures Recorded(m, token).Keys == m.Keys + {token}
    ensures |Recorded(m, token)| == if token in m then |m| else |m| + 1
    ensures Positive(m) ==> Positive(Recorded(m, token))
  {
  }

  /** The registry after one probe, whatever its outcome. */
  function Step(m: Counts, p: Probe): Counts {
    match Identity(p)
    case None => m
    case Some(token) => Recorded(m, token)
  }

  /** The registry after a run of probes, in order. */
  function Tally(m: Counts, probes: seq<Probe>): Counts
    decreases |probes|
  {
    if |probes| == 0 then m else Tally(Step(m, probes[0]), probes[1..])
  }

  /** The tokens of the probes that recorded something, in order. */
  function Tokens(probes: seq<Probe>): seq<string> {
    if |probes| == 0 then []
    else
      var rest := Tokens(probes[1..]);
      match Identity(probes[0])
      case None => rest
      case Some(token) => [token] + rest
  }

  /** The registry counts every token exactly as often as probes yielded it. */
  lemma {:induction false} TallyHits(m: Counts, probes: seq<Probe>, t: string)
    ensures t in Tally(m, probes) <==> t in m || t in Tokens(probes)
    ensures Hits(Tally(m, probes), t) == Hits(m, t) + multiset(Tokens(probes))[t]
    decreases |probes|
  {
    if |probes| > 0 {
      if Identity(probes[0]).Some? {
        RecordedCounts(m, Identity(probes[0]).value);
      }
      TallyHits(Step(m, probes[0]), probes[1..], t);
    }
  }

  /** Probes only ever add tokens and raise counts: nothing is lost. */
  lemma {:induction false} TallyGrows(m: Counts, probes: seq<Probe>)
    ensures m.Keys <= Tally(m, probes).Keys
    ensures |m| <= |Tally(m, probes)|
    ensures forall t :: Hits(m, t) <= Hits(Tally(m, probes), t)
    ensures Positive(m) ==> Positive(Tally(m, probes))
    decreases |probes|
  {
    if |probes| > 0 {
      if Identity(probes[0]).Some? {
        RecordedCounts(m, Identity(probes[0]).value);
      }
      TallyGrows(Step(m, probes[0]), probes[1..]);
    }
  }

  /** Processing two runs of probes one after the other is processing their concatenation. */
  lemma {:induction false} TallyAppend(m: Counts, first: seq<Probe>, second: seq<Probe>)
    ensures Tally(m, first + second) == Tally(Tally(m, first), second)
    decreases |first|
  {
    if |first| > 0 {
      assert (first + second)[1..] == first[1..] + second;
      TallyAppend(Step(m, first[0]), first[1..], second);
    } else {
      assert first + second == second;
    }
  }

  /** The outcome of one fairness check. */
  datatype Verdict =
    | Overshoot(expected: int, got: nat)   // more distinct containers than replicas: never converges
    | TooFew(expected: int, got: nat)      // not every replica answered yet
    | NotTwice(name: string)               // this container answered fewer than MinHits probes
    | Converged

  /** The verdicts the check may return on registry `m`. Go's map iteration
      order is unspecified, so any under-sampled container may be named. */
  predicate Admits(m: Counts, replicas: int, v: Verdict) {
    if |m| > replicas then v == Overshoot(replicas, |m|)
    else if |m| < replicas then v == TooFew(replicas, |m|)
    else match v
      case NotTwice(name) => name in m && m[name] < MinHits
      case Converged => forall t :: t in m ==> m[t] >= MinHits
      case _ => false
  }

  /** The check is deterministic up to the container it names: two admitted
      verdicts on the same registry are of the same kind. */
  lemma AdmittedVerdictsAgree(m: Counts, replicas: int, v: Verdict, w: Verdict)
    requires Admits(m, replicas, v) && Admits(m, replicas, w)
    ensures v.Overshoot? == w.Overshoot? && v.TooFew? == w.TooFew?
    ensures v.NotTwice? == w.NotTwice? && v.Converged? == w.Converged?
  {
  }

  /** Convergence on the registry built from a run of probes means the probes
      reached exactly `replicas` distinct containers, each at least twice. */
  lemma ConvergedMeansEverySeenTwice(probes: seq<Probe>, replicas: int)
    requires Admits(Tally(map[], probes), replicas, Converged)
    ensures |set t | t in Tokens(probes)| == replicas
    ensures forall t :: t in Tokens(probes) ==> multiset(Tokens(probes))[t] >= MinHits
  {
    var m := Tally(map[], probes);
    forall t ensures t in m <==> t in Tokens(probes) {
      TallyHits(map[], probes, t);
    }
    assert m.Keys == set t | t in Tokens(probes);
    forall t | t in Tokens(probes) ensures multiset(Tokens(probes))[t] >= MinHits {
      TallyHits(map[], probes, t);
    }
  }

  /** Once there are more distinct containers than replicas, every later check
      is an overshoot: the distinct count never goes down. */
  lemma OvershootIsPermanent(m: Counts, probes: seq<Probe>, replicas: int, v: Verdict)
    requires |m| > replicas
    requires Admits(Tally(m, probes), replicas, v)
    ensures v == Overshoot(replicas, |Tally(m, probes)|)
  {
    TallyGrows(m, probes);
  }

  /** Once converged, further probes that only reach known containers keep the
      check converged. */
  lemma ConvergedIsStable(m: Counts, probes: seq<Probe>, replicas: int)
    requires Admits(m, replicas, Converged)
    requires forall t :: t in Tokens(probes) ==> t in m
    ensures Admits(Tally(m, probes), replicas, Converged)
  {
  }

  /** The `range` loop of the check: some container that answered fewer than
      MinHits probes, or None when every container answered at least MinHits. */
  method FindUnderSampled(m: Counts) returns (name: Option<string>)
    ensures name.Some? ==> name.value in m && m[name.value] < MinHits
    ensures name.None? ==> forall t :: t in m ==> m[t] >= MinHits
  {
    var unvisited := m.Keys;
    while unvisited != {}
      invariant unvisited <= m.Keys
      invariant forall t :: t in m && t !in unvisited ==> m[t] >= MinHits
      decreases unvisited
    {
      var t :| t in unvisited;
      if m[t] < MinHits {
        return Some(t);
      }
      unvisited := unvisited - {t};
    }
    return None;
  }

  /**
   * The registry shared by the sampling loop and the fairness check, with the
   * cancellation state of the context they share. The mutex around it is not
   * modelled: every call below is one critical section, and calls are sequential.
   */
  class SampleRegistry {
    var counts: Counts
    var cancelled: bool

    ghost predicate Valid()
      reads this`counts
    {
      Positive(counts)
    }

    constructor ()
      ensures Valid()
      ensures counts == map[] && !cancelled
    {
      counts := map[];
      cancelled := false;
    }

    /** Count one more probe answered by `token`. */
    method Record(token: string)
      requires Valid()
      modifies this`counts
      ensures Valid()
      ensures counts == Recorded(old(counts), token)
    {
      if token in counts {
        var count := counts[token];
        counts := counts[token := count + 1];
      } else {
        counts := counts[token := 1];
      }
    }

    /** One pass of the sampling loop's locked body: a failed request or a failed
        body read records nothing; otherwise the container's identity is recorded. */
    method Sample(p: Probe)
      requires Valid()
      modifies this`counts
      ensures Valid()
      ensures counts == Step(old(counts), p)
    {
      match p {
        case RequestFailed =>
          return;
        case Response(host, body) =>
          var name := host;
          if name == "" {
            match body {
              case ReadFailed =>
                return;
              case Text(text) =>
                name := TrimSpace(text);
            }
          }
          Record(name);
      }
    }

    /** The fairness check. An overshoot cancels the shared context; no verdict
        changes the registry. */
    method Check(replicas: int) returns (v: Verdict)
      requires Valid()
      modifies this`cancelled
      ensures Admits(counts, replicas, v)
      ensures v.NotTwice? ==> counts[v.name] == 1
      ensures cancelled == (old(cancelled) || |counts| > replicas)
      ensures counts == old(counts)
    {
      var c := |counts|;
      if c > replicas {
        cancelled := true;
        return Overshoot(replicas, c);
      }
      if c < replicas {
        return TooFew(replicas, c);
      }
      var under := FindUnderSampled(counts);
      if under.Some? {
        return NotTwice(under.value);
      }
      return Converged;
    }
  }
}
