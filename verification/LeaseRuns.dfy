/** Runs of the lease protocol: any interleaving of claims, renewals, expiries, submissions,
    acceptances, revocations, cancellations, graph commits and worker registration changes. */
module LeaseRuns {
  import opened LeaseRows
  import opened LeaseProtocol
  import opened LeaseInvariant
  import opened LeaseSteps
  import opened LeaseHistory

  // ---- runs ----

  ghost predicate RunStep(cfg: Config, states: seq<Db>, ops: seq<Op>, i: nat)
    requires |states| == |ops| + 1 && i < |ops|
  {
    Admissible(states[i], ops[i]) && states[i + 1] == Apply(cfg, states[i], ops[i]).db
  }

  /** `ops` drives the database through `states`, starting with nothing leased. */
  ghost predicate Run(cfg: Config, states: seq<Db>, ops: seq<Op>) {
    && |states| == |ops| + 1
    && Pristine(states[0])
    && forall i :: 0 <= i < |ops| ==> RunStep(cfg, states, ops, i)
  }

  lemma {:induction false} RunInv(cfg: Config, states: seq<Db>, ops: seq<Op>, i: nat)
    requires Run(cfg, states, ops) && i <= |ops|
    ensures Inv(cfg, states[i])
  {
    if i == 0 {
      PristineIsInv(cfg, states[0]);
    } else {
      RunInv(cfg, states, ops, i - 1);
      assert RunStep(cfg, states, ops, i - 1);
      StepKeepsInv(cfg, states[i - 1], ops[i - 1]);
    }
  }

  lemma {:induction false} RunLater(cfg: Config, states: seq<Db>, ops: seq<Op>, i: nat, j: nat)
    requires Run(cfg, states, ops) && i <= j <= |ops|
    ensures Later(states[i], states[j])
    decreases j
  {
    if i == j {
      LaterReflexive(states[i]);
    } else {
      RunLater(cfg, states, ops, i, j - 1);
      RunInv(cfg, states, ops, j - 1);
      assert RunStep(cfg, states, ops, j - 1);
      StepIsLater(cfg, states[j - 1], ops[j - 1]);
      LaterTransitive(states[i], states[j - 1], states[j]);
    }
  }
}
