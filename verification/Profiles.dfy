/** Capability profiles: what the evaluation results recorded under a key entitle a route to. */
module Profiles {
  import opened Common
  import opened Wilson

  datatype RoutingState = Unassessed | Provisional | ReviewOnly | Qualified | Stale | Quarantined

  datatype Policy = Policy(
    provisionalMin: int, lowMin: int, lowBound: real, mediumMin: int, mediumBound: real, allowQualified: bool)

  datatype EvalResult = EvalResult(fingerprint: string, caseId: Id, correct: bool, violation: bool)

  datatype Setting = Setting(
    family: string, sizeBand: string, revision: string, harness: string,
    prompt: string, protocol: string, dataset: string)

  datatype Profile = Profile(
    key: string, fingerprint: string, distinctCases: int, repeatedRuns: int, passes: int,
    lower: Option<real>, state: RoutingState)

  const Z: real := 1.96

  function ProfileKey(fingerprint: string, s: Setting): string {
    fingerprint + "|" + s.family + "|" + s.sizeBand + "|" + s.revision
    + "|" + s.harness + "|" + s.prompt + "|" + s.protocol + "|" + s.dataset
  }

  function DeriveState(policy: Policy, failures: int, distinctCases: int, lower: Option<real>): RoutingState {
    if failures > 0 then Quarantined
    else if distinctCases < policy.provisionalMin then Unassessed
    else if !policy.allowQualified then Provisional
    else if lower.Some? && distinctCases >= policy.mediumMin && lower.value >= policy.mediumBound then Qualified
    else if lower.Some? && distinctCases >= policy.lowMin && lower.value >= policy.lowBound then Qualified
    else Provisional
  }

  // ---- what a history of results amounts to ----

  datatype Record = Record(key: string, result: EvalResult)

  function Cases(h: seq<Record>, key: string): set<Id> {
    if h == [] then {}
    else
      var front, last := h[..|h| - 1], h[|h| - 1];
      if last.key == key then Cases(front, key) + {last.result.caseId} else Cases(front, key)
  }

  function Passes(h: seq<Record>, key: string): set<Id> {
    if h == [] then {}
    else
      var front, last := h[..|h| - 1], h[|h| - 1];
      if last.key == key && last.result.correct then Passes(front, key) + {last.result.caseId} else Passes(front, key)
  }

  function Count(h: seq<Record>, key: string): nat {
    if h == [] then 0 else Count(h[..|h| - 1], key) + if h[|h| - 1].key == key then 1 else 0
  }

  function Violations(h: seq<Record>, key: string): nat {
    if h == [] then 0
    else Violations(h[..|h| - 1], key) + if h[|h| - 1].key == key && h[|h| - 1].result.violation then 1 else 0
  }

  function LastFingerprint(h: seq<Record>, key: string): string {
    if h == [] then ""
    else if h[|h| - 1].key == key then h[|h| - 1].result.fingerprint
    else LastFingerprint(h[..|h| - 1], key)
  }

  /** The profile that the results recorded under a key earn. */
  function Standing(policy: Policy, sqrt: real -> real, h: seq<Record>, key: string): Profile {
    var n, k := |Cases(h, key)|, |Passes(h, key)|;
    var bound := WilsonLowerBound(k, n, Z, sqrt);
    var lower := if bound.Lower? then Some(bound.value) else None;
    Profile(key, LastFingerprint(h, key), n, Count(h, key) - n, k, lower,
            DeriveState(policy, Violations(h, key), n, lower))
  }

  lemma OneMore(h: seq<Record>, r: Record, key: string)
    ensures var more := h + [r];
            && Cases(more, key) == (if r.key == key then Cases(h, key) + {r.result.caseId} else Cases(h, key))
            && Passes(more, key) == (if r.key == key && r.result.correct
                                     then Passes(h, key) + {r.result.caseId} else Passes(h, key))
            && Count(more, key) == Count(h, key) + (if r.key == key then 1 else 0)
            && Violations(more, key) == Violations(h, key) + (if r.key == key && r.result.violation then 1 else 0)
            && LastFingerprint(more, key) == if r.key == key then r.result.fingerprint else LastFingerprint(h, key)
  {
    var more := h + [r];
    assert more[..|more| - 1] == h && more[|h|] == r;
  }

  lemma SubsetSize<T>(a: set<T>, b: set<T>)
    requires a <= b
    ensures |a| <= |b|
    decreases a
  {
    if a != {} {
      var x :| x in a;
      SubsetSize(a - {x}, b - {x});
    }
  }

  /** Every passed case is a case seen, and no case is seen without a result, so the Wilson bound is
      never asked about an impossible sample. */
  lemma {:induction false} SampleIsPossible(h: seq<Record>, key: string)
    ensures Passes(h, key) <= Cases(h, key)
    ensures |Passes(h, key)| <= |Cases(h, key)| <= Count(h, key)
    ensures Count(h, key) > 0 ==> |Cases(h, key)| > 0
  {
    if h != [] {
      var front, r := h[..|h| - 1], h[|h| - 1];
      assert h == front + [r];
      SampleIsPossible(front, key);
      OneMore(front, r, key);
    }
    SubsetSize(Passes(h, key), Cases(h, key));
  }

  lemma StandingHasBound(policy: Policy, sqrt: real -> real, h: seq<Record>, key: string)
    requires Count(h, key) > 0
    ensures WilsonLowerBound(|Passes(h, key)|, |Cases(h, key)|, Z, sqrt).Lower?
    ensures Standing(policy, sqrt, h, key).lower.Some?
  {
    SampleIsPossible(h, key);
  }

  /** A qualified route has no policy violation on record and a pass rate, over enough distinct cases,
      of at least the threshold that qualified it. */
  lemma QualifiedIsEarned(policy: Policy, sqrt: real -> real, h: seq<Record>, key: string)
    requires IsSqrt(sqrt) && Standing(policy, sqrt, h, key).state.Qualified?
    ensures policy.allowQualified && Violations(h, key) == 0
    ensures var n, k := |Cases(h, key)|, |Passes(h, key)|;
            && n > 0
            && ((n >= policy.mediumMin && k as real / n as real >= policy.mediumBound)
                || (n >= policy.lowMin && k as real / n as real >= policy.lowBound))
  {
    var n, k := |Cases(h, key)|, |Passes(h, key)|;
    SampleIsPossible(h, key);
    assert n > 0;
    BoundInRange(k, n, Z, sqrt);
  }

  /** Over the same cases, passing more of them never costs a qualification. */
  lemma PassingMoreKeepsQualified(policy: Policy, sqrt: real -> real, h: seq<Record>, better: seq<Record>, key: string)
    requires IsSqrt(sqrt) && Standing(policy, sqrt, h, key).state.Qualified?
    requires |Cases(better, key)| == |Cases(h, key)| && |Passes(h, key)| <= |Passes(better, key)|
    requires Violations(better, key) == 0
    ensures Standing(policy, sqrt, better, key).state.Qualified?
  {
    SampleIsPossible(h, key);
    SampleIsPossible(better, key);
    BoundIsMonotone(|Passes(h, key)|, |Passes(better, key)|, |Cases(h, key)|, Z, sqrt);
  }

  lemma {:induction false} ViolationsAccumulate(h: seq<Record>, more: seq<Record>, key: string)
    ensures Violations(h, key) <= Violations(h + more, key)
  {
    if more == [] {
      assert h + more == h;
    } else {
      assert (h + more)[..|h + more| - 1] == h + more[..|more| - 1];
      ViolationsAccumulate(h, more[..|more| - 1], key);
    }
  }

  /** A violation quarantines the key for good: no later results earn it anything else. */
  lemma QuarantineIsForGood(policy: Policy, sqrt: real -> real, h: seq<Record>, more: seq<Record>, key: string)
    requires Violations(h, key) > 0
    ensures Standing(policy, sqrt, h + more, key).state.Quarantined?
  {
    ViolationsAccumulate(h, more, key);
  }

  // ---- the store ----

  function Get<T>(m: map<string, T>, key: string, otherwise: T): T {
    if key in m then m[key] else otherwise
  }

  datatype Tallies = Tallies(
    distinctCases: map<string, set<Id>>, repeatCounts: map<string, int>,
    passDistinct: map<string, set<Id>>, policyFailures: map<string, int>)

  /** The counters are what the recorded results amount to. */
  ghost predicate TalliedAt(t: Tallies, h: seq<Record>, key: string) {
    && Get(t.distinctCases, key, {}) == Cases(h, key)
    && Get(t.repeatCounts, key, 0) == Count(h, key) - |Cases(h, key)|
    && Get(t.passDistinct, key, {}) == Passes(h, key)
    && Get(t.policyFailures, key, 0) == Violations(h, key)
  }

  ghost predicate AllTallied(t: Tallies, h: seq<Record>) {
    forall key :: TalliedAt(t, h, key)
  }

  function Tallied(t: Tallies, key: string, result: EvalResult): Tallies {
    var cases := Get(t.distinctCases, key, {});
    Tallies(
      t.distinctCases[key := cases + {result.caseId}],
      if result.caseId in cases then t.repeatCounts[key := Get(t.repeatCounts, key, 0) + 1] else t.repeatCounts,
      if result.correct then t.passDistinct[key := Get(t.passDistinct, key, {}) + {result.caseId}] else t.passDistinct,
      if result.violation then t.policyFailures[key := Get(t.policyFailures, key, 0) + 1] else t.policyFailures)
  }

  lemma TallyIsRight(t: Tallies, h: seq<Record>, key: string, result: EvalResult)
    requires AllTallied(t, h)
    ensures AllTallied(Tallied(t, key, result), h + [Record(key, result)])
  {
    var after, more := Tallied(t, key, result), h + [Record(key, result)];
    forall k ensures TalliedAt(after, more, k) {
      assert TalliedAt(t, h, k);
      OneMore(h, Record(key, result), k);
      if k == key {
        TallyAtKey(t, h, key, result);
      } else {
        TallyElsewhere(t, h, key, result, k);
      }
    }
  }

  lemma TallyAtKey(t: Tallies, h: seq<Record>, key: string, result: EvalResult)
    requires TalliedAt(t, h, key)
    ensures TalliedAt(Tallied(t, key, result), h + [Record(key, result)], key)
  {
    OneMore(h, Record(key, result), key);
    if result.caseId in Cases(h, key) {
      assert Cases(h, key) + {result.caseId} == Cases(h, key);
    }
  }

  lemma TallyElsewhere(t: Tallies, h: seq<Record>, key: string, result: EvalResult, k: string)
    requires TalliedAt(t, h, k) && k != key
    ensures TalliedAt(Tallied(t, key, result), h + [Record(key, result)], k)
  {
    OneMore(h, Record(key, result), k);
  }

  /** A stored profile is what the results so far earn, or that marked stale. */
  ghost predicate CurrentAt(policy: Policy, sqrt: real -> real, profiles: map<string, Profile>, h: seq<Record>,
                            key: string) {
    key in profiles ==>
      || profiles[key] == Standing(policy, sqrt, h, key)
      || profiles[key] == Standing(policy, sqrt, h, key).(state := Stale)
  }

  ghost predicate AllCurrent(policy: Policy, sqrt: real -> real, profiles: map<string, Profile>, h: seq<Record>) {
    forall key :: CurrentAt(policy, sqrt, profiles, h, key)
  }

  lemma RecordKeepsCurrent(policy: Policy, sqrt: real -> real, profiles: map<string, Profile>, h: seq<Record>,
                           key: string, result: EvalResult)
    requires AllCurrent(policy, sqrt, profiles, h)
    ensures var more := h + [Record(key, result)];
            AllCurrent(policy, sqrt, profiles[key := Standing(policy, sqrt, more, key)], more)
  {
    var more := h + [Record(key, result)];
    var after := profiles[key := Standing(policy, sqrt, more, key)];
    forall k ensures CurrentAt(policy, sqrt, after, more, k) {
      assert CurrentAt(policy, sqrt, profiles, h, k);
      OneMore(h, Record(key, result), k);
    }
  }

  function Staled(p: Profile, fingerprint: string): Profile {
    if p.fingerprint == fingerprint then p.(state := Stale) else p
  }

  function StaleAliases(profiles: map<string, Profile>, fingerprint: string): map<string, Profile> {
    map key | key in profiles :: Staled(profiles[key], fingerprint)
  }

  lemma StaleKeepsCurrent(policy: Policy, sqrt: real -> real, profiles: map<string, Profile>, h: seq<Record>,
                          fingerprint: string)
    requires AllCurrent(policy, sqrt, profiles, h)
    ensures AllCurrent(policy, sqrt, StaleAliases(profiles, fingerprint), h)
  {
    var after := StaleAliases(profiles, fingerprint);
    forall k ensures CurrentAt(policy, sqrt, after, h, k) {
      assert CurrentAt(policy, sqrt, profiles, h, k);
    }
  }

  ghost predicate StaledSoFar(was: map<string, Profile>, profiles: map<string, Profile>, done: seq<string>,
                              fingerprint: string, key: string) {
    && (key in profiles <==> key in was)
    && (key in profiles ==> profiles[key] == if key in done then Staled(was[key], fingerprint) else was[key])
  }

  lemma StaleNext(was: map<string, Profile>, before: map<string, Profile>, done: seq<string>, fingerprint: string,
                  key: string, longer: seq<string>)
    requires forall k :: StaledSoFar(was, before, done, fingerprint, k)
    requires key in before && longer == done + [key]
    ensures var after := if before[key].fingerprint == fingerprint
                         then before[key := before[key].(state := Stale)] else before;
            forall k :: StaledSoFar(was, after, longer, fingerprint, k)
  {
    var after := if before[key].fingerprint == fingerprint then before[key := before[key].(state := Stale)] else before;
    forall k ensures StaledSoFar(was, after, longer, fingerprint, k) {
      assert StaledSoFar(was, before, done, fingerprint, k);
    }
  }

  lemma AllStaled(was: map<string, Profile>, profiles: map<string, Profile>, order: seq<string>, fingerprint: string)
    requires AllListed(was, order) && forall key :: StaledSoFar(was, profiles, order, fingerprint, key)
    ensures profiles == StaleAliases(was, fingerprint)
  {
    forall key ensures key in profiles <==> key in was {
      assert StaledSoFar(was, profiles, order, fingerprint, key);
    }
    forall key | key in profiles ensures profiles[key] == Staled(was[key], fingerprint) {
      assert ListedAt(was, order, key) && StaledSoFar(was, profiles, order, fingerprint, key);
    }
  }

  lemma AliasNext(done: seq<string>, key: string, profiles: map<string, Profile>, fingerprint: string)
    requires key in profiles
    ensures AliasKeys(done + [key], profiles, fingerprint)
            == AliasKeys(done, profiles, fingerprint) + if profiles[key].fingerprint == fingerprint then [key] else []
  {
    assert (done + [key])[..|done|] == done;
  }

  function AliasKeys(order: seq<string>, profiles: map<string, Profile>, fingerprint: string): seq<string> {
    if order == [] then []
    else
      var front, key := order[..|order| - 1], order[|order| - 1];
      AliasKeys(front, profiles, fingerprint)
      + if key in profiles && profiles[key].fingerprint == fingerprint then [key] else []
  }

  ghost predicate ListedAt(profiles: map<string, Profile>, order: seq<string>, key: string) {
    key in profiles <==> key in order
  }

  ghost predicate AllListed(profiles: map<string, Profile>, order: seq<string>) {
    forall key :: ListedAt(profiles, order, key)
  }

  lemma ListOneMore(profiles: map<string, Profile>, order: seq<string>, key: string, p: Profile)
    requires AllListed(profiles, order)
    ensures AllListed(profiles[key := p], if key in profiles then order else order + [key])
  {
    var after, longer := profiles[key := p], if key in profiles then order else order + [key];
    forall k ensures ListedAt(after, longer, k) {
      assert ListedAt(profiles, order, k);
    }
  }

  /** The list of results holds the recorded ones, in order. */
  ghost predicate Logged(results: seq<EvalResult>, h: seq<Record>) {
    |results| == |h| && forall i :: 0 <= i < |results| ==> results[i] == h[i].result
  }

  /** `order` is the order in which the profile dictionary was filled. */
  class ProfileStore {
    const policy: Policy
    const sqrt: real -> real
    var profiles: map<string, Profile>
    var order: seq<string>
    var results: seq<EvalResult>
    var distinctCases: map<string, set<Id>>
    var repeatCounts: map<string, int>
    var passDistinct: map<string, set<Id>>
    var policyFailures: map<string, int>
    var simulatedKeys: set<string>
    ghost var history: seq<Record>

    ghost function Counters(): Tallies
      reads this
    {
      Tallies(distinctCases, repeatCounts, passDistinct, policyFailures)
    }

    ghost predicate Valid()
      reads this
    {
      && AllTallied(Counters(), history) && AllCurrent(policy, sqrt, profiles, history)
      && AllListed(profiles, order) && Logged(results, history)
    }

    constructor (policy: Policy, sqrt: real -> real)
      ensures Valid() && this.policy == policy && this.sqrt == sqrt && history == [] && profiles == map[]
      ensures simulatedKeys == {}
    {
      this.policy, this.sqrt := policy, sqrt;
      profiles, order, results := map[], [], [];
      distinctCases, repeatCounts, passDistinct, policyFailures := map[], map[], map[], map[];
      simulatedKeys, history := {}, [];
    }

    method Tally(key: string, result: EvalResult)
      modifies this`distinctCases, this`repeatCounts, this`passDistinct, this`policyFailures
      ensures Counters() == Tallied(old(Counters()), key, result)
    {
      var cases := Get(distinctCases, key, {});
      if result.caseId in cases {
        repeatCounts := repeatCounts[key := Get(repeatCounts, key, 0) + 1];
        assert cases + {result.caseId} == cases;
      } else {
        cases := cases + {result.caseId};
      }
      distinctCases := distinctCases[key := cases];
      if result.correct {
        passDistinct := passDistinct[key := Get(passDistinct, key, {}) + {result.caseId}];
      }
      if result.violation {
        policyFailures := policyFailures[key := Get(policyFailures, key, 0) + 1];
      }
    }

    method Assess(key: string, fingerprint: string) returns (profile: Profile)
      requires AllTallied(Counters(), history) && Count(history, key) > 0
      requires fingerprint == LastFingerprint(history, key)
      ensures profile == Standing(policy, sqrt, history, key)
    {
      assert TalliedAt(Counters(), history, key);
      var n := |Get(distinctCases, key, {})|;
      var passed := |Get(passDistinct, key, {})|;
      var bound := WilsonLowerBound(passed, n, Z, sqrt);
      StandingHasBound(policy, sqrt, history, key);
      var state := DeriveState(policy, Get(policyFailures, key, 0), n, Some(bound.value));
      profile := Profile(key, fingerprint, n, Get(repeatCounts, key, 0), passed, Some(bound.value), state);
    }

    method Store(key: string, profile: Profile)
      requires AllListed(profiles, order)
      modifies this`profiles, this`order
      ensures profiles == old(profiles)[key := profile] && AllListed(profiles, order)
    {
      ListOneMore(profiles, order, key, profile);
      if key !in profiles {
        order := order + [key];
      }
      profiles := profiles[key := profile];
    }

    method Log(key: string, result: EvalResult)
      requires AllTallied(Counters(), history) && Logged(results, history)
      modifies this`results, this`distinctCases, this`repeatCounts, this`passDistinct, this`policyFailures, this`history
      ensures history == old(history) + [Record(key, result)]
      ensures AllTallied(Counters(), history) && Logged(results, history)
    {
      TallyIsRight(Counters(), history, key, result);
      assert Logged(results + [result], history + [Record(key, result)]);
      results := results + [result];
      Tally(key, result);
      history := history + [Record(key, result)];
    }

    method RecordLive(key: string, result: EvalResult) returns (profile: Profile)
      requires Valid()
      modifies this
      ensures Valid() && history == old(history) + [Record(key, result)]
      ensures profile == Standing(policy, sqrt, history, key)
      ensures profiles == old(profiles)[key := profile] && simulatedKeys == old(simulatedKeys)
    {
      RecordKeepsCurrent(policy, sqrt, profiles, history, key, result);
      OneMore(history, Record(key, result), key);
      Log(key, result);
      profile := Assess(key, result.fingerprint);
      Store(key, profile);
    }

    method RecordResult(result: EvalResult, setting: Setting, simulated: bool) returns (profile: Profile)
      requires Valid()
      modifies this
      ensures Valid()
      ensures simulated ==> profile.state.Unassessed?
      ensures simulated ==> simulatedKeys == old(simulatedKeys) + {ProfileKey(result.fingerprint, setting)}
      ensures simulated ==> history == old(history) && results == old(results) && profiles == old(profiles)
      ensures !simulated ==> history == old(history) + [Record(ProfileKey(result.fingerprint, setting), result)]
      ensures !simulated ==> profile == Standing(policy, sqrt, history, ProfileKey(result.fingerprint, setting))
      ensures !simulated ==> profiles == old(profiles)[profile.key := profile] && simulatedKeys == old(simulatedKeys)
    {
      var key := ProfileKey(result.fingerprint, setting);
      if simulated {
        simulatedKeys := simulatedKeys + {key};
        return Profile(key, result.fingerprint, 0, 0, 0, None, Unassessed);
      }
      profile := RecordLive(key, result);
    }

    method MarkAliasStale(fingerprint: string) returns (stale: seq<string>)
      requires Valid()
      modifies this`profiles
      ensures Valid()
      ensures profiles == StaleAliases(old(profiles), fingerprint)
      ensures stale == AliasKeys(order, old(profiles), fingerprint)
    {
      StaleKeepsCurrent(policy, sqrt, profiles, history, fingerprint);
      stale := StaleInOrder(fingerprint);
      forall key ensures ListedAt(profiles, order, key) {
        assert old(ListedAt(profiles, order, key));
      }
    }

    method StaleInOrder(fingerprint: string) returns (stale: seq<string>)
      requires AllListed(profiles, order)
      modifies this`profiles
      ensures profiles == StaleAliases(old(profiles), fingerprint)
      ensures stale == AliasKeys(order, old(profiles), fingerprint)
    {
      var keys := order;
      stale := [];
      var i := 0;
      while i < |keys|
        invariant 0 <= i <= |keys|
        invariant forall key :: StaledSoFar(old(profiles), profiles, keys[..i], fingerprint, key)
        invariant stale == AliasKeys(keys[..i], old(profiles), fingerprint)
      {
        var key := keys[i];
        assert ListedAt(old(profiles), order, key);
        assert keys[..i + 1] == keys[..i] + [key];
        assert StaledSoFar(old(profiles), profiles, keys[..i], fingerprint, key);
        StaleNext(old(profiles), profiles, keys[..i], fingerprint, key, keys[..i + 1]);
        AliasNext(keys[..i], key, old(profiles), fingerprint);
        if profiles[key].fingerprint == fingerprint {
          profiles := profiles[key := profiles[key].(state := Stale)];
          stale := stale + [key];
        }
        i := i + 1;
      }
      assert keys[..i] == keys;
      AllStaled(old(profiles), profiles, keys, fingerprint);
    }

    /** At any time: a key stored as qualified is earned by everything recorded under it so far. */
    lemma StoredQualifiedIsEarned(key: string)
      requires Valid() && IsSqrt(sqrt) && key in profiles && profiles[key].state.Qualified?
      ensures profiles[key].distinctCases + profiles[key].repeatedRuns == Count(history, key)
      ensures Violations(history, key) == 0 && profiles[key].distinctCases > 0
      ensures var n, rate := profiles[key].distinctCases,
                             profiles[key].passes as real / profiles[key].distinctCases as real;
              (n >= policy.mediumMin && rate >= policy.mediumBound) || (n >= policy.lowMin && rate >= policy.lowBound)
    {
      assert CurrentAt(policy, sqrt, profiles, history, key);
      QualifiedIsEarned(policy, sqrt, history, key);
    }
  }
}
