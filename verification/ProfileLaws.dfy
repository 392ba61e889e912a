/** What a route's standing says about the results recorded for it, and which results one key collects. */
module ProfileLaws {
  import opened Common
  import opened Wilson
  import opened Profiles

  // ---- the tallies in terms of the records ----

  /** Where in the history the records of a key stand. */
  ghost function Under(h: seq<Record>, key: string): set<int> {
    set i | 0 <= i < |h| && h[i].key == key
  }

  ghost function Violating(h: seq<Record>, key: string): set<int> {
    set i | 0 <= i < |h| && h[i].key == key && h[i].result.violation
  }

  /** The cases seen, and the cases seen to pass. */
  lemma {:induction false} CasesMean(h: seq<Record>, key: string, c: Id)
    ensures c in Cases(h, key) <==> exists i :: 0 <= i < |h| && h[i].key == key && h[i].result.caseId == c
    ensures c in Passes(h, key) <==>
              exists i :: 0 <= i < |h| && h[i].key == key && h[i].result.caseId == c && h[i].result.correct
  {
    if h != [] {
      var front, last := h[..|h| - 1], h[|h| - 1];
      CasesMean(front, key, c);
      assert forall i :: 0 <= i < |front| ==> front[i] == h[i];
      assert h == front + [last];
    }
  }

  lemma {:induction false} CountMeans(h: seq<Record>, key: string)
    ensures Count(h, key) == |Under(h, key)|
  {
    if h != [] {
      var n := |h| - 1;
      CountMeans(h[..n], key);
      UnderNext(h[..n], h[n], key);
      assert h == h[..n] + [h[n]];
    }
  }

  lemma {:induction false} ViolationsMean(h: seq<Record>, key: string)
    ensures Violations(h, key) == |Violating(h, key)|
  {
    if h != [] {
      var n := |h| - 1;
      ViolationsMean(h[..n], key);
      UnderNext(h[..n], h[n], key);
      assert h == h[..n] + [h[n]];
    }
  }

  lemma UnderNext(h: seq<Record>, r: Record, key: string)
    ensures Under(h + [r], key) == if r.key == key then Under(h, key) + {|h|} else Under(h, key)
    ensures Violating(h + [r], key)
            == if r.key == key && r.result.violation then Violating(h, key) + {|h|} else Violating(h, key)
  {
  }

  lemma {:induction false} FingerprintIsLatest(h: seq<Record>, key: string, i: nat)
    requires i in Under(h, key) && forall j :: i < j < |h| ==> h[j].key != key
    ensures LastFingerprint(h, key) == h[i].result.fingerprint
  {
    var front := h[..|h| - 1];
    if i < |front| {
      assert front[i] == h[i];
      FingerprintIsLatest(front, key, i);
    }
  }

  // ---- standing ----

  /** Enough distinct cases, and a pass rate above the threshold by 1.96 standard errors or more. */
  ghost predicate Earns(n: int, k: int, least: int, x: real)
    requires n > 0
  {
    var p := k as real / n as real;
    n >= least && x < 1.0 && x <= p && n as real * ((p - x) * (p - x)) >= 3.8416 * (x * (1.0 - x))
  }

  ghost predicate EarnsEither(policy: Policy, n: int, k: int) {
    n > 0 && (Earns(n, k, policy.mediumMin, policy.mediumBound) || Earns(n, k, policy.lowMin, policy.lowBound))
  }

  lemma EarnsIff(sqrt: real -> real, k: int, n: int, least: int, x: real)
    requires IsSqrt(sqrt) && 0 <= k <= n && n > 0
    ensures WilsonLowerBound(k, n, Z, sqrt).Lower?
    ensures n >= least && WilsonLowerBound(k, n, Z, sqrt).value >= x <==> Earns(n, k, least, x)
  {
    MeetsThresholdIff(k, n, Z, sqrt, x);
    assert Z * Z == 3.8416;
  }

  /** A route is quarantined exactly when a violation is on record for it; otherwise unassessed while it has too few
      distinct cases; otherwise qualified exactly when the policy qualifies at all and its pass rate earns one of the
      two tiers; and provisional in every other case. */
  lemma StandingIff(policy: Policy, sqrt: real -> real, h: seq<Record>, key: string)
    requires IsSqrt(sqrt)
    ensures var state, n, k := Standing(policy, sqrt, h, key).state, |Cases(h, key)|, |Passes(h, key)|;
            var clean := Violating(h, key) == {};
            && (state == Quarantined <==> !clean)
            && (state == Unassessed <==> clean && n < policy.provisionalMin)
            && (state == Qualified <==>
                  clean && n >= policy.provisionalMin && policy.allowQualified && EarnsEither(policy, n, k))
            && (state == Provisional <==>
                  clean && n >= policy.provisionalMin && !(policy.allowQualified && EarnsEither(policy, n, k)))
  {
    var n, k := |Cases(h, key)|, |Passes(h, key)|;
    ViolationsMean(h, key);
    SampleIsPossible(h, key);
    if n > 0 {
      EarnsIff(sqrt, k, n, policy.mediumMin, policy.mediumBound);
      EarnsIff(sqrt, k, n, policy.lowMin, policy.lowBound);
    }
  }

  /** A route that passed every case earns a tier exactly when it saw enough of them for the threshold. */
  lemma CleanSweepIff(n: int, least: int, x: real)
    requires n > 0
    ensures Earns(n, n, least, x) <==> n >= least && x < 1.0 && n as real * (1.0 - x) >= 3.8416 * x
  {
    var size, y := n as real, 1.0 - x;
    assert size / size == 1.0;
    if x < 1.0 {
      var gap := size * y - 3.8416 * x;
      SameSign(y, gap);
      assert y * gap == size * (y * y) - 3.8416 * (x * y);
    }
  }

  /** A profile is stale afterwards exactly when it was or is of the fingerprint, and nothing else about it changes. */
  lemma StaleIff(profiles: map<string, Profile>, fingerprint: string, key: string)
    requires key in profiles
    ensures var after := StaleAliases(profiles, fingerprint);
            && after.Keys == profiles.Keys
            && after[key] == profiles[key].(state := after[key].state)
            && (after[key].state == Stale <==> profiles[key].state == Stale || profiles[key].fingerprint == fingerprint)
            && (after[key].state != Stale ==> after[key] == profiles[key])
  {
  }

  /** The keys reported stale are those of the fingerprint's profiles, in the order of the store. */
  lemma {:induction false} AliasKeysMean(order: seq<string>, profiles: map<string, Profile>, fingerprint: string)
    returns (at: seq<nat>)
    ensures var keys := AliasKeys(order, profiles, fingerprint);
            && |at| == |keys| && (forall j, k :: 0 <= j < k < |at| ==> at[j] < at[k])
            && (forall k :: 0 <= k < |at| ==> at[k] < |order| && keys[k] == order[at[k]])
            && (forall key :: key in keys <==>
                  key in order && key in profiles && profiles[key].fingerprint == fingerprint)
  {
    at := [];
    if order != [] {
      var front, last := order[..|order| - 1], order[|order| - 1];
      assert order == front + [last];
      at := AliasKeysMean(front, profiles, fingerprint);
      if last in profiles && profiles[last].fingerprint == fingerprint {
        at := at + [|front|];
      }
    }
  }

  // ---- keys ----

  function Parts(fingerprint: string, s: Setting): seq<string> {
    [fingerprint, s.family, s.sizeBand, s.revision, s.harness, s.prompt, s.protocol, s.dataset]
  }

  function Joined(parts: seq<string>): string {
    if parts == [] then "" else if |parts| == 1 then parts[0] else parts[0] + "|" + Joined(parts[1..])
  }

  lemma KeyJoinsParts(fingerprint: string, s: Setting)
    ensures ProfileKey(fingerprint, s) == Joined(Parts(fingerprint, s))
  {
    var parts := Parts(fingerprint, s);
    var tail := s.protocol + "|" + s.dataset;
    assert parts[6..] == [s.protocol, s.dataset];
    assert Joined([s.protocol, s.dataset]) == tail;
    assert parts[5..][1..] == parts[6..] && parts[4..][1..] == parts[5..] && parts[3..][1..] == parts[4..];
    assert parts[2..][1..] == parts[3..] && parts[1..][1..] == parts[2..];
    var five := s.prompt + "|" + tail;
    var four := s.harness + "|" + five;
    var three := s.revision + "|" + four;
    var two := s.sizeBand + "|" + three;
    assert Joined(parts[5..]) == five && Joined(parts[4..]) == four && Joined(parts[3..]) == three;
    assert Joined(parts[2..]) == two;
    assert Joined(parts[1..]) == s.family + "|" + two;
    assert Joined(parts) == fingerprint + "|" + Joined(parts[1..]);
  }

  function Bars(text: string): nat {
    if text == "" then 0 else Bars(text[..|text| - 1]) + if text[|text| - 1] == '|' then 1 else 0
  }

  lemma {:induction false} BarsAdd(a: string, b: string)
    ensures Bars(a + b) == Bars(a) + Bars(b)
  {
    if b == "" {
      assert a + b == a;
    } else {
      assert (a + b)[..|a + b| - 1] == a + b[..|b| - 1];
      BarsAdd(a, b[..|b| - 1]);
    }
  }

  ghost predicate BarFree(parts: seq<string>) {
    forall i :: 0 <= i < |parts| ==> Bars(parts[i]) == 0
  }

  lemma {:induction false} BarsOfJoined(parts: seq<string>)
    requires parts != []
    ensures Bars(Joined(parts)) >= |parts| - 1
    ensures Bars(Joined(parts)) == |parts| - 1 <==> BarFree(parts)
  {
    if |parts| > 1 {
      var rest := parts[1..];
      BarsOfJoined(rest);
      assert parts == [parts[0]] + rest;
      BarsAdd(parts[0], "|");
      BarsAdd(parts[0] + "|", Joined(rest));
      assert Bars("|") == 1 by { assert "|"[..0] == ""; }
      assert BarFree(parts) <==> Bars(parts[0]) == 0 && BarFree(rest);
    }
  }

  lemma {:induction false} NoBarIn(text: string, i: nat)
    requires Bars(text) == 0 && i < |text|
    ensures text[i] != '|'
  {
    if i < |text| - 1 {
      NoBarIn(text[..|text| - 1], i);
    }
  }

  /** The first bar ends the first part. */
  lemma FirstPart(a: string, x: string, b: string, y: string)
    requires Bars(a) == 0 && Bars(b) == 0 && a + "|" + x == b + "|" + y
    ensures a == b && x == y
  {
    var s, t := a + "|" + x, b + "|" + y;
    if |a| < |b| {
      assert s[|a|] == '|' && t[|a|] == b[|a|];
      NoBarIn(b, |a|);
    } else if |b| < |a| {
      assert t[|b|] == '|' && s[|b|] == a[|b|];
      NoBarIn(a, |b|);
    } else {
      assert a == s[..|a|] && b == t[..|b|] && x == s[|a| + 1..] && y == t[|b| + 1..];
    }
  }

  lemma {:induction false} JoinedTellsApart(a: seq<string>, b: seq<string>)
    requires |a| == |b| && BarFree(a) && BarFree(b) && Joined(a) == Joined(b)
    ensures a == b
  {
    if |a| > 1 {
      FirstPart(a[0], Joined(a[1..]), b[0], Joined(b[1..]));
      JoinedTellsApart(a[1..], b[1..]);
      assert a == [a[0]] + a[1..] && b == [b[0]] + b[1..];
    }
  }

  lemma {:induction false} HasBar(text: string) returns (u: string, v: string)
    requires Bars(text) > 0
    ensures text == u + "|" + v
  {
    var n := |text| - 1;
    if text[n] == '|' {
      u, v := text[..n], "";
    } else {
      u, v := HasBar(text[..n]);
      v := v + [text[n]];
    }
  }

  /** Moving the separator inside a part changes the parts and not the text. */
  lemma {:induction false} ShiftKeepsJoined(parts: seq<string>, i: nat, u: string, v: string)
    requires i + 1 < |parts| && parts[i] == u + "|" + v
    ensures Joined(parts[i := u][i + 1 := v + "|" + parts[i + 1]]) == Joined(parts)
  {
    var shifted, rest := parts[i := u][i + 1 := v + "|" + parts[i + 1]], parts[1..];
    if i == 0 {
      assert shifted[1..] == rest[0 := v + "|" + rest[0]];
      assert Joined(shifted) == u + "|" + Joined(shifted[1..]);
      assert Joined(shifted[1..]) == v + "|" + Joined(rest);
    } else {
      assert shifted[1..] == rest[i - 1 := u][i := v + "|" + rest[i]];
      ShiftKeepsJoined(rest, i - 1, u, v);
    }
  }

  lemma OtherParts(parts: seq<string>) returns (others: seq<string>)
    requires |parts| > 1 && !BarFree(parts)
    ensures |others| == |parts| && others != parts && Joined(others) == Joined(parts)
  {
    var i :| 0 <= i < |parts| && Bars(parts[i]) != 0;
    var u, v := HasBar(parts[i]);
    if i + 1 < |parts| {
      others := parts[i := u][i + 1 := v + "|" + parts[i + 1]];
      ShiftKeepsJoined(parts, i, u, v);
      assert |others[i]| < |parts[i]|;
    } else {
      others := parts[i - 1 := parts[i - 1] + "|" + u][i := v];
      assert others[i - 1 := parts[i - 1]][i := u + "|" + v] == parts;
      ShiftKeepsJoined(others, i - 1, parts[i - 1], u);
      assert |others[i]| < |parts[i]|;
    }
  }

  lemma KeyIsItsOwn(f: string, s: Setting, g: string, t: Setting)
    requires BarFree(Parts(f, s)) && ProfileKey(f, s) == ProfileKey(g, t)
    ensures f == g && s == t
  {
    KeyJoinsParts(f, s);
    KeyJoinsParts(g, t);
    BarsOfJoined(Parts(f, s));
    BarsOfJoined(Parts(g, t));
    JoinedTellsApart(Parts(f, s), Parts(g, t));
    var a, b := Parts(f, s), Parts(g, t);
    assert a[0] == b[0] && a[1] == b[1] && a[2] == b[2] && a[3] == b[3];
    assert a[4] == b[4] && a[5] == b[5] && a[6] == b[6] && a[7] == b[7];
  }

  /** A setting's key is its own exactly when no part of the setting contains the separator. */
  lemma KeyIsItsOwnIff(f: string, s: Setting)
    ensures BarFree(Parts(f, s)) <==> forall g, t :: ProfileKey(g, t) == ProfileKey(f, s) ==> g == f && t == s
  {
    if BarFree(Parts(f, s)) {
      forall g, t | ProfileKey(g, t) == ProfileKey(f, s) ensures g == f && t == s {
        KeyIsItsOwn(f, s, g, t);
      }
    } else {
      var p := OtherParts(Parts(f, s));
      var t := Setting(p[1], p[2], p[3], p[4], p[5], p[6], p[7]);
      assert Parts(p[0], t) == p;
      KeyJoinsParts(f, s);
      KeyJoinsParts(p[0], t);
      assert ProfileKey(p[0], t) == ProfileKey(f, s);
    }
  }
}
