/** Consolidation of the observed anomalies: one per incident key, and one per deployment
    when three or more of its pods show the same issue. */
module Detector {
  import opened Text
  import opened Sorting
  import Names

  datatype Severity = Low | Medium | High | Critical | OtherSeverity(text: string)

  datatype Kind = Pod | Deployment | OtherKind(name: string)

  datatype Anomaly = Anomaly(
    issueType: string, severity: Severity, namespace: string, resourceName: string,
    resourceType: Kind, details: string, ownerName: string, correlatedPods: Option<nat>)

  function Rank(a: Anomaly): int {
    match a.severity
    case Low => 0
    case Medium => 1
    case High => 2
    case Critical => 3
    case OtherSeverity(_) => 0
  }

  function Key(a: Anomaly): string {
    Names.IncidentKey(a.namespace, a.resourceName, a.issueType)
  }

  // ---------- Detection ----------

  /** First position from `i` on at which the key occurs, or the length. */
  function FirstFrom(all: seq<Anomaly>, key: string, i: nat): (n: nat)
    requires i <= |all|
    ensures i <= n <= |all|
    ensures forall k | i <= k < n :: Key(all[k]) != key
    ensures n < |all| ==> Key(all[n]) == key
    decreases |all| - i
  {
    if i == |all| || Key(all[i]) == key then i else FirstFrom(all, key, i + 1)
  }

  function FirstAt(all: seq<Anomaly>, key: string): nat {
    FirstFrom(all, key, 0)
  }

  /** `x` is the earliest occurrence of its key with the highest severity. */
  ghost predicate IsBest(all: seq<Anomaly>, x: Anomaly) {
    exists i | 0 <= i < |all| :: all[i] == x && BestAt(all, i)
  }

  ghost predicate BestAt(all: seq<Anomaly>, i: nat)
    requires i < |all|
  {
    forall j | 0 <= j < |all| && Key(all[j]) == Key(all[i]) ::
      Rank(all[j]) <= Rank(all[i]) && (j < i ==> Rank(all[j]) < Rank(all[i]))
  }

  /** One representative per key that occurs, in the order of the keys' first appearance. */
  ghost predicate Representatives(all: seq<Anomaly>, reps: seq<Anomaly>) {
    && (forall r | r in reps :: IsBest(all, r))
    && (forall a | a in all :: HasKey(reps, Key(a)))
    && (forall i, j | 0 <= i < j < |reps| :: FirstAt(all, Key(reps[i])) < FirstAt(all, Key(reps[j])))
  }

  ghost predicate HasKey(reps: seq<Anomaly>, key: string) {
    exists i | 0 <= i < |reps| :: Key(reps[i]) == key
  }

  lemma FirstAtAppend(all: seq<Anomaly>, a: Anomaly, key: string)
    ensures FirstAt(all + [a], key) ==
      if FirstAt(all, key) < |all| then FirstAt(all, key) else if Key(a) == key then |all| else |all| + 1
  {
    var f, g := FirstAt(all, key), FirstAt(all + [a], key);
    assert forall k | 0 <= k < |all| :: (all + [a])[k] == all[k];
    assert (all + [a])[|all|] == a;
  }

  /** The loop over all observations; `reps` holds the values of the insertion-ordered
      dictionary and `at` the position of each key. */
  method Consolidate(all: seq<Anomaly>) returns (reps: seq<Anomaly>)
    ensures Representatives(all, reps)
  {
    reps := [];
    var at: map<string, nat> := map[];
    for n := 0 to |all|
      invariant Indexed(at, reps)
      invariant Representatives(all[..n], reps)
    {
      var anomaly := all[n];
      var key := Key(anomaly);
      ghost var seen := all[..n];
      assert all[..n + 1] == seen + [anomaly];
      IndexedIs(at, reps, anomaly);
      if key !in at {
        AddNew(seen, reps, anomaly);
        at := at[key := |reps|];
        reps := reps + [anomaly];
      } else if Rank(anomaly) > Rank(reps[at[key]]) {
        AddBetter(seen, reps, at[key], anomaly);
        reps := reps[at[key] := anomaly];
      } else {
        AddWorse(seen, reps, at[key], anomaly);
      }
    }
    assert all[..|all|] == all;
  }

  /** The positions of the keys, as the dictionary keeps them. */
  predicate Indexed(at: map<string, nat>, reps: seq<Anomaly>) {
    && (forall k | k in at :: at[k] < |reps| && Key(reps[at[k]]) == k)
    && (forall i | 0 <= i < |reps| :: Key(reps[i]) in at)
  }

  lemma IndexedIs(at: map<string, nat>, reps: seq<Anomaly>, a: Anomaly)
    requires Indexed(at, reps)
    ensures Key(a) in at <==> HasKey(reps, Key(a))
    ensures Key(a) !in at ==> Indexed(at[Key(a) := |reps|], reps + [a])
    ensures Key(a) in at ==> Key(reps[at[Key(a)]]) == Key(a) && Indexed(at, reps[at[Key(a)] := a])
  {
    if Key(a) in at {
      assert Key(reps[at[Key(a)]]) == Key(a);
    }
  }

  lemma KeptBest(all: seq<Anomaly>, a: Anomaly, x: Anomaly)
    requires IsBest(all, x) && (Key(a) == Key(x) ==> Rank(a) <= Rank(x))
    ensures IsBest(all + [a], x)
  {
    var i :| 0 <= i < |all| && all[i] == x && BestAt(all, i);
    assert (all + [a])[i] == x;
    assert BestAt(all + [a], i);
  }

  lemma AddNew(all: seq<Anomaly>, reps: seq<Anomaly>, a: Anomaly)
    requires Representatives(all, reps) && !HasKey(reps, Key(a))
    ensures Representatives(all + [a], reps + [a])
  {
    var all', reps' := all + [a], reps + [a];
    forall r | r in reps' ensures IsBest(all', r) {
      if r in reps {
        KeptBest(all, a, r);
      } else {
        assert all'[|all|] == a && BestAt(all', |all|);
      }
    }
    forall x | x in all' ensures HasKey(reps', Key(x)) {
      if x in all {
        var i :| 0 <= i < |reps| && Key(reps[i]) == Key(x);
        assert Key(reps'[i]) == Key(x);
      } else {
        assert Key(reps'[|reps|]) == Key(x);
      }
    }
    forall i, j | 0 <= i < j < |reps'|
      ensures FirstAt(all', Key(reps'[i])) < FirstAt(all', Key(reps'[j]))
    {
      OrderKept(all, reps, a, Key(reps'[i]));
      OrderKept(all, reps, a, Key(reps'[j]));
    }
  }

  /** A new observation does not move the first appearance of a represented key. */
  lemma OrderKept(all: seq<Anomaly>, reps: seq<Anomaly>, a: Anomaly, key: string)
    requires Representatives(all, reps)
    ensures HasKey(reps, key) ==> FirstAt(all + [a], key) == FirstAt(all, key) < |all|
    ensures !HasKey(reps, key) && Key(a) == key ==> FirstAt(all + [a], key) == |all|
  {
    FirstAtAppend(all, a, key);
    assert FirstAt(all, key) == |all| || all[FirstAt(all, key)] in all;
    if HasKey(reps, key) {
      var i :| 0 <= i < |reps| && Key(reps[i]) == key;
      assert reps[i] in reps && IsBest(all, reps[i]);
    }
  }

  lemma AddBetter(all: seq<Anomaly>, reps: seq<Anomaly>, at: nat, a: Anomaly)
    requires Representatives(all, reps) && at < |reps|
    requires Key(reps[at]) == Key(a) && Rank(reps[at]) < Rank(a)
    ensures Representatives(all + [a], reps[at := a])
  {
    var all', reps' := all + [a], reps[at := a];
    var known := reps[at];
    assert known in reps;
    var o :| 0 <= o < |all| && all[o] == known && BestAt(all, o);
    assert BestAt(all', |all|);
    forall r | r in reps' ensures IsBest(all', r) {
      if r == a {
        assert all'[|all|] == a;
      } else {
        var i :| 0 <= i < |reps| && i != at && reps[i] == r;
        assert FirstAt(all, Key(reps[i])) != FirstAt(all, Key(known));
        KeptBest(all, a, r);
      }
    }
    SameKeys(all, reps, a, reps');
  }

  lemma AddWorse(all: seq<Anomaly>, reps: seq<Anomaly>, at: nat, a: Anomaly)
    requires Representatives(all, reps) && at < |reps|
    requires Key(reps[at]) == Key(a) && Rank(a) <= Rank(reps[at])
    ensures Representatives(all + [a], reps)
  {
    forall r | r in reps ensures IsBest(all + [a], r) {
      if Key(r) == Key(a) {
        var i :| 0 <= i < |reps| && reps[i] == r;
        assert i == at;
      }
      KeptBest(all, a, r);
    }
    SameKeys(all, reps, a, reps);
  }

  /** Keys and their order survive an observation of a known key. */
  lemma SameKeys(all: seq<Anomaly>, reps: seq<Anomaly>, a: Anomaly, reps': seq<Anomaly>)
    requires Representatives(all, reps) && HasKey(reps, Key(a))
    requires |reps'| == |reps| && forall i | 0 <= i < |reps| :: Key(reps'[i]) == Key(reps[i])
    requires forall r | r in reps' :: IsBest(all + [a], r)
    ensures Representatives(all + [a], reps')
  {
    forall x | x in all + [a] ensures HasKey(reps', Key(x)) {
      assert x in all || x == a;
      var i :| 0 <= i < |reps| && Key(reps[i]) == Key(x);
      assert Key(reps'[i]) == Key(x);
    }
    forall i, j | 0 <= i < j < |reps'|
      ensures FirstAt(all + [a], Key(reps'[i])) < FirstAt(all + [a], Key(reps'[j]))
    {
      OrderKept(all, reps, a, Key(reps[i]));
      OrderKept(all, reps, a, Key(reps[j]));
    }
  }

  /** The detected anomalies: the representatives by descending severity, in the order of
      their keys' first appearance within a severity. */
  method DetectAnomalies(
    structural: seq<Anomaly>, metric: seq<Anomaly>, trend: seq<Anomaly>, slo: seq<Anomaly>,
    infrastructure: seq<Anomaly>)
    returns (unique: seq<Anomaly>)
    ensures Detected(slo + structural + infrastructure + metric + trend, unique)
  {
    var all := slo + structural + infrastructure + metric + trend;
    var reps := Consolidate(all);
    unique := SortDesc(reps, Rank);
    SortDescIs(reps, Rank);
  }

  /** What detection promises, without saying how it is computed. */
  ghost predicate Detected(all: seq<Anomaly>, unique: seq<Anomaly>) {
    && Descending(unique, Rank)
    && exists reps ::
         Representatives(all, reps) && multiset(unique) == multiset(reps)
         && forall r :: OfRank(unique, Rank, r) == OfRank(reps, Rank, r)
  }

  lemma {:induction false} CountTwice<T>(s: seq<T>, x: T) returns (i: nat, j: nat)
    requires multiset(s)[x] >= 2
    ensures i < j < |s| && s[i] == x && s[j] == x
  {
    var front, last := s[..|s| - 1], s[|s| - 1];
    assert s == front + [last];
    if last == x {
      assert x in multiset(front);
      i :| 0 <= i < |front| && front[i] == x;
      j := |s| - 1;
    } else {
      i, j := CountTwice(front, x);
    }
  }

  lemma PermutedMembers<T>(a: seq<T>, b: seq<T>)
    requires multiset(a) == multiset(b)
    ensures forall x :: x in a <==> x in b
  {
    assert forall x :: x in a <==> x in multiset(a);
    assert forall x :: x in b <==> x in multiset(b);
  }

  lemma PermutedDistinct<T>(a: seq<T>, b: seq<T>, i: nat, j: nat)
    requires multiset(a) == multiset(b) && i < j < |a|
    requires forall k, l | 0 <= k < l < |b| :: b[k] != b[l]
    ensures a[i] != a[j]
  {
    var x := a[i];
    if a[j] == x {
      assert a == a[..i] + [x] + a[i + 1..j] + [x] + a[j + 1..];
      var k, l := CountTwice(b, x);
      assert false;
    }
  }

  /** Read off: distinct keys, exactly the keys of the input, each by its earliest
      observation of maximal severity, and severity descends. */
  lemma DetectedFacts(all: seq<Anomaly>, unique: seq<Anomaly>)
    requires Detected(all, unique)
    ensures forall u | u in unique :: IsBest(all, u)
    ensures forall a | a in all :: HasKey(unique, Key(a))
    ensures forall i, j | 0 <= i < j < |unique| :: Key(unique[i]) != Key(unique[j])
    ensures Descending(unique, Rank) && GravestFirst(unique)
    ensures forall u, a | u in unique && a in all && Key(a) == Key(u) :: !Graver(a.severity, u.severity)
  {
    GraverRanks();
    var reps :| Representatives(all, reps) && multiset(unique) == multiset(reps)
      && forall r :: OfRank(unique, Rank, r) == OfRank(reps, Rank, r);
    PermutedMembers(unique, reps);
    forall a | a in all ensures HasKey(unique, Key(a)) {
      RepresentedKey(all, reps, unique, a);
    }
    DifferentElements(all, reps);
    forall i, j | 0 <= i < j < |unique| ensures Key(unique[i]) != Key(unique[j]) {
      PermutedDistinct(unique, reps, i, j);
      assert unique[i] in unique && unique[j] in unique;
      BestDiffers(all, unique[i], unique[j]);
    }
  }

  /** The order of the severities; an unknown one counts as LOW. */
  predicate Graver(a: Severity, b: Severity) {
    || (a.Critical? && !b.Critical?)
    || (a.High? && (b.Medium? || b.Low? || b.OtherSeverity?))
    || (a.Medium? && (b.Low? || b.OtherSeverity?))
  }

  ghost predicate GravestFirst(s: seq<Anomaly>) {
    forall i, j | 0 <= i < j < |s| :: !Graver(s[j].severity, s[i].severity)
  }

  lemma GraverRanks()
    ensures forall a: Anomaly, b: Anomaly :: Graver(a.severity, b.severity) <==> Rank(a) > Rank(b)
    ensures forall s :: GravestFirst(s) <==> Descending(s, Rank)
  {
    forall s: seq<Anomaly> ensures GravestFirst(s) <==> Descending(s, Rank) {
      forall i, j | 0 <= i < j < |s| ensures Graver(s[j].severity, s[i].severity) <==> Rank(s[i]) < Rank(s[j]) {
      }
    }
  }

  lemma BestDiffers(all: seq<Anomaly>, x: Anomaly, y: Anomaly)
    requires IsBest(all, x) && IsBest(all, y) && x != y
    ensures Key(x) != Key(y)
  {
    if Key(x) == Key(y) {
      BestIsUnique(all, x, y);
    }
  }

  lemma DifferentElements(all: seq<Anomaly>, reps: seq<Anomaly>)
    requires Representatives(all, reps)
    ensures forall k, l | 0 <= k < l < |reps| :: reps[k] != reps[l]
  {
    forall k, l | 0 <= k < l < |reps| ensures reps[k] != reps[l] {
      assert FirstAt(all, Key(reps[k])) < FirstAt(all, Key(reps[l]));
    }
  }

  lemma RepresentedKey(all: seq<Anomaly>, reps: seq<Anomaly>, unique: seq<Anomaly>, a: Anomaly)
    requires Representatives(all, reps) && a in all && forall x :: x in unique <==> x in reps
    ensures HasKey(unique, Key(a))
  {
    var i :| 0 <= i < |reps| && Key(reps[i]) == Key(a);
    assert reps[i] in reps;
    var k :| 0 <= k < |unique| && unique[k] == reps[i];
    assert Key(unique[k]) == Key(a);
  }

  /** The promise fixes the output. */
  lemma DetectionIsUnique(all: seq<Anomaly>, a: seq<Anomaly>, b: seq<Anomaly>)
    requires Detected(all, a) && Detected(all, b)
    ensures a == b
  {
    var ra :| Representatives(all, ra) && multiset(a) == multiset(ra)
      && forall r :: OfRank(a, Rank, r) == OfRank(ra, Rank, r);
    var rb :| Representatives(all, rb) && multiset(b) == multiset(rb)
      && forall r :: OfRank(b, Rank, r) == OfRank(rb, Rank, r);
    RepresentativesAreUnique(all, ra, rb);
    SortedIsUnique(a, b, Rank);
  }

  lemma BestIsUnique(all: seq<Anomaly>, x: Anomaly, y: Anomaly)
    requires IsBest(all, x) && IsBest(all, y) && Key(x) == Key(y)
    ensures x == y
  {
    var i :| 0 <= i < |all| && all[i] == x && BestAt(all, i);
    var j :| 0 <= j < |all| && all[j] == y && BestAt(all, j);
    assert Rank(all[j]) <= Rank(all[i]) && Rank(all[i]) <= Rank(all[j]);
  }

  /** Two increasing sequences with the same elements are equal. */
  lemma {:induction false} IncreasingIsUnique(p: seq<nat>, q: seq<nat>)
    requires forall i, j | 0 <= i < j < |p| :: p[i] < p[j]
    requires forall i, j | 0 <= i < j < |q| :: q[i] < q[j]
    requires forall x :: x in p <==> x in q
    ensures p == q
  {
    assert q != [] ==> q[0] in p;
    if p == [] {
    } else {
      assert p[0] in q;
      var m, n := |p| - 1, |q| - 1;
      assert p[m] in q && q[n] in p;
      assert p[m] == q[n];
      forall x
        ensures x in p[..m] <==> x in q[..n]
      {
        assert x in p[..m] <==> x in p && x < p[m];
        assert x in q[..n] <==> x in q && x < q[n];
      }
      IncreasingIsUnique(p[..m], q[..n]);
      assert p == p[..m] + [p[m]] && q == q[..n] + [q[n]];
    }
  }

  function Positions(all: seq<Anomaly>, reps: seq<Anomaly>): seq<nat> {
    seq(|reps|, i requires 0 <= i < |reps| => FirstAt(all, Key(reps[i])))
  }

  lemma PositionsMatch(all: seq<Anomaly>, a: seq<Anomaly>, b: seq<Anomaly>, x: nat)
    requires Representatives(all, a) && Representatives(all, b) && x in Positions(all, a)
    ensures x in Positions(all, b)
  {
    var i :| 0 <= i < |a| && Positions(all, a)[i] == x;
    assert a[i] in a && IsBest(all, a[i]);
    assert HasKey(b, Key(a[i]));
    var j :| 0 <= j < |b| && Key(b[j]) == Key(a[i]);
    assert Positions(all, b)[j] == x;
  }

  lemma RepresentativesAreUnique(all: seq<Anomaly>, a: seq<Anomaly>, b: seq<Anomaly>)
    requires Representatives(all, a) && Representatives(all, b)
    ensures a == b
  {
    var p, q := Positions(all, a), Positions(all, b);
    forall x
      ensures x in p <==> x in q
    {
      if x in p { PositionsMatch(all, a, b, x); }
      if x in q { PositionsMatch(all, b, a, x); }
    }
    IncreasingIsUnique(p, q);
    forall i | 0 <= i < |a|
      ensures a[i] == b[i]
    {
      assert a[i] in a && b[i] in b && p[i] == q[i];
      BestIsUnique(all, a[i], b[i]);
    }
  }

  // ---------- Correlation ----------

  datatype GroupKey = GroupKey(owner: string, namespace: string, issueType: string)

  /** The anomalies that can be correlated: pods with an owner. */
  predicate Grouped(a: Anomaly) {
    a.ownerName != "" && a.resourceType == Pod
  }

  function KeyOf(a: Anomaly): GroupKey {
    GroupKey(a.ownerName, a.namespace, a.issueType)
  }

  function Filter<T>(s: seq<T>, p: T -> bool): seq<T> {
    if s == [] then []
    else if p(s[|s| - 1]) then Filter(s[..|s| - 1], p) + [s[|s| - 1]]
    else Filter(s[..|s| - 1], p)
  }

  function Belongs(k: GroupKey): Anomaly -> bool {
    (a: Anomaly) => Grouped(a) && KeyOf(a) == k
  }

  function GroupOf(s: seq<Anomaly>, k: GroupKey): seq<Anomaly> {
    Filter(s, Belongs(k))
  }

  function Ungrouped(s: seq<Anomaly>): seq<Anomaly> {
    Filter(s, (a: Anomaly) => !Grouped(a))
  }

  /** The keys of the groups in the order in which the dictionary got them. */
  function GroupKeys(s: seq<Anomaly>): seq<GroupKey> {
    if s == [] then []
    else
      var before, last := GroupKeys(s[..|s| - 1]), s[|s| - 1];
      if Grouped(last) && KeyOf(last) !in before then before + [KeyOf(last)] else before
  }

  function JoinNames(group: seq<Anomaly>): string {
    if group == [] then "" else if |group| == 1 then group[0].resourceName
    else JoinNames(group[..|group| - 1]) + ", " + group[|group| - 1].resourceName
  }

  /** The anomaly of a deployment that stands for a group of its pods. */
  function Correlated(k: GroupKey, group: seq<Anomaly>): Anomaly {
    Anomaly(k.issueType, Critical, k.namespace, k.owner, Deployment,
      Decimal(|group|) + " pods de " + k.owner + " con " + k.issueType + ". Pods afectados: "
        + JoinNames(if |group| <= 5 then group else group[..5]),
      k.owner, Some(|group|))
  }

  /** What a group becomes. */
  function Merge(k: GroupKey, group: seq<Anomaly>): seq<Anomaly> {
    if |group| >= 3 then [Correlated(k, group)] else group
  }

  function Emit(s: seq<Anomaly>, keys: seq<GroupKey>): seq<Anomaly> {
    if keys == [] then []
    else Emit(s, keys[..|keys| - 1]) + Merge(keys[|keys| - 1], GroupOf(s, keys[|keys| - 1]))
  }

  function Correlate(s: seq<Anomaly>): seq<Anomaly> {
    SortDesc(Ungrouped(s) + Emit(s, GroupKeys(s)), Rank)
  }

  lemma GroupStep(s: seq<Anomaly>, i: nat, k: GroupKey)
    requires i < |s|
    ensures GroupOf(s[..i + 1], k) == GroupOf(s[..i], k) + if Belongs(k)(s[i]) then [s[i]] else []
    ensures Ungrouped(s[..i + 1]) == Ungrouped(s[..i]) + if Grouped(s[i]) then [] else [s[i]]
  {
    assert s[..i + 1][..i] == s[..i];
  }

  lemma KeysStep(s: seq<Anomaly>, i: nat)
    requires i < |s|
    ensures GroupKeys(s[..i + 1])
         == GroupKeys(s[..i]) + if Grouped(s[i]) && KeyOf(s[i]) !in GroupKeys(s[..i]) then [KeyOf(s[i])] else []
  {
    assert s[..i + 1][..i] == s[..i];
  }

  /** The dictionary of groups, with its keys in the order of insertion. */
  ghost predicate GroupsAre(s: seq<Anomaly>, keys: seq<GroupKey>, groups: map<GroupKey, seq<Anomaly>>) {
    && keys == GroupKeys(s)
    && (forall k :: k in groups <==> k in keys)
    && forall k :: GroupOf(s, k) == if k in groups then groups[k] else []
  }

  lemma GroupsNext(s: seq<Anomaly>, i: nat, keys: seq<GroupKey>, groups: map<GroupKey, seq<Anomaly>>)
    requires i < |s| && GroupsAre(s[..i], keys, groups)
    ensures if Grouped(s[i]) then
              var k := KeyOf(s[i]);
              var before := if k in groups then groups[k] else [];
              GroupsAre(s[..i + 1], if k in groups then keys else keys + [k], groups[k := before + [s[i]]])
            else GroupsAre(s[..i + 1], keys, groups)
  {
    KeysStep(s, i);
    forall k ensures GroupOf(s[..i + 1], k) == GroupOf(s[..i], k) + if Belongs(k)(s[i]) then [s[i]] else [] {
      GroupStep(s, i, k);
    }
  }

  /** The loop that fills the insertion-ordered dictionary of groups. */
  method GroupByOwner(anomalies: seq<Anomaly>)
    returns (ungrouped: seq<Anomaly>, keys: seq<GroupKey>, groups: map<GroupKey, seq<Anomaly>>)
    ensures ungrouped == Ungrouped(anomalies) && keys == GroupKeys(anomalies)
    ensures forall k | k in keys :: k in groups && groups[k] == GroupOf(anomalies, k)
  {
    ungrouped, keys, groups := [], [], map[];
    for i := 0 to |anomalies|
      invariant ungrouped == Ungrouped(anomalies[..i]) && GroupsAre(anomalies[..i], keys, groups)
    {
      var anomaly := anomalies[i];
      GroupStep(anomalies, i, KeyOf(anomaly));
      GroupsNext(anomalies, i, keys, groups);
      if Grouped(anomaly) {
        var key := KeyOf(anomaly);
        if key !in groups {
          keys := keys + [key];
          groups := groups[key := []];
        }
        groups := groups[key := groups[key] + [anomaly]];
      } else {
        ungrouped := ungrouped + [anomaly];
      }
    }
    assert anomalies[..|anomalies|] == anomalies;
  }

  /** What the first `n` groups become. */
  function EmitUpTo(s: seq<Anomaly>, keys: seq<GroupKey>, n: nat): seq<Anomaly>
    requires n <= |keys|
  {
    if n == 0 then [] else EmitUpTo(s, keys, n - 1) + Merge(keys[n - 1], GroupOf(s, keys[n - 1]))
  }

  lemma {:induction false} EmitPrefix(s: seq<Anomaly>, keys: seq<GroupKey>, n: nat)
    requires n <= |keys|
    ensures EmitUpTo(s, keys, n) == Emit(s, keys[..n])
  {
    if n > 0 {
      EmitPrefix(s, keys, n - 1);
      assert keys[..n][..n - 1] == keys[..n - 1];
    }
  }

  lemma EmitStep(s: seq<Anomaly>, before: seq<Anomaly>, keys: seq<GroupKey>, i: nat, group: seq<Anomaly>)
    requires i < |keys| && group == GroupOf(s, keys[i])
    ensures before + EmitUpTo(s, keys, i) + Merge(keys[i], group) == before + EmitUpTo(s, keys, i + 1)
  {
    Associative(before, EmitUpTo(s, keys, i), Merge(keys[i], group));
  }

  lemma Associative<T>(a: seq<T>, b: seq<T>, c: seq<T>)
    ensures a + b + c == a + (b + c)
  {
  }

  /** The loop over the groups, in the order in which the dictionary got them. */
  method EmitGroups(
    ghost s: seq<Anomaly>, ungrouped: seq<Anomaly>, keys: seq<GroupKey>, groups: map<GroupKey, seq<Anomaly>>)
    returns (result: seq<Anomaly>)
    requires forall k | k in keys :: k in groups && groups[k] == GroupOf(s, k)
    ensures result == ungrouped + EmitUpTo(s, keys, |keys|)
  {
    result := ungrouped;
    for i := 0 to |keys|
      invariant result == ungrouped + EmitUpTo(s, keys, i)
    {
      assert keys[i] in keys;
      var group := groups[keys[i]];
      EmitStep(s, ungrouped, keys, i, group);
      result := result + Merge(keys[i], group);
    }
  }

  method CorrelateAnomalies(anomalies: seq<Anomaly>) returns (result: seq<Anomaly>)
    ensures result == Correlate(anomalies)
  {
    var ungrouped, keys, groups := GroupByOwner(anomalies);
    result := EmitGroups(anomalies, ungrouped, keys, groups);
    EmitPrefix(anomalies, keys, |keys|);
    assert keys[..|keys|] == keys;
    result := SortDesc(result, Rank);
  }

  // ---------- Counting under permutation ----------

  lemma {:induction false} FilterConcat<T>(a: seq<T>, b: seq<T>, p: T -> bool)
    ensures Filter(a + b, p) == Filter(a, p) + Filter(b, p)
  {
    if b == [] {
      assert a + b == a;
    } else {
      assert (a + b)[..|a + b| - 1] == a + b[..|b| - 1];
      FilterConcat(a, b[..|b| - 1], p);
    }
  }

  /** A sequence is cut where one of its elements stands. */
  lemma CutAt<T>(s: seq<T>, x: T) returns (left: seq<T>, right: seq<T>)
    requires x in s
    ensures s == left + [x] + right && multiset(s) == multiset(left + right) + multiset{x}
  {
    var i :| 0 <= i < |s| && s[i] == x;
    left, right := s[..i], s[i + 1..];
    assert s == left + [x] + right;
  }

  /** The last element of a sequence, in a permutation of it. */
  lemma CutLast<T>(a: seq<T>, b: seq<T>) returns (left: seq<T>, right: seq<T>)
    requires a != [] && multiset(a) == multiset(b)
    ensures b == left + [a[|a| - 1]] + right && multiset(a[..|a| - 1]) == multiset(left + right)
  {
    var front, last := a[..|a| - 1], a[|a| - 1];
    assert a == front + [last];
    assert last in multiset(b);
    left, right := CutAt(b, last);
    assert multiset(front) == multiset(a) - multiset{last} == multiset(left + right);
  }

  lemma FilterAround<T>(left: seq<T>, x: T, right: seq<T>, p: T -> bool)
    ensures multiset(Filter(left + [x] + right, p))
         == multiset(Filter(left + right, p)) + if p(x) then multiset{x} else multiset{}
  {
    FilterConcat(left + [x], right, p);
    FilterConcat(left, [x], p);
    FilterConcat(left, right, p);
    assert [x][..0] == [];
  }

  /** Filtering respects permutation. */
  lemma {:induction false} FilterPermuted<T>(a: seq<T>, b: seq<T>, p: T -> bool)
    requires multiset(a) == multiset(b)
    ensures multiset(Filter(a, p)) == multiset(Filter(b, p))
    ensures |Filter(a, p)| == |Filter(b, p)|
  {
    if a == [] {
      assert |multiset(a)| == |multiset(b)|;
    } else {
      var front, last := a[..|a| - 1], a[|a| - 1];
      var left, right := CutLast(a, b);
      FilterPermuted(front, left + right, p);
      FilterAround(left, last, right, p);
    }
    assert |multiset(Filter(a, p))| == |Filter(a, p)| && |multiset(Filter(b, p))| == |Filter(b, p)|;
  }

  function Weight(a: Anomaly): nat {
    if a.correlatedPods.Some? then a.correlatedPods.value else 1
  }

  function TotalWeight(s: seq<Anomaly>): nat {
    if s == [] then 0 else TotalWeight(s[..|s| - 1]) + Weight(s[|s| - 1])
  }

  lemma {:induction false} TotalAppend(a: seq<Anomaly>, b: seq<Anomaly>)
    ensures TotalWeight(a + b) == TotalWeight(a) + TotalWeight(b)
  {
    if b == [] {
      assert a + b == a;
    } else {
      assert (a + b)[..|a + b| - 1] == a + b[..|b| - 1];
      TotalAppend(a, b[..|b| - 1]);
    }
  }

  lemma TotalAround(left: seq<Anomaly>, x: Anomaly, right: seq<Anomaly>)
    ensures TotalWeight(left + [x] + right) == TotalWeight(left + right) + Weight(x)
  {
    TotalAppend(left + [x], right);
    TotalAppend(left, [x]);
    TotalAppend(left, right);
    assert [x][..0] == [];
  }

  lemma {:induction false} TotalPermuted(a: seq<Anomaly>, b: seq<Anomaly>)
    requires multiset(a) == multiset(b)
    ensures TotalWeight(a) == TotalWeight(b)
  {
    if a == [] {
      assert |multiset(a)| == |multiset(b)|;
    } else {
      var front, last := a[..|a| - 1], a[|a| - 1];
      var left, right := CutLast(a, b);
      TotalPermuted(front, left + right);
      TotalAround(left, last, right);
    }
  }

  // ---------- What correlation conserves ----------

  predicate Big(s: seq<Anomaly>, k: GroupKey) {
    |GroupOf(s, k)| >= 3
  }

  predicate InBigGroup(s: seq<Anomaly>, a: Anomaly) {
    Grouped(a) && Big(s, KeyOf(a))
  }

  /** The anomalies that stay as they are. */
  function Kept(s: seq<Anomaly>): seq<Anomaly> {
    Filter(s, (a: Anomaly) => !InBigGroup(s, a))
  }

  /** One deployment anomaly for each of the keys that has a big group. */
  function StandIns(s: seq<Anomaly>, keys: seq<GroupKey>): seq<Anomaly> {
    if keys == [] then []
    else
      var front, k := StandIns(s, keys[..|keys| - 1]), keys[|keys| - 1];
      if Big(s, k) then front + [Correlated(k, GroupOf(s, k))] else front
  }

  function OfKeys(s: seq<Anomaly>, keys: seq<GroupKey>, big: bool): Anomaly -> bool {
    (a: Anomaly) => Grouped(a) && KeyOf(a) in keys && Big(s, KeyOf(a)) == big
  }

  function OfKey(s: seq<Anomaly>, k: GroupKey, big: bool): Anomaly -> bool {
    (a: Anomaly) => Grouped(a) && KeyOf(a) == k && Big(s, k) == big
  }

  lemma {:induction false} FilterSplit<T>(s: seq<T>, p: T -> bool, q: T -> bool, r: T -> bool)
    requires forall x | x in s :: r(x) == (p(x) || q(x)) && !(p(x) && q(x))
    ensures multiset(Filter(s, r)) == multiset(Filter(s, p)) + multiset(Filter(s, q))
    ensures |Filter(s, r)| == |Filter(s, p)| + |Filter(s, q)|
  {
    if s != [] {
      assert s[|s| - 1] in s;
      FilterSplit(s[..|s| - 1], p, q, r);
    }
  }

  lemma {:induction false} FilterSame<T>(s: seq<T>, p: T -> bool, q: T -> bool)
    requires forall x | x in s :: p(x) == q(x)
    ensures Filter(s, p) == Filter(s, q)
  {
    if s != [] {
      assert s[|s| - 1] in s;
      FilterSame(s[..|s| - 1], p, q);
    }
  }

  lemma {:induction false} FilterNone<T>(s: seq<T>, p: T -> bool)
    requires forall x | x in s :: !p(x)
    ensures Filter(s, p) == []
  {
    if s != [] {
      assert s[|s| - 1] in s;
      FilterNone(s[..|s| - 1], p);
    }
  }

  lemma {:induction false} FilterTwice<T>(s: seq<T>, p: T -> bool, q: T -> bool)
    ensures |Filter(Filter(s, p), q)| <= |Filter(s, q)|
    ensures forall x | x in Filter(s, p) :: x in s && p(x)
  {
    if s != [] {
      FilterTwice(s[..|s| - 1], p, q);
    }
  }

  ghost predicate Distinct(keys: seq<GroupKey>) {
    forall i, j | 0 <= i < j < |keys| :: keys[i] != keys[j]
  }

  lemma {:induction false} GroupKeysAre(s: seq<Anomaly>)
    ensures Distinct(GroupKeys(s))
    ensures forall a | a in s && Grouped(a) :: KeyOf(a) in GroupKeys(s)
  {
    if s != [] {
      GroupKeysAre(s[..|s| - 1]);
      assert s == s[..|s| - 1] + [s[|s| - 1]];
    }
  }

  lemma {:induction false} EmitIs(s: seq<Anomaly>, keys: seq<GroupKey>)
    requires Distinct(keys)
    ensures multiset(Emit(s, keys)) == multiset(Filter(s, OfKeys(s, keys, false))) + multiset(StandIns(s, keys))
    ensures TotalWeight(StandIns(s, keys)) == |Filter(s, OfKeys(s, keys, true))|
  {
    if keys == [] {
      FilterNone(s, OfKeys(s, keys, false));
      FilterNone(s, OfKeys(s, keys, true));
    } else {
      var front, k := keys[..|keys| - 1], keys[|keys| - 1];
      EmitIs(s, front);
      assert keys == front + [k];
      OneMoreKey(s, front, k, false);
      OneMoreKey(s, front, k, true);
      if Big(s, k) {
        assert TotalWeight(StandIns(s, keys)) == TotalWeight(StandIns(s, front)) + |GroupOf(s, k)| by {
          assert StandIns(s, keys)[..|StandIns(s, front)|] == StandIns(s, front);
        }
      }
    }
  }

  lemma OneMoreKey(s: seq<Anomaly>, front: seq<GroupKey>, k: GroupKey, big: bool)
    requires k !in front
    ensures var mine := if Big(s, k) == big then GroupOf(s, k) else [];
      && multiset(Filter(s, OfKeys(s, front + [k], big))) == multiset(Filter(s, OfKeys(s, front, big))) + multiset(mine)
      && |Filter(s, OfKeys(s, front + [k], big))| == |Filter(s, OfKeys(s, front, big))| + |mine|
  {
    var one := OfKey(s, k, big);
    forall x | x in s
      ensures OfKeys(s, front + [k], big)(x) == (OfKeys(s, front, big)(x) || one(x))
      ensures !(OfKeys(s, front, big)(x) && one(x))
    {
      assert KeyOf(x) in front + [k] <==> KeyOf(x) in front || KeyOf(x) == k;
    }
    FilterSplit(s, OfKeys(s, front, big), one, OfKeys(s, front + [k], big));
    if Big(s, k) == big {
      FilterSame(s, one, Belongs(k));
    } else {
      FilterNone(s, one);
    }
  }

  lemma PlainIs(s: seq<Anomaly>)
    ensures multiset(Ungrouped(s) + Emit(s, GroupKeys(s))) == multiset(Kept(s)) + multiset(StandIns(s, GroupKeys(s)))
  {
    var keys := GroupKeys(s);
    GroupKeysAre(s);
    EmitIs(s, keys);
    FilterSplit(s, (a: Anomaly) => !Grouped(a), OfKeys(s, keys, false), (a: Anomaly) => !InBigGroup(s, a));
  }

  lemma WeightsAre(s: seq<Anomaly>)
    requires forall a | a in s :: a.correlatedPods.None?
    ensures TotalWeight(Kept(s) + StandIns(s, GroupKeys(s))) == |s|
  {
    var keys := GroupKeys(s);
    GroupKeysAre(s);
    EmitIs(s, keys);
    FilterSplit(s, (a: Anomaly) => !InBigGroup(s, a), OfKeys(s, keys, true), (a: Anomaly) => true);
    FilterAll(s);
    FilterTwice(s, (a: Anomaly) => !InBigGroup(s, a), (a: Anomaly) => true);
    TotalOfSingles(Kept(s));
    TotalAppend(Kept(s), StandIns(s, keys));
  }

  /** No anomaly is lost: the output is the kept ones and one stand-in per big group, by
      descending severity; and the weights sum to the number of inputs. */
  lemma CorrelationConserves(s: seq<Anomaly>)
    ensures multiset(Correlate(s)) == multiset(Kept(s)) + multiset(StandIns(s, GroupKeys(s)))
    ensures Descending(Correlate(s), Rank) && GravestFirst(Correlate(s))
    ensures (forall a | a in s :: a.correlatedPods.None?) ==> TotalWeight(Correlate(s)) == |s|
  {
    GraverRanks();
    SortDescIs(Ungrouped(s) + Emit(s, GroupKeys(s)), Rank);
    PlainIs(s);
    if forall a | a in s :: a.correlatedPods.None? {
      WeightsAre(s);
      assert multiset(Kept(s) + StandIns(s, GroupKeys(s))) == multiset(Correlate(s));
      TotalPermuted(Kept(s) + StandIns(s, GroupKeys(s)), Correlate(s));
    }
  }

  lemma {:induction false} FilterAll(s: seq<Anomaly>)
    ensures Filter(s, (a: Anomaly) => true) == s
  {
    if s != [] {
      FilterAll(s[..|s| - 1]);
    }
  }

  lemma {:induction false} TotalOfSingles(s: seq<Anomaly>)
    requires forall a | a in s :: a.correlatedPods.None?
    ensures TotalWeight(s) == |s|
  {
    if s != [] {
      assert s[|s| - 1] in s;
      TotalOfSingles(s[..|s| - 1]);
    }
  }

  lemma {:induction false} StandInsAreDeployments(s: seq<Anomaly>, keys: seq<GroupKey>)
    ensures forall a | a in StandIns(s, keys) :: !Grouped(a)
  {
    if keys != [] {
      StandInsAreDeployments(s, keys[..|keys| - 1]);
    }
  }

  /** No group of three or more pods is left. */
  lemma NoBigGroupLeft(s: seq<Anomaly>, k: GroupKey)
    ensures !Big(Correlate(s), k)
  {
    CorrelationConserves(s);
    var stand := StandIns(s, GroupKeys(s));
    StandInsAreDeployments(s, GroupKeys(s));
    FilterPermuted(Correlate(s), Kept(s) + stand, Belongs(k));
    FilterConcat(Kept(s), stand, Belongs(k));
    FilterNone(stand, Belongs(k));
    FilterTwice(s, (a: Anomaly) => !InBigGroup(s, a), Belongs(k));
    if Big(s, k) {
      FilterNone(Kept(s), Belongs(k));
    }
  }

  /** A second application changes nothing but the order within a severity. */
  lemma CorrelationIsIdempotent(s: seq<Anomaly>)
    ensures multiset(Correlate(Correlate(s))) == multiset(Correlate(s))
  {
    var t := Correlate(s);
    CorrelationConserves(t);
    forall k { NoBigGroupLeft(s, k); }
    FilterSame(t, (a: Anomaly) => !InBigGroup(t, a), (a: Anomaly) => true);
    FilterAll(t);
    NoStandIns(t, GroupKeys(t));
  }

  lemma {:induction false} NoStandIns(s: seq<Anomaly>, keys: seq<GroupKey>)
    requires forall k :: !Big(s, k)
    ensures StandIns(s, keys) == []
  {
    if keys != [] {
      NoStandIns(s, keys[..|keys| - 1]);
    }
  }

  // ---------- Correlation in the fields of the anomalies ----------

  /** Two pods of one owner and namespace with one issue. */
  predicate Alike(a: Anomaly, b: Anomaly) {
    && a.resourceType == Pod && b.resourceType == Pod
    && a.ownerName != "" && a.ownerName == b.ownerName
    && a.namespace == b.namespace && a.issueType == b.issueType
  }

  function PlacesAlike(s: seq<Anomaly>, a: Anomaly): set<nat> {
    set i: nat | i < |s| && Alike(s[i], a)
  }

  function AllAlike(s: seq<Anomaly>, a: Anomaly): seq<Anomaly> {
    Filter(s, (b: Anomaly) => Alike(b, a))
  }

  /** The anomaly that replaces the pods like `a`, and names the first five. */
  predicate StandsFor(s: seq<Anomaly>, x: Anomaly, a: Anomaly) {
    var n, pods := |PlacesAlike(s, a)|, AllAlike(s, a);
    && x.severity == Critical && x.resourceType == Deployment
    && x.ownerName == a.ownerName && x.resourceName == a.ownerName
    && x.namespace == a.namespace && x.issueType == a.issueType
    && x.correlatedPods == Some(n)
    && x.details == Decimal(n) + " pods de " + a.ownerName + " con " + a.issueType + ". Pods afectados: "
                      + JoinNames(if |pods| <= 5 then pods else pods[..5])
  }

  function Places<T>(s: seq<T>, p: T -> bool): set<nat> {
    set i: nat | i < |s| && p(s[i])
  }

  lemma {:induction false} FilterCounts<T>(s: seq<T>, p: T -> bool)
    ensures |Filter(s, p)| == |Places(s, p)|
  {
    if s != [] {
      var n := |s| - 1;
      FilterCounts(s[..n], p);
      assert Places(s, p) == Places(s[..n], p) + if p(s[n]) then {n} else {};
    }
  }

  lemma AlikeIsGroup(s: seq<Anomaly>, a: Anomaly)
    requires Grouped(a)
    ensures |GroupOf(s, KeyOf(a))| == |PlacesAlike(s, a)| && GroupOf(s, KeyOf(a)) == AllAlike(s, a)
  {
    FilterSame(s, Belongs(KeyOf(a)), (b: Anomaly) => Alike(b, a));
    FilterCounts(s, Belongs(KeyOf(a)));
    assert Places(s, Belongs(KeyOf(a))) == PlacesAlike(s, a);
  }

  lemma AloneIsSmall(s: seq<Anomaly>, a: Anomaly)
    ensures !Grouped(a) ==> |PlacesAlike(s, a)| == 0
    ensures InBigGroup(s, a) <==> |PlacesAlike(s, a)| >= 3
  {
    if Grouped(a) {
      AlikeIsGroup(s, a);
    } else {
      assert PlacesAlike(s, a) == {};
    }
  }

  lemma {:induction false} GroupKeysOccur(s: seq<Anomaly>)
    ensures forall k | k in GroupKeys(s) :: exists a :: a in s && Grouped(a) && KeyOf(a) == k
  {
    if s != [] {
      var front, last := s[..|s| - 1], s[|s| - 1];
      GroupKeysOccur(front);
      forall k | k in GroupKeys(s) ensures exists a :: a in s && Grouped(a) && KeyOf(a) == k {
        if k in GroupKeys(front) {
          var a :| a in front && Grouped(a) && KeyOf(a) == k;
          assert a in s;
        } else {
          assert last in s && KeyOf(last) == k;
        }
      }
    }
  }

  lemma {:induction false} StandInsAre(s: seq<Anomaly>, keys: seq<GroupKey>)
    ensures forall x | x in StandIns(s, keys) ::
      exists k :: k in keys && Big(s, k) && x == Correlated(k, GroupOf(s, k))
    ensures forall k | k in keys && Big(s, k) :: Correlated(k, GroupOf(s, k)) in StandIns(s, keys)
  {
    if keys != [] {
      var front, last := keys[..|keys| - 1], keys[|keys| - 1];
      StandInsAre(s, front);
      forall x | x in StandIns(s, keys)
        ensures exists k :: k in keys && Big(s, k) && x == Correlated(k, GroupOf(s, k))
      {
        if x in StandIns(s, front) {
          var k :| k in front && Big(s, k) && x == Correlated(k, GroupOf(s, k));
          assert k in keys;
        } else {
          assert last in keys;
        }
      }
    }
  }

  /** What correlation does, in the fields of the anomalies: one that is alike to fewer than
      three stays, as often as it occurs; of every other one there is a stand-in for all that
      are alike to it; and there is nothing else. */
  lemma CorrelationInFields(s: seq<Anomaly>)
    ensures forall a | a in s && |PlacesAlike(s, a)| < 3 :: multiset(Correlate(s))[a] >= multiset(s)[a]
    ensures forall a | a in s && |PlacesAlike(s, a)| >= 3 ::
      a !in Correlate(s) && exists x :: x in Correlate(s) && StandsFor(s, x, a)
    ensures forall x | x in Correlate(s) ::
      || (x in s && |PlacesAlike(s, x)| < 3)
      || exists a :: a in s && |PlacesAlike(s, a)| >= 3 && StandsFor(s, x, a)
  {
    var keys := GroupKeys(s);
    CorrelationConserves(s);
    GroupKeysAre(s);
    GroupKeysOccur(s);
    StandInsAre(s, keys);
    forall a { AloneIsSmall(s, a); }
    forall a | a in s && |PlacesAlike(s, a)| < 3 ensures multiset(Correlate(s))[a] >= multiset(s)[a] {
      KeptAll(s, (x: Anomaly) => !InBigGroup(s, x), a);
    }
    forall a | a in s && |PlacesAlike(s, a)| >= 3
      ensures a !in Correlate(s) && exists x :: x in Correlate(s) && StandsFor(s, x, a)
    {
      BigIsReplaced(s, a);
    }
    forall x | x in Correlate(s)
      ensures || (x in s && |PlacesAlike(s, x)| < 3)
              || exists a :: a in s && |PlacesAlike(s, a)| >= 3 && StandsFor(s, x, a)
    {
      NothingElse(s, x);
    }
  }

  lemma {:induction false} KeptAll<T>(s: seq<T>, p: T -> bool, x: T)
    requires p(x)
    ensures multiset(Filter(s, p))[x] == multiset(s)[x]
  {
    if s != [] {
      assert s == s[..|s| - 1] + [s[|s| - 1]];
      KeptAll(s[..|s| - 1], p, x);
    }
  }

  lemma InOutput(s: seq<Anomaly>, x: Anomaly)
    ensures x in Correlate(s) <==> x in Kept(s) || x in StandIns(s, GroupKeys(s))
  {
    CorrelationConserves(s);
    assert x in Correlate(s) <==> x in multiset(Correlate(s));
    assert x in Kept(s) <==> x in multiset(Kept(s));
    assert x in StandIns(s, GroupKeys(s)) <==> x in multiset(StandIns(s, GroupKeys(s)));
  }

  lemma BigIsReplaced(s: seq<Anomaly>, a: Anomaly)
    requires a in s && |PlacesAlike(s, a)| >= 3
    ensures a !in Correlate(s)
    ensures exists x :: x in Correlate(s) && StandsFor(s, x, a)
  {
    var keys, k := GroupKeys(s), KeyOf(a);
    AloneIsSmall(s, a);
    AlikeIsGroup(s, a);
    GroupKeysAre(s);
    StandInsAre(s, keys);
    StandInsAreDeployments(s, keys);
    FilterTwice(s, (x: Anomaly) => !InBigGroup(s, x), (x: Anomaly) => true);
    InOutput(s, a);
    var x := Correlated(k, GroupOf(s, k));
    InOutput(s, x);
    assert StandsFor(s, x, a);
  }

  lemma NothingElse(s: seq<Anomaly>, x: Anomaly)
    requires x in Correlate(s)
    ensures || (x in s && |PlacesAlike(s, x)| < 3)
            || exists a :: a in s && |PlacesAlike(s, a)| >= 3 && StandsFor(s, x, a)
  {
    var keys := GroupKeys(s);
    InOutput(s, x);
    if x in Kept(s) {
      FilterTwice(s, (y: Anomaly) => !InBigGroup(s, y), (y: Anomaly) => true);
      AloneIsSmall(s, x);
    } else {
      StandInsAre(s, keys);
      GroupKeysOccur(s);
      var k :| k in keys && Big(s, k) && x == Correlated(k, GroupOf(s, k));
      var a :| a in s && Grouped(a) && KeyOf(a) == k;
      AlikeIsGroup(s, a);
      assert StandsFor(s, x, a);
    }
  }

  /** The names in a stand-in's text come in the order of the pods. */
  lemma {:induction false} NamesInOrder(a: seq<Anomaly>, b: seq<Anomaly>)
    requires a != [] && b != []
    ensures JoinNames(a + b) == JoinNames(a) + ", " + JoinNames(b)
    ensures |a| == 1 ==> JoinNames(a) == a[0].resourceName
  {
    var all := a + b;
    assert all[..|all| - 1] == a + b[..|b| - 1];
    if |b| == 1 {
      assert all[..|all| - 1] == a;
    } else {
      NamesInOrder(a, b[..|b| - 1]);
    }
  }

  /** A pod of the first group was observed before any of the second. */
  ghost predicate SeenBefore(s: seq<Anomaly>, first: GroupKey, second: GroupKey) {
    exists p: nat :: p < |s| && Belongs(first)(s[p]) && forall q | 0 <= q <= p :: !Belongs(second)(s[q])
  }

  /** The groups come in the order in which their first pods were observed. */
  lemma {:induction false} GroupsInOrder(s: seq<Anomaly>, i: nat, j: nat)
    requires i < j < |GroupKeys(s)|
    ensures SeenBefore(s, GroupKeys(s)[i], GroupKeys(s)[j])
  {
    var front, k, l := s[..|s| - 1], GroupKeys(s)[i], GroupKeys(s)[j];
    var p: nat;
    if j < |GroupKeys(front)| {
      GroupsInOrder(front, i, j);
      p :| p < |front| && Belongs(k)(front[p]) && forall q | 0 <= q <= p :: !Belongs(l)(front[q]);
    } else {
      assert k in GroupKeys(front);
      GroupKeysOccur(front);
      GroupKeysAre(front);
      var a :| a in front && Grouped(a) && KeyOf(a) == k;
      p :| p < |front| && front[p] == a;
      assert forall q | 0 <= q < |front| :: front[q] in front;
    }
    assert Belongs(k)(s[p]);
    forall q | 0 <= q <= p ensures !Belongs(l)(s[q]) {
      assert s[q] == front[q];
    }
  }

  /** Within one severity the output keeps the order: first what belongs to no group, as observed,
      then the groups one after another. */
  lemma CorrelationKeepsOrder(s: seq<Anomaly>, r: int)
    ensures OfRank(Correlate(s), Rank, r) == OfRank(Ungrouped(s) + Emit(s, GroupKeys(s)), Rank, r)
  {
    SortDescIs(Ungrouped(s) + Emit(s, GroupKeys(s)), Rank);
  }

  lemma {:induction false} EmitInOrder(s: seq<Anomaly>, a: seq<GroupKey>, b: seq<GroupKey>)
    ensures Emit(s, a + b) == Emit(s, a) + Emit(s, b)
  {
    if b == [] {
      assert a + b == a;
    } else {
      assert (a + b)[..|a + b| - 1] == a + b[..|b| - 1];
      EmitInOrder(s, a, b[..|b| - 1]);
    }
  }
}
