/** Names of deployments and keys of incidents. */
module Names {
  import opened Text
  import opened Sorting

  // ---------- Incident keys ----------

  predicate NoColon(s: string) {
    forall i | 0 <= i < |s| :: s[i] != ':'
  }

  function IncidentKey(namespace: string, resource: string, issue: string): string {
    namespace + ":" + resource + ":" + issue
  }

  /** Position behind the last colon before `i`, or 0. */
  function BehindColon(s: string, i: nat): (n: nat)
    requires i <= |s|
    ensures n <= i
    ensures forall k | n <= k < i :: s[k] != ':'
    ensures n > 0 ==> s[n - 1] == ':'
  {
    if i == 0 || s[i - 1] == ':' then i else BehindColon(s, i - 1)
  }

  /** Text after the last colon, or the whole text: `key.rsplit(":", 1)[-1]`. */
  function AfterLastColon(s: string): string {
    var n := BehindColon(s, |s|);
    seq(|s| - n, k requires 0 <= k < |s| - n => s[n + k])
  }

  /** Seconds for which an incident of this type is not processed again. */
  function DedupSeconds(issue: string): int {
    if issue in {"HIGH_RESTARTS", "MEMORY_LEAK_PREDICTED", "CERTIFICATE_EXPIRING"} then 3600
    else if issue in {"SLO_BUDGET_BURNING", "VAULT_SEALED", "LOADBALANCER_NO_IP", "PVC_PENDING",
                      "NODE_PRESSURE", "NODE_DISK_HIGH", "PVC_CAPACITY_HIGH"} then 1800
    else if issue in {"HIGH_CPU", "HIGH_MEMORY", "NODE_MEMORY_HIGH"} then 900
    else if issue in {"DEPLOYMENT_DEGRADED", "K8S_EVENT_WARNING"} then 300
    else 600
  }

  function DedupSecondsFor(key: string): int {
    DedupSeconds(AfterLastColon(key))
  }

  /** The time of every issue type that has one of its own, and the default. */
  lemma DedupTable(issue: string)
    ensures DedupSeconds("HIGH_RESTARTS") == DedupSeconds("MEMORY_LEAK_PREDICTED") == 3600
    ensures DedupSeconds("CERTIFICATE_EXPIRING") == 3600
    ensures DedupSeconds("SLO_BUDGET_BURNING") == DedupSeconds("VAULT_SEALED") == 1800
    ensures DedupSeconds("LOADBALANCER_NO_IP") == 1800
    ensures DedupSeconds("PVC_PENDING") == DedupSeconds("NODE_PRESSURE") == DedupSeconds("NODE_DISK_HIGH") == 1800
    ensures DedupSeconds("PVC_CAPACITY_HIGH") == 1800
    ensures DedupSeconds("HIGH_CPU") == DedupSeconds("HIGH_MEMORY") == DedupSeconds("NODE_MEMORY_HIGH") == 900
    ensures DedupSeconds("DEPLOYMENT_DEGRADED") == DedupSeconds("K8S_EVENT_WARNING") == 300
    ensures DedupSeconds("OOM_KILLED") == DedupSeconds("CRASH_LOOP") == 600
    ensures DedupSeconds(issue) in {300, 600, 900, 1800, 3600}
  {
  }

  lemma LastColonIs(s: string, tail: string)
    requires NoColon(tail)
    ensures AfterLastColon(s + ":" + tail) == tail
  {
    var t := s + ":" + tail;
    assert t[|s|] == ':';
    assert forall k | 0 <= k < |tail| :: t[|s| + 1 + k] == tail[k];
    assert forall i | |s| < i < |t| :: t[i] == tail[i - |s| - 1];
    assert BehindColon(t, |t|) == |s| + 1;
  }

  /** The deduplication time is the one of the issue type, even when the name of the
      resource contains colons. */
  lemma TtlFollowsIssue(namespace: string, resource: string, issue: string)
    requires NoColon(issue)
    ensures DedupSecondsFor(IncidentKey(namespace, resource, issue)) == DedupSeconds(issue)
  {
    LastColonIs(namespace + ":" + resource, issue);
  }

  /** Different anomalies have different keys, even when resource names contain colons. */
  lemma IncidentKeyInjective(ns1: string, r1: string, i1: string, ns2: string, r2: string, i2: string)
    requires NoColon(ns1) && NoColon(ns2) && NoColon(i1) && NoColon(i2)
    requires IncidentKey(ns1, r1, i1) == IncidentKey(ns2, r2, i2)
    ensures ns1 == ns2 && r1 == r2 && i1 == i2
  {
    var k1, k2 := IncidentKey(ns1, r1, i1), IncidentKey(ns2, r2, i2);
    LastColonIs(ns1 + ":" + r1, i1);
    LastColonIs(ns2 + ":" + r2, i2);
    FindIs(k1, ':', |ns1|);
    FindIs(k2, ':', |ns2|);
    assert ns1 == k1[..|ns1|] && ns2 == k2[..|ns2|];
    assert r1 == k1[|ns1| + 1..|k1| - |i1| - 1] && r2 == k2[|ns2| + 1..|k2| - |i2| - 1];
  }

  // ---------- From pod to deployment ----------

  /** The name is the key with a suffix. */
  predicate Covers(key: string, name: string) {
    key + "-" <= name
  }

  /** The target of a restart, and of the restart counter: the first key that the name
      properly extends. */
  function RestartTarget(keys: seq<string>, name: string): string {
    if keys == [] then name
    else if name != keys[0] && Covers(keys[0], name) then keys[0]
    else RestartTarget(keys[1..], name)
  }

  /** The base name of the GitOps handoff and of the verification: the first key that the
      name equals or extends. */
  function DeployBase(keys: seq<string>, name: string): string {
    if keys == [] then name
    else if name == keys[0] || Covers(keys[0], name) then keys[0]
    else DeployBase(keys[1..], name)
  }

  /** The loop works through the keys by their position and stops at the first hit; here it
      has come to position `i`. This is how the scheduler reads the target of a restart... */
  function TargetFrom(keys: seq<string>, name: string, i: nat): string
    requires i <= |keys|
    decreases |keys| - i
  {
    if i == |keys| then name
    else if name != keys[i] && Covers(keys[i], name) then keys[i]
    else TargetFrom(keys, name, i + 1)
  }

  /** ...and the deployment to verify. */
  function BaseFrom(keys: seq<string>, name: string, i: nat): string
    requires i <= |keys|
    decreases |keys| - i
  {
    if i == |keys| then name
    else if name == keys[i] || Covers(keys[i], name) then keys[i]
    else BaseFrom(keys, name, i + 1)
  }

  /** The scheduler's readings are those of the healer. */
  lemma {:induction false} ReadingsAgree(keys: seq<string>, name: string, i: nat)
    requires i <= |keys|
    ensures TargetFrom(keys, name, i) == RestartTarget(keys[i..], name)
    ensures BaseFrom(keys, name, i) == DeployBase(keys[i..], name)
    decreases |keys| - i
  {
    if i < |keys| {
      ReadingsAgree(keys, name, i + 1);
      assert keys[i..][1..] == keys[i + 1..];
    }
  }

  /** A pod's name is a deployment's with a dash and a suffix: if that deployment is a key and no
      earlier key covers the name, both readings give the deployment. */
  lemma {:induction false} PodsOfDeployment(keys: seq<string>, i: nat, suffix: string)
    requires i < |keys|
    requires forall k | 0 <= k < i :: !(keys[k] + "-" <= keys[i] + "-" + suffix) && keys[k] != keys[i] + "-" + suffix
    ensures RestartTarget(keys, keys[i] + "-" + suffix) == keys[i]
    ensures DeployBase(keys, keys[i] + "-" + suffix) == keys[i]
  {
    var name := keys[i] + "-" + suffix;
    if i == 0 {
      assert keys[0] + "-" <= name && |name| > |keys[0]|;
    } else {
      assert keys[1..][i - 1] == keys[i];
      PodsOfDeployment(keys[1..], i - 1, suffix);
    }
  }

  /** A name that neither is a key nor extends one by a dash stays as it is. */
  lemma {:induction false} UnknownStays(keys: seq<string>, name: string)
    requires forall k | k in keys :: k != name && !(k + "-" <= name)
    ensures RestartTarget(keys, name) == name && DeployBase(keys, name) == name
  {
    if keys != [] {
      assert keys[0] in keys;
      forall k | k in keys[1..] ensures k in keys {
      }
      UnknownStays(keys[1..], name);
    }
  }

  /** The name is itself a key, and the first key that it properly extends comes later. */
  ghost predicate Shadowed(keys: seq<string>, name: string) {
    exists i, j | 0 <= i < j < |keys| :: keys[i] == name && Covers(keys[j], name) && NoCover(keys, name, i)
  }

  predicate NoCover(keys: seq<string>, name: string, i: nat)
    requires i <= |keys|
  {
    forall k | 0 <= k < i :: !Covers(keys[k], name)
  }

  /** The two normalisations of the source agree exactly on the names that are not
      shadowed in this sense. */
  lemma {:induction false} NormalisationsAgree(keys: seq<string>, name: string)
    ensures RestartTarget(keys, name) == DeployBase(keys, name) <==> !Shadowed(keys, name)
  {
    if keys != [] {
      var rest := keys[1..];
      if name == keys[0] {
        TargetOfKey(rest, name);
        assert NoCover(keys, name, 0);
        if RestartTarget(rest, name) != name {
          var j :| 0 <= j < |rest| && Covers(rest[j], name);
          assert keys[0] == name && Covers(keys[j + 1], name);
        }
      } else if Covers(keys[0], name) {
        assert forall i | 0 < i <= |keys| :: !NoCover(keys, name, i);
      } else {
        NormalisationsAgree(rest, name);
        ShadowedRest(keys, name);
      }
    }
  }

  lemma ShadowedRest(keys: seq<string>, name: string)
    requires keys != [] && name != keys[0] && !Covers(keys[0], name)
    ensures Shadowed(keys, name) <==> Shadowed(keys[1..], name)
  {
    var rest := keys[1..];
    if Shadowed(keys, name) {
      var i, j :| 0 <= i < j < |keys| && keys[i] == name && Covers(keys[j], name) && NoCover(keys, name, i);
      assert rest[i - 1] == name && Covers(rest[j - 1], name);
      assert forall k | 0 <= k < i - 1 :: rest[k] == keys[k + 1];
      assert NoCover(rest, name, i - 1);
    }
    if Shadowed(rest, name) {
      var i, j :| 0 <= i < j < |rest| && rest[i] == name && Covers(rest[j], name) && NoCover(rest, name, i);
      assert keys[i + 1] == name && Covers(keys[j + 1], name);
      assert forall k | 1 <= k < i + 1 :: keys[k] == rest[k - 1];
      assert NoCover(keys, name, i + 1);
    }
  }

  lemma {:induction false} TargetOfKey(keys: seq<string>, name: string)
    ensures RestartTarget(keys, name) == name <==> forall j | 0 <= j < |keys| :: !Covers(keys[j], name)
  {
    if keys != [] {
      TargetOfKey(keys[1..], name);
      if Covers(keys[0], name) {
        assert |keys[0]| < |name|;
      } else {
        assert forall j | 1 <= j < |keys| :: keys[j] == keys[1..][j - 1];
      }
    }
  }

  /** The entries of the manifest map, in their order. */
  const APP_KEYS := [
    "amael-agentic-deployment", "amael-agentic-backend", "k8s-agent-deployment", "k8s-agent",
    "productivity-deployment", "productivity-service", "frontend-next-deployment", "frontend-next",
    "whatsapp-deployment", "whatsapp-bridge", "llm-adapter-deployment", "llm-adapter", "podinfo",
    "amael-demo-oom", "amael-demo-crashloop", "amael-demo-highmem", "amael-demo-degraded"]

  /** The only names that are shadowed in the source's map: a restart of the k8s-agent's
      deployment goes to the target "k8s-agent", its handoff to its own name. */
  lemma ShadowedInTheMap(name: string)
    ensures Shadowed(APP_KEYS, name)
       <==> name == "k8s-agent-deployment" || name == "frontend-next-deployment" || name == "llm-adapter-deployment"
  {
    FirstLetters();
    if Shadowed(APP_KEYS, name) {
      var i, j :| 0 <= i < j < |APP_KEYS|
        && APP_KEYS[i] == name && Covers(APP_KEYS[j], name) && NoCover(APP_KEYS, name, i);
      if i != 2 && i != 6 && i != 10 {
        NoOtherCovers(i, j);
      }
    }
    if name == APP_KEYS[2] || name == APP_KEYS[6] || name == APP_KEYS[10] {
      var i: nat := if name == APP_KEYS[2] then 2 else if name == APP_KEYS[6] then 6 else 10;
      Suffixed();
      forall k | 0 <= k < i ensures !Covers(APP_KEYS[k], name) {
        Clash(APP_KEYS[k], name, 0);
      }
      assert NoCover(APP_KEYS, name, i) && Covers(APP_KEYS[i + 1], name);
    }
  }

  const LETTERS := "aakkppffwwllpaaaa"

  lemma FirstLetters()
    ensures |APP_KEYS| == |LETTERS| == 17
    ensures forall i | 0 <= i < 17 :: APP_KEYS[i] != "" && APP_KEYS[i][0] == LETTERS[i]
  {
  }

  lemma Suffixed()
    ensures Covers(APP_KEYS[3], APP_KEYS[2]) && Covers(APP_KEYS[7], APP_KEYS[6]) && Covers(APP_KEYS[11], APP_KEYS[10])
  {
    assert APP_KEYS[2] == APP_KEYS[3] + "-" + "deployment";
    assert APP_KEYS[6] == APP_KEYS[7] + "-" + "deployment";
    assert APP_KEYS[10] == APP_KEYS[11] + "-" + "deployment";
  }

  /** A name does not extend a key that differs from it somewhere. */
  lemma Clash(key: string, name: string, p: nat)
    requires p < |key| && (p < |name| ==> key[p] != name[p])
    ensures !Covers(key, name)
  {
    assert (key + "-")[p] == key[p];
  }

  lemma NoOtherCovers(i: nat, j: nat)
    requires i < j < |APP_KEYS| && i != 2 && i != 6 && i != 10
    ensures !Covers(APP_KEYS[j], APP_KEYS[i])
  {
    FirstLetters();
    if LETTERS[i] != LETTERS[j] {
      Clash(APP_KEYS[j], APP_KEYS[i], 0);
    } else if LETTERS[i] == 'a' {
      AmaelKeys(i, j);
    } else if LETTERS[i] == 'p' {
      ProductivityKeys(i, j);
    } else if LETTERS[i] == 'w' {
      Clash(APP_KEYS[9], APP_KEYS[8], 9);
    }
  }

  lemma AmaelKeys(i: nat, j: nat)
    requires i < j < 17 && LETTERS[i] == LETTERS[j] == 'a'
    ensures !Covers(APP_KEYS[j], APP_KEYS[i])
  {
    if i == 0 && j == 1 {
      Clash(APP_KEYS[1], APP_KEYS[0], 14);
    } else if i < 2 {
      Clash(APP_KEYS[j], APP_KEYS[i], 6);
    } else if i == 14 {
      Clash(APP_KEYS[j], APP_KEYS[i], 11);
    } else {
      Clash(APP_KEYS[j], APP_KEYS[i], |APP_KEYS[j]| - 1);
    }
  }

  lemma ProductivityKeys(i: nat, j: nat)
    requires i < j < 17 && LETTERS[i] == LETTERS[j] == 'p'
    ensures !Covers(APP_KEYS[j], APP_KEYS[i])
  {
    if j == 5 {
      Clash(APP_KEYS[5], APP_KEYS[4], 13);
    } else {
      Clash(APP_KEYS[j], APP_KEYS[i], 1);
    }
  }

  // ---------- Resolving the manifest ----------

  predicate IsKnownResource(keys: seq<string>, name: string) {
    name != "" && (name in keys || exists k | k in keys :: k <= name)
  }

  function FirstPrefix(keys: seq<string>, name: string): Option<string> {
    if keys == [] then None else if keys[0] <= name then Some(keys[0]) else FirstPrefix(keys[1..], name)
  }

  function Length(s: string): int { |s| }

  /** The key whose manifest is patched: the name itself, else the first prefix in the
      order of descending length. */
  function ManifestKey(keys: seq<string>, name: string): Option<string> {
    if name in keys then Some(name)
    else if name == "" then None
    else FirstPrefix(SortDesc(keys, Length), name)
  }

  lemma {:induction false} FirstPrefixIs(keys: seq<string>, name: string)
    requires Descending(keys, Length)
    ensures var r := FirstPrefix(keys, name);
      && (r.None? <==> forall k | k in keys :: !(k <= name))
      && (r.Some? ==> r.value in keys && r.value <= name && forall k | k in keys && k <= name :: |k| <= |r.value|)
  {
    if keys != [] {
      var rest := keys[1..];
      LongestFirst(keys);
      FirstPrefixIs(rest, name);
      if FirstPrefix(keys, name).None? {
        forall k | k in keys ensures !(k <= name) {
        }
      } else {
        var r := FirstPrefix(keys, name).value;
        assert r in keys && r <= name;
      }
    }
  }

  lemma LongestFirst(keys: seq<string>)
    requires keys != [] && Descending(keys, Length)
    ensures Descending(keys[1..], Length)
    ensures forall k | k in keys :: |k| <= |keys[0]|
    ensures forall k :: k in keys <==> k == keys[0] || k in keys[1..]
  {
    var rest := keys[1..];
    assert keys == [keys[0]] + rest;
    forall k | k in keys ensures |k| <= |keys[0]| {
      var i :| 0 <= i < |keys| && keys[i] == k;
      assert i == 0 || Length(keys[0]) >= Length(keys[i]);
    }
  }

  /** The manifest is found exactly for the known resources, and it belongs to the longest
      key that starts the name. */
  lemma ManifestKeyIsLongestPrefix(keys: seq<string>, name: string)
    requires "" !in keys
    ensures var r := ManifestKey(keys, name);
      && (r.Some? <==> IsKnownResource(keys, name))
      && (r.Some? ==> r.value in keys && r.value <= name && forall k | k in keys && k <= name :: |k| <= |r.value|)
  {
    var sorted := SortDesc(keys, Length);
    SortDescIs(keys, Length);
    assert forall k :: k in sorted <==> k in multiset(sorted);
    assert forall k :: k in keys <==> k in multiset(keys);
    FirstPrefixIs(sorted, name);
  }
}
