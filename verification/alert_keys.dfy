/** The string key of an alert state: rule id, agent id and target joined by a separator. */
module AlertKeys {
  const SEP := '\U{1f}'

  function StateKey(ruleId: string, agent: string, target: string): string {
    ruleId + [SEP] + agent + [SEP] + target
  }

  // Position of the first separator at or after `from`; the length of the key when there is none.
  function Find(key: string, from: nat): (i: nat)
    ensures from <= |key| ==> from <= i <= |key|
    ensures from <= i < |key| ==> key[i] == SEP
    ensures forall j :: from <= j < i && j < |key| ==> key[j] != SEP
    decreases |key| - from
  {
    if from >= |key| then |key|
    else if key[from] == SEP then from
    else Find(key, from + 1)
  }

  // The rule, agent and target that ActiveAlertsJson reads back. Without a separator the failed
  // searches wrap around to position 0, so the target becomes the whole key.
  function SplitKey(key: string): (string, string, string) {
    var sep1 := Find(key, 0);
    if sep1 == |key| then (key, key, key)
    else
      var sep2 := Find(key, sep1 + 1);
      if sep2 == |key| then (key[..sep1], key[sep1 + 1..], key)
      else (key[..sep1], key[sep1 + 1..sep2], key[sep2 + 1..])
  }

  predicate HasPrefix(s: string, prefix: string) { prefix <= s }

  lemma FindIs(key: string, from: nat, i: nat)
    requires from <= i < |key| && key[i] == SEP && forall j :: from <= j < i ==> key[j] != SEP
    ensures Find(key, from) == i
  {
  }

  lemma KeyParts(ruleId: string, agent: string, target: string)
    ensures var key := StateKey(ruleId, agent, target); var r, a := |ruleId|, |agent|;
      && |key| >= r + a + 2 && key[r] == SEP && key[r + 1 + a] == SEP
      && key[..r] == ruleId && key[r + 1..r + 1 + a] == agent && key[r + a + 2..] == target
      && (forall i :: 0 <= i < r ==> key[i] == ruleId[i])
      && (forall i :: r < i < r + 1 + a ==> key[i] == agent[i - r - 1])
  {
  }

  lemma SplitClean(ruleId: string, agent: string, target: string)
    requires SEP !in ruleId && SEP !in agent
    ensures SplitKey(StateKey(ruleId, agent, target)) == (ruleId, agent, target)
  {
    var key := StateKey(ruleId, agent, target);
    KeyParts(ruleId, agent, target);
    FindIs(key, 0, |ruleId|);
    FindIs(key, |ruleId| + 1, |ruleId| + 1 + |agent|);
  }

  lemma SplitDirty(ruleId: string, agent: string, target: string)
    requires SEP in ruleId || SEP in agent
    ensures SplitKey(StateKey(ruleId, agent, target)) != (ruleId, agent, target)
  {
    var key := StateKey(ruleId, agent, target);
    var r, a := |ruleId|, |agent|;
    KeyParts(ruleId, agent, target);
    if SEP in ruleId {
      var i :| 0 <= i < r && ruleId[i] == SEP;
      assert Find(key, 0) <= i;
    } else {
      FindIs(key, 0, r);
      var i :| 0 <= i < a && agent[i] == SEP;
      assert key[r + 1 + i] == SEP && Find(key, r + 1) <= r + 1 + i;
    }
  }

  // Splitting inverts joining exactly when neither id contains the separator; the target may.
  lemma SplitInvertsIff(ruleId: string, agent: string, target: string)
    ensures SplitKey(StateKey(ruleId, agent, target)) == (ruleId, agent, target)
       <==> SEP !in ruleId && SEP !in agent
  {
    if SEP !in ruleId && SEP !in agent {
      SplitClean(ruleId, agent, target);
    } else {
      SplitDirty(ruleId, agent, target);
    }
  }

  lemma StateKeyInjective(r1: string, a1: string, t1: string, r2: string, a2: string, t2: string)
    requires SEP !in r1 && SEP !in a1 && SEP !in r2 && SEP !in a2
    requires StateKey(r1, a1, t1) == StateKey(r2, a2, t2)
    ensures r1 == r2 && a1 == a2 && t1 == t2
  {
    SplitInvertsIff(r1, a1, t1);
    SplitInvertsIff(r2, a2, t2);
  }

  // DeleteRule's prefix test picks exactly the keys whose rule part is the deleted id, provided
  // that id has no separator in it.
  lemma PrefixIsRulePart(key: string, ruleId: string)
    requires SEP !in ruleId && SEP in key
    ensures HasPrefix(key, ruleId + [SEP]) <==> SplitKey(key).0 == ruleId
  {
    var sep1 := Find(key, 0);
    assert sep1 < |key| by {
      var i :| 0 <= i < |key| && key[i] == SEP;
    }
    assert key[..sep1] + [SEP] == key[..sep1 + 1];
    if HasPrefix(key, ruleId + [SEP]) {
      assert key[|ruleId|] == (ruleId + [SEP])[|ruleId|];
      assert forall i :: 0 <= i < |ruleId| ==> key[i] == (ruleId + [SEP])[i];
      FindIs(key, 0, |ruleId|);
      assert key[..|ruleId|] == (ruleId + [SEP])[..|ruleId|] == ruleId;
    }
  }
}
