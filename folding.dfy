/**
  The put loop of getConfigs and getConfigsByPrefix: a list of instances
  folded into a refkey -> value map, later entries overwriting earlier ones.
*/
module Folding {
  import opened Entities

  /** The map after put(ci.refkey, ci.value) for each ci of cis in order. */
  function LastWins(cis: seq<ConfigInstance>): (r: map<string, string>)
    ensures cis != [] ==> cis[|cis| - 1].refkey in r && r[cis[|cis| - 1].refkey] == cis[|cis| - 1].value
  {
    if cis == [] then map[]
    else
      var last := cis[|cis| - 1];
      LastWins(cis[..|cis| - 1])[last.refkey := last.value]
  }

  /** The refkeys that occur in cis. */
  ghost function Refkeys(cis: seq<ConfigInstance>): set<string> {
    set i | 0 <= i < |cis| :: cis[i].refkey
  }

  /** The refkeys of a non-empty list: those before its last instance, and the last one's. */
  lemma RefkeysLast(cis: seq<ConfigInstance>)
    requires cis != []
    ensures Refkeys(cis) == Refkeys(cis[..|cis| - 1]) + {cis[|cis| - 1].refkey}
  {
    var n := |cis| - 1;
    forall k | k in Refkeys(cis) ensures k in Refkeys(cis[..n]) + {cis[n].refkey} {
      var i :| 0 <= i < |cis| && cis[i].refkey == k;
      if i < n { assert cis[..n][i] == cis[i]; }
    }
    forall k | k in Refkeys(cis[..n]) ensures k in Refkeys(cis) {
      var i :| 0 <= i < n && cis[..n][i].refkey == k;
      assert cis[i] == cis[..n][i];
    }
  }

  /** The keys of the folded map are exactly the refkeys of the instances. */
  lemma {:induction false} LastWinsKeys(cis: seq<ConfigInstance>)
    ensures LastWins(cis).Keys == Refkeys(cis)
  {
    if cis != [] {
      LastWinsKeys(cis[..|cis| - 1]);
      RefkeysLast(cis);
    }
  }

  /** Each key maps to the value of the last instance in the list carrying that refkey. */
  lemma {:induction false} LastWinsValue(cis: seq<ConfigInstance>, i: nat)
    requires i < |cis|
    requires forall j | i < j < |cis| :: cis[j].refkey != cis[i].refkey
    ensures cis[i].refkey in LastWins(cis)
    ensures LastWins(cis)[cis[i].refkey] == cis[i].value
  {
    var n := |cis| - 1;
    if i < n {
      assert forall j | i < j < n :: cis[..n][j] == cis[j];
      LastWinsValue(cis[..n], i);
    }
  }

  /** The HashMap built by the put loop. */
  method FoldInstances(cis: seq<ConfigInstance>) returns (keyValue: map<string, string>)
    ensures keyValue == LastWins(cis)
  {
    keyValue := map[];
    for i := 0 to |cis|
      invariant keyValue == LastWins(cis[..i])
    {
      assert cis[..i + 1][..i] == cis[..i];
      keyValue := keyValue[cis[i].refkey := cis[i].value];
    }
    assert cis[..|cis|] == cis;
  }
}
