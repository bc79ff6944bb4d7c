/** The accumulating overlay: the `configMap` that `Load` in
    pkg/appsettings/load.go creates once and hands to every stage, and the
    sequence of single-key writes that a string source performs on it. */
module Overlays {
  import opened Wrappers
  import opened Values

  /** One `configMap[key] = value` statement. */
  datatype Assign = Assign(key: string, value: Value)

  /** The Go map itself: one object, passed by reference and updated in
      place by every stage. */
  class Overlay {
    var entries: map<string, Value>

    /** `make(map[string]interface{})`. */
    constructor ()
      ensures entries == map[]
    {
      entries := map[];
    }
  }

  /** What one input item does to the map: nothing, or one write. */
  function Apply(m: map<string, Value>, effect: Option<Assign>): map<string, Value>
  {
    match effect
    case None => m
    case Some(a) => m[a.key := a.value]
  }

  /** The map after the writes of `effects`, performed in order. */
  function ApplyEffects(m: map<string, Value>, effects: seq<Option<Assign>>): map<string, Value>
  {
    if effects == [] then m
    else Apply(ApplyEffects(m, effects[..|effects| - 1]), effects[|effects| - 1])
  }

  predicate Writes(effect: Option<Assign>, k: string)
  {
    effect.Some? && effect.value.key == k
  }

  /** Item `j` is the last of `effects` to write key `k`. */
  predicate LastWriter(effects: seq<Option<Assign>>, j: int, k: string)
  {
    && 0 <= j < |effects|
    && Writes(effects[j], k)
    && forall j' :: j < j' < |effects| ==> !Writes(effects[j'], k)
  }

  /** A sequence of writes never removes a key; a key it writes holds the
      value of its last write; a key it does not write keeps its value. */
  lemma {:induction false} ApplyEffectsAt(m: map<string, Value>, effects: seq<Option<Assign>>, k: string)
    ensures k in ApplyEffects(m, effects) <==>
              k in m || exists j :: 0 <= j < |effects| && Writes(effects[j], k)
    ensures forall j :: LastWriter(effects, j, k) ==>
              k in ApplyEffects(m, effects) && ApplyEffects(m, effects)[k] == effects[j].value.value
    ensures k in m && (forall j :: 0 <= j < |effects| ==> !Writes(effects[j], k)) ==>
              ApplyEffects(m, effects)[k] == m[k]
  {
    if effects != [] {
      var n := |effects| - 1;
      var prefix := effects[..n];
      ApplyEffectsAt(m, prefix, k);
      assert forall j :: 0 <= j < n ==> prefix[j] == effects[j];
      forall j | LastWriter(effects, j, k)
        ensures ApplyEffects(m, effects)[k] == effects[j].value.value
      {
        if j < n {
          assert LastWriter(prefix, j, k);
        }
      }
    }
  }

  /** A sequence of writes removes no key, and every key it adds is one of
      the keys it writes. */
  lemma ApplyEffectsNewKeys(m: map<string, Value>, effects: seq<Option<Assign>>)
    ensures m.Keys <= ApplyEffects(m, effects).Keys
    ensures forall k :: k in ApplyEffects(m, effects) && k !in m ==>
              exists j :: 0 <= j < |effects| && Writes(effects[j], k)
  {
    forall k | k in m || k in ApplyEffects(m, effects)
      ensures k in ApplyEffects(m, effects)
      ensures k !in m ==> exists j :: 0 <= j < |effects| && Writes(effects[j], k)
    {
      ApplyEffectsAt(m, effects, k);
    }
  }

  /** Writing a source onto a map is the right-biased union of that map with
      what the same source writes onto an empty map: which keys a source
      sets, and to what, does not depend on the earlier stages. */
  lemma {:induction false} ApplyEffectsUnion(m: map<string, Value>, effects: seq<Option<Assign>>)
    ensures ApplyEffects(m, effects) == m + ApplyEffects(map[], effects)
  {
    if effects != [] {
      ApplyEffectsUnion(m, effects[..|effects| - 1]);
    }
  }
}
