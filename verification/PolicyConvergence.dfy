/** Put a policy, read it back, compare: the loop that must come to rest. */
module PolicyConvergence {
  import opened Pointers
  import opened PolicyApi
  import opened PolicyResource
  import opened Statuses
  import opened Wire
  import opened PolicyCodec
  import opened PolicySdk
  import opened StatusOps
  import Conditions
  import Deltas
  import PolicyDelta
  import PolicyDeltaLaws
  import Stores

  // ----- The store: what AWS is assumed to do -----

  predicate SameKey(a: SdkPolicySettings, b: SdkPolicySettings) {
    && a.policyName == b.policyName && a.resourceId == b.resourceId
    && a.scalableDimension == b.scalableDimension && a.serviceNamespace == b.serviceNamespace
  }

  /** A put replaces the policy with the same key and keeps every other one. */
  function Put(store: seq<SdkPolicy>, made: SdkPolicy): seq<SdkPolicy> {
    Stores.Put(store, (e: SdkPolicy) => SameKey(e.settings, made.settings), made)
  }

  predicate Selects(input: DescribeInput, e: SdkPolicySettings) {
    && (input.resourceId.Some? ==> e.resourceId == input.resourceId)
    && (input.scalableDimension != "" ==> e.scalableDimension == input.scalableDimension)
    && (input.serviceNamespace != "" ==> e.serviceNamespace == input.serviceNamespace)
    && (input.policyNames != [] ==> e.policyName.Some? && e.policyName.value in input.policyNames)
  }

  function Describe(store: seq<SdkPolicy>, input: DescribeInput): seq<SdkPolicy> {
    Stores.Keep(store, (e: SdkPolicy) => Selects(input, e.settings))
  }

  /** All four keys are set, and the two enum keys are not "". */
  ghost predicate Keyed(v: PolicyValue) {
    !MissingFields(v) && EnumCanonical(v.scalableDimension) && EnumCanonical(v.serviceNamespace)
  }

  /** Whatever else is stored, the find for a policy just put sees that policy and no other. */
  lemma PutThenDescribe(store: seq<SdkPolicy>, made: SdkPolicy, v: PolicyValue)
    requires Keyed(v) && PolicyMeans(made.settings, v)
    ensures Describe(Put(store, made), InputFor(v)) == [made]
  {
    Stores.PutThenSelect(store, (e: SdkPolicy) => SameKey(e.settings, made.settings),
                         (e: SdkPolicy) => Selects(InputFor(v), e.settings), made);
  }

  /** A client that answers finds from a list of stored policies and takes every put. */
  function Serving(store: seq<SdkPolicy>, resp: PutOutput): Client {
    Client(q => Ok(Describe(store, q)), _ => Ok(resp))
  }

  /** The key under which a Spec is put. */
  ghost function KeyOf(v: PolicyValue): SdkPolicySettings {
    SdkPolicySettings(v.policyName, "", v.resourceID, EnumString(v.scalableDimension), EnumString(v.serviceNamespace),
                      None, None)
  }

  /** If a find returns a policy at all, it is one with the Spec's own keys. */
  ghost predicate FindsOwn(store: seq<SdkPolicy>, v: PolicyValue) {
    var found := Observe(Serving(store, PutOutput(None, None)), v);
    found.Ok? ==> SameKey(found.value.settings, KeyOf(v))
  }

  /** No stored policy has an empty dimension or namespace. */
  ghost predicate Complete(store: seq<SdkPolicy>) {
    forall i :: 0 <= i < |store| ==>
                  store[i].settings.scalableDimension != "" && store[i].settings.serviceNamespace != ""
  }

  /** A policy with the Spec's keys, but for those of the two enum keys that are "". */
  ghost function Stray(v: PolicyValue): SdkPolicy {
    SdkPolicy(KeyOf(v).(
      scalableDimension := if EnumString(v.scalableDimension) == "" then "other" else EnumString(v.scalableDimension),
      serviceNamespace := if EnumString(v.serviceNamespace) == "" then "other" else EnumString(v.serviceNamespace)),
      None, None, None)
  }

  /**
   * The required-field check lets one family of Specs through that a find can mistake: those with "" as an
   * enum key, for which the filter is left out. A store of ordinary policies is enough for the mistake.
   */
  lemma FindExact(v: PolicyValue)
    requires !MissingFields(v)
    ensures (forall store :: FindsOwn(store, v)) <==> Keyed(v)
    ensures (forall store :: Complete(store) ==> FindsOwn(store, v)) <==> Keyed(v)
  {
    if Keyed(v) {
      forall store
        ensures FindsOwn(store, v)
      {
        Stores.KeepSelects(store, (e: SdkPolicy) => Selects(InputFor(v), e.settings));
      }
    } else {
      assert [Stray(v)][1..] == [];
      assert Observe(Serving([Stray(v)], PutOutput(None, None)), v) == Ok(Stray(v));
      assert Complete([Stray(v)]) && !FindsOwn([Stray(v)], v);
    }
  }

  // ----- Convergence -----

  /** Replacing "" by nil in enum fields is invisible exactly when nothing was replaced or "" reads as nil. */
  lemma CanonReadsSame(reading: Deltas.NilReading, v: PolicyValue)
    ensures PolicyDeltaLaws.ReadPolicy(reading, v) == PolicyDeltaLaws.ReadPolicy(reading, CanonPolicy(v))
            <==> reading.EmptyIsNil? || PolicyCanonical(v)
  {
  }

  lemma PolicyConverges(reading: Deltas.NilReading, v: PolicyValue, w: SdkPolicySettings, u: PolicyValue)
    requires PolicyMeans(w, v)
    requires PolicyMeans(w, u) && PolicyCanonical(u)
    ensures Deltas.Recorded(PolicyDelta.POLICY_SCHEMA, PolicyDelta.PolicyTree(reading, v),
                            PolicyDelta.PolicyTree(reading, u)) == []
            <==> reading.EmptyIsNil? || PolicyCanonical(v)
  {
    PolicyReadBack(w, v, u);
    PolicyDeltaLaws.DeltaExact(reading, v, u);
    CanonReadsSame(reading, v);
  }

  /** The Spec and what is read from this policy compare as equal. */
  ghost predicate SilentOn(reading: Deltas.NilReading, v: PolicyValue, read: SdkPolicySettings) {
    exists u :: PolicyMeans(read, u) && PolicyCanonical(u)
                && PolicyDeltaLaws.ReadPolicy(reading, v) == PolicyDeltaLaws.ReadPolicy(reading, u)
  }

  /** The find after the put returns a policy, and comparing with it is silent. */
  ghost predicate SilentAfterPut(reading: Deltas.NilReading, store: seq<SdkPolicy>, made: SdkPolicy, v: PolicyValue) {
    var found := Describe(Put(store, made), InputFor(v));
    found != [] && SilentOn(reading, v, found[0].settings)
  }

  /** What a find reads from one policy is fixed, so any Spec read decides. */
  lemma SilentExact(reading: Deltas.NilReading, v: PolicyValue, read: SdkPolicySettings, u: PolicyValue)
    requires PolicyMeans(read, u) && PolicyCanonical(u)
    ensures Deltas.Recorded(PolicyDelta.POLICY_SCHEMA, PolicyDelta.PolicyTree(reading, v),
                            PolicyDelta.PolicyTree(reading, u)) == []
            <==> SilentOn(reading, v, read)
  {
    PolicyDeltaLaws.DeltaExact(reading, v, u);
    forall x | PolicyMeans(read, x) && PolicyCanonical(x)
      ensures x == u
    {
      PolicyReadBack(read, x, u);
      PolicyReadBack(read, u, x);
      PolicyReadBack(read, u, u);
    }
  }

  /** The canonical form of a Spec prints the same. */
  lemma CanonMeans(w: SdkPolicySettings, v: PolicyValue)
    requires PolicyMeans(w, v)
    ensures PolicyMeans(w, CanonPolicy(v)) && PolicyCanonical(CanonPolicy(v))
  {
  }

  /** Reading back what was put. */
  lemma SilentOnOwn(reading: Deltas.NilReading, v: PolicyValue, made: SdkPolicySettings, u: PolicyValue)
    requires PolicyMeans(made, v) && PolicyMeans(made, u) && PolicyCanonical(u)
    ensures SilentOn(reading, v, made) <==> reading.EmptyIsNil? || PolicyCanonical(v)
  {
    SilentExact(reading, v, made, u);
    PolicyConverges(reading, v, made, u);
  }

  /** A keyed Spec's find sees what was put, so the store plays no part. */
  lemma KeyedSilent(reading: Deltas.NilReading, store: seq<SdkPolicy>, made: SdkPolicy, v: PolicyValue)
    requires Keyed(v) && PolicyMeans(made.settings, v)
    ensures SilentAfterPut(reading, store, made, v) <==> reading.EmptyIsNil? || PolicyCanonical(v)
  {
    PutThenDescribe(store, made, v);
    CanonMeans(made.settings, v);
    SilentOnOwn(reading, v, made.settings, CanonPolicy(v));
  }

  /** A stray found in place of the policy just put never reads the same. */
  lemma StrayDiffers(reading: Deltas.NilReading, v: PolicyValue, made: SdkPolicy)
    requires !MissingFields(v) && !Keyed(v) && PolicyMeans(made.settings, v)
    ensures !SilentAfterPut(reading, [Stray(v)], made, v)
  {
    Stores.PutThenStray(Stray(v), (e: SdkPolicy) => SameKey(e.settings, made.settings),
                        (e: SdkPolicy) => Selects(InputFor(v), e.settings), made);
  }

  /**
   * Put, find and compare come to rest whatever else is stored exactly when the two enum keys are not ""
   * and, where "" is told from nil, no other enum field is "" either.
   */
  lemma LoopExact(reading: Deltas.NilReading, v: PolicyValue, made: SdkPolicy)
    requires !MissingFields(v) && PolicyMeans(made.settings, v)
    ensures (forall store :: SilentAfterPut(reading, store, made, v))
            <==> Keyed(v) && (reading.EmptyIsNil? || PolicyCanonical(v))
    ensures (forall store :: Complete(store) ==> SilentAfterPut(reading, store, made, v))
            <==> Keyed(v) && (reading.EmptyIsNil? || PolicyCanonical(v))
  {
    if Keyed(v) {
      forall store
        ensures SilentAfterPut(reading, store, made, v) <==> reading.EmptyIsNil? || PolicyCanonical(v)
      {
        KeyedSilent(reading, store, made, v);
      }
      assert SilentAfterPut(reading, [], made, v) <==> reading.EmptyIsNil? || PolicyCanonical(v);
    } else {
      StrayDiffers(reading, v, made);
    }
  }

  /** The answers of AWS to this Spec's put and to the find after it, for any stored policies. */
  ghost predicate Backed(before: Client, after: Client, store: seq<SdkPolicy>, resp: PutOutput, created: Option<int>,
                         v: PolicyValue)
  {
    && (forall w :: before.put(w) == Ok(resp))
    && (forall w :: PolicyMeans(w, v) ==>
          var made := SdkPolicy(w, resp.alarms, created, resp.policyARN);
          after.describe(InputFor(v)) == Ok(Describe(Put(store, made), InputFor(v))))
  }

  /** Every list of stored policies gives such answers. */
  lemma BackedByStore(store: seq<SdkPolicy>, resp: PutOutput, created: Option<int>,
                      v: PolicyValue, w: SdkPolicySettings)
    requires PolicyMeans(w, v)
    ensures Backed(Serving(store, resp), Serving(Put(store, SdkPolicy(w, resp.alarms, created, resp.policyARN)), resp),
                   store, resp, created, v)
  {
    forall x | PolicyMeans(x, v)
      ensures x == w
    {
      PolicyEncodingUnique(x, w, v);
    }
  }

  /** The policy just put is always among those found. */
  lemma PutIsFound(store: seq<SdkPolicy>, made: SdkPolicy, v: PolicyValue)
    requires PolicyMeans(made.settings, v)
    ensures Describe(Put(store, made), InputFor(v)) != []
  {
    Stores.PutIsFound(store, (e: SdkPolicy) => SameKey(e.settings, made.settings),
                      (e: SdkPolicy) => Selects(InputFor(v), e.settings), made);
  }

  /** The put, which leaves the desired resource as it is. */
  method PutDesired(rm: ResourceManager, before: Client, desired: ScalingPolicy, ghost v: PolicyValue)
    returns (ghost sent: SdkPolicySettings)
    requires desired.View().spec == v && NoNilElements(v) && FirstMisfit(PolicyInts(v)).None?
    ensures desired.View().spec == v && PolicyMeans(sent, v)
  {
    var created, err;
    created, err, sent := SdkCreate(rm, before, desired);
  }

  /** Find and compare, when the find is answered with these policies. */
  method ReadAndCompare(rm: ResourceManager, reading: Deltas.NilReading, api: Client, desired: ScalingPolicy,
                        ghost v: PolicyValue, ghost found: seq<SdkPolicy>)
    returns (delta: Deltas.Delta)
    requires desired.View().spec == v && !MissingFields(v)
    requires api.describe(InputFor(v)) == Ok(found) && found != []
    ensures delta.paths == [] <==> SilentOn(reading, v, found[0].settings)
  {
    var latest, err := SdkFind(rm, api, desired);
    SilentExact(reading, v, found[0].settings, latest.View().spec);
    delta := PolicyDelta.NewResourceDelta(reading, desired, latest);
  }

  /**
   * The loop on the code, for every Spec that passes the required-field check and every store. For which
   * Specs it comes to rest whatever is stored is the lemma above.
   */
  method PutReadCompare(rm: ResourceManager, reading: Deltas.NilReading, before: Client, after: Client,
                        desired: ScalingPolicy, ghost store: seq<SdkPolicy>, ghost resp: PutOutput,
                        ghost created: Option<int>)
    returns (delta: Deltas.Delta, ghost made: SdkPolicy)
    requires !MissingFields(desired.View().spec)
    requires NoNilElements(desired.View().spec) && FirstMisfit(PolicyInts(desired.View().spec)).None?
    requires Backed(before, after, store, resp, created, desired.View().spec)
    ensures var v := old(desired.View()).spec;
            && PolicyMeans(made.settings, v)
            && (delta.paths == [] <==> SilentAfterPut(reading, store, made, v))
            && (Keyed(v) ==> (delta.paths == [] <==> reading.EmptyIsNil? || PolicyCanonical(v)))
  {
    ghost var v := desired.View().spec;
    ghost var sent := PutDesired(rm, before, desired, v);
    made := SdkPolicy(sent, resp.alarms, created, resp.policyARN);
    PutIsFound(store, made, v);
    if Keyed(v) {
      KeyedSilent(reading, store, made, v);
    }
    delta := ReadAndCompare(rm, reading, after, desired, v, Describe(Put(store, made), InputFor(v)));
  }
}
