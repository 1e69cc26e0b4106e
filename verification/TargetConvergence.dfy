/** Create a target, late-initialize it, read it back, compare: the loop that must come to rest. */
module TargetConvergence {
  import opened Pointers
  import opened TargetApi
  import opened Statuses
  import opened Wire
  import opened TargetCodec
  import opened TargetSdk
  import opened TargetDelta
  import opened Deltas
  import TargetManager
  import Conditions
  import Stores

  // ----- The store: what AWS is assumed to do -----

  ghost predicate Kept<T>(sent: Option<T>, stored: Option<T>) {
    sent.Some? ==> stored == sent
  }

  /** Every field sent is kept; only RoleARN and missing suspension members may be filled in. */
  ghost predicate StoreKeeps(sent: SdkTargetSettings, stored: SdkTargetSettings) {
    && stored.maxCapacity == sent.maxCapacity && stored.minCapacity == sent.minCapacity
    && stored.resourceId == sent.resourceId
    && stored.scalableDimension == sent.scalableDimension && stored.serviceNamespace == sent.serviceNamespace
    && Kept(sent.roleARN, stored.roleARN)
    && (sent.suspendedState.Some? ==>
          && stored.suspendedState.Some?
          && Kept(sent.suspendedState.value.dynamicIn, stored.suspendedState.value.dynamicIn)
          && Kept(sent.suspendedState.value.dynamicOut, stored.suspendedState.value.dynamicOut)
          && Kept(sent.suspendedState.value.scheduled, stored.suspendedState.value.scheduled))
  }

  // ----- Convergence -----

  ghost function WithRole(v: TargetValue, stored: SdkTargetSettings): TargetValue {
    v.(roleARN := if v.roleARN.Some? then v.roleARN else stored.roleARN)
  }

  /** After late initialization the comparison is silent exactly when "" plays no part in the two enum fields. */
  lemma TargetConverges(reading: NilReading, v: TargetValue, sent: SdkTargetSettings, stored: SdkTargetSettings,
                        u: TargetValue)
    requires TargetMeans(sent, v) && StoreKeeps(sent, stored)
    requires TargetMeans(stored, u) && TargetCanonical(u) && u.roleRef == v.roleRef
    ensures Differences(reading, WithRole(v, stored), u) == [] <==> reading.EmptyIsNil? || TargetCanonical(v)
  {
    TargetDeltaExact(reading, WithRole(v, stored), u);
  }

  /** Without late initialization, a role the server chose is the one difference, forever. */
  lemma WithoutLateInitialization(reading: NilReading, v: TargetValue, sent: SdkTargetSettings,
                                  stored: SdkTargetSettings, u: TargetValue)
    requires TargetMeans(sent, v) && StoreKeeps(sent, stored)
    requires TargetMeans(stored, u) && TargetCanonical(u) && u.roleRef == v.roleRef
    requires reading.EmptyIsNil? || TargetCanonical(v)
    requires v.roleARN.None? && ReadString(reading, stored.roleARN).Some?
    ensures Differences(reading, v, u) == [Under(SPEC, RoleARN)]
  {
    var f, g := TargetTree(reading, Defaults(v, u)), TargetTree(reading, u);
    SpecAgrees(reading, Defaults(v, u), u);
    TreeShows(reading, Defaults(v, u));
    TreeShows(reading, u);
    SchemaSplit(f, g);
    RecordTwo([], SPEC, Field.MaxCapacity, Field.MinCapacity, f, g);
    RecordFive([], SPEC, ResourceID, RoleARN, RoleRef, ScalableDimension, ServiceNamespace, f, g);
    SuspendedExact(f, g, v.suspendedState, u.suspendedState);
    var r := Recorded(Members(SPEC, NAME_FIELDS), f, g);
    assert [] + r == r;
  }

  /** What a find reads from one target, with the reference the find leaves as it was. */
  ghost function ReadBack(w: SdkTargetSettings, ref: Option<RoleValue>): TargetValue {
    TargetValue.TargetValue(
      if w.maxCapacity.None? then None else Some(w.maxCapacity.value as int64),
      if w.minCapacity.None? then None else Some(w.minCapacity.value as int64),
      w.resourceId, w.roleARN, ref, CanonEnum(Some(w.scalableDimension)), CanonEnum(Some(w.serviceNamespace)),
      if w.suspendedState.None? then None
      else
        var s := w.suspendedState.value;
        Some(SuspendedValue(s.dynamicIn, s.dynamicOut, s.scheduled)))
  }

  /** It is the one canonical Spec that means the target. */
  lemma ReadBackExact(w: SdkTargetSettings, u: TargetValue)
    ensures TargetMeans(w, u) && TargetCanonical(u) <==> u == ReadBack(w, u.roleRef)
  {
  }

  /** The Spec, completed from this target, and what is read from it compare as equal. */
  ghost predicate SilentOn(reading: NilReading, v: TargetValue, read: SdkTargetSettings) {
    Differences(reading, WithRole(v, read), ReadBack(read, v.roleRef)) == []
  }

  /** Reading back what is kept of the Spec itself. */
  lemma SilentOnOwn(reading: NilReading, v: TargetValue, sent: SdkTargetSettings, stored: SdkTargetSettings)
    requires TargetMeans(sent, v) && StoreKeeps(sent, stored)
    ensures SilentOn(reading, v, stored) <==> reading.EmptyIsNil? || TargetCanonical(v)
  {
    ReadBackExact(stored, ReadBack(stored, v.roleRef));
    TargetConverges(reading, v, sent, stored, ReadBack(stored, v.roleRef));
  }

  // ----- The loop on the code -----

  /** The client answers the find for this Spec with some target, and takes the register. */
  ghost predicate Answers(api: Client, v: TargetValue) {
    && api.describe(InputFor(v)).Ok? && api.describe(InputFor(v)).value != []
    && forall sent :: TargetMeans(sent, v) ==> api.register(sent).Ok?
  }

  /** The target a find for this Spec returns. */
  ghost function Answer(api: Client, v: TargetValue): SdkTargetSettings
    requires Answers(api, v)
  {
    api.describe(InputFor(v)).value[0].settings
  }

  /** The client answers the find for this Spec with what it was sent for it, completed. */
  ghost predicate Serves(api: Client, v: TargetValue) {
    Answers(api, v) && forall sent :: TargetMeans(sent, v) ==> StoreKeeps(sent, Answer(api, v))
  }

  /** The find for the completed Spec is the find for the desired one: RoleARN is no filter. */
  lemma SameObservation(api: Client, v: TargetValue, stored: SdkTargetSettings)
    ensures Observe(api, WithRole(v, stored)) == Observe(api, v)
  {
  }

  /** Create, then late-initialize what was created. */
  method CreateAndInitialize(rm: ResourceManager, api: Client, desired: ScalableTarget, ghost v: TargetValue)
    returns (late: ScalableTarget, err: Option<Conditions.Error>, ghost sent: SdkTargetSettings)
    requires desired.View().spec == v && FirstMisfit(TargetInts(v)).None? && v.resourceID.Some? && Answers(api, v)
    ensures fresh(late) && OwnsNewMemory(late)
    ensures TargetMeans(sent, v)
    ensures late.View().spec == WithRole(v, Answer(api, v))
    ensures err.None? <==> late.View().spec.roleARN.Some?
  {
    var created, e;
    created, e, sent := TargetManager.Create(rm, api, desired);
    late, err := TargetManager.LateInitialize(rm, api, created);
  }

  method ReadAndCompare(rm: ResourceManager, reading: NilReading, api: Client, late: ScalableTarget,
                        ghost v: TargetValue)
    returns (delta: Delta)
    requires v.resourceID.Some? && Answers(api, v)
    requires late.View().spec == WithRole(v, Answer(api, v))
    modifies late.spec, late.spec.suspendedState
    ensures delta.paths == [] <==> SilentOn(reading, v, Answer(api, v))
  {
    SameObservation(api, v, Answer(api, v));
    var observed, _ := TargetManager.ReadOne(rm, api, late);
    ReadBackExact(Answer(api, v), observed.View().spec);
    delta := NewResourceDelta(reading, late, observed);
  }

  /**
   * The whole loop on the code: create, late-initialize, read, compare. It is decided by the target the finds
   * return; where that is the one created, it rests exactly when "" plays no part in the two enum fields.
   */
  method CreateReadCompare(rm: ResourceManager, reading: NilReading, api: Client, desired: ScalableTarget)
    returns (delta: Delta?, err: Option<Conditions.Error>)
    requires FirstMisfit(TargetInts(desired.View().spec)).None? && desired.View().spec.resourceID.Some?
    requires Answers(api, desired.View().spec)
    ensures var v := old(desired.View()).spec;
            && (err.None? <==> v.roleARN.Some? || Answer(api, v).roleARN.Some?)
            && (err.None? ==> delta != null && (delta.paths == [] <==> SilentOn(reading, v, Answer(api, v))))
            && (err.None? && Serves(api, v) ==> (delta.paths == [] <==> reading.EmptyIsNil? || TargetCanonical(v)))
  {
    ghost var v := desired.View().spec;
    var late;
    ghost var sent;
    late, err, sent := CreateAndInitialize(rm, api, desired, v);
    if err.Some? {
      return null, err;
    }
    if Serves(api, v) {
      SilentOnOwn(reading, v, sent, Answer(api, v));
    }
    delta := ReadAndCompare(rm, reading, api, late, v);
  }

  // ----- The store: what AWS is assumed to hold -----

  predicate SameKey(a: SdkTargetSettings, b: SdkTargetSettings) {
    && a.resourceId == b.resourceId
    && a.scalableDimension == b.scalableDimension && a.serviceNamespace == b.serviceNamespace
  }

  /** A register replaces the target with the same key and keeps every other one. */
  function Put(store: seq<SdkTarget>, made: SdkTarget): seq<SdkTarget> {
    Stores.Put(store, (e: SdkTarget) => SameKey(e.settings, made.settings), made)
  }

  predicate Selects(input: DescribeInput, e: SdkTargetSettings) {
    && (input.scalableDimension != "" ==> e.scalableDimension == input.scalableDimension)
    && (input.serviceNamespace != "" ==> e.serviceNamespace == input.serviceNamespace)
    && (input.resourceIds != [] ==> e.resourceId.Some? && e.resourceId.value in input.resourceIds)
  }

  /** A client that answers finds from a list of stored targets. */
  function Serving(store: seq<SdkTarget>): Client {
    Client(q => Ok(Stores.Keep(store, (e: SdkTarget) => Selects(q, e.settings))), _ => Ok(None), _ => None)
  }

  /** Dimension and namespace are set and not "". */
  ghost predicate Keyed(v: TargetValue) {
    EnumString(v.scalableDimension) != "" && EnumString(v.serviceNamespace) != ""
  }

  /** The key under which a Spec is registered. */
  ghost function KeyOf(v: TargetValue): SdkTargetSettings {
    SdkTargetSettings(None, None, v.resourceID, None, EnumString(v.scalableDimension),
                      EnumString(v.serviceNamespace), None)
  }

  /** No stored target has an empty dimension or namespace. */
  ghost predicate Complete(store: seq<SdkTarget>) {
    forall i :: 0 <= i < |store| ==>
                  store[i].settings.scalableDimension != "" && store[i].settings.serviceNamespace != ""
  }

  /** A target of the same resource, with another key wherever the Spec leaves one out. */
  ghost function Stray(v: TargetValue): SdkTarget {
    SdkTarget(KeyOf(v).(
      scalableDimension := if EnumString(v.scalableDimension) == "" then "other" else EnumString(v.scalableDimension),
      serviceNamespace := if EnumString(v.serviceNamespace) == "" then "other" else EnumString(v.serviceNamespace)),
      None, None)
  }

  // ----- The weaker required-field check -----

  /** If the find returns a target at all, it is one with the Spec's own keys. */
  ghost predicate FindsOwn(store: seq<SdkTarget>, v: TargetValue) {
    var found := Observe(Serving(store), v);
    found.Ok? ==> SameKey(found.value.settings, KeyOf(v))
  }

  /**
   * The check asks for the resource id alone. A find is sure of its target exactly when the dimension and
   * the namespace are set too; otherwise a store of ordinary targets makes it return another one.
   */
  lemma FindExact(v: TargetValue)
    requires v.resourceID.Some?
    ensures (forall store :: FindsOwn(store, v)) <==> Keyed(v)
    ensures (forall store :: Complete(store) ==> FindsOwn(store, v)) <==> Keyed(v)
  {
    if Keyed(v) {
      forall store
        ensures FindsOwn(store, v)
      {
        Stores.KeepSelects(store, (e: SdkTarget) => Selects(InputFor(v), e.settings));
      }
    } else {
      assert [Stray(v)][1..] == [];
      assert Observe(Serving([Stray(v)]), v) == Ok(Stray(v));
      assert Complete([Stray(v)]) && !FindsOwn([Stray(v)], v);
    }
  }

  // ----- Deregistering -----

  /** The target is the one this key names. */
  predicate Names(key: DeregisterInput, e: SdkTargetSettings) {
    && e.resourceId == key.resourceId
    && e.scalableDimension == key.scalableDimension && e.serviceNamespace == key.serviceNamespace
  }

  /** A deregister removes the target under the key and keeps every other one. */
  function Removed(store: seq<SdkTarget>, key: DeregisterInput): seq<SdkTarget> {
    Stores.Keep(store, (e: SdkTarget) => !Names(key, e.settings))
  }

  /** A delete names exactly what a register of the same Spec put, so it undoes the register and nothing else. */
  lemma DeleteUndoesRegister(store: seq<SdkTarget>, made: SdkTarget, v: TargetValue, sent: SdkTargetSettings)
    requires TargetMeans(sent, v) && StoreKeeps(sent, made.settings)
    ensures forall e: SdkTargetSettings :: Names(KeyFor(v), e) <==> SameKey(e, made.settings)
    ensures Removed(Put(store, made), KeyFor(v)) == Removed(store, KeyFor(v))
    ensures (forall i :: 0 <= i < |store| ==> !SameKey(store[i].settings, made.settings)) ==>
      Removed(Put(store, made), KeyFor(v)) == store
  {
    Stores.PutThenRemove(store, (e: SdkTarget) => SameKey(e.settings, made.settings),
                         (e: SdkTarget) => !Names(KeyFor(v), e.settings), made);
    if forall i :: 0 <= i < |store| ==> !SameKey(store[i].settings, made.settings) {
      Stores.KeepAll(store, (e: SdkTarget) => !Names(KeyFor(v), e.settings));
    }
  }

  // ----- The loop against any store -----

  /** Finds after the register return some target: the one made is always among those found. */
  lemma StoreAnswers(store: seq<SdkTarget>, made: SdkTarget, v: TargetValue, sent: SdkTargetSettings)
    requires v.resourceID.Some? && TargetMeans(sent, v) && StoreKeeps(sent, made.settings)
    ensures Answers(Serving(Put(store, made)), v)
  {
    Stores.PutIsFound(store, (e: SdkTarget) => SameKey(e.settings, made.settings),
                      (e: SdkTarget) => Selects(InputFor(v), e.settings), made);
  }

  /** Whatever else is stored, the store answers for a keyed target with what it keeps for it. */
  lemma ServesFromStore(store: seq<SdkTarget>, made: SdkTarget, v: TargetValue, sent: SdkTargetSettings)
    requires v.resourceID.Some? && Keyed(v) && TargetMeans(sent, v) && StoreKeeps(sent, made.settings)
    ensures Serving(Put(store, made)).describe(InputFor(v)) == Ok([made])
    ensures Serves(Serving(Put(store, made)), v)
  {
    Stores.PutThenSelect(store, (e: SdkTarget) => SameKey(e.settings, made.settings),
                         (e: SdkTarget) => Selects(InputFor(v), e.settings), made);
    forall x | TargetMeans(x, v)
      ensures x == sent
    {
      TargetEncodingUnique(x, sent, v);
    }
  }

  /** The finds after the register return a target, and comparing with it is silent. */
  ghost predicate SilentAfter(reading: NilReading, store: seq<SdkTarget>, made: SdkTarget, v: TargetValue) {
    var api := Serving(Put(store, made));
    Answers(api, v) && SilentOn(reading, v, Answer(api, v))
  }

  /** For a keyed Spec the store plays no part. */
  lemma KeyedSilent(reading: NilReading, store: seq<SdkTarget>, made: SdkTarget, v: TargetValue,
                    sent: SdkTargetSettings)
    requires v.resourceID.Some? && Keyed(v) && TargetMeans(sent, v) && StoreKeeps(sent, made.settings)
    ensures SilentAfter(reading, store, made, v)
  {
    ServesFromStore(store, made, v, sent);
    SilentOnOwn(reading, v, sent, made.settings);
  }

  /** A stray found in place of the target just registered never reads the same. */
  lemma StrayDiffers(reading: NilReading, made: SdkTarget, v: TargetValue, sent: SdkTargetSettings)
    requires v.resourceID.Some? && !Keyed(v) && TargetMeans(sent, v) && StoreKeeps(sent, made.settings)
    ensures !SilentAfter(reading, [Stray(v)], made, v)
  {
    Stores.PutThenStray(Stray(v), (e: SdkTarget) => SameKey(e.settings, made.settings),
                        (e: SdkTarget) => Selects(InputFor(v), e.settings), made);
    var stray := Stray(v).settings;
    TargetDeltaExact(reading, WithRole(v, stray), ReadBack(stray, v.roleRef));
  }

  /**
   * Register, late-initialize, find and compare come to rest whatever else is stored exactly when the dimension
   * and the namespace are set and not "", however "" reads. A store of ordinary targets is enough to break it.
   */
  lemma LoopExact(reading: NilReading, made: SdkTarget, v: TargetValue, sent: SdkTargetSettings)
    requires v.resourceID.Some? && TargetMeans(sent, v) && StoreKeeps(sent, made.settings)
    ensures (forall store :: SilentAfter(reading, store, made, v)) <==> Keyed(v)
    ensures (forall store :: Complete(store) ==> SilentAfter(reading, store, made, v)) <==> Keyed(v)
  {
    if Keyed(v) {
      forall store
        ensures SilentAfter(reading, store, made, v)
      {
        KeyedSilent(reading, store, made, v, sent);
      }
    } else {
      StrayDiffers(reading, made, v, sent);
      assert Complete([Stray(v)]);
    }
  }

  /** The loop on the code for every Spec that passes the check and every store. */
  method LoopInStore(rm: ResourceManager, reading: NilReading, store: seq<SdkTarget>, made: SdkTarget,
                     desired: ScalableTarget, ghost sent: SdkTargetSettings)
    returns (delta: Delta?, err: Option<Conditions.Error>)
    requires FirstMisfit(TargetInts(desired.View().spec)).None? && desired.View().spec.resourceID.Some?
    requires TargetMeans(sent, desired.View().spec) && StoreKeeps(sent, made.settings)
    ensures var v, api := old(desired.View()).spec, Serving(Put(store, made));
            && Answers(api, v)
            && (err.None? <==> v.roleARN.Some? || Answer(api, v).roleARN.Some?)
            && (err.None? ==> delta != null && (delta.paths == [] <==> SilentAfter(reading, store, made, v)))
            && (Keyed(v) ==> Answer(api, v) == made.settings && (err.None? ==> delta.paths == []))
  {
    ghost var v := desired.View().spec;
    StoreAnswers(store, made, v, sent);
    if Keyed(v) {
      ServesFromStore(store, made, v, sent);
      KeyedSilent(reading, store, made, v, sent);
    }
    delta, err := CreateReadCompare(rm, reading, Serving(Put(store, made)), desired);
  }
}
