/** Printing a target Spec to the wire and reading it back. */
module TargetCodec {
  import opened Pointers
  import opened TargetApi
  import opened Wire
  import Deltas

  ghost predicate SuspendedMeans(w: Option<SdkSuspendedState>, v: Option<SuspendedValue>) {
    && w.Some? == v.Some?
    && (w.Some? ==> v.value == SuspendedValue(w.value.dynamicIn, w.value.dynamicOut, w.value.scheduled))
  }

  /** Field by field, the request says what the Spec says. The role reference is not sent. */
  ghost predicate TargetMeans(w: SdkTargetSettings, v: TargetValue) {
    && IntMeans(w.maxCapacity, v.maxCapacity)
    && IntMeans(w.minCapacity, v.minCapacity)
    && w.resourceId == v.resourceID
    && w.roleARN == v.roleARN
    && EnumMeans(w.scalableDimension, v.scalableDimension)
    && EnumMeans(w.serviceNamespace, v.serviceNamespace)
    && SuspendedMeans(w.suspendedState, v.suspendedState)
  }

  ghost predicate TargetCanonical(v: TargetValue) {
    EnumCanonical(v.scalableDimension) && EnumCanonical(v.serviceNamespace)
  }

  ghost function TargetInts(v: TargetValue): IntFields {
    IntField(MaxCapacity, v.maxCapacity) + IntField(MinCapacity, v.minCapacity)
  }

  /** Which capacity a payload names: the first that 32 bits do not hold; none iff both fit. */
  lemma TargetMisfit(v: TargetValue)
    ensures FirstMisfit(TargetInts(v))
            == if v.maxCapacity.Some? && !(-0x8000_0000 <= v.maxCapacity.value as int < 0x8000_0000)
               then Some(MaxCapacity)
               else if v.minCapacity.Some? && !(-0x8000_0000 <= v.minCapacity.value as int < 0x8000_0000)
               then Some(MinCapacity)
               else None
  {
    FirstMisfitAppend(IntField(MaxCapacity, v.maxCapacity), IntField(MinCapacity, v.minCapacity));
  }

  /** What the relation says, field by field. */
  lemma TargetMeansSays(w: SdkTargetSettings, v: TargetValue)
    ensures TargetMeans(w, v) <==>
      && w.maxCapacity.Some? == v.maxCapacity.Some? && w.minCapacity.Some? == v.minCapacity.Some?
      && (w.maxCapacity.Some? ==> w.maxCapacity.value as int == v.maxCapacity.value as int)
      && (w.minCapacity.Some? ==> w.minCapacity.value as int == v.minCapacity.value as int)
      && w.resourceId == v.resourceID && w.roleARN == v.roleARN
      && w.scalableDimension == (if v.scalableDimension.Some? then v.scalableDimension.value else "")
      && w.serviceNamespace == (if v.serviceNamespace.Some? then v.serviceNamespace.value else "")
      && w.suspendedState.Some? == v.suspendedState.Some?
      && (w.suspendedState.Some? ==>
            && w.suspendedState.value.dynamicIn == v.suspendedState.value.dynamicIn
            && w.suspendedState.value.dynamicOut == v.suspendedState.value.dynamicOut
            && w.suspendedState.value.scheduled == v.suspendedState.value.scheduled)
  {
  }

  method EncodeSuspended(s: SuspendedState?) returns (w: Option<SdkSuspendedState>)
    ensures SuspendedMeans(w, SuspendedView(s))
  {
    w := None;
    if s != null {
      var suspended := SdkSuspendedState(None, None, None);
      if s.dynamicIn != null {
        suspended := suspended.(dynamicIn := Some(s.dynamicIn.v));
      }
      if s.dynamicOut != null {
        suspended := suspended.(dynamicOut := Some(s.dynamicOut.v));
      }
      if s.scheduled != null {
        suspended := suspended.(scheduled := Some(s.scheduled.v));
      }
      w := Some(suspended);
    }
  }

  method NewCreateRequestPayload(spec: ScalableTargetSpec) returns (r: Result<SdkTargetSettings, Int32Field>)
    ensures match FirstMisfit(TargetInts(spec.View()))
            case Some(f) => r == Err(f)
            case None => r.Ok? && TargetMeans(r.value, spec.View())
  {
    FirstMisfitAppend(IntField(MaxCapacity, Deref(spec.maxCapacity)), IntField(MinCapacity, Deref(spec.minCapacity)));
    var res := SdkTargetSettings(None, None, None, None, "", "", None);
    var max := NarrowField(spec.maxCapacity, MaxCapacity);
    if max.Err? {
      return Err(max.error);
    }
    res := res.(maxCapacity := max.value);
    var min := NarrowField(spec.minCapacity, MinCapacity);
    if min.Err? {
      return Err(min.error);
    }
    res := res.(minCapacity := min.value);
    if spec.resourceID != null {
      res := res.(resourceId := Some(spec.resourceID.v));
    }
    if spec.roleARN != null {
      res := res.(roleARN := Some(spec.roleARN.v));
    }
    if spec.scalableDimension != null {
      res := res.(scalableDimension := spec.scalableDimension.v);
    }
    if spec.serviceNamespace != null {
      res := res.(serviceNamespace := spec.serviceNamespace.v);
    }
    var suspended := EncodeSuspended(spec.suspendedState);
    res := res.(suspendedState := suspended);
    return Ok(res);
  }

  /** The second copy of the encoder; the delta is passed in and not used. */
  method NewUpdateRequestPayload(spec: ScalableTargetSpec, delta: Deltas.Delta)
    returns (r: Result<SdkTargetSettings, Int32Field>)
    ensures match FirstMisfit(TargetInts(spec.View()))
            case Some(f) => r == Err(f)
            case None => r.Ok? && TargetMeans(r.value, spec.View())
  {
    FirstMisfitAppend(IntField(MaxCapacity, Deref(spec.maxCapacity)), IntField(MinCapacity, Deref(spec.minCapacity)));
    var res := SdkTargetSettings(None, None, None, None, "", "", None);
    var max := NarrowField(spec.maxCapacity, MaxCapacity);
    if max.Err? {
      return Err(max.error);
    }
    res := res.(maxCapacity := max.value);
    var min := NarrowField(spec.minCapacity, MinCapacity);
    if min.Err? {
      return Err(min.error);
    }
    res := res.(minCapacity := min.value);
    if spec.resourceID != null {
      res := res.(resourceId := Some(spec.resourceID.v));
    }
    if spec.roleARN != null {
      res := res.(roleARN := Some(spec.roleARN.v));
    }
    if spec.scalableDimension != null {
      res := res.(scalableDimension := spec.scalableDimension.v);
    }
    if spec.serviceNamespace != null {
      res := res.(serviceNamespace := spec.serviceNamespace.v);
    }
    var suspended := EncodeSuspended(spec.suspendedState);
    res := res.(suspendedState := suspended);
    return Ok(res);
  }

  method DecodeSuspended(w: Option<SdkSuspendedState>) returns (suspended: SuspendedState?)
    ensures SuspendedMeans(w, SuspendedView(suspended))
    ensures suspended != null ==> fresh(suspended)
  {
    suspended := null;
    if w.Some? {
      suspended := new SuspendedState();
      suspended.dynamicIn := NewRef(w.value.dynamicIn);
      suspended.dynamicOut := NewRef(w.value.dynamicOut);
      suspended.scheduled := NewRef(w.value.scheduled);
    }
  }

  /** `sdkFind` overwrites every sent field, clearing those the response leaves out; the reference stays. */
  method DecodeInto(spec: ScalableTargetSpec, w: SdkTargetSettings)
    modifies spec
    ensures TargetMeans(w, spec.View()) && TargetCanonical(spec.View())
    ensures spec.roleRef == old(spec.roleRef) && RoleView(spec.roleRef) == old(RoleView(spec.roleRef))
    ensures spec.suspendedState != null ==> fresh(spec.suspendedState)
  {
    var mx := Widen(w.maxCapacity);
    var mn := Widen(w.minCapacity);
    var id := NewRef(w.resourceId);
    var ra := NewRef(w.roleARN);
    var sd := EnumRef(w.scalableDimension);
    var ns := EnumRef(w.serviceNamespace);
    var ss := DecodeSuspended(w.suspendedState);
    spec.maxCapacity, spec.minCapacity, spec.resourceID, spec.roleARN := mx, mn, id, ra;
    spec.scalableDimension, spec.serviceNamespace, spec.suspendedState := sd, ns, ss;
  }

  /** Reading back a printed Spec gives that Spec, up to "" in the enum fields and the unsent reference. */
  lemma TargetReadBack(w: SdkTargetSettings, v: TargetValue, u: TargetValue)
    requires TargetMeans(w, v) && TargetMeans(w, u) && TargetCanonical(u)
    ensures u == v.(scalableDimension := CanonEnum(v.scalableDimension),
                    serviceNamespace := CanonEnum(v.serviceNamespace), roleRef := u.roleRef)
  {
  }

  lemma TargetEncodingUnique(w: SdkTargetSettings, x: SdkTargetSettings, v: TargetValue)
    requires TargetMeans(w, v) && TargetMeans(x, v)
    ensures w == x
  {
  }
}
