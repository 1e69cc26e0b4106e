/** The policy operations that talk to AWS: find, create, update. */
module PolicySdk {
  import opened Pointers
  import opened PolicyApi
  import opened PolicyResource
  import opened Statuses
  import opened Wire
  import opened PolicyCodec
  import opened StatusOps
  import Conditions
  import Deltas

  /** DescribeScalingPoliciesInput: "" and the empty list mean that the filter is absent. */
  datatype DescribeInput = DescribeInput(
    resourceId: Option<string>, scalableDimension: string, serviceNamespace: string, policyNames: seq<string>)

  /** What PutScalingPolicy returns. */
  datatype PutOutput = PutOutput(alarms: Option<seq<Alarm>>, policyARN: Option<string>)

  /** The AWS client. `describe` is asked once a find, `put` once a create or update. */
  datatype Client = Client(
    describe: DescribeInput -> Result<seq<SdkPolicy>, Error>,
    put: SdkPolicySettings -> Result<PutOutput, Error>)

  ghost predicate MissingFields(v: PolicyValue) {
    v.resourceID.None? || v.scalableDimension.None? || v.serviceNamespace.None? || v.policyName.None?
  }

  /** The request the find sends: all four keys, when present. */
  ghost function InputFor(v: PolicyValue): DescribeInput {
    DescribeInput(v.resourceID, EnumString(v.scalableDimension), EnumString(v.serviceNamespace),
                  if v.policyName.None? then [] else [v.policyName.value])
  }

  method CustomCheckRequiredFieldsMissing(spec: ScalingPolicySpec) returns (missing: bool)
    ensures missing <==> MissingFields(spec.View())
    ensures missing <==> spec.View().resourceID.None? || spec.View().scalableDimension.None?
                         || spec.View().serviceNamespace.None? || spec.View().policyName.None?
  {
    missing := spec.resourceID == null || spec.scalableDimension == null
               || spec.serviceNamespace == null || spec.policyName == null;
  }

  method NewDescribeInput(spec: ScalingPolicySpec) returns (input: DescribeInput)
    ensures input == InputFor(spec.View())
    ensures input.resourceId == spec.View().resourceID
    ensures input.scalableDimension
            == if spec.View().scalableDimension.Some? then spec.View().scalableDimension.value else ""
    ensures input.serviceNamespace
            == if spec.View().serviceNamespace.Some? then spec.View().serviceNamespace.value else ""
    ensures input.policyNames == if spec.View().policyName.Some? then [spec.View().policyName.value] else []
  {
    input := DescribeInput(None, "", "", []);
    if spec.resourceID != null {
      input := input.(resourceId := Some(spec.resourceID.v));
    }
    if spec.scalableDimension != null {
      input := input.(scalableDimension := spec.scalableDimension.v);
    }
    if spec.serviceNamespace != null {
      input := input.(serviceNamespace := spec.serviceNamespace.v);
    }
    if spec.policyName != null {
      var names := [spec.policyName.v];
      for i := 0 to |names|
        invariant input.policyNames == names[..i]
        invariant input.(policyNames := []) == InputFor(spec.View()).(policyNames := [])
      {
        input := input.(policyNames := input.policyNames + [names[i]]);
      }
    }
  }

  method DecodeAlarms(w: Option<seq<Alarm>>) returns (a: Option<seq<Alarm>>)
    ensures a == w
  {
    if w.None? {
      return None;
    }
    var list: seq<Alarm> := [];
    for i := 0 to |w.value|
      invariant list == w.value[..i]
    {
      var elem := Alarm(None, None);
      if w.value[i].arn.Some? {
        elem := elem.(arn := w.value[i].arn);
      }
      if w.value[i].name.Some? {
        elem := elem.(name := w.value[i].name);
      }
      list := list + [elem];
    }
    assert list == w.value;
    return Some(list);
  }

  // ----- Find -----

  /** What a find returns for the first described policy. */
  ghost predicate Found(latest: ResourceValue, was: ResourceValue, rm: ResourceManager, elem: SdkPolicy) {
    && PolicyMeans(elem.settings, latest.spec) && PolicyCanonical(latest.spec)
    && latest.alarms == elem.alarms
    && latest.status == FoundStatus(was.status, rm, elem.creationTime, elem.policyARN)
  }

  method MergeAlarms(ko: ScalingPolicy, alarms: Option<seq<Alarm>>)
    modifies ko`alarms
    ensures ko.View() == old(ko.View()).(alarms := alarms)
  {
    var decoded := DecodeAlarms(alarms);
    assert ko.View() == old(ko.View());
    ko.alarms := decoded;
  }

  method MergeFoundStatus(ko: ScalingPolicy, created: Option<int>, arn: Option<string>)
    modifies ko.status`creationTime, ko.status`metadata, ko.status.metadata
    ensures ko.View() == old(ko.View()).(status := old(ko.View()).status.(
              creationTime := created, metadata := WithARN(old(ko.View()).status.metadata, arn)))
    ensures ko.status.metadata == old(ko.status.metadata) || fresh(ko.status.metadata)
  {
    MergeStatus(ko.status, created, arn);
  }

  method DecodeSpec(spec: ScalingPolicySpec, settings: SdkPolicySettings)
    modifies spec
    ensures PolicyMeans(settings, spec.View()) && PolicyCanonical(spec.View())
    ensures NewStructs(spec)
  {
    DecodeInto(spec, settings);
    OwnedMeansNew(spec);
  }

  method MergeSpec(ko: ScalingPolicy, settings: SdkPolicySettings)
    modifies ko.spec
    ensures PolicyMeans(settings, ko.spec.View()) && PolicyCanonical(ko.spec.View())
    ensures ko.status.View() == old(ko.status.View())
    ensures NewStructs(ko.spec)
  {
    DecodeSpec(ko.spec, settings);
  }

  method MergeFound(ko: ScalingPolicy, elem: SdkPolicy)
    modifies ko`alarms, ko.spec, ko.status`creationTime, ko.status`metadata, ko.status.metadata
    ensures PolicyMeans(elem.settings, ko.View().spec) && PolicyCanonical(ko.View().spec)
    ensures ko.View() == ResourceValue(ko.View().spec, old(ko.View()).status.(
              creationTime := elem.creationTime, metadata := WithARN(old(ko.View()).status.metadata, elem.policyARN)),
              elem.alarms)
    ensures NewStructs(ko.spec)
    ensures ko.status.metadata == old(ko.status.metadata) || fresh(ko.status.metadata)
  {
    MergeAlarms(ko, elem.alarms);
    MergeFoundStatus(ko, elem.creationTime, elem.policyARN);
    MergeSpec(ko, elem.settings);
  }

  /** The result loop: the first element is merged and the loop is left. */
  method MergeElems(ko: ScalingPolicy, elems: seq<SdkPolicy>) returns (found: bool)
    modifies ko`alarms, ko.spec, ko.status`creationTime, ko.status`metadata, ko.status.metadata
    ensures found <==> elems != []
    ensures found ==>
      && PolicyMeans(elems[0].settings, ko.View().spec) && PolicyCanonical(ko.View().spec)
      && ko.View() == ResourceValue(ko.View().spec, old(ko.View()).status.(
           creationTime := elems[0].creationTime,
           metadata := WithARN(old(ko.View()).status.metadata, elems[0].policyARN)),
           elems[0].alarms)
      && NewStructs(ko.spec)
    ensures ko.status.metadata == old(ko.status.metadata) || fresh(ko.status.metadata)
  {
    found := false;
    for i := 0 to |elems|
      invariant i == 0 && !found
      invariant ko.View() == old(ko.View()) && ko.status.metadata == old(ko.status.metadata)
    {
      MergeFound(ko, elems[i]);
      found := true;
      break;
    }
  }

  /** The end of a find, on the copy: the Status is finished and the Spec left alone. */
  method FinishFoundCopy(rm: ResourceManager, ko: ScalingPolicy)
    modifies ko.status, ko.status.metadata
    ensures ko.View() == old(ko.View()).(status := FinishedStatus(old(ko.View()).status, rm))
    ensures Structs(ko.spec) == old(Structs(ko.spec))
    ensures ko.status.metadata == old(ko.status.metadata) || fresh(ko.status.metadata)
    ensures Entries(ko.status.conditions) == old(Entries(ko.status.conditions))
  {
    FinishFound(rm, ko.status);
  }

  method MergeInto(rm: ResourceManager, ko: ScalingPolicy, elems: seq<SdkPolicy>) returns (found: bool)
    modifies ko, ko.spec, ko.status, ko.status.metadata
    ensures found <==> elems != []
    ensures found ==> Found(ko.View(), old(ko.View()), rm, elems[0]) && NewStructs(ko.spec)
    ensures ko.status.metadata == old(ko.status.metadata) || fresh(ko.status.metadata)
    ensures Entries(ko.status.conditions) == old(Entries(ko.status.conditions))
  {
    found := MergeElems(ko, elems);
    if found {
      FinishFoundCopy(rm, ko);
    }
  }

  method MergeFirst(rm: ResourceManager, r: ScalingPolicy, elems: seq<SdkPolicy>) returns (latest: ScalingPolicy?)
    ensures elems == [] ==> latest == null
    ensures elems != [] ==>
      latest != null && fresh(latest) && OwnsNewMemory(latest) && Found(latest.View(), old(r.View()), rm, elems[0])
  {
    var ko := r.DeepCopy();
    var found := MergeInto(rm, ko, elems);
    latest := if found then ko else null;
  }

  /** What a find learns: the first described policy, or why there is none. */
  ghost function Observe(api: Client, v: PolicyValue): Result<SdkPolicy, Error> {
    if MissingFields(v) then Err(NOT_FOUND)
    else
      match api.describe(InputFor(v))
      case Err(e) => Err(ReadError(e))
      case Ok(elems) => if elems == [] then Err(NOT_FOUND) else Ok(elems[0])
  }

  /** The request of a find, unless a required key is missing. */
  method PrepareFind(r: ScalingPolicy) returns (input: Option<DescribeInput>)
    ensures r.View() == old(r.View())
    ensures input == if MissingFields(old(r.View()).spec) then None else Some(InputFor(old(r.View()).spec))
  {
    var missing := CustomCheckRequiredFieldsMissing(r.spec);
    if missing {
      return None;
    }
    var described := NewDescribeInput(r.spec);
    return Some(described);
  }

  method SdkFind(rm: ResourceManager, api: Client, r: ScalingPolicy)
    returns (latest: ScalingPolicy?, err: Option<Error>)
    ensures r.View() == old(r.View())
    ensures match Observe(api, old(r.View()).spec)
            case Err(e) => latest == null && err == Some(e)
            case Ok(elem) =>
              && latest != null && err.None? && fresh(latest) && OwnsNewMemory(latest)
              && Found(latest.View(), old(r.View()), rm, elem)
    ensures var v := old(r.View()).spec;
            if v.resourceID.None? || v.scalableDimension.None? || v.serviceNamespace.None? || v.policyName.None?
            then latest == null && err.Some? && err.value.kind.NotFound?
            else
              match api.describe(DescribeInput(v.resourceID, v.scalableDimension.value, v.serviceNamespace.value,
                                               [v.policyName.value]))
              case Err(e) =>
                && latest == null
                && err == Some(if e.aws.Some? && e.aws.value.code == "UNKNOWN" then NOT_FOUND else e)
              case Ok(elems) =>
                if elems == [] then latest == null && err.Some? && err.value.kind.NotFound?
                else
                  && latest != null && err.None?
                  && PolicyMeans(elems[0].settings, latest.View().spec) && latest.View().alarms == elems[0].alarms
                  && latest.View().status
                     == FoundStatus(old(r.View()).status, rm, elems[0].creationTime, elems[0].policyARN)
  {
    latest := null;
    var input := PrepareFind(r);
    if input.None? {
      return null, Some(NOT_FOUND);
    }
    var resp := api.describe(input.value);
    if resp.Err? {
      var awsErr := resp.error.aws;
      if awsErr.Some? && awsErr.value.code == "UNKNOWN" {
        return null, Some(NOT_FOUND);
      }
      return null, Some(resp.error);
    }
    latest := MergeFirst(rm, r, resp.value);
    err := if latest == null then Some(NOT_FOUND) else None;
  }

  // ----- Create and update -----

  /** The desired resource with what the response adds. */
  ghost function Stored(was: ResourceValue, rm: ResourceManager, resp: PutOutput): ResourceValue {
    was.(status := PutStatus(was.status, rm, resp.policyARN), alarms := resp.alarms)
  }

  method FinishPutCopy(rm: ResourceManager, ko: ScalingPolicy, arn: Option<string>)
    modifies ko.status, ko.status.metadata
    ensures ko.View() == old(ko.View()).(status := PutStatus(old(ko.View()).status, rm, arn))
    ensures Structs(ko.spec) == old(Structs(ko.spec))
    ensures ko.status.metadata == old(ko.status.metadata) || fresh(ko.status.metadata)
    ensures Entries(ko.status.conditions) == old(Entries(ko.status.conditions))
  {
    FinishPut(rm, ko.status, arn);
  }

  /** The response of a create or update, onto the copy. */
  method MergeResponse(rm: ResourceManager, ko: ScalingPolicy, resp: PutOutput)
    modifies ko`alarms, ko.status, ko.status.metadata
    ensures ko.View() == Stored(old(ko.View()), rm, resp)
    ensures Structs(ko.spec) == old(Structs(ko.spec))
    ensures ko.status.metadata == old(ko.status.metadata) || fresh(ko.status.metadata)
    ensures Entries(ko.status.conditions) == old(Entries(ko.status.conditions))
  {
    MergeAlarms(ko, resp.alarms);
    FinishPutCopy(rm, ko, resp.policyARN);
  }

  method MergePut(rm: ResourceManager, desired: ScalingPolicy, resp: PutOutput) returns (ko: ScalingPolicy)
    ensures ko.View() == Stored(old(desired.View()), rm, resp)
    ensures fresh(ko) && OwnsNewMemory(ko)
  {
    ko := desired.DeepCopy();
    MergeResponse(rm, ko, resp);
  }

  method StampUpdate(ko: ScalingPolicy, now: int)
    modifies ko.status`lastModifiedTime
    ensures ko.View() == old(ko.View()).(status := old(ko.View()).status.(lastModifiedTime := Some(now)))
  {
    CustomSetLastModifiedTimeToCurrentTime(ko.status, now);
  }

  ghost function Stamped(r: ResourceValue, now: int): ResourceValue {
    r.(status := r.status.(lastModifiedTime := Some(now)))
  }

  /** The response's ARN and alarms reach the result, an update also the clock, and the Spec stays as desired. */
  lemma StoredSays(was: ResourceValue, rm: ResourceManager, resp: PutOutput, now: int)
    ensures var r := Stored(was, rm, resp);
            && r.spec == was.spec && r.alarms == resp.alarms
            && r.status.metadata.Some?
            && (resp.policyARN.Some? ==> r.status.metadata.value.arn == resp.policyARN)
            && r.status.creationTime == was.status.creationTime
            && r.status.lastModifiedTime == was.status.lastModifiedTime
            && Stamped(r, now) == r.(status := Stamped(r, now).status)
            && Stamped(r, now).status == r.status.(lastModifiedTime := Some(now))
  {
    PutSays(was.status, rm, resp.policyARN);
  }

  method MergeUpdate(rm: ResourceManager, desired: ScalingPolicy, resp: PutOutput, now: int) returns (ko: ScalingPolicy)
    ensures ko.View() == Stamped(Stored(old(desired.View()), rm, resp), now)
    ensures fresh(ko) && OwnsNewMemory(ko)
  {
    ko := MergePut(rm, desired, resp);
    StampUpdate(ko, now);
  }

  const NO_REQUEST := SdkPolicySettings(None, "", None, "", "", None, None)

  method CreatePayload(desired: ScalingPolicy) returns (r: Result<SdkPolicySettings, Int32Field>)
    requires NoNilElements(desired.View().spec)
    ensures desired.View() == old(desired.View())
    ensures match FirstMisfit(PolicyInts(old(desired.View()).spec))
            case Some(f) => r == Err(f)
            case None => r.Ok? && PolicyMeans(r.value, old(desired.View()).spec)
  {
    r := NewCreateRequestPayload(desired.spec);
  }

  method UpdatePayload(desired: ScalingPolicy, delta: Deltas.Delta) returns (r: Result<SdkPolicySettings, Int32Field>)
    requires NoNilElements(desired.View().spec)
    ensures desired.View() == old(desired.View())
    ensures match FirstMisfit(PolicyInts(old(desired.View()).spec))
            case Some(f) => r == Err(f)
            case None => r.Ok? && PolicyMeans(r.value, old(desired.View()).spec)
  {
    r := NewUpdateRequestPayload(desired.spec, delta);
  }

  method SdkCreate(rm: ResourceManager, api: Client, desired: ScalingPolicy)
    returns (created: ScalingPolicy?, err: Option<Error>, ghost sent: SdkPolicySettings)
    requires NoNilElements(desired.View().spec)
    ensures var was := old(desired.View());
            match FirstMisfit(PolicyInts(was.spec))
            case Some(f) =>
              created == null && err == Some(RangeError(f)) && err.value.kind == Conditions.OutOfRange(f)
            case None =>
              PolicyMeans(sent, was.spec) &&
              match api.put(sent)
              case Err(e) => created == null && err == Some(e)
              case Ok(resp) =>
                && created != null && err.None? && fresh(created) && OwnsNewMemory(created)
                && created.View() == Stored(was, rm, resp)
  {
    created, sent := null, NO_REQUEST;
    var input := CreatePayload(desired);
    if input.Err? {
      return null, Some(RangeError(input.error)), sent;
    }
    sent := input.value;
    var resp := api.put(input.value);
    if resp.Err? {
      return null, Some(resp.error), sent;
    }
    created := MergePut(rm, desired, resp.value);
    err := None;
  }

  method SdkUpdate(rm: ResourceManager, api: Client, desired: ScalingPolicy, latest: ScalingPolicy,
                   delta: Deltas.Delta, now: int)
    returns (updated: ScalingPolicy?, err: Option<Error>, ghost sent: SdkPolicySettings)
    requires NoNilElements(desired.View().spec)
    ensures var was := old(desired.View());
            match FirstMisfit(PolicyInts(was.spec))
            case Some(f) =>
              updated == null && err == Some(RangeError(f)) && err.value.kind == Conditions.OutOfRange(f)
            case None =>
              PolicyMeans(sent, was.spec) &&
              match api.put(sent)
              case Err(e) => updated == null && err == Some(e)
              case Ok(resp) =>
                && updated != null && err.None? && fresh(updated) && OwnsNewMemory(updated)
                && updated.View() == Stamped(Stored(was, rm, resp), now)
  {
    updated, sent := null, NO_REQUEST;
    var input := UpdatePayload(desired, delta);
    if input.Err? {
      return null, Some(RangeError(input.error)), sent;
    }
    sent := input.value;
    var resp := api.put(input.value);
    if resp.Err? {
      return null, Some(resp.error), sent;
    }
    updated := MergeUpdate(rm, desired, resp.value, now);
    err := None;
  }
}
