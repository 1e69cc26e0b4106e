/** The target operations that talk to AWS: find, create, update, delete. */
module TargetSdk {
  import opened Pointers
  import opened TargetApi
  import opened Statuses
  import opened Wire
  import opened TargetCodec
  import opened StatusOps
  import Conditions
  import Deltas

  /** DescribeScalableTargetsInput: "" and the empty list mean that the filter is absent. */
  datatype DescribeInput = DescribeInput(
    scalableDimension: string, serviceNamespace: string, resourceIds: seq<string>)

  datatype DeregisterInput = DeregisterInput(
    resourceId: Option<string>, scalableDimension: string, serviceNamespace: string)

  /** The AWS client at one moment. A register returns the target's ARN. */
  datatype Client = Client(
    describe: DescribeInput -> Result<seq<SdkTarget>, Error>,
    register: SdkTargetSettings -> Result<Option<string>, Error>,
    deregister: DeregisterInput -> Option<Error>)

  ghost function InputFor(v: TargetValue): DescribeInput {
    DescribeInput(EnumString(v.scalableDimension), EnumString(v.serviceNamespace),
                  if v.resourceID.None? then [] else [v.resourceID.value])
  }

  method NewDescribeInput(spec: ScalableTargetSpec) returns (input: DescribeInput)
    ensures input == InputFor(spec.View())
    ensures input.scalableDimension
            == if spec.View().scalableDimension.Some? then spec.View().scalableDimension.value else ""
    ensures input.serviceNamespace
            == if spec.View().serviceNamespace.Some? then spec.View().serviceNamespace.value else ""
    ensures input.resourceIds == if spec.View().resourceID.Some? then [spec.View().resourceID.value] else []
  {
    input := DescribeInput("", "", []);
    if spec.scalableDimension != null {
      input := input.(scalableDimension := spec.scalableDimension.v);
    }
    if spec.serviceNamespace != null {
      input := input.(serviceNamespace := spec.serviceNamespace.v);
    }
    if spec.resourceID != null {
      var ids := [spec.resourceID.v];
      for i := 0 to |ids|
        invariant input.resourceIds == ids[..i]
        invariant input.(resourceIds := []) == InputFor(spec.View()).(resourceIds := [])
      {
        input := input.(resourceIds := input.resourceIds + [ids[i]]);
      }
    }
  }

  /** What a find returns for the first described target. */
  ghost predicate Found(latest: ResourceValue, was: ResourceValue, rm: ResourceManager, elem: SdkTarget) {
    && TargetMeans(elem.settings, latest.spec) && TargetCanonical(latest.spec)
    && latest.spec.roleRef == was.spec.roleRef
    && latest.status == FoundStatus(was.status, rm, elem.creationTime, elem.scalableTargetARN)
  }

  /** The result loop: the first element is merged and the loop is left. */
  method MergeElems(ko: ScalableTarget, elems: seq<SdkTarget>) returns (found: bool)
    modifies ko.spec, ko.status`creationTime, ko.status`metadata, ko.status.metadata
    ensures found <==> elems != []
    ensures ko.spec.roleRef == old(ko.spec.roleRef)
    ensures found ==>
      && TargetMeans(elems[0].settings, ko.spec.View()) && TargetCanonical(ko.spec.View())
      && ko.spec.View().roleRef == old(ko.spec.View()).roleRef
      && ko.status.View() == old(ko.status.View()).(creationTime := elems[0].creationTime,
           metadata := WithARN(old(ko.status.View()).metadata, elems[0].scalableTargetARN))
    ensures ko.status.metadata == old(ko.status.metadata) || fresh(ko.status.metadata)
    ensures found && ko.spec.suspendedState != null ==> fresh(ko.spec.suspendedState)
  {
    found := false;
    for i := 0 to |elems|
      invariant i == 0 && !found
      invariant ko.status.View() == old(ko.status.View()) && ko.status.metadata == old(ko.status.metadata)
      invariant ko.spec.roleRef == old(ko.spec.roleRef) && ko.spec.suspendedState == old(ko.spec.suspendedState)
    {
      MergeStatus(ko.status, elems[i].creationTime, elems[i].scalableTargetARN);
      DecodeInto(ko.spec, elems[i].settings);
      found := true;
      break;
    }
  }

  /** The end of a find, on the copy: the Status is finished and the Spec left alone. */
  method FinishFoundCopy(rm: ResourceManager, ko: ScalableTarget)
    modifies ko.status, ko.status.metadata
    ensures ko.View() == old(ko.View()).(status := FinishedStatus(old(ko.status.View()), rm))
    ensures ko.status.metadata == old(ko.status.metadata) || fresh(ko.status.metadata)
    ensures Entries(ko.status.conditions) == old(Entries(ko.status.conditions))
  {
    FinishFound(rm, ko.status);
  }

  method MergeInto(rm: ResourceManager, ko: ScalableTarget, elems: seq<SdkTarget>) returns (found: bool)
    modifies ko.spec, ko.status, ko.status.metadata
    ensures found <==> elems != []
    ensures found ==> Found(ko.View(), old(ko.View()), rm, elems[0])
    ensures ko.spec.roleRef == old(ko.spec.roleRef)
    ensures found && ko.spec.suspendedState != null ==> fresh(ko.spec.suspendedState)
    ensures ko.status.metadata == old(ko.status.metadata) || fresh(ko.status.metadata)
    ensures Entries(ko.status.conditions) == old(Entries(ko.status.conditions))
  {
    found := MergeElems(ko, elems);
    if found {
      FinishFoundCopy(rm, ko);
    }
  }

  method MergeFirst(rm: ResourceManager, r: ScalableTarget, elems: seq<SdkTarget>) returns (latest: ScalableTarget?)
    ensures elems == [] ==> latest == null
    ensures elems != [] ==>
      latest != null && fresh(latest) && OwnsNewMemory(latest) && Found(latest.View(), old(r.View()), rm, elems[0])
  {
    var ko := r.DeepCopy();
    var found := MergeInto(rm, ko, elems);
    latest := if found then ko else null;
  }

  /** What a find learns: the first described target, or why there is none. */
  ghost function Observe(api: Client, v: TargetValue): Result<SdkTarget, Error> {
    if v.resourceID.None? then Err(NOT_FOUND)
    else
      match api.describe(InputFor(v))
      case Err(e) => Err(ReadError(e))
      case Ok(elems) => if elems == [] then Err(NOT_FOUND) else Ok(elems[0])
  }

  /** The target's weaker check asks for the resource id alone. */
  method SdkFind(rm: ResourceManager, api: Client, r: ScalableTarget)
    returns (latest: ScalableTarget?, err: Option<Error>)
    ensures r.View() == old(r.View())
    ensures match Observe(api, old(r.View()).spec)
            case Err(e) => latest == null && err == Some(e)
            case Ok(elem) =>
              && latest != null && err.None? && fresh(latest) && OwnsNewMemory(latest)
              && Found(latest.View(), old(r.View()), rm, elem)
    ensures var v := old(r.View()).spec;
            if v.resourceID.None? then latest == null && err.Some? && err.value.kind.NotFound?
            else
              match api.describe(DescribeInput(
                if v.scalableDimension.Some? then v.scalableDimension.value else "",
                if v.serviceNamespace.Some? then v.serviceNamespace.value else "", [v.resourceID.value]))
              case Err(e) =>
                && latest == null
                && err == Some(if e.aws.Some? && e.aws.value.code == "UNKNOWN" then NOT_FOUND else e)
              case Ok(elems) =>
                if elems == [] then latest == null && err.Some? && err.value.kind.NotFound?
                else
                  && latest != null && err.None?
                  && TargetMeans(elems[0].settings, latest.View().spec)
                  && latest.View().spec.roleRef == v.roleRef
                  && latest.View().status
                     == FoundStatus(old(r.View()).status, rm, elems[0].creationTime, elems[0].scalableTargetARN)
  {
    latest := null;
    if r.spec.resourceID == null {
      return null, Some(NOT_FOUND);
    }
    var input := NewDescribeInput(r.spec);
    var resp := api.describe(input);
    if resp.Err? {
      var awsErr := resp.error.aws;
      if awsErr.Some? && awsErr.value.code == "UNKNOWN" {
        return null, Some(NOT_FOUND);
      }
      return null, Some(resp.error);
    }
    latest := MergeFirst(rm, r, resp.value);
    err := if latest == null then Some(NOT_FOUND) else None;
  }

  // ----- Create and update -----

  /** The end of a create or update, on the copy. */
  method FinishPutCopy(rm: ResourceManager, ko: ScalableTarget, arn: Option<string>)
    modifies ko.status, ko.status.metadata
    ensures ko.View() == old(ko.View()).(status := PutStatus(old(ko.status.View()), rm, arn))
    ensures ko.status.metadata == old(ko.status.metadata) || fresh(ko.status.metadata)
    ensures Entries(ko.status.conditions) == old(Entries(ko.status.conditions))
  {
    FinishPut(rm, ko.status, arn);
  }

  method MergePut(rm: ResourceManager, desired: ScalableTarget, arn: Option<string>) returns (ko: ScalableTarget)
    ensures ko.View() == old(desired.View()).(status := PutStatus(old(desired.View()).status, rm, arn))
    ensures fresh(ko) && OwnsNewMemory(ko)
  {
    ko := desired.DeepCopy();
    FinishPutCopy(rm, ko, arn);
  }

  method StampUpdate(ko: ScalableTarget, now: int)
    modifies ko.status`lastModifiedTime
    ensures ko.View() == old(ko.View()).(status := old(ko.status.View()).(lastModifiedTime := Some(now)))
  {
    CustomSetLastModifiedTimeToCurrentTime(ko.status, now);
  }

  method MergeUpdate(rm: ResourceManager, desired: ScalableTarget, arn: Option<string>, now: int)
    returns (ko: ScalableTarget)
    ensures var was := old(desired.View());
            ko.View() == was.(status := PutStatus(was.status, rm, arn).(lastModifiedTime := Some(now)))
    ensures fresh(ko) && OwnsNewMemory(ko)
  {
    ko := MergePut(rm, desired, arn);
    StampUpdate(ko, now);
  }

  method SdkCreate(rm: ResourceManager, api: Client, desired: ScalableTarget)
    returns (created: ScalableTarget?, err: Option<Error>, ghost sent: SdkTargetSettings)
    ensures desired.View() == old(desired.View())
    ensures var was := old(desired.View());
            match FirstMisfit(TargetInts(was.spec))
            case Some(f) =>
              created == null && err == Some(RangeError(f)) && err.value.kind == Conditions.OutOfRange(f)
            case None =>
              TargetMeans(sent, was.spec) &&
              match api.register(sent)
              case Err(e) => created == null && err == Some(e)
              case Ok(arn) =>
                && created != null && err.None? && fresh(created) && OwnsNewMemory(created)
                && created.View() == was.(status := PutStatus(was.status, rm, arn))
  {
    created := null;
    var input := NewCreateRequestPayload(desired.spec);
    if input.Err? {
      sent := SdkTargetSettings(None, None, None, None, "", "", None);
      return null, Some(RangeError(input.error)), sent;
    }
    sent := input.value;
    var resp := api.register(input.value);
    if resp.Err? {
      return null, Some(resp.error), sent;
    }
    created := MergePut(rm, desired, resp.value);
    err := None;
  }

  method UpdatePayload(desired: ScalableTarget, latest: ScalableTarget, delta: Deltas.Delta)
    returns (r: Result<SdkTargetSettings, Int32Field>)
    ensures desired.View() == old(desired.View()) && latest.View() == old(latest.View())
    ensures match FirstMisfit(TargetInts(old(desired.View()).spec))
            case Some(f) => r == Err(f)
            case None => r.Ok? && TargetMeans(r.value, old(desired.View()).spec)
  {
    r := NewUpdateRequestPayload(desired.spec, delta);
  }

  method SdkUpdate(rm: ResourceManager, api: Client, desired: ScalableTarget, latest: ScalableTarget,
                   delta: Deltas.Delta, now: int)
    returns (updated: ScalableTarget?, err: Option<Error>, ghost sent: SdkTargetSettings)
    ensures desired.View() == old(desired.View()) && latest.View() == old(latest.View())
    ensures var was := old(desired.View());
            match FirstMisfit(TargetInts(was.spec))
            case Some(f) =>
              updated == null && err == Some(RangeError(f)) && err.value.kind == Conditions.OutOfRange(f)
            case None =>
              TargetMeans(sent, was.spec) &&
              match api.register(sent)
              case Err(e) => updated == null && err == Some(e)
              case Ok(arn) =>
                && updated != null && err.None? && fresh(updated) && OwnsNewMemory(updated)
                && updated.View() == was.(status := PutStatus(was.status, rm, arn).(lastModifiedTime := Some(now)))
  {
    updated := null;
    var input := UpdatePayload(desired, latest, delta);
    if input.Err? {
      sent := SdkTargetSettings(None, None, None, None, "", "", None);
      return null, Some(RangeError(input.error)), sent;
    }
    sent := input.value;
    var resp := api.register(input.value);
    if resp.Err? {
      return null, Some(resp.error), sent;
    }
    updated := MergeUpdate(rm, desired, resp.value, now);
    err := None;
  }

  /** The key a delete sends. */
  ghost function KeyFor(v: TargetValue): DeregisterInput {
    DeregisterInput(v.resourceID, EnumString(v.scalableDimension), EnumString(v.serviceNamespace))
  }

  method SdkDelete(api: Client, r: ScalableTarget) returns (err: Option<Error>)
    ensures r.View() == old(r.View()) && err == api.deregister(KeyFor(old(r.View()).spec))
  {
    var input := DeregisterInput(None, "", "");
    if r.spec.resourceID != null {
      input := input.(resourceId := Some(r.spec.resourceID.v));
    }
    if r.spec.scalableDimension != null {
      input := input.(scalableDimension := r.spec.scalableDimension.v);
    }
    if r.spec.serviceNamespace != null {
      input := input.(serviceNamespace := r.spec.serviceNamespace.v);
    }
    err := api.deregister(input);
  }
}
