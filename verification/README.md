# A verified model of the Application Auto Scaling controller

The controller keeps two kinds of Kubernetes resources, ScalableTarget and ScalingPolicy, in step with AWS.
This project models the code that decides what is sent, what is read back, what counts as a difference, and
what the user is told, and proves properties of that model. `dafny verify dfyconfig.toml` checks all of it.

## What is modelled

- **Memory.** A Go pointer to a scalar is a `Ref`, a slice of structs is a `Slice` whose slots can be written, a
  struct is a class with mutable fields, list elements and conditions included; nil is `null`. `View()` gives the
  value a structure stands for, `Owned()` the memory behind it. Contracts say both what a result means and which
  of its memory is new, so that a write to one side of a copy cannot show on the other.
- **The wire codec.** One relation (`PolicyMeans`, `TargetMeans`) says when a request or response says what a
  Spec says. Encoders establish it or name the first field that does not fit 32 bits; decoders establish it and
  leave no pointer to `""` in an enum field. Round trips follow for every Spec and every list length.
- **The comparison.** A Spec is a tree of nodes at dotted paths. `Recorded` states what a comparison must
  record: of the schema's paths, in order, those where the trees differ although they agree at every enclosing
  path. Exactness, symmetry, no path twice and no path inside another are laws of that one definition, and for each
  path it is proved in plain terms of the two Specs when it is recorded.
- **Conditions.** `Next` is the condition list after one outcome, `Run` after any sequence of outcomes. The code
  works on condition objects: it scans the list for pointers and writes status and message through them, and its
  caller's list survives because the deep copy gives every entry an object of its own.
- **Convergence.** Create or put, late-initialize, read back and compare, on the code itself, for every list of
  stored resources.
- **The manager cache.** Every lock operation, lookup, build and store of a call is a step of its own; a run
  interleaves the steps of any number of calls. The code of one call is proved to be such a run.
- **Runs and references.** Conditions and LastModifiedTime over any sequence of operations, threaded through the
  code of the target's manager; resolving and clearing a role reference in place.

Assumed of code that lives elsewhere: `ackcompare.HasNilDifference` is true exactly when one side reads as nil,
where the parameter `NilReading` decides whether a pointer to `""` reads as nil; `equality.Semantic.DeepEqual`
is equality of values; `ackcondition` sets the first entry of a type, through its pointer, or appends one; `ackerr.AWSError` finds the
AWS error inside an error, which is a field of `Error` here; a read-write lock excludes as documented. The AWS
client is a function from request to response, fixed for one call sequence. A float64 is a `real`, a time an
`int`. List elements are non-nil where the code dereferences them (`NoNilElements`).

## What the proofs show about the code

- A policy loop comes to rest, whatever else is stored, exactly when neither scalableDimension nor
  serviceNamespace points to `""` and, unless `""` reads as nil, no other enum field does either
  (`PolicyConvergence.LoopExact`, on the code `PutReadCompare`). With a key of `""` the filter is left out and a
  stray policy can be read in place of the one put.
- A target loop, once late initialization has succeeded, comes to rest whatever else is stored exactly when
  dimension and namespace are set and not `""`, however `""` reads (`TargetConvergence.LoopExact`, on the code
  `LoopInStore`). The check asks for the resource id alone, so for every other Spec a stray target of the same
  resource is found and the comparison never falls silent. Where finds return the registered target (`Serves`),
  only an enum field of `""`, told from nil, keeps the loop going (`TargetConvergence.CreateReadCompare`).
- The weaker required-field check of targets lets a find return another target of the same resource exactly
  when dimension or namespace is missing or `""` (`TargetConvergence.FindExact`); the API types rule out a missing
  one (apis/v1alpha1/scalable_target.go:227-233). For policies only `""` remains (`PolicyConvergence.FindExact`).
  A store without a single empty key is enough for the mistake.
- `ResolveReferences` rejects a Spec that sets both RoleRef and RoleARN, but has then already overwritten the
  ARN (`References.RejectedButWritten`), so clearing restores exactly the Specs that do not set both.
- With repeated condition types only the last entry of a type is written, and an earlier True entry stays
  True through every run (`Conditions.RunTrue`); `onError` then reports a terminal
  error for any error while an earlier Terminal=True entry survives (`TargetManager.SurfacedMeaning`).
- Terminal and Recoverable can both be True (`Conditions.BothTrue`).
- The not-updated exit of `onError` cannot be taken; `onSuccess` hands back the very resource it was given when
  no condition of interest exists.
- Two concurrent misses build two managers for any key (`ManagerCache.DuplicatesPossible`). Callers hold
  different managers exactly when two calls both looked before the first store for the key, found nothing, and
  both built (`ManagerCache.DifferOnlyByEarlyMisses`).
- The cache key holds no partition: a cached manager keeps the partition of the call that built it.
- The comparison of targets never changes its second argument, even when both share memory. `onError` in an
  update puts the error onto `latest`, not onto `desired`.
- Defaulted metadata points at the manager's own three cells, so it is shared between resources.

## Model

| member | source | states |
|---|---|---|
| PolicyApi.StepAdjustment.DeepCopyInto | apis/v1alpha1/zz_generated.deepcopy.go:1128-1145 | in place: same meaning, new cells |
| PolicyApi.CopyAdjustments | apis/v1alpha1/zz_generated.deepcopy.go:1180-1190 | nil list stays nil, nil elements stay nil, order kept, every element and cell new, any length |
| PolicyApi.StepScalingPolicyConfiguration.DeepCopyInto | apis/v1alpha1/zz_generated.deepcopy.go:1158-1191 | in place: `out` means what the receiver meant, and all it points to is new |
| PolicyApi.MetricDimension.DeepCopyInto | apis/v1alpha1/zz_generated.deepcopy.go:119-131 | in place: same meaning, new cells |
| PolicyApi.CopyDimensions | apis/v1alpha1/zz_generated.deepcopy.go:55-65 | nil list stays nil, nil elements stay nil, order kept, every element and cell new, any length |
| PolicyApi.CustomizedMetricSpecification.DeepCopyInto | apis/v1alpha1/zz_generated.deepcopy.go:53-86 | in place: same meaning, nothing shared below `out` |
| PolicyApi.PredefinedMetricSpecification.DeepCopyInto | apis/v1alpha1/zz_generated.deepcopy.go:179-191 | in place: same meaning, nothing shared below `out` |
| PolicyApi.TargetTrackingScalingPolicyConfiguration.DeepCopyInto | apis/v1alpha1/zz_generated.deepcopy.go:1289-1321 | in place: same meaning, nothing shared below `out`, both nested structs included |
| PolicyApi.ScalingPolicySpec.DeepCopyInto | apis/v1alpha1/zz_generated.deepcopy.go:896-933 | in place: same meaning, and the whole tree below `out`, list stores and elements included, is new memory |
| PolicyApi.ScalingPolicySpec.DeepCopy | apis/v1alpha1/zz_generated.deepcopy.go:896-943 | a new Spec of the same meaning that shares nothing |
| PolicyApi.CopyApart | apis/v1alpha1/zz_generated.deepcopy.go:896-943 | a Spec and its copy own nothing in common, from the Spec down to list elements and cells |
| PolicyApi.WritesStayApart | apis/v1alpha1/zz_generated.deepcopy.go:896-943 | whatever is later written inside memory that a Spec does not own, such as its copy's structs, list slots and list elements, the Spec means what it meant |
| Ownership.SpecCovered | apis/v1alpha1/zz_generated.deepcopy.go:896-933 | what a Spec owns contains the Spec, the cell of every scalar pointer in it and all that its two structs own |
| Ownership.StepCovered | apis/v1alpha1/zz_generated.deepcopy.go:1158-1191 | the same for the step configuration, its cells and its list |
| Ownership.AdjustmentsCovered | apis/v1alpha1/zz_generated.deepcopy.go:1180-1190 | the list store, every element and every cell of an element |
| Ownership.TrackingCovered | apis/v1alpha1/zz_generated.deepcopy.go:1289-1321 | the same for target tracking, its cells and both metrics |
| Ownership.CustomizedCovered | apis/v1alpha1/zz_generated.deepcopy.go:53-86 | the same for the customized metric, its cells and its list |
| Ownership.DimensionsCovered | apis/v1alpha1/zz_generated.deepcopy.go:55-65 | the list store, every element and every cell of an element |
| Ownership.PolicyIsNew | apis/v1alpha1/zz_generated.deepcopy.go:837-853 | a policy on new memory has a new Spec, Status, metadata and conditions, and every struct and list element below the Spec is new |
| Ownership.ConditionCovered | apis/v1alpha1/zz_generated.deepcopy.go:953-963 | a condition owns its object and both cells |
| Ownership.MetadataCovered | apis/v1alpha1/zz_generated.deepcopy.go:948-952 | metadata owns its object and all four cells |
| Ownership.SuspensionCovered | apis/v1alpha1/zz_generated.deepcopy.go:1204-1221 | the suspension owns its object and all three cells |
| Ownership.TargetCovered | apis/v1alpha1/zz_generated.deepcopy.go:616-658 | a target Spec owns every cell, the role reference, the struct inside it and its cells |
| Ownership.TargetIsNew | apis/v1alpha1/zz_generated.deepcopy.go:532-538 | a target on new memory has a new Spec, Status, metadata, conditions, suspension and role reference |
| PolicyResource.ScalingPolicy.DeepCopy | apis/v1alpha1/zz_generated.deepcopy.go:837-853 | a whole resource of the same meaning that shares nothing that can be written to |
| Statuses.CopyConditions | apis/v1alpha1/zz_generated.deepcopy.go:953-963 | nil stays nil; every entry, in order, becomes a new object of its own that says the same, even where one object was listed twice |
| Statuses.Status.DeepCopyInto | apis/v1alpha1/zz_generated.deepcopy.go:946-983 | conditions, times and metadata carry over; metadata, cells and every condition object are new, no two entries the same object |
| TargetApi.SuspendedState.DeepCopyInto | apis/v1alpha1/zz_generated.deepcopy.go:1204-1221 | in place: same meaning, new cells |
| TargetApi.ScalableTargetSpec.DeepCopyInto | apis/v1alpha1/zz_generated.deepcopy.go:616-658 | in place: same meaning, nothing shared below `out`, the role reference and the struct inside it included |
| TargetApi.ScalableTarget.DeepCopy | apis/v1alpha1/zz_generated.deepcopy.go:532-538 | a whole resource of the same meaning that shares nothing that can be written to |
| Wire.FitsExactly | pkg/resource/scaling_policy/sdk.go:372-379 | the range check is the range of 32-bit integers: a value passes iff some int32 equals it |
| Wire.Narrow | pkg/resource/scaling_policy/sdk.go:372-379 | an error iff the value lies outside -2^31 to 2^31-1, naming the field; otherwise the 32-bit value equals the 64-bit one |
| Wire.FirstMisfitMeaning | pkg/resource/scaling_policy/sdk.go:372-475 | no misfit iff every integer lies in -2^31 to 2^31-1; otherwise the named field is the first in order that does not |
| PolicyCodec.PolicyMisfit | pkg/resource/scaling_policy/sdk.go:372-475 | which field a payload error names: Cooldown, MinAdjustmentMagnitude, some ScalingAdjustment, ScaleInCooldown, ScaleOutCooldown, in that order; none iff all fit |
| PolicyCodec.StepMeansSays | pkg/resource/scaling_policy/sdk.go:367-414 | the relation between a printed and a kept step configuration, field by field and element by element |
| PolicyCodec.TrackingMeansSays | pkg/resource/scaling_policy/sdk.go:415-480 | the same for target tracking, both metrics and the dimension list included |
| PolicyCodec.PolicyMeansSays | pkg/resource/scaling_policy/sdk.go:346-483 | the same for the whole Spec; a nil enum is sent as `""` |
| PolicyCodec.EncodeAdjustments | pkg/resource/scaling_policy/sdk.go:391-412 | every element is printed in order, or encoding stops at the first that does not fit, for any length |
| PolicyCodec.EncodeStep | pkg/resource/scaling_policy/sdk.go:367-414 | the printed step configuration means the same, or the first misfit in code order is reported |
| PolicyCodec.EncodeDimensions | pkg/resource/scaling_policy/sdk.go:419-432 | every dimension is printed in order; nil and empty lists stay apart |
| PolicyCodec.EncodeTracking | pkg/resource/scaling_policy/sdk.go:415-480 | the printed tracking configuration means the same, or the first misfit is reported |
| PolicyCodec.NewCreateRequestPayload | pkg/resource/scaling_policy/sdk.go:346-483 | encoding succeeds iff every present integer fits, the request means the Spec, and an error names the first misfit with no payload |
| PolicyCodec.NewUpdateRequestPayload | pkg/resource/scaling_policy/sdk.go:545-683 | the same contract for the second copy, whatever the delta |
| PolicyCodec.PolicyEncodingUnique | pkg/resource/scaling_policy/sdk.go:346-683 | a Spec has one printed form, so create and update build the same request |
| PolicyCodec.DecodeAdjustments | pkg/resource/scaling_policy/sdk.go:165-182 | the read list means the response's, element by element, on new memory |
| PolicyCodec.DecodeStepInto | pkg/resource/scaling_policy/sdk.go:149-186 | the step configuration read means the response's, is cleared when absent, and is new |
| PolicyCodec.DecodeTrackingInto | pkg/resource/scaling_policy/sdk.go:187-246 | the same for target tracking, leaving the step configuration alone |
| PolicyCodec.DecodeInto | pkg/resource/scaling_policy/sdk.go:124-246 | every Spec field is overwritten with what the response says; enum fields never point to `""` |
| PolicyCodec.PolicyReadBack | pkg/resource/scaling_policy/sdk.go:124-483 | round trip: reading back a printed Spec gives that Spec with `""` in enum fields turned to nil and nothing else changed |
| Deltas.RecordedMember | pkg/resource/scaling_policy/delta.go:45-207 | a path is recorded iff the trees differ there and agree at every enclosing path |
| Deltas.RecordedPrefixFree | pkg/resource/scaling_policy/delta.go:80-207 | no recorded path lies inside another |
| PolicyDelta.CompareStep | pkg/resource/scaling_policy/delta.go:80-118 | appends exactly the recorded paths of the step section, both nil, one nil or neither |
| PolicyDelta.CompareCustomized | pkg/resource/scaling_policy/delta.go:122-160 | appends exactly the recorded paths of the customized metric |
| PolicyDelta.ComparePredefined | pkg/resource/scaling_policy/delta.go:168-185 | appends exactly the recorded paths of the predefined metric |
| PolicyDelta.CompareTracking | pkg/resource/scaling_policy/delta.go:119-207 | appends exactly the recorded paths of the tracking section |
| PolicyDelta.NewResourceDelta | pkg/resource/scaling_policy/delta.go:34-210 | the root path alone when one resource is nil, otherwise exactly the recorded paths of the two Specs in order |
| PolicyDeltaLaws.DeltaExact | pkg/resource/scaling_policy/delta.go:45-207 | no difference iff the two Specs are equal, where a missing list reads as an empty one, other lists as they are, and `""` as the reading says |
| PolicyDeltaLaws.SameIsEquivalence | pkg/resource/scaling_policy/delta.go:34-210 | "no difference" is reflexive, symmetric and transitive |
| PolicyDeltaLaws.DeltaPathsDiffer | pkg/resource/scaling_policy/delta.go:45-207 | every recorded path names values that really differ |
| PolicyDeltaLaws.DeltaShape | pkg/resource/scaling_policy/delta.go:80-207 | no path twice, none inside another, the same list with the arguments swapped |
| PolicyPaths.TopPaths | pkg/resource/scaling_policy/delta.go:45-80 | each key and the policy type is recorded iff the strings differ, each of the two structs iff one side alone has it |
| PolicyPaths.StepPaths | pkg/resource/scaling_policy/delta.go:80-118 | each member of the step configuration is recorded iff both sides have one and the member differs, the adjustment list by length or content |
| PolicyPaths.TrackingPaths | pkg/resource/scaling_policy/delta.go:119-207 | the same for target tracking; the two metrics iff one side alone has it |
| PolicyPaths.CustomizedPaths | pkg/resource/scaling_policy/delta.go:122-160 | the same for the customized metric, the dimension list by length or content |
| PolicyPaths.PredefinedPaths | pkg/resource/scaling_policy/delta.go:168-185 | the same for the predefined metric |
| Statuses.SetStatusDefaults | pkg/resource/scaling_policy/sdk.go:730-748 | each of region, partition and owner account is the manager's cell where it was missing and stays where it was set; a missing list becomes empty; the ARN stays |
| Statuses.DefaultedTwice | pkg/resource/scaling_policy/sdk.go:730-748 | a second pass changes nothing, even by another manager |
| Conditions.FindConditions | pkg/resource/scaling_policy/sdk.go:761-774 | pointers to the last entry of each of the three types, nil where there is none, for any list |
| Conditions.UpdateList | pkg/resource/scaling_policy/sdk.go:760-824 | through pointers into the list: it then says `Next` of what it said, kept entries are the same objects, appended ones new; and updated iff a Terminal, Recoverable or Synced entry is in it |
| Conditions.UpdateConditions | pkg/resource/scaling_policy/sdk.go:752-825 | the Status is defaulted and its list advanced by writes to its own condition objects, nothing else changes |
| Conditions.NextKeeps | pkg/resource/scaling_policy/sdk.go:764-824 | one update keeps order and types, touches no other type, and appends at most one True entry of a missing type |
| Conditions.NextUnique | pkg/resource/scaling_policy/sdk.go:777-806 | distinct types stay distinct |
| Conditions.NextTrue | pkg/resource/scaling_policy/sdk.go:775-824 | on any list, exactly who is True after an outcome, repeated types included |
| Conditions.NextSays | pkg/resource/scaling_policy/sdk.go:775-824 | entry by entry: after an error the raised entry is the last of its type, True with the error's message (for Recoverable the AWS message when there is one); otherwise the last Terminal, and after a success the last Recoverable, is False without a message; no other entry changes; terminal-class is the three kinds of the code |
| Conditions.RunTrue | pkg/resource/scaling_policy/sdk.go:752-825 | on any list, after any run: Terminal is True iff the last outcome was terminal-class or an earlier entry than the last of its type was True from the start; Recoverable likewise by the latest outcome that was not terminal-class |
| Conditions.RunSays | pkg/resource/scaling_policy/sdk.go:752-825 | after any run the last Terminal entry has the status and message of the last outcome, the last Recoverable those of the latest outcome that was not terminal-class |
| Conditions.RunKeeps | pkg/resource/scaling_policy/sdk.go:764-824 | on any list, any run adds at most two entries, keeps order and types, and never alters another type |
| Conditions.RunFromFresh | pkg/resource/scaling_policy/sdk.go:752-825 | from a list without either condition, the list is a prefix of every later one, and both statuses depend on the outcomes alone |
| Conditions.BothTrue | pkg/resource/scaling_policy/sdk.go:776-798 | a terminal error leaves Recoverable as it was, so both can be True |
| Conditions.UpdatedMeaning | pkg/resource/scaling_policy/sdk.go:821-824 | the update is reported iff there is an error or one of the three types was present |
| AckConditions.SetCondition | pkg/resource/scalable_target/manager.go:227-245 | the first entry of the type is overwritten through its pointer, or a new one appended; no other entry changes |
| AckConditions.PutMeaning | pkg/resource/scalable_target/manager.go:227-245 | afterwards the type reads as set, every other type reads as before, order kept |
| StatusOps.CustomSetLastModifiedTimeToCreationTime | pkg/resource/scaling_policy/custom_api.go:26-30 | set only when missing, and then to CreationTime's own cell |
| StatusOps.CustomSetLastModifiedTimeToCurrentTime | pkg/resource/scaling_policy/custom_api.go:33-36 | a new cell with the current time; nothing else changes |
| StatusOps.FoundSays | pkg/resource/scaling_policy/sdk.go:90-255 | a read brings the creation time and the ARN when there is one, starts LastModifiedTime, and fills missing metadata from the manager |
| StatusOps.PutSays | pkg/resource/scaling_policy/sdk.go:328-341 | a create or update brings the ARN when there is one, keeps times and conditions, and fills missing metadata from the manager |
| PolicySdk.NewDescribeInput | pkg/resource/scaling_policy/custom_api.go:39-53 | the find's filter holds exactly the keys that are set |
| PolicySdk.CustomCheckRequiredFieldsMissing | pkg/resource/scaling_policy/custom_api.go:58-65 | missing iff one of the four keys is nil |
| PolicySdk.DecodeAlarms | pkg/resource/scaling_policy/sdk.go:96-111 | the alarm list is read back whole and in order |
| PolicySdk.SdkFind | pkg/resource/scaling_policy/sdk.go:58-257 | NotFound for missing keys, an empty answer or code UNKNOWN; any other error as it is; otherwise the first described policy, alarms included, on a copy, `r` untouched |
| PolicySdk.SdkCreate | pkg/resource/scaling_policy/sdk.go:291-342 | one put of what the Spec means; on success the desired Spec and the response's ARN and alarms on new memory; errors return no resource |
| PolicySdk.SdkUpdate | pkg/resource/scaling_policy/sdk.go:487-541 | the same, with LastModifiedTime set to the clock |
| PolicySdk.StoredSays | pkg/resource/scaling_policy/sdk.go:313-341 | the response's ARN and alarms reach the result, an update also the clock, and the Spec stays as desired |
| PolicyConvergence.PutThenDescribe | pkg/resource/scaling_policy/sdk.go:270-286 | whatever else is stored, the find after a put sees that policy and no other |
| PolicyConvergence.FindExact | pkg/resource/scaling_policy/custom_api.go:39-65 | given the four keys, every find returns a policy with the Spec's own keys iff no enum key is `""`; a store without empty keys is enough to show it |
| PolicyConvergence.PolicyConverges | pkg/resource/scaling_policy/delta.go:45-207 | desired against read-back is silent iff `""` plays no part in the enum fields |
| PolicyConvergence.LoopExact | pkg/resource/scaling_policy/sdk.go:58-483 | put, find and compare are silent for every store iff the two enum keys are not `""` and either `""` reads as nil or no enum field is `""`; stores without empty keys decide the same |
| PolicyConvergence.BackedByStore | pkg/resource/scaling_policy/sdk.go:58-342 | for every list of stored policies there are answers as the loop assumes them |
| PolicyConvergence.PutReadCompare | pkg/resource/scaling_policy/sdk.go:58-483 | create, find and compare on the code, for every Spec with its four keys and every store: the delta is empty iff what is found first reads the same, so for a Spec without `""` keys iff that condition holds |
| Lifetimes.ModifiedGrows | pkg/resource/scaling_policy/custom_api.go:26-36 | once set, LastModifiedTime is never cleared and never moves back between any two points of a run, failed operations included |
| Lifetimes.ReadKeepsModified | pkg/resource/scaling_policy/sdk.go:254-255 | a read never changes a set LastModifiedTime and otherwise copies the creation time just read |
| Lifetimes.AfterRunList | pkg/resource/scaling_policy/sdk.go:752-825 | the condition list after any run of operations is the run of their outcomes, so what is proved of such runs holds of it |
| TargetCodec.NewCreateRequestPayload | pkg/resource/scalable_target/sdk.go:235-284 | succeeds iff both capacities fit, and the request means the Spec; otherwise the first misfit |
| TargetCodec.NewUpdateRequestPayload | pkg/resource/scalable_target/sdk.go:330-380 | the same contract for the second copy, whatever the delta |
| TargetCodec.DecodeInto | pkg/resource/scalable_target/sdk.go:101-154 | every sent field is overwritten with what the response says; the role reference stays |
| TargetCodec.TargetReadBack | pkg/resource/scalable_target/sdk.go:101-284 | round trip up to `""` in the two enum fields and the unsent reference |
| TargetCodec.TargetEncodingUnique | pkg/resource/scalable_target/sdk.go:235-380 | create and update build the same request |
| TargetCodec.TargetMisfit | pkg/resource/scalable_target/sdk.go:240-256 | which capacity a payload error names, MaxCapacity first; none iff both fit |
| TargetCodec.TargetMeansSays | pkg/resource/scalable_target/sdk.go:235-284 | the relation between a printed and a kept Spec, field by field |
| TargetDelta.CustomSetDefaults | pkg/resource/scalable_target/custom_delta.go:22-42 | in place: members the user left open come from `b`; `b` never changes, even when memory is shared |
| TargetDelta.NewResourceDelta | pkg/resource/scalable_target/delta.go:34-118 | `a` is filled, `b` unchanged, and exactly the recorded paths result; the root path when one is nil |
| TargetDelta.TargetDeltaExact | pkg/resource/scalable_target/delta.go:46-115 | silent iff the scalar fields read the same and every suspension wish of the user is granted |
| TargetDelta.DefaultsFixpoint | pkg/resource/scalable_target/custom_delta.go:26-40 | comparing again changes nothing and finds the same differences |
| TargetDelta.DefaultsKeepWishes | pkg/resource/scalable_target/custom_delta.go:30-40 | a member the user set is never overwritten |
| TargetDelta.SuspensionReported | pkg/resource/scalable_target/delta.go:91-115 | a suspension path appears only for a user's wish that is absent from or different in latest |
| TargetPaths.TopPaths | pkg/resource/scalable_target/delta.go:46-90 | each scalar field and the reference is recorded iff it differs, the suspension iff the user has wishes and latest has none |
| TargetPaths.SuspensionPaths | pkg/resource/scalable_target/delta.go:91-115 | each suspension member is recorded iff the user set it and latest has it otherwise |
| TargetSdk.NewDescribeInput | pkg/resource/scalable_target/custom_api.go:25-39 | the find's filter holds exactly the keys that are set |
| TargetSdk.SdkFind | pkg/resource/scalable_target/sdk.go:58-165 | NotFound for a missing resource id, an empty answer or code UNKNOWN; any other error as it is; otherwise the first described target on a copy, `r` untouched |
| TargetSdk.SdkCreate | pkg/resource/scalable_target/sdk.go:196-231 | one register of what the Spec means; the desired Spec and the ARN on new memory; errors return no resource |
| TargetSdk.SdkUpdate | pkg/resource/scalable_target/sdk.go:288-326 | the same, with LastModifiedTime set to the clock |
| TargetSdk.SdkDelete | pkg/resource/scalable_target/sdk.go:383-421 | deregisters exactly the keys of the Spec and passes the error on |
| TargetManager.OnError | pkg/resource/scalable_target/manager.go:367-387 | a new resource with the error in its conditions; the not-updated exit is never taken |
| TargetManager.SurfacedMeaning | pkg/resource/scalable_target/manager.go:374-386 | the terminal error surfaces iff the error is terminal-class, given distinct types; exactly when, for any list |
| TargetManager.OnSuccess | pkg/resource/scalable_target/manager.go:391-402 | the very resource it was given iff no Terminal, Recoverable or Synced entry exists, else a new one with the first two cleared |
| TargetManager.ReadOne | pkg/resource/scalable_target/manager.go:97-115 | on every path a resource on new memory, what was read or the error in the conditions; the argument is untouched |
| TargetManager.Create | pkg/resource/scalable_target/manager.go:120-137 | the same for create, range errors included |
| TargetManager.Update | pkg/resource/scalable_target/manager.go:147-167 | the same for update; a failure is recorded on a copy of `latest` |
| TargetManager.Delete | pkg/resource/scalable_target/manager.go:172-190 | no resource on success, the error on a copy otherwise |
| TargetManager.LateInitializeFromReadOneOutput | pkg/resource/scalable_target/manager.go:263-273 | RoleARN comes from the observed Spec only where the user gave none; neither argument changes |
| TargetManager.LateInitialize | pkg/resource/scalable_target/manager.go:211-247 | RoleARN comes from the read where none was given; no error iff the read worked and a role is known; then LateInitialized is True and Synced as it was, else both are False; nothing else changes |
| TargetManager.LateOutcomes | pkg/resource/scalable_target/manager.go:222-246 | each failure reads LateInitialized=False and Synced=False; success LateInitialized=True and Synced as it was |
| TargetConvergence.TargetConverges | pkg/resource/scalable_target/delta.go:44-115 | after late initialization the comparison is silent iff `""` plays no part in the two enum fields |
| TargetConvergence.WithoutLateInitialization | pkg/resource/scalable_target/delta.go:67-73 | without it, a role chosen by the server is reported as exactly Spec.RoleARN |
| TargetConvergence.ServesFromStore | pkg/resource/scalable_target/sdk.go:58-284 | for a Spec with dimension and namespace, every store answers the find with what it keeps of the register, whatever else is in it |
| TargetConvergence.CreateReadCompare | pkg/resource/scalable_target/manager.go:97-273 | create, late-initialize, read and compare on the code, for a client whose finds return something: no error iff a role is known; the delta is then empty iff the target found reads the same; if it is the one registered (`Serves`), iff `""` plays no part in the two enum fields |
| TargetConvergence.LoopExact | pkg/resource/scalable_target/manager.go:97-273 | register, late-initialize, find and compare are silent for every store iff dimension and namespace are set and not `""`, under either reading of `""`; a store without empty keys is enough to show it |
| TargetConvergence.LoopInStore | pkg/resource/scalable_target/manager.go:97-273 | the loop on the code for every Spec with a resource id and any list of stored targets that keeps what is registered: the delta is empty iff the target found first reads the same, and always for a Spec with dimension and namespace |
| TargetConvergence.FindExact | pkg/resource/scalable_target/custom_api.go:25-62 | given the resource id, every find returns a target with the Spec's own keys iff dimension and namespace are set and not `""`; a store without empty keys is enough to show it |
| TargetConvergence.DeleteUndoesRegister | pkg/resource/scalable_target/sdk.go:383-421 | the key a delete sends names exactly what a register of the same Spec put, so it undoes the register and nothing else |
| TargetRuns.Record | pkg/resource/scalable_target/manager.go:367-402 | any sequence of outcomes recorded by `onError` and `onSuccess`, each on what the one before returned, leaves the list `Run` of the first one and the Spec as it was |
| TargetRuns.OperateAll | pkg/resource/scalable_target/manager.go:97-167 | any sequence of reads and updates, failed ones included, each on what the one before returned, is a trace in which every state follows by what the client answered |
| TargetRuns.TraceMeaning | pkg/resource/scalable_target/manager.go:97-167 | at every point of such a trace the conditions are those of its outcomes, and LastModifiedTime has neither vanished nor moved back |
| References.GetReferencedResourceState | pkg/resource/scalable_target/references.go:128-176 | the first reason in order why a role cannot be used, for condition lists of any length |
| References.ResolveReferenceForRoleARN | pkg/resource/scalable_target/references.go:91-122 | in place, case by case: no reference, no name, a refused namespace, a role that cannot be read in the namespace the rule returned, one that is terminal, unsynced or without ARN, or its ARN in the Spec; besides the ARN only the conditions change, as the rule says |
| References.ResolveReferences | pkg/resource/scalable_target/references.go:59-75 | works on the resource it is given, ARN and conditions alone; resolution errors win over the both-set error |
| References.ClearResolvedReferences | pkg/resource/scalable_target/references.go:42-50 | on a copy: the ARN goes iff there is a reference |
| References.ClearUndoesResolve | pkg/resource/scalable_target/references.go:42-75 | clearing restores the original Spec iff it did not set both, and always after a successful resolve |
| References.ResolveClearResolve | pkg/resource/scalable_target/references.go:42-75 | resolve, clear, resolve is resolve, without error |
| References.SecondResolveRejected | pkg/resource/scalable_target/references.go:79-85 | without a clear in between, the second resolve is rejected iff the first found a reference |
| References.RejectedButWritten | pkg/resource/scalable_target/references.go:67-75 | a rejected Spec that sets both has had its ARN overwritten |
| ManagerCache.KeyInjective | pkg/resource/scaling_policy/manager_factory.go:61-61 | no two requests share a key when ids and regions hold no slash, whatever the role ARNs |
| ManagerCache.SharedKeyMisleads | pkg/resource/scaling_policy/manager_factory.go:61-68 | requests that shared a key would share a manager, of the first one's account |
| ManagerCache.WrongAccountPossible | pkg/resource/scaling_policy/manager_factory.go:61-68 | if an id may hold a slash, a reachable state has a caller with another account's manager |
| ManagerCache.Invariant | pkg/resource/scaling_policy/manager_factory.go:62-78 | lock, ownership and provenance hold in every state of every interleaving |
| ManagerCache.Exclusion | pkg/resource/scaling_policy/manager_factory.go:62-71 | while one call is in its write phase no other is in its read or write phase |
| ManagerCache.Grows | pkg/resource/scaling_policy/manager_factory.go:77-77 | keys are never removed |
| ManagerCache.RightManager | pkg/resource/scaling_policy/manager_factory.go:61-78 | every returned manager is for the account and region asked for |
| ManagerCache.BuildsOnlyAfterEarlyMiss | pkg/resource/scaling_policy/manager_factory.go:62-78 | a call builds only if its lookup came before the first store for its key |
| ManagerCache.SettledForever | pkg/resource/scaling_policy/manager_factory.go:62-78 | once no missed call is pending, the entry never changes |
| ManagerCache.LaterCallsAgree | pkg/resource/scaling_policy/manager_factory.go:62-68 | from then on every call that looks returns that one object |
| ManagerCache.SharedExactly | pkg/resource/scaling_policy/manager_factory.go:62-78 | all calls for a key hold one manager iff at most one call has stored one, in every state of every run |
| ManagerCache.DifferOnlyByEarlyMisses | pkg/resource/scaling_policy/manager_factory.go:62-78 | different managers are held for a key iff two calls both missed before the first store for it and both built |
| ManagerCache.DuplicatesPossible | pkg/resource/scaling_policy/manager_factory.go:62-78 | for every request there is a run in which two calls return different managers |
| ManagerCache.AloneReached | pkg/resource/scaling_policy/manager_factory.go:48-79 | a call that nothing interrupts is a run of the state machine: the lone lookup and, on a miss, the lone build |
| ManagerCache.ResourceManagerFactory.ManagerFor | pkg/resource/scaling_policy/manager_factory.go:48-79 | the code takes the cache from one reachable state of the machine to the next by such a call: the cached object, or a new one and one new key; a new one has the partition of the call; always of the account and region asked for when ids and regions hold no slash |

## Left out

- The AWS client, its errors' wrapping, metrics, logging and contexts: foreign input and output, replaced by functions from request to response.
- Merge semantics of real register and put calls for omitted fields: not decided by this code; the convergence theorems name what they assume of the store.
- The outer reconciler, requeue timing, tags, identifiers, finalizers, descriptors and registries: wiring or empty bodies.
- `pkg/resource/scaling_policy/manager.go` and `pkg/resource/scalable_target/manager_factory.go`: the same logic as their modelled twins; the policy's delete likewise.
- Predictive scaling, scheduled actions and other API types that no modelled path uses.
- PolicyApi.WritesStayApart: the cell behind a scalar pointer is a constant, because no code of the repository writes through such a pointer once the cell is filled; the backing array of a slice is one mutable field that holds a sequence.
- PolicyApi.ScalingPolicySpec.DeepCopyInto: says that everything below `out` is new, not that two fields of `out` never share one new cell.
- PolicyCodec.NewUpdateRequestPayload: shares the encoders of the nested structs with the create payload; in the source the two texts are the same line by line apart from the header.
- PolicyCodec.DecodeInto: the code keeps the response's own string pointers; here each becomes a new cell of the same value.
- PolicyCodec.EncodeNames and the other encoders: the request holds values, where the code's request shares the Spec's string pointers.
- Conditions.UpdateConditions: requires the entries of the list to be distinct objects, as they are after every deep copy; nil entries and LastTransitionTime are not modelled; the conditions' fixed texts are abbreviated.
- Statuses.CopyConditions: nil entries, which the code keeps nil, cannot occur in the list; the code that scans the list dereferences every entry.
- Statuses.Status.DeepCopyInto: one Status for both resources; the policy's alarm list is a field of PolicyResource.ScalingPolicy.
- PolicyResource.ScalingPolicy.DeepCopy: alarms are values, so sharing of alarm structs is not modelled; no code writes through an alarm pointer after it is read.
- TargetApi.ScalableTarget.DeepCopy: of the object metadata only the namespace, which references need, is modelled; for policies none is.
- TargetRuns.OperateAll: every update desires the Spec the resource has; edits by the user between two operations are not part of a run.
- TargetDelta.NewResourceDelta: requires one resource to be non-nil, as PolicyDelta.NewResourceDelta does; the code dereferences nil when both are.
- References.ResolveReferenceForRoleARN: the runtime's cross-namespace rule is a function whose decision does not depend on the conditions; its change to the condition list shows as a list of new objects, and the resolved ARN is a new cell instead of the role object's own.
- ManagerCache.ResourceManagerFactory.ManagerFor: the code of one call runs undisturbed; interleavings are those of the state machine in the same module. `newResourceManager` never fails, the state machine allows a failing build.
- Condition message texts and error strings beyond the field name are opaque.
