/**
 * Whole runs of the target's manager on the code: what conditions and LastModifiedTime come to. No method has a
 * `modifies` clause, so every resource a run passes through stays as it was.
 */
module TargetRuns {
  import opened Pointers
  import opened TargetApi
  import opened Statuses
  import opened AckConditions
  import opened TargetSdk
  import opened TargetCodec
  import opened TargetManager
  import opened Lifetimes
  import Conditions
  import Deltas
  import StatusOps
  import Wire

  // ----- Recording one outcome after another -----

  method RecordOne(rm: ResourceManager, r: ScalableTarget, outcome: Option<Conditions.Error>)
    returns (res: ScalableTarget)
    ensures res.View().spec == old(r.View()).spec
    ensures ListIn(res.View().status) == Conditions.Next(ListIn(old(r.View()).status), outcome)
  {
    if outcome.Some? {
      var failed, _ := OnError(rm, r, outcome.value);
      return failed;
    }
    ghost var was := ListIn(r.View().status);
    if !Conditions.Tracked(was) {
      UntrackedStays(was);
    }
    res := OnSuccess(rm, r);
  }

  /** Success changes nothing where there is nothing to report. */
  lemma UntrackedStays(cs: seq<ConditionValue>)
    requires !Conditions.Tracked(cs)
    ensures Conditions.Next(cs, None) == cs
  {
  }

  /** Each outcome is recorded on what the one before it left. */
  method Record(rm: ResourceManager, r: ScalableTarget, outcomes: seq<Option<Conditions.Error>>)
    returns (res: ScalableTarget)
    ensures res.View().spec == old(r.View()).spec
    ensures ListIn(res.View().status) == Conditions.Run(ListIn(old(r.View()).status), outcomes)
    decreases |outcomes|
  {
    if outcomes == [] {
      return r;
    }
    var before := Record(rm, r, outcomes[..|outcomes| - 1]);
    res := RecordOne(rm, before, outcomes[|outcomes| - 1]);
  }

  // ----- Reads and updates, one after another -----

  /** One reconciliation step: the clock and the client that answers it. */
  datatype Operation = Find(at: int, api: Client) | Push(at: int, api: Client)

  /** What an operation does to a resource, and the event it stands for. */
  ghost predicate Steps(rm: ResourceManager, op: Operation, was: ResourceValue, e: Event, now: ResourceValue) {
    && now.status == After(was.status, rm, e)
    && match op
       case Find(at, api) => Finds(at, api, was, e, now.spec)
       case Push(at, api) => now.spec == was.spec && Pushes(at, api, was, e)
  }

  ghost predicate Finds(at: int, api: Client, was: ResourceValue, e: Event, spec: TargetValue) {
    match Observe(api, was.spec)
    case Err(error) => e == HasFailed(at, error) && spec == was.spec
    case Ok(elem) =>
      && e == WasRead(at, elem.creationTime, elem.scalableTargetARN)
      && TargetMeans(elem.settings, spec) && TargetCanonical(spec) && spec.roleRef == was.spec.roleRef
  }

  ghost predicate Pushes(at: int, api: Client, was: ResourceValue, e: Event) {
    match Wire.FirstMisfit(TargetInts(was.spec))
    case Some(f) => e == HasFailed(at, StatusOps.RangeError(f))
    case None => exists sent :: TargetMeans(sent, was.spec) && Answered(at, api, sent, e)
  }

  ghost predicate Answered(at: int, api: Client, sent: Wire.SdkTargetSettings, e: Event) {
    match api.register(sent)
    case Err(error) => e == HasFailed(at, error)
    case Ok(arn) => e == WasUpdated(at, arn)
  }

  method Operate(rm: ResourceManager, op: Operation, r: ScalableTarget)
    returns (res: ScalableTarget, ghost e: Event)
    ensures Steps(rm, op, old(r.View()), e, res.View())
  {
    match op
    case Find(at, api) => res, e := DoFind(rm, at, api, r);
    case Push(at, api) => res, e := DoPush(rm, at, api, r);
  }

  method DoFind(rm: ResourceManager, at: int, api: Client, r: ScalableTarget)
    returns (res: ScalableTarget, ghost e: Event)
    ensures res.View().status == After(old(r.View()).status, rm, e)
    ensures Finds(at, api, old(r.View()), e, res.View().spec)
  {
    var err;
    res, err := ReadOne(rm, api, r);
    e := match Observe(api, old(r.View()).spec)
         case Err(error) => HasFailed(at, error)
         case Ok(elem) => WasRead(at, elem.creationTime, elem.scalableTargetARN);
  }

  method DoPush(rm: ResourceManager, at: int, api: Client, r: ScalableTarget)
    returns (res: ScalableTarget, ghost e: Event)
    ensures res.View().status == After(old(r.View()).status, rm, e) && res.View().spec == old(r.View()).spec
    ensures Pushes(at, api, old(r.View()), e)
  {
    var delta := new Deltas.Delta();
    assert r.View() == old(r.View());
    var err;
    ghost var sent;
    res, err, sent := Update(rm, api, r, r, delta, at);
    var misfit := Wire.FirstMisfit(TargetInts(old(r.View()).spec));
    e := if misfit.Some? then HasFailed(at, StatusOps.RangeError(misfit.value))
         else
           match api.register(sent)
           case Err(error) => HasFailed(at, error)
           case Ok(arn) => WasUpdated(at, arn);
  }

  /** Every state of the run follows from the one before by its operation. */
  ghost predicate Trace(rm: ResourceManager, ops: seq<Operation>, es: seq<Event>, states: seq<ResourceValue>) {
    && |es| == |ops| && |states| == |ops| + 1
    && forall i :: 0 <= i < |ops| ==> Steps(rm, ops[i], states[i], es[i], states[i + 1])
  }

  lemma {:induction false} TraceStatus(rm: ResourceManager, ops: seq<Operation>, es: seq<Event>,
                                       states: seq<ResourceValue>)
    requires Trace(rm, ops, es, states)
    ensures states[|ops|].status == AfterRun(states[0].status, rm, es)
    decreases |ops|
  {
    if ops != [] {
      var n := |ops| - 1;
      assert Trace(rm, ops[..n], es[..n], states[..n + 1]);
      TraceStatus(rm, ops[..n], es[..n], states[..n + 1]);
      assert Steps(rm, ops[n], states[n], es[n], states[n + 1]);
    }
  }

  lemma TraceLonger(rm: ResourceManager, ops: seq<Operation>, es: seq<Event>, states: seq<ResourceValue>,
                    e: Event, now: ResourceValue)
    requires ops != [] && Trace(rm, ops[..|ops| - 1], es, states)
    requires Steps(rm, ops[|ops| - 1], states[|ops| - 1], e, now)
    ensures Trace(rm, ops, es + [e], states + [now])
  {
    var n, longer, after := |ops| - 1, es + [e], states + [now];
    forall i | 0 <= i < |ops|
      ensures Steps(rm, ops[i], after[i], longer[i], after[i + 1])
    {
      if i < n {
        assert Steps(rm, ops[..n][i], states[i], es[i], states[i + 1]);
      }
    }
  }

  /** Any sequence of reads and updates, each on what the one before it returned, failed or not. */
  method OperateAll(rm: ResourceManager, r: ScalableTarget, ops: seq<Operation>)
    returns (res: ScalableTarget, ghost es: seq<Event>, ghost states: seq<ResourceValue>)
    ensures Trace(rm, ops, es, states) && states[0] == old(r.View()) && states[|ops|] == res.View()
    decreases |ops|
  {
    if ops == [] {
      return r, [], [r.View()];
    }
    var n := |ops| - 1;
    var before;
    before, es, states := OperateAll(rm, r, ops[..n]);
    ghost var e;
    res, e := Operate(rm, ops[n], before);
    TraceLonger(rm, ops, es, states, e, res.View());
    es, states := es + [e], states + [res.View()];
  }

  /**
   * What the user sees of such a run: the conditions are those of its outcomes, and LastModifiedTime, once
   * set, is never cleared and never moves back.
   */
  lemma TraceMeaning(rm: ResourceManager, ops: seq<Operation>, es: seq<Event>, states: seq<ResourceValue>, k: nat)
    requires Trace(rm, ops, es, states) && k <= |ops|
    ensures ListIn(states[k].status) == Conditions.Run(ListIn(states[0].status), Outcomes(es[..k]))
    ensures Timely(es) && (es != [] ==> NotAfter(states[0].status.lastModifiedTime, es[0].at)) ==>
      forall i :: 0 <= i <= k && states[i].status.lastModifiedTime.Some? ==>
                    && states[k].status.lastModifiedTime.Some?
                    && states[i].status.lastModifiedTime.value <= states[k].status.lastModifiedTime.value
  {
    var start := states[0].status;
    PrefixStatus(rm, ops, es, states, k);
    AfterRunList(start, rm, es[..k]);
    if Timely(es) && (es != [] ==> NotAfter(start.lastModifiedTime, es[0].at)) {
      forall i | 0 <= i <= k && states[i].status.lastModifiedTime.Some?
        ensures states[k].status.lastModifiedTime.Some?
        ensures states[i].status.lastModifiedTime.value <= states[k].status.lastModifiedTime.value
      {
        PrefixStatus(rm, ops, es, states, i);
        assert es[..k][..i] == es[..i];
        ModifiedGrows(start, rm, es[..k], i);
      }
    }
  }

  lemma PrefixStatus(rm: ResourceManager, ops: seq<Operation>, es: seq<Event>, states: seq<ResourceValue>, k: nat)
    requires Trace(rm, ops, es, states) && k <= |ops|
    ensures states[k].status == AfterRun(states[0].status, rm, es[..k])
  {
    assert Trace(rm, ops[..k], es[..k], states[..k + 1]);
    TraceStatus(rm, ops[..k], es[..k], states[..k + 1]);
  }
}
