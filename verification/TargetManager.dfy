/**
 * The target's resource manager: conditions on every path, CRUD, and late initialization.
 *
 * None of the operations has a `modifies` clause: whatever the outcome, the resources passed in, and
 * everything reachable from them, condition objects included, are as they were. Each result owns new memory.
 */
module TargetManager {
  import opened Pointers
  import opened TargetApi
  import opened Statuses
  import opened Conditions
  import opened AckConditions
  import opened StatusOps
  import opened TargetSdk
  import opened TargetCodec
  import Wire
  import Deltas

  const TERMINAL_ERROR: Conditions.Error := Conditions.Error(TerminalSentinel, "terminal", None)
  const REQUEUE: Conditions.Error := Conditions.Error(RequeueNeeded, "requeue", None)

  // Condition texts, abbreviated.
  const INITIALIZED: string := "initialized"
  const FAILURE: string := "failure"
  const UNREAD: string := "unread"
  const DELAYED: string := "delayed"
  const INCOMPLETE: string := "incomplete"

  // ----- onError and onSuccess -----

  ghost function Surfaced(cs: seq<ConditionValue>, e: Conditions.Error): Conditions.Error {
    if IsTrue(cs, Terminal) then TERMINAL_ERROR else e
  }

  /** The error the caller sees when `e` is recorded on a resource. */
  ghost function ErrorSeen(s: StatusValue, e: Conditions.Error): Conditions.Error {
    Surfaced(Next(ListIn(s), Some(e)), e)
  }

  /** The caller sees the terminal error exactly for terminal-class errors, given distinct types. */
  lemma SurfacedMeaning(cs: seq<ConditionValue>, e: Conditions.Error)
    ensures Surfaced(Next(cs, Some(e)), e) == (if TerminalClass(e) || Shadowed(cs, Terminal) then TERMINAL_ERROR else e)
    ensures var seen := Surfaced(Next(cs, Some(e)), e);
            if IsTrue(Next(cs, Some(e)), Terminal) then seen.kind.TerminalSentinel? else seen == e
    ensures UniqueTypes(cs) ==> Surfaced(Next(cs, Some(e)), e) == (if TerminalClass(e) then TERMINAL_ERROR else e)
  {
    NextTrue(cs, Some(e));
  }

  /** A resource after `updateConditions`. */
  ghost function Marked(r: ResourceValue, rm: ResourceManager, err: Option<Conditions.Error>): ResourceValue {
    r.(status := Updated(r.status, rm, err))
  }

  method UpdateCopy(rm: ResourceManager, r1: ScalableTarget, err: Option<Conditions.Error>) returns (updated: bool)
    requires EntriesApart(r1.status.conditions)
    modifies r1.status, r1.status.metadata, Entries(r1.status.conditions)
    ensures r1.View() == Marked(old(r1.View()), rm, err)
    ensures r1.status.metadata == old(r1.status.metadata) || fresh(r1.status.metadata)
    ensures fresh(Entries(r1.status.conditions) - old(Entries(r1.status.conditions)))
    ensures updated <==> err.Some? || Tracked(ListIn(old(r1.View()).status))
    ensures r1.status.conditions.Some?
  {
    UpdatedMeaning(ListIn(r1.View().status), err);
    updated := UpdateConditions(rm, r1.status, err);
  }

  method CopyAndUpdate(rm: ResourceManager, r: ScalableTarget, err: Option<Conditions.Error>)
    returns (r1: ScalableTarget, updated: bool)
    ensures r1.View() == Marked(old(r.View()), rm, err)
    ensures fresh(r1) && OwnsNewMemory(r1)
    ensures updated <==> err.Some? || Tracked(ListIn(old(r.View()).status))
    ensures r1.status.conditions.Some?
  {
    r1 := r.DeepCopy();
    updated := UpdateCopy(rm, r1, err);
  }

  method HasTerminal(cs: seq<Condition>) returns (yes: bool)
    ensures yes <==> IsTrue(Views(cs), Terminal)
  {
    yes := false;
    for i := 0 to |cs|
      invariant forall j :: 0 <= j < i ==> !(cs[j].typ == Terminal && cs[j].status == True)
    {
      if cs[i].typ == Terminal && cs[i].status == True {
        assert Views(cs)[i].status == True;
        return true;
      }
    }
  }

  /** For an error the list is always updated, so the not-updated exit of the code is never taken. */
  method OnError(rm: ResourceManager, r: ScalableTarget?, e: Conditions.Error)
    returns (res: ScalableTarget?, out: Conditions.Error)
    ensures r == null ==> res == null && out == e
    ensures r != null ==> r.View() == old(r.View())
    ensures r != null ==>
      && res != null && fresh(res) && OwnsNewMemory(res)
      && res.View() == Marked(old(r.View()), rm, Some(e))
      && out == ErrorSeen(old(r.View()).status, e)
  {
    if r == null {
      return null, e;
    }
    var r1, updated := CopyAndUpdate(rm, r, Some(e));
    if !updated {
      assert false;
    }
    var terminal := HasTerminal(r1.status.conditions.value);
    if terminal {
      return r1, TERMINAL_ERROR;
    }
    return r1, e;
  }

  /** Success without any condition to report hands back the very resource it was given. */
  method OnSuccess(rm: ResourceManager, r: ScalableTarget?) returns (res: ScalableTarget?)
    ensures r == null ==> res == null
    ensures r != null ==> r.View() == old(r.View())
    ensures r != null ==>
      if Tracked(ListIn(old(r.View()).status))
      then res != null && fresh(res) && OwnsNewMemory(res) && res.View() == Marked(old(r.View()), rm, None)
      else res == r
  {
    if r == null {
      return null;
    }
    var r1, updated := CopyAndUpdate(rm, r, None);
    if !updated {
      return r;
    }
    return r1;
  }

  /** A defaulted Status is what an unreported success leaves. */
  lemma UnreportedSuccess(s: StatusValue, rm: ResourceManager)
    requires s == Defaulted(s, rm) && !Tracked(ListIn(s))
    ensures Updated(s, rm, None) == s
  {
  }

  // ----- ReadOne, Create, Update, Delete -----

  /** The error path of every operation: a new resource with the same Spec and the error in its conditions. */
  ghost predicate Failed(res: ResourceValue, was: ResourceValue, rm: ResourceManager, e: Conditions.Error,
                         err: Option<Conditions.Error>) {
    res == Marked(was, rm, Some(e)) && err == Some(ErrorSeen(was.status, e))
  }

  /** Success on what an operation has just made. */
  method Succeed(rm: ResourceManager, made: ScalableTarget) returns (res: ScalableTarget)
    requires made.View().status == Defaulted(made.View().status, rm)
    ensures res == made || (fresh(res) && OwnsNewMemory(res))
    ensures res.View() == Marked(old(made.View()), rm, None)
  {
    res := OnSuccess(rm, made);
    if res == made {
      UnreportedSuccess(old(made.View()).status, rm);
    }
  }

  /** An error goes onto what the operation made, or else onto the resource it was given. */
  method Fail(rm: ResourceManager, made: ScalableTarget?, given: ScalableTarget, e: Conditions.Error)
    returns (res: ScalableTarget, err: Option<Conditions.Error>)
    ensures given.View() == old(given.View())
    ensures fresh(res) && OwnsNewMemory(res)
    ensures Failed(res.View(), old(if made != null then made.View() else given.View()), rm, e, err)
  {
    var failed, out := OnError(rm, if made != null then made else given, e);
    return failed, Some(out);
  }

  /** How every operation ends. */
  method Conclude(rm: ResourceManager, made: ScalableTarget?, given: ScalableTarget, e: Option<Conditions.Error>)
    returns (res: ScalableTarget, err: Option<Conditions.Error>)
    requires e.None? ==> made != null && made.View().status == Defaulted(made.View().status, rm)
    ensures given.View() == old(given.View())
    ensures (e.None? && res == made) || (fresh(res) && OwnsNewMemory(res))
    ensures e.None? ==> err.None? && res.View() == Marked(old(made.View()), rm, None)
    ensures e.Some? ==> Failed(res.View(), old(if made != null then made.View() else given.View()), rm, e.value, err)
  {
    if e.Some? {
      res, err := Fail(rm, made, given, e.value);
      return;
    }
    res := Succeed(rm, made);
    err := None;
  }

  /** A find that worked, then `onSuccess`. */
  ghost predicate Read(res: ResourceValue, was: ResourceValue, rm: ResourceManager, elem: Wire.SdkTarget) {
    && TargetMeans(elem.settings, res.spec) && TargetCanonical(res.spec)
    && res.spec.roleRef == was.spec.roleRef
    && res.status == Updated(FoundStatus(was.status, rm, elem.creationTime, elem.scalableTargetARN), rm, None)
  }

  method ReadOne(rm: ResourceManager, api: Client, r: ScalableTarget)
    returns (res: ScalableTarget, err: Option<Conditions.Error>)
    ensures fresh(res) && OwnsNewMemory(res) && r.View() == old(r.View())
    ensures var was := old(r.View());
            match Observe(api, was.spec)
            case Err(e) => Failed(res.View(), was, rm, e, err)
            case Ok(elem) => err.None? && Read(res.View(), was, rm, elem)
  {
    var observed, e := SdkFind(rm, api, r);
    res, err := Conclude(rm, observed, r, e);
  }

  method Create(rm: ResourceManager, api: Client, desired: ScalableTarget)
    returns (res: ScalableTarget, err: Option<Conditions.Error>, ghost sent: Wire.SdkTargetSettings)
    ensures fresh(res) && OwnsNewMemory(res) && desired.View() == old(desired.View())
    ensures var was := old(desired.View());
            match Wire.FirstMisfit(TargetInts(was.spec))
            case Some(f) => Failed(res.View(), was, rm, RangeError(f), err)
            case None =>
              TargetMeans(sent, was.spec) &&
              match api.register(sent)
              case Err(e) => Failed(res.View(), was, rm, e, err)
              case Ok(arn) =>
                err.None? && res.View() == Marked(was.(status := PutStatus(was.status, rm, arn)), rm, None)
  {
    var created, e;
    created, e, sent := SdkCreate(rm, api, desired);
    res, err := Conclude(rm, created, desired, e);
  }

  method ConcludeUpdate(rm: ResourceManager, updated: ScalableTarget?, desired: ScalableTarget, latest: ScalableTarget,
                        e: Option<Conditions.Error>)
    returns (res: ScalableTarget, err: Option<Conditions.Error>)
    requires e.None? ==> updated != null && updated.View().status == Defaulted(updated.View().status, rm)
    ensures desired.View() == old(desired.View()) && latest.View() == old(latest.View())
    ensures (e.None? && res == updated) || (fresh(res) && OwnsNewMemory(res))
    ensures e.None? ==> err.None? && res.View() == Marked(old(updated.View()), rm, None)
    ensures e.Some? ==>
      Failed(res.View(), old(if updated != null then updated.View() else latest.View()), rm, e.value, err)
  {
    if e.Some? {
      res, err := Fail(rm, updated, latest, e.value);
      return;
    }
    res := Succeed(rm, updated);
    err := None;
  }

  /** On failure the error goes onto `latest`, not onto `desired`. */
  method Update(rm: ResourceManager, api: Client, desired: ScalableTarget, latest: ScalableTarget,
                delta: Deltas.Delta, now: int)
    returns (res: ScalableTarget, err: Option<Conditions.Error>, ghost sent: Wire.SdkTargetSettings)
    ensures fresh(res) && OwnsNewMemory(res)
    ensures desired.View() == old(desired.View()) && latest.View() == old(latest.View())
    ensures var was, seen := old(desired.View()), old(latest.View());
            match Wire.FirstMisfit(TargetInts(was.spec))
            case Some(f) => Failed(res.View(), seen, rm, RangeError(f), err)
            case None =>
              TargetMeans(sent, was.spec) &&
              match api.register(sent)
              case Err(e) => Failed(res.View(), seen, rm, e, err)
              case Ok(arn) =>
                var put := was.(status := PutStatus(was.status, rm, arn).(lastModifiedTime := Some(now)));
                err.None? && res.View() == Marked(put, rm, None)
  {
    var updated, e;
    updated, e, sent := SdkUpdate(rm, api, desired, latest, delta, now);
    res, err := ConcludeUpdate(rm, updated, desired, latest, e);
  }

  /** A successful delete returns no resource. */
  method Delete(rm: ResourceManager, api: Client, r: ScalableTarget)
    returns (res: ScalableTarget?, err: Option<Conditions.Error>)
    ensures r.View() == old(r.View())
    ensures match api.deregister(KeyFor(old(r.View()).spec))
            case None => res == null && err.None?
            case Some(e) =>
              res != null && fresh(res) && OwnsNewMemory(res) && Failed(res.View(), old(r.View()), rm, e, err)
  {
    var e := SdkDelete(api, r);
    if e.Some? {
      var failed, out := OnError(rm, r, e.value);
      return failed, Some(out);
    }
    res := OnSuccess(rm, null);
    err := None;
  }

  // ----- Late initialization -----

  /** The latest Spec with RoleARN taken from the observed one where the user gave none. */
  ghost function LateSpec(latest: TargetValue, observed: Option<string>): TargetValue {
    if latest.roleARN.None? then latest.(roleARN := observed) else latest
  }

  method LateInitializeFromReadOneOutput(observed: ScalableTarget, latest: ScalableTarget) returns (res: ScalableTarget)
    ensures fresh(res) && OwnsNewMemory(res) && EntriesApart(res.status.conditions)
    ensures var was := old(latest.View());
            res.View() == was.(spec := LateSpec(was.spec, old(observed.View()).spec.roleARN))
  {
    var observedKo := observed.DeepCopy();
    var observedRole := observedKo.spec.roleARN;
    assert Deref(observedRole) == old(observed.View()).spec.roleARN;
    var latestKo := CopyLatest(latest, old(latest.View()));
    FillRole(latestKo, observedRole);
    res := latestKo;
  }

  method CopyLatest(latest: ScalableTarget, ghost v: ResourceValue) returns (latestKo: ScalableTarget)
    requires latest.View() == v
    ensures fresh(latestKo) && OwnsNewMemory(latestKo) && EntriesApart(latestKo.status.conditions)
    ensures latestKo.View() == v
  {
    latestKo := latest.DeepCopy();
  }

  method FillRole(latestKo: ScalableTarget, observed: Ref?<string>)
    modifies latestKo.spec`roleARN
    ensures latestKo.View() == old(latestKo.View()).(spec := LateSpec(old(latestKo.spec.View()), Deref(observed)))
  {
    if observed != null && latestKo.spec.roleARN == null {
      latestKo.spec.roleARN := observed;
    }
  }

  method IncompleteLateInitialization(res: ScalableTarget) returns (incomplete: bool)
    ensures incomplete <==> old(res.View()).spec.roleARN.None?
  {
    var ko := res.DeepCopy();
    incomplete := ko.spec.roleARN == null;
  }

  ghost function LateFailed(cs: seq<ConditionValue>, reason: string, message: string): seq<ConditionValue> {
    Put(Put(cs, ConditionValue(LateInitialized, False, Some(message), Some(reason))),
        ConditionValue(ResourceSynced, False, None, None))
  }

  ghost function LateDone(cs: seq<ConditionValue>): seq<ConditionValue> {
    Put(cs, ConditionValue(LateInitialized, True, Some(INITIALIZED), Some(INITIALIZED)))
  }

  /** Every failure reads LateInitialized False, Synced False; success LateInitialized True, and Synced as it was. */
  lemma LateOutcomes(cs: seq<ConditionValue>, reason: string, message: string)
    ensures var ds := LateFailed(cs, reason, message);
            FirstOf(ds, LateInitialized).Some?
            && ds[FirstOf(ds, LateInitialized).value]
               == ConditionValue(LateInitialized, False, Some(message), Some(reason))
    ensures Shows(LateFailed(cs, reason, message), LateInitialized, False)
    ensures Shows(LateFailed(cs, reason, message), ResourceSynced, False)
    ensures Shows(LateDone(cs), LateInitialized, True)
    ensures forall t :: Shows(LateDone(cs), ResourceSynced, t) <==> Shows(cs, ResourceSynced, t)
  {
    var mid := Put(cs, ConditionValue(LateInitialized, False, Some(message), Some(reason)));
    PutMeaning(cs, ConditionValue(LateInitialized, False, Some(message), Some(reason)));
    PutMeaning(mid, ConditionValue(ResourceSynced, False, None, None));
    PutMeaning(cs, ConditionValue(LateInitialized, True, Some(INITIALIZED), Some(INITIALIZED)));
    var k := FirstOf(mid, LateInitialized).value;
    FirstOfIs(LateFailed(cs, reason, message), LateInitialized, k);
    if FirstOf(cs, ResourceSynced).Some? {
      FirstOfIs(LateDone(cs), ResourceSynced, FirstOf(cs, ResourceSynced).value);
    }
  }

  method SetFailed(st: Status, reason: string, message: string)
    requires EntriesApart(st.conditions)
    modifies st`conditions, Entries(st.conditions)
    ensures st.View() == old(st.View()).(conditions := Some(LateFailed(ListIn(old(st.View())), reason, message)))
    ensures fresh(Entries(st.conditions) - old(Entries(st.conditions)))
  {
    SetCondition(st, LateInitialized, False, Some(message), Some(reason));
    SetCondition(st, ResourceSynced, False, None, None);
  }

  method FailLateInitialization(r: ScalableTarget, reason: string, message: string)
    requires EntriesApart(r.status.conditions)
    modifies r.status`conditions, Entries(r.status.conditions)
    ensures var was := old(r.View());
            r.View() == was.(status := was.status.(conditions := Some(LateFailed(ListIn(was.status), reason, message))))
    ensures fresh(Entries(r.status.conditions) - old(Entries(r.status.conditions)))
  {
    SetFailed(r.status, reason, message);
  }

  /** The status after a read that did not work. */
  ghost function UnreadStatus(st: StatusValue): StatusValue {
    st.(conditions := Some(LateFailed(ListIn(st), FAILURE, UNREAD)))
  }

  method FailRead(r: ScalableTarget)
    requires EntriesApart(r.status.conditions)
    modifies r.status`conditions, Entries(r.status.conditions)
    ensures r.View() == old(r.View()).(status := UnreadStatus(old(r.View()).status))
    ensures fresh(Entries(r.status.conditions) - old(Entries(r.status.conditions)))
  {
    FailLateInitialization(r, FAILURE, UNREAD);
  }

  method CompleteLateInitialization(r: ScalableTarget)
    requires EntriesApart(r.status.conditions)
    modifies r.status`conditions, Entries(r.status.conditions)
    ensures var was := old(r.View());
            r.View() == was.(status := was.status.(conditions := Some(LateDone(ListIn(was.status)))))
    ensures fresh(Entries(r.status.conditions) - old(Entries(r.status.conditions)))
  {
    SetCondition(r.status, LateInitialized, True, Some(INITIALIZED), Some(INITIALIZED));
  }

  /** The status after a read that worked, with or without a RoleARN to show for it. */
  ghost function InitializedStatus(st: StatusValue, incomplete: bool): StatusValue {
    var cs := ListIn(st);
    st.(conditions := Some(if incomplete then LateFailed(cs, DELAYED, INCOMPLETE) else LateDone(cs)))
  }

  /** The end of late initialization, once the read has worked. */
  method FinishLateInitialization(r: ScalableTarget, ghost own: set<Condition>)
    returns (err: Option<Conditions.Error>)
    requires EntriesApart(r.status.conditions) && Entries(r.status.conditions) == own
    modifies r.status`conditions, own
    ensures err == if old(r.View()).spec.roleARN.None? then Some(REQUEUE) else None
    ensures r.View() == old(r.View()).(status := InitializedStatus(old(r.View()).status, err.Some?))
    ensures forall c :: c in Entries(r.status.conditions) ==> c in own || fresh(c)
  {
    var incomplete := IncompleteLateInitialization(r);
    if incomplete {
      FailLateInitialization(r, DELAYED, INCOMPLETE);
      return Some(REQUEUE);
    }
    CompleteLateInitialization(r);
    return None;
  }

  method InitializeFrom(observed: ScalableTarget, latest: ScalableTarget)
    returns (res: ScalableTarget, err: Option<Conditions.Error>)
    ensures fresh(res) && OwnsNewMemory(res)
    ensures var was := old(latest.View());
            && res.View().spec == LateSpec(was.spec, old(observed.View()).spec.roleARN)
            && err == (if res.View().spec.roleARN.None? then Some(REQUEUE) else None)
            && res.View().status == InitializedStatus(was.status, err.Some?)
  {
    res := LateInitializeFromReadOneOutput(observed, latest);
    err := FinishLateInitialization(res, Entries(res.status.conditions));
  }

  /** The read of late initialization works on a copy and keeps only what it learnt. */
  method ReadForLateInitialization(rm: ResourceManager, api: Client, latestCopy: ScalableTarget, ghost v: ResourceValue)
    returns (observed: ScalableTarget, err: Option<Conditions.Error>)
    requires latestCopy.View() == v
    ensures latestCopy.View() == v && fresh(observed)
    ensures match Observe(api, v.spec)
            case Err(e) => err == Some(ErrorSeen(v.status, e))
            case Ok(elem) => err.None? && observed.View().spec.roleARN == elem.settings.roleARN
  {
    observed, err := ReadOne(rm, api, latestCopy);
  }

  /** What late initialization comes to. */
  ghost predicate LateResult(res: ResourceValue, was: ResourceValue, api: Client, err: Option<Conditions.Error>) {
    match Observe(api, was.spec)
    case Err(e) =>
      err == Some(ErrorSeen(was.status, e)) && res == was.(status := UnreadStatus(was.status))
    case Ok(elem) =>
      && res.spec == LateSpec(was.spec, elem.settings.roleARN)
      && err == (if res.spec.roleARN.None? then Some(REQUEUE) else None)
      && res.status == InitializedStatus(was.status, err.Some?)
  }

  /** What the user reads off the result. */
  lemma LateMeaning(res: ResourceValue, was: ResourceValue, api: Client, err: Option<Conditions.Error>)
    requires LateResult(res, was, api, err)
    ensures res.status == was.status.(conditions := res.status.conditions)
    ensures err.None? ==>
      && Shows(ListIn(res.status), LateInitialized, True)
      && forall t :: Shows(ListIn(res.status), ResourceSynced, t) <==> Shows(ListIn(was.status), ResourceSynced, t)
    ensures err.Some? ==>
      Shows(ListIn(res.status), LateInitialized, False) && Shows(ListIn(res.status), ResourceSynced, False)
  {
    LateOutcomes(ListIn(was.status), FAILURE, UNREAD);
    LateOutcomes(ListIn(was.status), DELAYED, INCOMPLETE);
  }

  method LateInitializeCopy(rm: ResourceManager, api: Client, latestCopy: ScalableTarget, ghost v: ResourceValue,
                            ghost own: set<Condition>)
    returns (res: ScalableTarget, err: Option<Conditions.Error>)
    requires latestCopy.View() == v && EntriesApart(latestCopy.status.conditions)
    requires Entries(latestCopy.status.conditions) == own
    modifies latestCopy.status`conditions, own
    ensures LateResult(res.View(), v, api, err)
    ensures res == latestCopy || (fresh(res) && OwnsNewMemory(res))
    ensures forall c :: c in Entries(res.status.conditions) ==> c in own || fresh(c)
  {
    var observed, e := ReadForLateInitialization(rm, api, latestCopy, v);
    if e.Some? {
      FailRead(latestCopy);
      return latestCopy, e;
    }
    res, err := InitializeFrom(observed, latestCopy);
  }

  /**
   * Without error, the returned Spec is the given one with RoleARN set, and LateInitialized is True. On any
   * error LateInitialized and Synced are False. The conditions of the read itself are dropped either way.
   */
  method LateInitialize(rm: ResourceManager, api: Client, latest: ScalableTarget)
    returns (res: ScalableTarget, err: Option<Conditions.Error>)
    ensures fresh(res) && OwnsNewMemory(res)
    ensures LateResult(res.View(), old(latest.View()), api, err)
    ensures var was, now := old(latest.View()), res.View();
            && (was.spec.roleARN.Some? ==> now.spec == was.spec)
            && (was.spec.roleARN.None? ==>
                  now.spec == was.spec.(roleARN := if Observe(api, was.spec).Ok?
                                                   then Observe(api, was.spec).value.settings.roleARN else None))
            && (err.None? <==> Observe(api, was.spec).Ok? && now.spec.roleARN.Some?)
            && (Observe(api, was.spec).Ok? && err.Some? ==> err.value.kind.RequeueNeeded?)
    ensures var was, now := old(latest.View()).status, res.View().status;
            && now == was.(conditions := now.conditions)
            && (err.None? ==>
                  && Shows(ListIn(now), LateInitialized, True)
                  && forall t :: Shows(ListIn(now), ResourceSynced, t) <==> Shows(ListIn(was), ResourceSynced, t))
            && (err.Some? ==>
                  Shows(ListIn(now), LateInitialized, False) && Shows(ListIn(now), ResourceSynced, False))
  {
    ghost var v := latest.View();
    var latestCopy := CopyLatest(latest, v);
    res, err := LateInitializeCopy(rm, api, latestCopy, v, Entries(latestCopy.status.conditions));
    LateMeaning(res.View(), v, api, err);
  }
}
