/** What a resource's Status comes to over whole runs of operations, failed ones included. */
module Lifetimes {
  import opened Pointers
  import opened Statuses
  import opened StatusOps
  import opened AckConditions
  import Conditions

  /** One operation on the returned resource, conditions included, and the clock when it runs. */
  datatype Event =
    | WasRead(at: int, created: Option<int>, arn: Option<string>)
    | WasUpdated(at: int, arn: Option<string>)
    | HasFailed(at: int, error: Error)

  ghost function After(s: StatusValue, rm: ResourceManager, e: Event): StatusValue {
    match e
    case WasRead(_, created, arn) => Conditions.Updated(FoundStatus(s, rm, created, arn), rm, None)
    case WasUpdated(now, arn) => Conditions.Updated(PutStatus(s, rm, arn).(lastModifiedTime := Some(now)), rm, None)
    case HasFailed(_, error) => Conditions.Updated(s, rm, Some(error))
  }

  ghost function AfterRun(s: StatusValue, rm: ResourceManager, es: seq<Event>): StatusValue {
    if es == [] then s else After(AfterRun(s, rm, es[..|es| - 1]), rm, es[|es| - 1])
  }

  /** The clock never runs backwards, and nothing is created later than it is read. */
  ghost predicate Timely(es: seq<Event>) {
    && (forall i, j :: 0 <= i < j < |es| ==> es[i].at <= es[j].at)
    && (forall i :: 0 <= i < |es| && es[i].WasRead? && es[i].created.Some? ==> es[i].created.value <= es[i].at)
  }

  ghost predicate NotAfter(t: Option<int>, now: int) {
    t.Some? ==> t.value <= now
  }

  /** One step: the time stays in the past, and a set time neither vanishes nor moves back. */
  lemma ModifiedStep(s: StatusValue, rm: ResourceManager, e: Event)
    requires NotAfter(s.lastModifiedTime, e.at) && (e.WasRead? ==> NotAfter(e.created, e.at))
    ensures var was, now := s.lastModifiedTime, After(s, rm, e).lastModifiedTime;
            NotAfter(now, e.at) && (was.Some? ==> now.Some? && was.value <= now.value)
  {
  }

  lemma {:induction false} ModifiedInPast(s: StatusValue, rm: ResourceManager, es: seq<Event>)
    requires Timely(es) && es != [] && NotAfter(s.lastModifiedTime, es[0].at)
    ensures NotAfter(AfterRun(s, rm, es).lastModifiedTime, es[|es| - 1].at)
  {
    var before, last := es[..|es| - 1], es[|es| - 1];
    if before != [] {
      ModifiedInPast(s, rm, before);
    }
    ModifiedStep(AfterRun(s, rm, before), rm, last);
  }

  /** Once set, LastModifiedTime is never cleared and never moves back, between any two points of the run. */
  lemma {:induction false} ModifiedGrows(s: StatusValue, rm: ResourceManager, es: seq<Event>, k: nat)
    requires Timely(es) && k <= |es| && (es != [] ==> NotAfter(s.lastModifiedTime, es[0].at))
    requires AfterRun(s, rm, es[..k]).lastModifiedTime.Some?
    ensures AfterRun(s, rm, es).lastModifiedTime.Some?
    ensures AfterRun(s, rm, es[..k]).lastModifiedTime.value <= AfterRun(s, rm, es).lastModifiedTime.value
    decreases |es|
  {
    if k == |es| {
      assert es[..k] == es;
    } else {
      var before, last := es[..|es| - 1], es[|es| - 1];
      assert before[..k] == es[..k];
      ModifiedGrows(s, rm, before, k);
      if before != [] {
        ModifiedInPast(s, rm, before);
      }
      ModifiedStep(AfterRun(s, rm, before), rm, last);
    }
  }

  /** A read leaves a set LastModifiedTime alone, and otherwise copies the creation time it has just read. */
  lemma ReadKeepsModified(s: StatusValue, rm: ResourceManager, es: seq<Event>, e: Event)
    requires e.WasRead?
    ensures var was, now := AfterRun(s, rm, es).lastModifiedTime, AfterRun(s, rm, es + [e]).lastModifiedTime;
            now == if was.Some? then was else e.created
  {
  }

  // ----- Conditions -----

  function Outcome(e: Event): Option<Error> {
    if e.HasFailed? then Some(e.error) else None
  }

  function Outcomes(es: seq<Event>): seq<Option<Error>> {
    seq(|es|, i requires 0 <= i < |es| => Outcome(es[i]))
  }

  lemma AfterList(s: StatusValue, rm: ResourceManager, e: Event)
    ensures ListIn(After(s, rm, e)) == Conditions.Next(ListIn(s), Outcome(e))
  {
  }

  /** The condition list after any run of operations is the list after the run of their outcomes. */
  lemma {:induction false} AfterRunList(s: StatusValue, rm: ResourceManager, es: seq<Event>)
    ensures ListIn(AfterRun(s, rm, es)) == Conditions.Run(ListIn(s), Outcomes(es))
  {
    if es != [] {
      var before := es[..|es| - 1];
      AfterRunList(s, rm, before);
      AfterList(AfterRun(s, rm, before), rm, es[|es| - 1]);
      assert Outcomes(es)[..|es| - 1] == Outcomes(before);
    }
  }
}
