/** Comparing two ScalableTarget resources, after filling in what the user left to the server. */
module TargetDelta {
  import opened Pointers
  import opened TargetApi
  import opened Deltas

  datatype TargetLeaf = Str(s: string) | Int(i: int64) | Flag(b: bool) | Reference(r: Option<RoleValue>)

  type TargetNode = Node<TargetLeaf>

  // ----- Server-side defaults -----

  ghost function OrElse<T>(a: Option<T>, b: Option<T>): Option<T> {
    if a.None? then b else a
  }

  /** The user's suspension wishes, completed from the latest observed state. */
  ghost function Fill(a: Option<SuspendedValue>, b: Option<SuspendedValue>): Option<SuspendedValue> {
    if b.None? then a
    else
      var v := if a.None? then SuspendedValue(None, None, None) else a.value;
      Some(SuspendedValue(OrElse(v.dynamicIn, b.value.dynamicIn), OrElse(v.dynamicOut, b.value.dynamicOut),
                          OrElse(v.scheduled, b.value.scheduled)))
  }

  ghost function Defaults(a: TargetValue, b: TargetValue): TargetValue {
    a.(suspendedState := Fill(a.suspendedState, b.suspendedState))
  }

  /** The rewriting itself, on the two Specs. */
  method FillSuspended(a: ScalableTargetSpec, b: ScalableTargetSpec)
    modifies a`suspendedState, a.suspendedState
    ensures SuspendedView(a.suspendedState)
            == Fill(old(SuspendedView(a.suspendedState)), old(SuspendedView(b.suspendedState)))
    ensures SuspendedView(b.suspendedState) == old(SuspendedView(b.suspendedState))
    ensures a.suspendedState == old(a.suspendedState) || fresh(a.suspendedState)
  {
    if a.suspendedState == null && b.suspendedState != null {
      a.suspendedState := new SuspendedState();
    }
    if a.suspendedState != null && b.suspendedState != null {
      if a.suspendedState.dynamicIn == null && b.suspendedState.dynamicIn != null {
        a.suspendedState.dynamicIn := b.suspendedState.dynamicIn;
      }
      if a.suspendedState.dynamicOut == null && b.suspendedState.dynamicOut != null {
        a.suspendedState.dynamicOut := b.suspendedState.dynamicOut;
      }
      if a.suspendedState.scheduled == null && b.suspendedState.scheduled != null {
        a.suspendedState.scheduled := b.suspendedState.scheduled;
      }
    }
  }

  /**
   * Rewrites `a` in place and shares `b`'s cells; `b` never changes, even when the two resources share
   * their Spec or their SuspendedState.
   */
  method CustomSetDefaults(a: ScalableTarget, b: ScalableTarget)
    modifies a.spec`suspendedState, a.spec.suspendedState
    ensures a.spec.View() == Defaults(old(a.spec.View()), old(b.spec.View()))
    ensures var was, seen, now := old(a.spec.View()), old(b.spec.View()).suspendedState, a.spec.View();
            && now == was.(suspendedState := now.suspendedState)
            && (seen.None? ==> now == was)
            && (seen.Some? ==>
                  && now.suspendedState.Some?
                  && (if was.suspendedState.None? then now.suspendedState == seen
                      else
                        var x, y, z := was.suspendedState.value, seen.value, now.suspendedState.value;
                        && z.dynamicIn == (if x.dynamicIn.Some? then x.dynamicIn else y.dynamicIn)
                        && z.dynamicOut == (if x.dynamicOut.Some? then x.dynamicOut else y.dynamicOut)
                        && z.scheduled == (if x.scheduled.Some? then x.scheduled else y.scheduled)))
    ensures b.spec.View() == old(b.spec.View())
    ensures a.spec.suspendedState == old(a.spec.suspendedState) || fresh(a.spec.suspendedState)
  {
    FillSuspended(a.spec, b.spec);
  }

  // ----- A Spec as a tree -----

  ghost function StrNode(reading: NilReading, s: Option<string>): TargetNode {
    match ReadString(reading, s) case None => Absent case Some(x) => Leaf(Str(x))
  }

  ghost function IntNode(i: Option<int64>): TargetNode {
    match i case None => Absent case Some(x) => Leaf(Int(x))
  }

  ghost function FlagNode(b: Option<bool>): TargetNode {
    match b case None => Absent case Some(x) => Leaf(Flag(x))
  }

  ghost function SpecNode(reading: NilReading, v: TargetValue, field: Field): TargetNode {
    match field
    case MaxCapacity => IntNode(v.maxCapacity)
    case MinCapacity => IntNode(v.minCapacity)
    case ResourceID => StrNode(reading, v.resourceID)
    case RoleARN => StrNode(reading, v.roleARN)
    case RoleRef => Leaf(Reference(v.roleRef))
    case ScalableDimension => StrNode(reading, v.scalableDimension)
    case ServiceNamespace => StrNode(reading, v.serviceNamespace)
    case SuspendedState => if v.suspendedState.None? then Absent else Group
    case _ => Absent
  }

  ghost function SuspendedNode(v: SuspendedValue, field: Field): TargetNode {
    match field
    case DynamicScalingInSuspended => FlagNode(v.dynamicIn)
    case DynamicScalingOutSuspended => FlagNode(v.dynamicOut)
    case ScheduledScalingSuspended => FlagNode(v.scheduled)
    case _ => Absent
  }

  ghost function NodeAt(reading: NilReading, v: TargetValue, p: Path): TargetNode {
    if |p| == 0 || p[0] != Spec then Absent
    else if |p| == 1 then Group
    else if |p| == 2 then SpecNode(reading, v, p[1])
    else if |p| == 3 && p[1] == SuspendedState && v.suspendedState.Some? then
      SuspendedNode(v.suspendedState.value, p[2])
    else Absent
  }

  ghost function TargetTree(reading: NilReading, v: TargetValue): Tree<TargetLeaf> {
    p => NodeAt(reading, v, p)
  }

  const SPEC: Path := [Spec]
  const SUSPENDED: Path := Under(SPEC, SuspendedState)
  const CAPACITY_FIELDS := [MaxCapacity, MinCapacity]
  const NAME_FIELDS := [ResourceID, RoleARN, RoleRef, ScalableDimension, ServiceNamespace]
  const SUSPENDED_FIELDS := [DynamicScalingInSuspended, DynamicScalingOutSuspended, ScheduledScalingSuspended]
  const SUSPENDED_SECTION: seq<Path> := Members(SPEC, [SuspendedState]) + Members(SUSPENDED, SUSPENDED_FIELDS)

  /** Every path the comparison may record, in the order in which it looks. */
  const TARGET_SCHEMA: seq<Path> := Members(SPEC, CAPACITY_FIELDS) + Members(SPEC, NAME_FIELDS) + SUSPENDED_SECTION

  /** The paths recorded for a desired and a latest Spec. */
  ghost function Differences(reading: NilReading, a: TargetValue, b: TargetValue): seq<Path> {
    Recorded(TARGET_SCHEMA, TargetTree(reading, Defaults(a, b)), TargetTree(reading, b))
  }

  // ----- The comparison -----

  method VisitString(delta: Delta, reading: NilReading, p: Path, a: Ref?<string>, b: Ref?<string>,
                     ghost f: Tree<TargetLeaf>, ghost g: Tree<TargetLeaf>)
    requires f(p) == StrNode(reading, Deref(a)) && g(p) == StrNode(reading, Deref(b))
    modifies delta
    ensures delta.paths == old(delta.paths) + One(p, f, g)
  {
    CompareString(delta, reading, p, a, b);
  }

  method VisitField<T(==)>(delta: Delta, p: Path, a: Ref?<T>, b: Ref?<T>,
                           ghost f: Tree<TargetLeaf>, ghost g: Tree<TargetLeaf>)
    requires f(p) == g(p) <==> Deref(a) == Deref(b)
    modifies delta
    ensures delta.paths == old(delta.paths) + One(p, f, g)
  {
    CompareField(delta, p, a, b);
  }

  ghost predicate CapacitiesShow(f: Tree<TargetLeaf>, v: TargetValue) {
    && f(Under(SPEC, MaxCapacity)) == IntNode(v.maxCapacity)
    && f(Under(SPEC, MinCapacity)) == IntNode(v.minCapacity)
  }

  ghost predicate NamesShow(reading: NilReading, f: Tree<TargetLeaf>, v: TargetValue) {
    && f(Under(SPEC, ResourceID)) == StrNode(reading, v.resourceID)
    && f(Under(SPEC, RoleARN)) == StrNode(reading, v.roleARN)
    && f(Under(SPEC, RoleRef)) == Leaf(Reference(v.roleRef))
    && f(Under(SPEC, ScalableDimension)) == StrNode(reading, v.scalableDimension)
    && f(Under(SPEC, ServiceNamespace)) == StrNode(reading, v.serviceNamespace)
  }

  ghost predicate SuspendedShows(f: Tree<TargetLeaf>, v: Option<SuspendedValue>) {
    && f(SUSPENDED) == (if v.None? then Absent else Group)
    && f(Under(SUSPENDED, DynamicScalingInSuspended)) == (if v.None? then Absent else FlagNode(v.value.dynamicIn))
    && f(Under(SUSPENDED, DynamicScalingOutSuspended)) == (if v.None? then Absent else FlagNode(v.value.dynamicOut))
    && f(Under(SUSPENDED, ScheduledScalingSuspended)) == (if v.None? then Absent else FlagNode(v.value.scheduled))
  }

  lemma SpecAt(reading: NilReading, v: TargetValue, m: Field)
    ensures TargetTree(reading, v)(Under(SPEC, m)) == SpecNode(reading, v, m)
  {
  }

  lemma SuspendedAt(reading: NilReading, v: TargetValue, m: Field)
    ensures TargetTree(reading, v)(Under(SUSPENDED, m))
            == if v.suspendedState.None? then Absent else SuspendedNode(v.suspendedState.value, m)
  {
  }

  lemma TreeShowsCapacities(reading: NilReading, v: TargetValue)
    ensures CapacitiesShow(TargetTree(reading, v), v)
  {
  }

  lemma TreeShowsNames(reading: NilReading, v: TargetValue)
    ensures NamesShow(reading, TargetTree(reading, v), v)
  {
  }

  lemma TreeShowsSuspended(reading: NilReading, v: TargetValue)
    ensures SuspendedShows(TargetTree(reading, v), v.suspendedState)
  {
  }

  lemma TreeShows(reading: NilReading, v: TargetValue)
    ensures CapacitiesShow(TargetTree(reading, v), v) && NamesShow(reading, TargetTree(reading, v), v)
    ensures SuspendedShows(TargetTree(reading, v), v.suspendedState)
  {
    TreeShowsCapacities(reading, v);
    TreeShowsNames(reading, v);
    TreeShowsSuspended(reading, v);
  }

  lemma SpecAgrees(reading: NilReading, v: TargetValue, u: TargetValue)
    ensures Agree(TargetTree(reading, v), TargetTree(reading, u), SPEC)
  {
  }

  method CompareCapacities(delta: Delta, a: ScalableTargetSpec, b: ScalableTargetSpec,
                           ghost f: Tree<TargetLeaf>, ghost g: Tree<TargetLeaf>)
    requires Agree(f, g, SPEC)
    requires CapacitiesShow(f, a.View()) && CapacitiesShow(g, b.View())
    modifies delta
    ensures delta.paths == old(delta.paths) + Recorded(Members(SPEC, CAPACITY_FIELDS), f, g)
  {
    VisitField(delta, Under(SPEC, MaxCapacity), a.maxCapacity, b.maxCapacity, f, g);
    VisitField(delta, Under(SPEC, MinCapacity), a.minCapacity, b.minCapacity, f, g);
    RecordTwo(old(delta.paths), SPEC, MaxCapacity, MinCapacity, f, g);
  }

  /** The semantic comparison of the two references. */
  predicate SameRole(a: RoleReference?, b: RoleReference?)
    reads a, FromOf(a), b, FromOf(b)
    ensures SameRole(a, b) <==> RoleView(a) == RoleView(b)
  {
    if a == null || b == null then a == null && b == null
    else if a.from == null || b.from == null then a.from == null && b.from == null
    else Deref(a.from.name) == Deref(b.from.name) && Deref(a.from.namespace) == Deref(b.from.namespace)
  }

  method CompareRole(delta: Delta, a: RoleReference?, b: RoleReference?)
    modifies delta
    ensures delta.paths == old(delta.paths) + (if old(RoleView(a) != RoleView(b)) then [Under(SPEC, RoleRef)] else [])
  {
    if !SameRole(a, b) {
      delta.Add(Under(SPEC, RoleRef));
    }
  }

  /** The resource and its role, given as an ARN or as a reference. */
  method CompareRoles(delta: Delta, reading: NilReading, a: ScalableTargetSpec, b: ScalableTargetSpec,
                      ghost f: Tree<TargetLeaf>, ghost g: Tree<TargetLeaf>)
    requires f(Under(SPEC, ResourceID)) == StrNode(reading, Deref(a.resourceID))
    requires g(Under(SPEC, ResourceID)) == StrNode(reading, Deref(b.resourceID))
    requires f(Under(SPEC, RoleARN)) == StrNode(reading, Deref(a.roleARN))
    requires g(Under(SPEC, RoleARN)) == StrNode(reading, Deref(b.roleARN))
    requires f(Under(SPEC, RoleRef)) == Leaf(Reference(RoleView(a.roleRef)))
    requires g(Under(SPEC, RoleRef)) == Leaf(Reference(RoleView(b.roleRef)))
    modifies delta
    ensures delta.paths == old(delta.paths) + One(Under(SPEC, ResourceID), f, g) + One(Under(SPEC, RoleARN), f, g)
                           + One(Under(SPEC, RoleRef), f, g)
  {
    VisitString(delta, reading, Under(SPEC, ResourceID), a.resourceID, b.resourceID, f, g);
    VisitString(delta, reading, Under(SPEC, RoleARN), a.roleARN, b.roleARN, f, g);
    CompareRole(delta, a.roleRef, b.roleRef);
  }

  method CompareNames(delta: Delta, reading: NilReading, a: ScalableTargetSpec, b: ScalableTargetSpec,
                      ghost f: Tree<TargetLeaf>, ghost g: Tree<TargetLeaf>)
    requires Agree(f, g, SPEC)
    requires NamesShow(reading, f, a.View()) && NamesShow(reading, g, b.View())
    modifies delta
    ensures delta.paths == old(delta.paths) + Recorded(Members(SPEC, NAME_FIELDS), f, g)
  {
    CompareRoles(delta, reading, a, b, f, g);
    VisitString(delta, reading, Under(SPEC, ScalableDimension), a.scalableDimension, b.scalableDimension, f, g);
    VisitString(delta, reading, Under(SPEC, ServiceNamespace), a.serviceNamespace, b.serviceNamespace, f, g);
    RecordFive(old(delta.paths), SPEC, ResourceID, RoleARN, RoleRef, ScalableDimension, ServiceNamespace, f, g);
  }

  method CompareSuspended(delta: Delta, a: SuspendedState?, b: SuspendedState?,
                          ghost f: Tree<TargetLeaf>, ghost g: Tree<TargetLeaf>)
    requires Agree(f, g, SPEC)
    requires SuspendedShows(f, SuspendedView(a)) && SuspendedShows(g, SuspendedView(b))
    modifies delta
    ensures delta.paths == old(delta.paths) + Recorded(SUSPENDED_SECTION, f, g)
  {
    RecordGroup(SPEC, SuspendedState, Members(SUSPENDED, SUSPENDED_FIELDS), f, g);
    if (a == null) != (b == null) {
      delta.Add(SUSPENDED);
    } else if a != null && b != null {
      VisitField(delta, Under(SUSPENDED, DynamicScalingInSuspended), a.dynamicIn, b.dynamicIn, f, g);
      VisitField(delta, Under(SUSPENDED, DynamicScalingOutSuspended), a.dynamicOut, b.dynamicOut, f, g);
      VisitField(delta, Under(SUSPENDED, ScheduledScalingSuspended), a.scheduled, b.scheduled, f, g);
      RecordThree(old(delta.paths), SUSPENDED,
                  DynamicScalingInSuspended, DynamicScalingOutSuspended, ScheduledScalingSuspended, f, g);
    } else {
      RecordedNone(Members(SUSPENDED, SUSPENDED_FIELDS), f, g);
    }
  }

  lemma SchemaSplit(f: Tree<TargetLeaf>, g: Tree<TargetLeaf>)
    ensures Recorded(TARGET_SCHEMA, f, g)
            == [] + Recorded(Members(SPEC, CAPACITY_FIELDS), f, g) + Recorded(Members(SPEC, NAME_FIELDS), f, g)
               + Recorded(SUSPENDED_SECTION, f, g)
  {
    RecordedAppend(Members(SPEC, CAPACITY_FIELDS) + Members(SPEC, NAME_FIELDS), SUSPENDED_SECTION, f, g);
    RecordedAppend(Members(SPEC, CAPACITY_FIELDS), Members(SPEC, NAME_FIELDS), f, g);
    assert [] + Recorded(Members(SPEC, CAPACITY_FIELDS), f, g) == Recorded(Members(SPEC, CAPACITY_FIELDS), f, g);
  }

  // The three parts of the comparison, each on the trees of the two Specs `v` and `u`.

  method CompareCapacitiesOf(delta: Delta, ghost reading: NilReading, a: ScalableTargetSpec, b: ScalableTargetSpec,
                             ghost v: TargetValue, ghost u: TargetValue)
    requires a.View() == v && b.View() == u
    modifies delta
    ensures delta.paths == old(delta.paths)
                           + Recorded(Members(SPEC, CAPACITY_FIELDS), TargetTree(reading, v), TargetTree(reading, u))
    ensures a.View() == v && b.View() == u
  {
    TreeShowsCapacities(reading, v);
    TreeShowsCapacities(reading, u);
    SpecAgrees(reading, v, u);
    CompareCapacities(delta, a, b, TargetTree(reading, v), TargetTree(reading, u));
  }

  method CompareNamesOf(delta: Delta, reading: NilReading, a: ScalableTargetSpec, b: ScalableTargetSpec,
                        ghost v: TargetValue, ghost u: TargetValue)
    requires a.View() == v && b.View() == u
    modifies delta
    ensures delta.paths == old(delta.paths)
                           + Recorded(Members(SPEC, NAME_FIELDS), TargetTree(reading, v), TargetTree(reading, u))
    ensures a.View() == v && b.View() == u
  {
    TreeShowsNames(reading, v);
    TreeShowsNames(reading, u);
    SpecAgrees(reading, v, u);
    CompareNames(delta, reading, a, b, TargetTree(reading, v), TargetTree(reading, u));
  }

  method CompareSuspendedOf(delta: Delta, ghost reading: NilReading, a: ScalableTargetSpec, b: ScalableTargetSpec,
                            ghost v: TargetValue, ghost u: TargetValue)
    requires a.View() == v && b.View() == u
    modifies delta
    ensures delta.paths
            == old(delta.paths) + Recorded(SUSPENDED_SECTION, TargetTree(reading, v), TargetTree(reading, u))
    ensures a.View() == v && b.View() == u
  {
    TreeShowsSuspended(reading, v);
    TreeShowsSuspended(reading, u);
    SpecAgrees(reading, v, u);
    CompareSuspended(delta, a.suspendedState, b.suspendedState, TargetTree(reading, v), TargetTree(reading, u));
  }

  method CompareSpecs(delta: Delta, reading: NilReading, a: ScalableTargetSpec, b: ScalableTargetSpec,
                      ghost v: TargetValue, ghost u: TargetValue)
    requires a.View() == v && b.View() == u
    modifies delta
    ensures var f, g := TargetTree(reading, v), TargetTree(reading, u);
            delta.paths == old(delta.paths) + Recorded(Members(SPEC, CAPACITY_FIELDS), f, g)
                           + Recorded(Members(SPEC, NAME_FIELDS), f, g) + Recorded(SUSPENDED_SECTION, f, g)
    ensures a.View() == v && b.View() == u
  {
    CompareCapacitiesOf(delta, reading, a, b, v, u);
    CompareNamesOf(delta, reading, a, b, v, u);
    CompareSuspendedOf(delta, reading, a, b, v, u);
  }

  method DefaultAndCompare(delta: Delta, reading: NilReading, a: ScalableTarget, b: ScalableTarget)
    requires delta.paths == []
    modifies delta, a.spec`suspendedState, a.spec.suspendedState
    ensures a.spec.View() == Defaults(old(a.spec.View()), old(b.spec.View())) && b.spec.View() == old(b.spec.View())
    ensures delta.paths == Differences(reading, old(a.spec.View()), old(b.spec.View()))
  {
    CustomSetDefaults(a, b);
    ghost var v, u := a.spec.View(), b.spec.View();
    SchemaSplit(TargetTree(reading, v), TargetTree(reading, u));
    CompareSpecs(delta, reading, a.spec, b.spec, v, u);
  }

  method NewResourceDelta(reading: NilReading, a: ScalableTarget?, b: ScalableTarget?) returns (delta: Delta)
    requires a != null || b != null
    modifies if a == null || b == null then {} else {a.spec, a.spec.suspendedState}
    ensures fresh(delta)
    ensures (a == null) != (b == null) ==> delta.paths == [[]]
    ensures a != null && b != null ==>
      && delta.paths == Differences(reading, old(a.spec.View()), old(b.spec.View()))
      && a.spec.View() == Defaults(old(a.spec.View()), old(b.spec.View()))
      && b.spec.View() == old(b.spec.View())
  {
    delta := new Delta();
    if (a == null) != (b == null) {
      delta.Add([]);
      return;
    }
    assert a.spec.View() == old(a.spec.View()) && b.spec.View() == old(b.spec.View());
    DefaultAndCompare(delta, reading, a, b);
  }

  // ----- What the comparison means -----

  /** Every wish the user expressed is what the latest state says. */
  ghost predicate Granted<T>(wish: Option<T>, latest: Option<T>) {
    wish.Some? ==> wish == latest
  }

  ghost predicate SuspensionGranted(a: Option<SuspendedValue>, b: Option<SuspendedValue>) {
    a.Some? ==>
      && b.Some?
      && Granted(a.value.dynamicIn, b.value.dynamicIn)
      && Granted(a.value.dynamicOut, b.value.dynamicOut)
      && Granted(a.value.scheduled, b.value.scheduled)
  }

  lemma SuspendedExact(f: Tree<TargetLeaf>, g: Tree<TargetLeaf>, a: Option<SuspendedValue>, b: Option<SuspendedValue>)
    requires Agree(f, g, SPEC)
    requires SuspendedShows(f, Fill(a, b)) && SuspendedShows(g, b)
    ensures Recorded(SUSPENDED_SECTION, f, g) == [] <==> SuspensionGranted(a, b)
  {
    RecordGroup(SPEC, SuspendedState, Members(SUSPENDED, SUSPENDED_FIELDS), f, g);
    if a.None? && b.None? {
      RecordedNone(Members(SUSPENDED, SUSPENDED_FIELDS), f, g);
    } else if b.Some? {
      RecordThree([], SUSPENDED, DynamicScalingInSuspended, DynamicScalingOutSuspended, ScheduledScalingSuspended,
                  f, g);
      var r := Recorded(Members(SUSPENDED, SUSPENDED_FIELDS), f, g);
      assert [] + r == r;
    }
  }

  /** The comparison is silent iff the scalar fields read the same and every suspension wish is granted. */
  lemma TargetDeltaExact(reading: NilReading, a: TargetValue, b: TargetValue)
    ensures Differences(reading, a, b) == []
            <==> && a.maxCapacity == b.maxCapacity && a.minCapacity == b.minCapacity && a.roleRef == b.roleRef
                 && ReadString(reading, a.resourceID) == ReadString(reading, b.resourceID)
                 && ReadString(reading, a.roleARN) == ReadString(reading, b.roleARN)
                 && ReadString(reading, a.scalableDimension) == ReadString(reading, b.scalableDimension)
                 && ReadString(reading, a.serviceNamespace) == ReadString(reading, b.serviceNamespace)
                 && SuspensionGranted(a.suspendedState, b.suspendedState)
  {
    var f, g := TargetTree(reading, Defaults(a, b)), TargetTree(reading, b);
    SpecAgrees(reading, Defaults(a, b), b);
    TreeShows(reading, Defaults(a, b));
    TreeShows(reading, b);
    SchemaSplit(f, g);
    RecordTwo([], SPEC, MaxCapacity, MinCapacity, f, g);
    RecordFive([], SPEC, ResourceID, RoleARN, RoleRef, ScalableDimension, ServiceNamespace, f, g);
    SuspendedExact(f, g, a.suspendedState, b.suspendedState);
    var r := Recorded(Members(SPEC, NAME_FIELDS), f, g);
    assert [] + r == r;
  }

  /** Comparing again changes nothing and finds the same differences. */
  lemma DefaultsFixpoint(reading: NilReading, a: TargetValue, b: TargetValue)
    ensures Defaults(Defaults(a, b), b) == Defaults(a, b)
    ensures Differences(reading, Defaults(a, b), b) == Differences(reading, a, b)
  {
  }

  /** A suspension member the user set survives the filling. */
  lemma DefaultsKeepWishes(a: TargetValue, b: TargetValue)
    ensures a.suspendedState.Some? ==> SuspensionGranted(a.suspendedState, Defaults(a, b).suspendedState)
  {
  }

  /** The same for one path at which the trees differ, and nowhere above it. */
  lemma SuspensionMinimal(reading: NilReading, a: TargetValue, b: TargetValue, p: Path)
    requires Minimal(TargetTree(reading, Defaults(a, b)), TargetTree(reading, b), p)
    ensures p == SUSPENDED ==> a.suspendedState.Some? && b.suspendedState.None?
    ensures |p| == 3 && p[1] == SuspendedState ==>
      a.suspendedState.Some? && b.suspendedState.Some? &&
      var node := SuspendedNode(a.suspendedState.value, p[2]);
      node != Absent && node != SuspendedNode(b.suspendedState.value, p[2])
  {
    SpecAt(reading, Defaults(a, b), SuspendedState);
    SpecAt(reading, b, SuspendedState);
    if |p| == 3 && p[1] == SuspendedState {
      assert p[0] == Spec;
      assert p == Under(SUSPENDED, p[2]) && p[..2][..2] == SUSPENDED;
      SuspendedAt(reading, Defaults(a, b), p[2]);
      SuspendedAt(reading, b, p[2]);
    }
  }

  /** A suspension path is reported only for a wish of the user's that the latest state does not grant. */
  lemma SuspensionReported(reading: NilReading, a: TargetValue, b: TargetValue, p: Path)
    requires p in Differences(reading, a, b)
    ensures p == SUSPENDED ==> a.suspendedState.Some? && b.suspendedState.None?
    ensures |p| == 3 && p[1] == SuspendedState ==>
      a.suspendedState.Some? && b.suspendedState.Some? &&
      var node := SuspendedNode(a.suspendedState.value, p[2]);
      node != Absent && node != SuspendedNode(b.suspendedState.value, p[2])
  {
    RecordedMember(TARGET_SCHEMA, TargetTree(reading, Defaults(a, b)), TargetTree(reading, b), p);
    SuspensionMinimal(reading, a, b, p);
  }
}
