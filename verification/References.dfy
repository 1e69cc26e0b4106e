/** Resolving a target's RoleRef to a RoleARN, in place, and clearing it again. */
module References {
  import opened Pointers
  import opened TargetApi
  import opened Statuses

  datatype RefError =
    | BothSet // a reference and an ARN in the same Spec
    | EmptyName // a reference without a name
    | CrossNamespace // the runtime refused the namespace
    | LookupFailed // the API reader's own error
    | TerminalFor | NotSyncedFor | MissingTargetFieldFor

  /** The referenced IAM Role, as far as it is looked at. */
  datatype Role = Role(conditions: seq<(ConditionType, Truth)>, arn: Option<string>)

  /**
   * The cluster at one moment. `namespace` stands for the runtime's cross-namespace rule and `role` for the
   * API reader. The rule is handed the resource's conditions and may change them: `advise` is what it makes
   * of them.
   */
  datatype Cluster = Cluster(
    namespace: (string, Option<string>, string) -> Result<string, RefError>,
    advise: (Option<seq<ConditionValue>>, string, Option<string>, string) -> Option<seq<ConditionValue>>,
    role: (string, string) -> Result<Role, RefError>)

  ghost predicate Holds(r: Role, typ: ConditionType) {
    exists i :: 0 <= i < |r.conditions| && r.conditions[i] == (typ, True)
  }

  /** Both scans of the role's conditions, then the ARN. */
  method GetReferencedResourceState(role: Result<Role, RefError>) returns (err: Option<RefError>)
    ensures role.Err? ==> err == Some(role.error)
    ensures role.Ok? ==>
      err == if Holds(role.value, Terminal) then Some(TerminalFor)
             else if !Holds(role.value, ResourceSynced) then Some(NotSyncedFor)
             else if role.value.arn.None? then Some(MissingTargetFieldFor)
             else None
    ensures role.Ok? ==>
      && (err == Some(TerminalFor) <==> (Terminal, True) in role.value.conditions)
      && (err == Some(NotSyncedFor) <==>
            (Terminal, True) !in role.value.conditions && (ResourceSynced, True) !in role.value.conditions)
      && (err.None? <==> && (Terminal, True) !in role.value.conditions
                         && (ResourceSynced, True) in role.value.conditions && role.value.arn.Some?)
  {
    if role.Err? {
      return Some(role.error);
    }
    var conditions := role.value.conditions;
    for i := 0 to |conditions|
      invariant forall j :: 0 <= j < i ==> conditions[j] != (Terminal, True)
    {
      if conditions[i].0 == Terminal && conditions[i].1 == True {
        return Some(TerminalFor);
      }
    }
    var synced := false;
    for i := 0 to |conditions|
      invariant synced <==> exists j :: 0 <= j < i && conditions[j] == (ResourceSynced, True)
    {
      if conditions[i].0 == ResourceSynced && conditions[i].1 == True {
        synced := true;
      }
    }
    if !synced {
      return Some(NotSyncedFor);
    }
    if role.value.arn.None? {
      return Some(MissingTargetFieldFor);
    }
    return None;
  }

  predicate Refers(v: TargetValue) {
    v.roleRef.Some? && v.roleRef.value.from.Some?
  }

  ghost predicate Named(from: ReferenceValue) {
    from.name.Some? && from.name != Some("")
  }

  /** The role that a reference leads to now, or why none can be had. */
  ghost function RoleOf(c: Cluster, here: string, from: ReferenceValue): Result<Role, RefError> {
    if !Named(from) then Err(EmptyName)
    else
      match c.namespace(here, from.namespace, from.name.value)
      case Err(e) => Err(e)
      case Ok(ns) => c.role(ns, from.name.value)
  }

  /** A role that may be used: it has settled, and has an ARN to use. */
  ghost predicate Usable(role: Role) {
    !Holds(role, Terminal) && Holds(role, ResourceSynced) && role.arn.Some?
  }

  /** The ARN a reference stands for now, or why it cannot be had. */
  ghost function Lookup(c: Cluster, here: string, from: ReferenceValue): Result<string, RefError> {
    match RoleOf(c, here, from)
    case Err(e) => Err(e)
    case Ok(role) =>
      if Usable(role) then Ok(role.arn.value)
      else if Holds(role, Terminal) then Err(TerminalFor)
      else if !Holds(role, ResourceSynced) then Err(NotSyncedFor)
      else Err(MissingTargetFieldFor)
  }

  // ----- Resolution -----

  /** The Spec after a resolution attempt: written even when the Spec is then rejected for setting both. */
  ghost function ResolvedSpec(v: TargetValue, c: Cluster, here: string): TargetValue {
    if Refers(v) && Lookup(c, here, v.roleRef.value.from.value).Ok?
    then v.(roleARN := Some(Lookup(c, here, v.roleRef.value.from.value).value))
    else v
  }

  ghost function LookupError(v: TargetValue, c: Cluster, here: string): Option<RefError> {
    if Refers(v) && Lookup(c, here, v.roleRef.value.from.value).Err?
    then Some(Lookup(c, here, v.roleRef.value.from.value).error)
    else None
  }

  ghost function ResolveError(v: TargetValue, c: Cluster, here: string): Option<RefError> {
    if LookupError(v, c, here).Some? then LookupError(v, c, here)
    else if v.roleRef.Some? && v.roleARN.Some? then Some(BothSet)
    else None
  }

  ghost function ClearedSpec(v: TargetValue): TargetValue {
    if v.roleRef.Some? then v.(roleARN := None) else v
  }

  /** What the cross-namespace rule leaves of the conditions; it is asked only for a named reference. */
  ghost function AdvisedStatus(r: ResourceValue, c: Cluster, here: string): StatusValue {
    if Refers(r.spec) && Named(r.spec.roleRef.value.from.value) then
      var from := r.spec.roleRef.value.from.value;
      r.status.(conditions := c.advise(r.status.conditions, here, from.namespace, from.name.value))
    else r.status
  }

  method ValidateReferenceFields(spec: ScalableTargetSpec) returns (err: Option<RefError>)
    ensures err == if spec.View().roleRef.Some? && spec.View().roleARN.Some? then Some(BothSet) else None
  {
    err := if spec.roleRef != null && spec.roleARN != null then Some(BothSet) else None;
  }

  /** The rule's change to the list shows as a list of new objects that say the same. */
  method ResolveNamespace(c: Cluster, ko: ScalableTarget, namespace: Option<string>, name: string)
    returns (ns: Result<string, RefError>)
    modifies ko.status`conditions
    ensures ns == c.namespace(ko.namespace, namespace, name)
    ensures var was := old(ko.View());
            ko.View() == was.(status := was.status.(
              conditions := c.advise(was.status.conditions, ko.namespace, namespace, name)))
  {
    ko.status.conditions :=
      NewConditions(c.advise(ConditionsView(ko.status.conditions), ko.namespace, namespace, name));
    ns := c.namespace(ko.namespace, namespace, name);
  }

  method SetRoleARN(ko: ScalableTarget, arn: string)
    modifies ko.spec`roleARN
    ensures ko.View() == old(ko.View()).(spec := old(ko.View()).spec.(roleARN := Some(arn)))
  {
    ko.spec.roleARN := new Ref(arn);
  }

  /** Without error, a role that may be used was read, and its ARN is now the Spec's. */
  ghost predicate Resolved(v: TargetValue, was: TargetValue, c: Cluster, here: string) {
    Refers(was) &&
    var role := RoleOf(c, here, was.roleRef.value.from.value);
    role.Ok? && Usable(role.value) && v == was.(roleARN := role.value.arn)
  }

  method ResolveReferenceForRoleARN(c: Cluster, ko: ScalableTarget) returns (hasReferences: bool, err: Option<RefError>)
    modifies ko.spec`roleARN, ko.status`conditions
    ensures ko.View().spec == ResolvedSpec(old(ko.View()).spec, c, ko.namespace)
    ensures ko.View().status == AdvisedStatus(old(ko.View()), c, ko.namespace)
    ensures hasReferences <==> Refers(old(ko.View()).spec)
    ensures err == LookupError(old(ko.View()).spec, c, ko.namespace)
    ensures hasReferences && err.None? ==> Resolved(ko.View().spec, old(ko.View()).spec, c, ko.namespace)
    ensures var was, now := old(ko.View()).spec, ko.View().spec;
            if was.roleRef.None? || was.roleRef.value.from.None? then !hasReferences && err.None? && now == was
            else
              var from := was.roleRef.value.from.value;
              hasReferences &&
              if from.name.None? || from.name.value == "" then err == Some(EmptyName) && now == was
              else
                match c.namespace(ko.namespace, from.namespace, from.name.value)
                case Err(e) => err == Some(e) && now == was
                case Ok(ns) =>
                  match c.role(ns, from.name.value)
                  case Err(e) => err == Some(e) && now == was
                  case Ok(role) =>
                    if (Terminal, True) !in role.conditions && (ResourceSynced, True) in role.conditions
                       && role.arn.Some?
                    then err.None? && now == was.(roleARN := role.arn)
                    else err.Some? && now == was
    ensures var was, now := old(ko.View()), ko.View();
            if was.spec.roleRef.None? || was.spec.roleRef.value.from.None? then now.status == was.status
            else
              var from := was.spec.roleRef.value.from.value;
              now.status ==
              if from.name.None? || from.name.value == "" then was.status
              else was.status.(conditions :=
                                 c.advise(was.status.conditions, ko.namespace, from.namespace, from.name.value))
  {
    hasReferences, err := false, None;
    if ko.spec.roleRef != null && ko.spec.roleRef.from != null {
      hasReferences := true;
      var name, namespace := ko.spec.roleRef.from.name, ko.spec.roleRef.from.namespace;
      if name == null || name.v == "" {
        return hasReferences, Some(EmptyName);
      }
      var ns := ResolveNamespace(c, ko, Deref(namespace), name.v);
      if ns.Err? {
        return hasReferences, Some(ns.error);
      }
      var role := c.role(ns.value, name.v);
      err := GetReferencedResourceState(role);
      if err.Some? {
        return;
      }
      SetRoleARN(ko, role.value.arn.value);
    }
  }

  /** Resolution works on the resource it is given and returns that same resource. */
  method ResolveReferences(c: Cluster, ko: ScalableTarget)
    returns (res: ScalableTarget, hasReferences: bool, err: Option<RefError>)
    modifies ko.spec`roleARN, ko.status`conditions
    ensures res == ko
    ensures ko.View().spec == ResolvedSpec(old(ko.View()).spec, c, ko.namespace)
    ensures ko.View().status == AdvisedStatus(old(ko.View()), c, ko.namespace)
    ensures err == ResolveError(old(ko.View()).spec, c, ko.namespace)
    ensures var was := old(ko.View()).spec;
            err == if LookupError(was, c, ko.namespace).Some? then LookupError(was, c, ko.namespace)
                   else if was.roleRef.Some? && was.roleARN.Some? then Some(BothSet) else None
    ensures hasReferences <==> Refers(old(ko.View()).spec)
  {
    var invalid := ValidateReferenceFields(ko.spec);
    hasReferences, err := ResolveReferenceForRoleARN(c, ko);
    if err.Some? {
      return ko, hasReferences, err;
    }
    return ko, hasReferences, invalid;
  }

  method ClearResolvedReferences(r: ScalableTarget) returns (ko: ScalableTarget)
    ensures fresh(ko) && OwnsNewMemory(ko) && r.View() == old(r.View())
    ensures ko.View() == old(r.View()).(spec := ClearedSpec(old(r.View()).spec))
    ensures ko.View().spec == old(r.View()).spec.(roleARN :=
              if old(r.View()).spec.roleRef.Some? then None else old(r.View()).spec.roleARN)
  {
    ko := r.DeepCopy();
    ClearRole(ko);
  }

  method ClearRole(ko: ScalableTarget)
    modifies ko.spec`roleARN
    ensures ko.View() == old(ko.View()).(spec := ClearedSpec(old(ko.View()).spec))
  {
    if ko.spec.roleRef != null {
      ko.spec.roleARN := null;
    }
  }

  // ----- Resolve and clear undo each other -----

  lemma ClearUndoesResolve(v: TargetValue, c: Cluster, here: string)
    ensures ResolveError(v, c, here).None? ==> ClearedSpec(ResolvedSpec(v, c, here)) == v
    ensures ClearedSpec(ResolvedSpec(v, c, here)) == v <==> !(v.roleRef.Some? && v.roleARN.Some?)
  {
  }

  lemma ResolveClearResolve(v: TargetValue, c: Cluster, here: string)
    requires ResolveError(v, c, here).None?
    ensures var again := ClearedSpec(ResolvedSpec(v, c, here));
            ResolvedSpec(again, c, here) == ResolvedSpec(v, c, here) && ResolveError(again, c, here).None?
  {
  }

  /** Without a clear in between, a second resolution is rejected exactly when the first found a reference. */
  lemma SecondResolveRejected(v: TargetValue, c: Cluster, here: string)
    requires ResolveError(v, c, here).None?
    ensures ResolveError(ResolvedSpec(v, c, here), c, here) == if Refers(v) then Some(BothSet) else None
    ensures ResolvedSpec(ResolvedSpec(v, c, here), c, here) == ResolvedSpec(v, c, here)
  {
  }

  /** A Spec that sets both is rejected, yet its ARN has been overwritten if the reference resolves to another. */
  lemma RejectedButWritten(v: TargetValue, c: Cluster, here: string)
    requires Refers(v) && v.roleARN.Some? && Lookup(c, here, v.roleRef.value.from.value).Ok?
    ensures ResolveError(v, c, here) == Some(BothSet)
    ensures ResolvedSpec(v, c, here) == v <==> v.roleARN == Some(Lookup(c, here, v.roleRef.value.from.value).value)
  {
  }
}
