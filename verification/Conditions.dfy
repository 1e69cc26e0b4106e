/** The Terminal and Recoverable conditions: one update, and whole runs of updates. */
module Conditions {
  import opened Pointers
  import opened Statuses
  import Wire

  datatype ErrorKind =
    | SecretTypeNotSupported | SecretNotFound | TerminalError // the terminal class
    | TerminalSentinel // ackerr.Terminal, which onError returns
    | NotFound | OutOfRange(field: Wire.Int32Field) | RequeueNeeded | OtherError

  datatype AwsError = AwsError(code: string, message: string)

  /** A Go error: what it is, what it prints, and the AWS error that `ackerr.AWSError` digs out of it. */
  datatype Error = Error(kind: ErrorKind, message: string, aws: Option<AwsError>)

  /** No terminal errors are configured for either resource. */
  predicate TerminalAWSError(err: Option<Error>) {
    false
  }

  predicate TerminalClass(e: Error) {
    e.kind.SecretTypeNotSupported? || e.kind.SecretNotFound? || e.kind.TerminalError?
  }

  function RecoverableMessage(e: Error): string {
    if e.aws.Some? then e.aws.value.message else e.message
  }

  // ----- Finding and writing entries by type -----

  function LastOf(cs: seq<ConditionValue>, typ: ConditionType): (k: Option<nat>)
    ensures k.Some? ==> k.value < |cs| && cs[k.value].typ == typ && forall j :: k.value < j < |cs| ==> cs[j].typ != typ
    ensures k.None? ==> forall j :: 0 <= j < |cs| ==> cs[j].typ != typ
  {
    if cs == [] then None
    else if cs[|cs| - 1].typ == typ then Some(|cs| - 1)
    else LastOf(cs[..|cs| - 1], typ)
  }

  function Mark(c: ConditionValue, status: Truth, message: Option<string>): ConditionValue {
    c.(status := status, message := message)
  }

  /** The last entry of the type becomes True with a message; a missing one is appended. */
  function Raise(cs: seq<ConditionValue>, typ: ConditionType, message: string): seq<ConditionValue> {
    match LastOf(cs, typ)
    case Some(k) => cs[k := Mark(cs[k], True, Some(message))]
    case None => cs + [ConditionValue(typ, True, Some(message), None)]
  }

  /** The last entry of the type, if any, becomes False without a message. */
  function Clear(cs: seq<ConditionValue>, typ: ConditionType): seq<ConditionValue> {
    match LastOf(cs, typ)
    case Some(k) => cs[k := Mark(cs[k], False, None)]
    case None => cs
  }

  /** The list after one outcome: `None` is success. */
  function Next(cs: seq<ConditionValue>, outcome: Option<Error>): seq<ConditionValue> {
    match outcome
    case None => Clear(Clear(cs, Terminal), Recoverable)
    case Some(e) =>
      if TerminalClass(e) then Raise(cs, Terminal, e.message)
      else Raise(Clear(cs, Terminal), Recoverable, RecoverableMessage(e))
  }

  /** The list after a run of outcomes, oldest first. */
  function Run(cs: seq<ConditionValue>, outcomes: seq<Option<Error>>): seq<ConditionValue> {
    if outcomes == [] then cs
    else Next(Run(cs, outcomes[..|outcomes| - 1]), outcomes[|outcomes| - 1])
  }

  // ----- One update -----

  ghost predicate UniqueTypes(cs: seq<ConditionValue>) {
    forall i, j :: 0 <= i < j < |cs| ==> cs[i].typ != cs[j].typ
  }

  ghost predicate Has(cs: seq<ConditionValue>, typ: ConditionType) {
    exists i :: 0 <= i < |cs| && cs[i].typ == typ
  }

  ghost predicate IsTrue(cs: seq<ConditionValue>, typ: ConditionType) {
    exists i :: 0 <= i < |cs| && cs[i].typ == typ && cs[i].status == True
  }

  ghost predicate Reported(typ: ConditionType) {
    typ == Terminal || typ == Recoverable
  }

  /** Order and types survive, entries of other types are untouched, and at most one entry is added, at the end. */
  lemma NextKeeps(cs: seq<ConditionValue>, outcome: Option<Error>)
    ensures var ds := Next(cs, outcome);
            && |cs| <= |ds| <= |cs| + 1
            && (forall i :: 0 <= i < |cs| ==> ds[i].typ == cs[i].typ && ds[i].reason == cs[i].reason)
            && (forall i :: 0 <= i < |cs| && !Reported(cs[i].typ) ==> ds[i] == cs[i])
            && (|ds| > |cs| ==>
                  outcome.Some? && Reported(ds[|cs|].typ) && ds[|cs|].status == True && !Has(cs, ds[|cs|].typ))
  {
  }

  ghost predicate LastAt(cs: seq<ConditionValue>, typ: ConditionType, k: int) {
    0 <= k < |cs| && cs[k].typ == typ && forall j :: k < j < |cs| ==> cs[j].typ != typ
  }

  lemma LastAtIs(cs: seq<ConditionValue>, typ: ConditionType, k: int)
    ensures LastAt(cs, typ, k) <==> LastOf(cs, typ).Some? && LastOf(cs, typ).value == k
  {
  }

  lemma ClearSays(cs: seq<ConditionValue>, typ: ConditionType, k: nat)
    requires k < |cs|
    ensures var ds := Clear(cs, typ);
            && |ds| == |cs| && (forall t :: LastAt(ds, t, k) <==> LastAt(cs, t, k))
            && ds[k] == if LastAt(cs, typ, k) then cs[k].(status := False, message := None) else cs[k]
  {
    LastAtIs(cs, typ, k);
  }

  lemma RaiseSays(cs: seq<ConditionValue>, typ: ConditionType, message: string, k: nat)
    requires k < |Raise(cs, typ, message)|
    ensures var ds := Raise(cs, typ, message);
            && Has(ds, typ) && (forall t :: t != typ ==> (LastAt(ds, t, k) <==> LastAt(cs, t, k)))
            && if LastAt(ds, typ, k) then ds[k].status == True && ds[k].message == Some(message)
               else k < |cs| && ds[k] == cs[k]
  {
    var ds := Raise(cs, typ, message);
    var i := LastOf(cs, typ);
    assert LastAt(ds, typ, if i.Some? then i.value else |cs|);
    assert forall j :: 0 <= j < |cs| ==> ds[j].typ == cs[j].typ;
    forall t | t != typ
      ensures LastAt(ds, t, k) <==> LastAt(cs, t, k)
    {
      if LastAt(cs, t, k) {
        assert forall j :: k < j < |ds| ==> ds[j].typ != t;
      }
    }
  }

  /**
   * What an outcome writes, entry by entry: the last Terminal and the last Recoverable, and no other. The
   * entry an error raises is there.
   */
  lemma NextSays(cs: seq<ConditionValue>, outcome: Option<Error>, k: nat)
    requires k < |Next(cs, outcome)|
    ensures var ds := Next(cs, outcome);
            var terminal := outcome.Some?
                            && outcome.value.kind in {SecretTypeNotSupported, SecretNotFound, TerminalError};
            && (outcome.Some? ==> Has(ds, if terminal then Terminal else Recoverable))
            && if LastAt(ds, Terminal, k) then
                 if terminal then ds[k].status == True && ds[k].message == Some(outcome.value.message)
                 else ds[k].status == False && ds[k].message == None
               else if LastAt(ds, Recoverable, k) && !terminal then
                 if outcome.None? then ds[k].status == False && ds[k].message == None
                 else
                   && ds[k].status == True
                   && ds[k].message == Some(if outcome.value.aws.Some? then outcome.value.aws.value.message
                                            else outcome.value.message)
               else k < |cs| && ds[k] == cs[k]
  {
    var mid := Clear(cs, Terminal);
    if k < |cs| {
      ClearSays(cs, Terminal, k);
    }
    match outcome {
      case None => ClearSays(mid, Recoverable, k);
      case Some(e) =>
        if TerminalClass(e) {
          RaiseSays(cs, Terminal, e.message, k);
        } else {
          RaiseSays(mid, Recoverable, RecoverableMessage(e), k);
        }
    }
  }

  lemma NextUnique(cs: seq<ConditionValue>, outcome: Option<Error>)
    requires UniqueTypes(cs)
    ensures UniqueTypes(Next(cs, outcome))
  {
    NextKeeps(cs, outcome);
    var ds := Next(cs, outcome);
    forall i, j | 0 <= i < j < |ds|
      ensures ds[i].typ != ds[j].typ
    {
      if j < |cs| {
        assert cs[i].typ != cs[j].typ;
      }
    }
  }

  /** An update writes only the last entry of a type: an earlier True entry of that type survives it. */
  lemma RaiseTrue(cs: seq<ConditionValue>, typ: ConditionType, message: string, other: ConditionType)
    ensures IsTrue(Raise(cs, typ, message), other) <==> other == typ || IsTrue(cs, other)
  {
    var ds := Raise(cs, typ, message);
    var k := LastOf(cs, typ);
    if other == typ {
      assert ds[if k.Some? then k.value else |cs|].status == True;
    } else if i :| 0 <= i < |cs| && cs[i].typ == other && cs[i].status == True {
      assert ds[i] == cs[i];
    }
  }

  /** The entry at `i` is True, of the type, and not the last of it. */
  ghost predicate ShadowAt(cs: seq<ConditionValue>, typ: ConditionType, i: int) {
    0 <= i < |cs| && cs[i].typ == typ && cs[i].status == True && LastOf(cs, typ) != Some(i)
  }

  ghost predicate Shadowed(cs: seq<ConditionValue>, typ: ConditionType) {
    exists i :: ShadowAt(cs, typ, i)
  }

  lemma ClearTrue(cs: seq<ConditionValue>, typ: ConditionType, other: ConditionType)
    ensures IsTrue(Clear(cs, typ), other) <==> if other == typ then Shadowed(cs, typ) else IsTrue(cs, other)
  {
    var ds := Clear(cs, typ);
    if other == typ {
      if i :| ShadowAt(cs, typ, i) {
        assert ds[i] == cs[i];
      }
      if i :| 0 <= i < |ds| && ds[i].typ == typ && ds[i].status == True {
        assert ShadowAt(cs, typ, i);
      }
    } else if IsTrue(cs, other) {
      var i :| 0 <= i < |cs| && cs[i].typ == other && cs[i].status == True;
      assert ds[i] == cs[i];
    }
  }

  /** Where the last entry of a type is depends on the types alone. */
  lemma LastOfByTypes(cs: seq<ConditionValue>, ds: seq<ConditionValue>, typ: ConditionType)
    requires |cs| == |ds| && forall i :: 0 <= i < |cs| ==> cs[i].typ == ds[i].typ
    ensures LastOf(cs, typ) == LastOf(ds, typ)
  {
  }

  lemma ClearShadowed(cs: seq<ConditionValue>, typ: ConditionType, other: ConditionType)
    ensures Shadowed(Clear(cs, typ), other) <==> Shadowed(cs, other)
  {
    var ds := Clear(cs, typ);
    LastOfByTypes(cs, ds, other);
    if i :| ShadowAt(cs, other, i) {
      assert ShadowAt(ds, other, i);
    }
    if i :| ShadowAt(ds, other, i) {
      assert ShadowAt(cs, other, i);
    }
  }

  /** After any outcome, on any list: who is True. */
  lemma NextTrue(cs: seq<ConditionValue>, outcome: Option<Error>)
    ensures IsTrue(Next(cs, outcome), Terminal)
            <==> (outcome.Some? && TerminalClass(outcome.value)) || Shadowed(cs, Terminal)
    ensures IsTrue(Next(cs, outcome), Recoverable)
            <==> match outcome
                 case None => Shadowed(cs, Recoverable)
                 case Some(e) => TerminalClass(e) ==> IsTrue(cs, Recoverable)
  {
    var mid := Clear(cs, Terminal);
    match outcome {
      case None =>
        ClearTrue(cs, Terminal, Terminal);
        ClearTrue(mid, Recoverable, Terminal);
        ClearTrue(mid, Recoverable, Recoverable);
        ClearShadowed(cs, Terminal, Recoverable);
        ClearTrue(cs, Terminal, Recoverable);
      case Some(e) =>
        RaiseTrue(cs, Terminal, e.message, Terminal);
        RaiseTrue(cs, Terminal, e.message, Recoverable);
        ClearTrue(cs, Terminal, Terminal);
        RaiseTrue(mid, Recoverable, RecoverableMessage(e), Terminal);
        RaiseTrue(mid, Recoverable, RecoverableMessage(e), Recoverable);
    }
  }

  // ----- Whole runs -----

  predicate TerminalOutcome(o: Option<Error>) {
    o.Some? && TerminalClass(o.value)
  }

  /** The index of the latest outcome that was not terminal-class. */
  ghost function LastOpen(outcomes: seq<Option<Error>>): Option<nat> {
    if outcomes == [] then None
    else
      if TerminalOutcome(outcomes[|outcomes| - 1]) then LastOpen(outcomes[..|outcomes| - 1]) else Some(|outcomes| - 1)
  }

  lemma {:induction false} LastOpenMeaning(outcomes: seq<Option<Error>>)
    ensures var k := LastOpen(outcomes);
            k.Some? ==> k.value < |outcomes| && !TerminalOutcome(outcomes[k.value])
    ensures forall i :: (if LastOpen(outcomes).Some? then LastOpen(outcomes).value else -1) < i < |outcomes| ==>
              TerminalOutcome(outcomes[i])
  {
    if outcomes != [] {
      LastOpenMeaning(outcomes[..|outcomes| - 1]);
    }
  }

  /** Which entries are shadowed never changes: an outcome writes last entries and appends only missing types. */
  lemma NextShadowed(cs: seq<ConditionValue>, outcome: Option<Error>, typ: ConditionType)
    ensures Shadowed(Next(cs, outcome), typ) <==> Shadowed(cs, typ)
  {
    var mid := Clear(cs, Terminal);
    ClearShadowed(cs, Terminal, typ);
    match outcome {
      case None => ClearShadowed(mid, Recoverable, typ);
      case Some(e) =>
        RaiseShadowed(cs, Terminal, e.message, typ);
        RaiseShadowed(mid, Recoverable, RecoverableMessage(e), typ);
    }
  }

  lemma RaiseShadowed(cs: seq<ConditionValue>, typ: ConditionType, message: string, other: ConditionType)
    ensures Shadowed(Raise(cs, typ, message), other) <==> Shadowed(cs, other)
  {
    var ds := Raise(cs, typ, message);
    if LastOf(cs, typ).Some? {
      LastOfByTypes(cs, ds, other);
    } else {
      assert ds[..|ds| - 1] == cs;
    }
    if i :| ShadowAt(cs, other, i) {
      assert ShadowAt(ds, other, i);
    }
    if i :| ShadowAt(ds, other, i) {
      assert ShadowAt(cs, other, i);
    }
  }

  lemma {:induction false} RunShadowed(cs: seq<ConditionValue>, outcomes: seq<Option<Error>>, typ: ConditionType)
    ensures Shadowed(Run(cs, outcomes), typ) <==> Shadowed(cs, typ)
  {
    if outcomes != [] {
      var before := outcomes[..|outcomes| - 1];
      RunShadowed(cs, before, typ);
      NextShadowed(Run(cs, before), outcomes[|outcomes| - 1], typ);
    }
  }

  /**
   * What the two conditions say after any run, from any list: the last outcome decides Terminal, the latest
   * one that was not terminal-class decides Recoverable, and shadowed entries speak for ever.
   */
  lemma {:induction false} RunTrue(cs: seq<ConditionValue>, outcomes: seq<Option<Error>>)
    ensures IsTrue(Run(cs, outcomes), Terminal)
            <==> if outcomes == [] then IsTrue(cs, Terminal)
                 else TerminalOutcome(outcomes[|outcomes| - 1]) || Shadowed(cs, Terminal)
    ensures IsTrue(Run(cs, outcomes), Recoverable)
            <==> match LastOpen(outcomes)
                 case None => IsTrue(cs, Recoverable)
                 case Some(k) => k < |outcomes| && (outcomes[k].Some? || Shadowed(cs, Recoverable))
  {
    if outcomes != [] {
      var before := outcomes[..|outcomes| - 1];
      RunTrue(cs, before);
      RunShadowed(cs, before, Terminal);
      RunShadowed(cs, before, Recoverable);
      NextTrue(Run(cs, before), outcomes[|outcomes| - 1]);
      LastOpenMeaning(before);
    }
  }

  /** The entries behind the first `n` are of reported types that were missing before, each type once. */
  /**
   * The same after a whole run, for the last entry of either type: Terminal says what the last outcome said,
   * Recoverable what the latest one said that was not terminal-class.
   */
  lemma {:induction false} RunSays(cs: seq<ConditionValue>, outcomes: seq<Option<Error>>, k: nat)
    requires k < |Run(cs, outcomes)| && outcomes != []
    ensures var ds, last := Run(cs, outcomes), outcomes[|outcomes| - 1];
            LastAt(ds, Terminal, k) ==>
              if last.Some? && last.value.kind in {SecretTypeNotSupported, SecretNotFound, TerminalError}
              then ds[k].status == True && ds[k].message == Some(last.value.message)
              else ds[k].status == False && ds[k].message == None
    ensures var ds, j := Run(cs, outcomes), LastOpen(outcomes);
            LastAt(ds, Recoverable, k) && j.Some? && j.value < |outcomes| ==>
              match outcomes[j.value]
              case None => ds[k].status == False && ds[k].message == None
              case Some(e) =>
                && ds[k].status == True
                && ds[k].message == Some(if e.aws.Some? then e.aws.value.message else e.message)
  {
    var before, last := outcomes[..|outcomes| - 1], outcomes[|outcomes| - 1];
    var mid, ds := Run(cs, before), Run(cs, outcomes);
    NextSays(mid, last, k);
    if TerminalOutcome(last) && before != [] && LastAt(ds, Recoverable, k) {
      NextKeeps(mid, last);
      assert LastAt(mid, Recoverable, k);
      LastOpenMeaning(before);
      RunSays(cs, before, k);
    }
  }

  ghost predicate NewEntries(cs: seq<ConditionValue>, ds: seq<ConditionValue>) {
    && |cs| <= |ds|
    && (forall i :: |cs| <= i < |ds| ==> Reported(ds[i].typ) && !Has(cs, ds[i].typ))
    && (forall i, j :: |cs| <= i < j < |ds| ==> ds[i].typ != ds[j].typ)
  }

  lemma NextExtends(cs: seq<ConditionValue>, mid: seq<ConditionValue>, outcome: Option<Error>)
    requires NewEntries(cs, mid) && forall i :: 0 <= i < |cs| ==> mid[i].typ == cs[i].typ
    ensures NewEntries(cs, Next(mid, outcome))
  {
    NextKeeps(mid, outcome);
    var ds := Next(mid, outcome);
    if |ds| > |mid| {
      assert forall i :: 0 <= i < |mid| ==> mid[i].typ != ds[|mid|].typ;
    }
  }

  /** A run never touches entries of other types, never reorders, and adds at most one entry per reported type. */
  lemma {:induction false} RunKeeps(cs: seq<ConditionValue>, outcomes: seq<Option<Error>>)
    ensures var ds := Run(cs, outcomes);
            && |cs| <= |ds| <= |cs| + 2
            && (forall i :: 0 <= i < |cs| ==> ds[i].typ == cs[i].typ && ds[i].reason == cs[i].reason)
            && (forall i :: 0 <= i < |cs| && !Reported(cs[i].typ) ==> ds[i] == cs[i])
            && NewEntries(cs, ds)
  {
    if outcomes != [] {
      var before := Run(cs, outcomes[..|outcomes| - 1]);
      RunKeeps(cs, outcomes[..|outcomes| - 1]);
      NextKeeps(before, outcomes[|outcomes| - 1]);
      NextExtends(cs, before, outcomes[|outcomes| - 1]);
      AtMostTwo(cs, Run(cs, outcomes));
    }
  }

  lemma AtMostTwo(cs: seq<ConditionValue>, ds: seq<ConditionValue>)
    requires NewEntries(cs, ds)
    ensures |ds| <= |cs| + 2
  {
    if |ds| > |cs| + 1 {
      var last := ds[|ds| - 1].typ;
      assert Reported(last) && Reported(ds[|cs|].typ) && Reported(ds[|cs| + 1].typ);
    }
  }

  lemma UniqueMeansUnshadowed(cs: seq<ConditionValue>, typ: ConditionType)
    requires UniqueTypes(cs)
    ensures !Shadowed(cs, typ)
  {
  }

  lemma {:induction false} RunUnique(cs: seq<ConditionValue>, outcomes: seq<Option<Error>>)
    requires UniqueTypes(cs)
    ensures UniqueTypes(Run(cs, outcomes))
  {
    if outcomes != [] {
      RunUnique(cs, outcomes[..|outcomes| - 1]);
      NextUnique(Run(cs, outcomes[..|outcomes| - 1]), outcomes[|outcomes| - 1]);
    }
  }

  /**
   * From a list of distinct types without either condition, the list as it was is a prefix of the list after
   * any run, types stay distinct, and the outcomes alone decide both conditions.
   */
  lemma RunFromFresh(cs: seq<ConditionValue>, outcomes: seq<Option<Error>>)
    requires UniqueTypes(cs) && !Has(cs, Terminal) && !Has(cs, Recoverable)
    ensures cs <= Run(cs, outcomes) && UniqueTypes(Run(cs, outcomes))
    ensures IsTrue(Run(cs, outcomes), Terminal)
            <==> outcomes != [] && TerminalOutcome(outcomes[|outcomes| - 1])
    ensures IsTrue(Run(cs, outcomes), Recoverable)
            <==> var k := LastOpen(outcomes); k.Some? && k.value < |outcomes| && outcomes[k.value].Some?
  {
    RunKeeps(cs, outcomes);
    RunTrue(cs, outcomes);
    RunUnique(cs, outcomes);
    UniqueMeansUnshadowed(cs, Terminal);
    UniqueMeansUnshadowed(cs, Recoverable);
    forall i | 0 <= i < |cs|
      ensures Run(cs, outcomes)[i] == cs[i]
    {
      assert !Reported(cs[i].typ);
    }
  }

  /** Both conditions can be True at once: a terminal error leaves Recoverable as it was. */
  lemma BothTrue(e: Error, t: Error)
    requires !TerminalClass(e) && TerminalClass(t)
    ensures IsTrue(Run([], [Some(e), Some(t)]), Terminal) && IsTrue(Run([], [Some(e), Some(t)]), Recoverable)
  {
    var outcomes := [Some(e), Some(t)];
    RunTrue([], outcomes);
    assert outcomes[..1] == [Some(e)] && [Some(e)][..0] == [];
    assert LastOpen([Some(e)]) == Some(0);
  }

  // ----- The code, which writes through the pointers in the list -----

  /** The list has an entry of one of the three types the controller looks for. */
  ghost predicate Tracked(cs: seq<ConditionValue>) {
    exists i :: 0 <= i < |cs| && (Reported(cs[i].typ) || cs[i].typ == ResourceSynced)
  }

  /** An update is worth reporting iff there is an error or there was such an entry before. */
  lemma UpdatedMeaning(cs: seq<ConditionValue>, err: Option<Error>)
    ensures Tracked(Next(cs, err)) <==> err.Some? || Tracked(cs)
  {
    NextKeeps(cs, err);
    NextTrue(cs, err);
    var ds := Next(cs, err);
    if i :| 0 <= i < |cs| && (Reported(cs[i].typ) || cs[i].typ == ResourceSynced) {
      assert ds[i].typ == cs[i].typ;
    }
  }

  /** The pointer to the last entry of the type, or nil. */
  ghost predicate IsLast(list: seq<Condition>, typ: ConditionType, c: Condition?)
    reads list
  {
    Points(list, LastOf(Views(list), typ), c)
  }

  ghost predicate Points(list: seq<Condition>, k: Option<nat>, c: Condition?) {
    match k
    case None => c == null
    case Some(n) => n < |list| && c == list[n]
  }

  /** The scan for the three entries; a later entry of a type replaces an earlier one. */
  method FindConditions(list: seq<Condition>)
    returns (terminal: Condition?, recoverable: Condition?, sync: Condition?)
    ensures IsLast(list, Terminal, terminal)
    ensures IsLast(list, Recoverable, recoverable)
    ensures IsLast(list, ResourceSynced, sync)
  {
    terminal, recoverable, sync := null, null, null;
    ghost var vs := Views(list);
    for i := 0 to |list|
      invariant Points(list, LastOf(vs[..i], Terminal), terminal)
      invariant Points(list, LastOf(vs[..i], Recoverable), recoverable)
      invariant Points(list, LastOf(vs[..i], ResourceSynced), sync)
    {
      assert vs[..i + 1][..i] == vs[..i] && vs[i] == list[i].View();
      if list[i].typ == Terminal {
        terminal := list[i];
      }
      if list[i].typ == Recoverable {
        recoverable := list[i];
      }
      if list[i].typ == ResourceSynced {
        sync := list[i];
      }
    }
    assert vs[..|list|] == vs;
  }

  /** A write through the pointer at `k`. Because the entries are apart, it shows at `k` and nowhere else. */
  method Write(ghost list: seq<Condition>, ghost k: nat, c: Condition, status: Truth, message: Option<string>)
    requires Apart(list) && k < |list| && list[k] == c
    modifies c
    ensures Views(list) == old(Views(list))[k := Mark(old(Views(list))[k], status, message)]
    ensures c.status == status && Deref(c.message) == message && c.reason == old(c.reason)
  {
    c.status := status;
    c.message := NewRef(message);
    assert forall i :: 0 <= i < |list| && i != k ==> list[i] != c;
  }

  /** A new entry of a type, behind the others. */
  method Append(list: seq<Condition>, typ: ConditionType) returns (c: Condition, longer: seq<Condition>)
    requires Apart(list)
    ensures fresh(c) && longer == list + [c] && Apart(longer)
    ensures Views(longer) == old(Views(list)) + [ConditionValue(typ, Unknown, None, None)]
  {
    c := new Condition(typ);
    longer := list + [c];
  }

  /** `longer` is the list with at most one new object behind it. */
  twostate predicate Extends(list: seq<Condition>, new longer: seq<Condition>) {
    && |list| <= |longer| <= |list| + 1 && longer[..|list|] == list
    && (|longer| > |list| ==> fresh(longer[|list|]))
  }

  /** The last entry of the type, found or appended, becomes True. */
  method RaiseEntry(list: seq<Condition>, typ: ConditionType, found: Condition?, message: string)
    returns (c: Condition, longer: seq<Condition>)
    requires Apart(list) && IsLast(list, typ, found)
    modifies found
    ensures Views(longer) == Raise(old(Views(list)), typ, message)
    ensures Apart(longer) && Extends(list, longer)
  {
    longer := list;
    if found == null {
      c, longer := Append(list, typ);
      Write(longer, |list|, c, True, Some(message));
    } else {
      c := found;
      Write(list, LastOf(Views(list), typ).value, c, True, Some(message));
    }
  }

  /** The last entry of the type, if there is one, becomes False. */
  method ClearEntry(ghost list: seq<Condition>, typ: ConditionType, found: Condition?)
    requires Apart(list) && IsLast(list, typ, found)
    modifies found
    ensures Views(list) == Clear(old(Views(list)), typ)
  {
    if found != null {
      Write(list, LastOf(Views(list), typ).value, found, False, None);
    }
  }

  lemma TrackedEntries(list: seq<Condition>)
    ensures Tracked(Views(list))
            <==> exists i :: 0 <= i < |list| && list[i].typ in {Terminal, Recoverable, ResourceSynced}
  {
    var cs := Views(list);
    assert forall i :: 0 <= i < |list| ==> cs[i].typ == list[i].typ;
    if i :| 0 <= i < |list| && list[i].typ in {Terminal, Recoverable, ResourceSynced} {
      assert Reported(cs[i].typ) || cs[i].typ == ResourceSynced;
    }
  }

  /** What the outcome does to the list, given the last Terminal and the last Recoverable entry in it. */
  method WriteOutcome(was: seq<Condition>, err: Option<Error>, foundTerminal: Condition?, foundRecoverable: Condition?)
    returns (list: seq<Condition>, terminal: Condition?, recoverable: Condition?)
    requires Apart(was) && IsLast(was, Terminal, foundTerminal) && IsLast(was, Recoverable, foundRecoverable)
    modifies was
    ensures Views(list) == Next(old(Views(was)), err)
    ensures Apart(list) && Extends(was, list)
    ensures terminal != null <==> foundTerminal != null || TerminalOutcome(err)
    ensures recoverable != null <==> foundRecoverable != null || (err.Some? && !TerminalOutcome(err))
  {
    ghost var before := Views(was);
    list, terminal, recoverable := was, foundTerminal, foundRecoverable;
    if TerminalAWSError(err)
       || (err.Some? && (err.value.kind.SecretTypeNotSupported? || err.value.kind.SecretNotFound?
                         || err.value.kind.TerminalError?)) {
      terminal, list := RaiseEntry(list, Terminal, terminal, err.value.message);
    } else {
      ClearEntry(list, Terminal, terminal);
      LastOfByTypes(before, Views(list), Recoverable);
      if err.Some? {
        var message := err.value.message;
        if err.value.aws.Some? {
          message := err.value.aws.value.message;
        }
        recoverable, list := RaiseEntry(list, Recoverable, recoverable, message);
      } else {
        ClearEntry(list, Recoverable, recoverable);
      }
    }
  }

  method UpdateList(was: seq<Condition>, err: Option<Error>) returns (list: seq<Condition>, updated: bool)
    requires Apart(was)
    modifies was
    ensures Views(list) == Next(old(Views(was)), err)
    ensures Apart(list) && Extends(was, list)
    ensures updated <==> Tracked(Views(list))
    ensures updated <==> exists i :: 0 <= i < |list| && list[i].typ in {Terminal, Recoverable, ResourceSynced}
  {
    var terminal, recoverable, sync := FindConditions(was);
    UpdatedMeaning(Views(was), err);
    list, terminal, recoverable := WriteOutcome(was, err, terminal, recoverable);
    updated := terminal != null || recoverable != null || sync != null;
    TrackedEntries(list);
  }

  /** What the Status says after `updateConditions`. */
  ghost function Updated(s: StatusValue, rm: ResourceManager, err: Option<Error>): StatusValue {
    var d := Defaulted(s, rm);
    d.(conditions := Some(Next(d.conditions.value, err)))
  }

  method UpdateStatusList(st: Status, err: Option<Error>) returns (updated: bool)
    requires st.conditions.Some? && Apart(st.conditions.value)
    modifies st`conditions, st.conditions.value
    ensures st.View() == old(st.View()).(conditions := Some(Next(old(Views(st.conditions.value)), err)))
    ensures st.conditions.Some? && Apart(st.conditions.value) && Extends(old(st.conditions.value), st.conditions.value)
    ensures updated <==> Tracked(Views(st.conditions.value))
  {
    var list;
    list, updated := UpdateList(st.conditions.value, err);
    st.conditions := Some(list);
  }

  /** `updateConditions`, on the Status of the deep copy it has just made. */
  method UpdateConditions(rm: ResourceManager, st: Status, err: Option<Error>) returns (updated: bool)
    requires EntriesApart(st.conditions)
    modifies st, st.metadata, Entries(st.conditions)
    ensures st.View() == Updated(old(st.View()), rm, err)
    ensures st.metadata == old(st.metadata) || fresh(st.metadata)
    ensures EntriesApart(st.conditions) && fresh(Entries(st.conditions) - old(Entries(st.conditions)))
    ensures updated <==> Tracked(st.View().conditions.value)
  {
    SetStatusDefaults(rm, st);
    updated := UpdateStatusList(st, err);
  }
}
