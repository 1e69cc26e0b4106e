/** The runtime's condition setters: the first entry of a type is set, or one is appended. */
module AckConditions {
  import opened Pointers
  import opened Statuses
  import Conditions

  function FirstOf(cs: seq<ConditionValue>, typ: ConditionType): (k: Option<nat>)
    ensures k.Some? ==> k.value < |cs| && cs[k.value].typ == typ && forall j :: 0 <= j < k.value ==> cs[j].typ != typ
    ensures k.None? ==> forall j :: 0 <= j < |cs| ==> cs[j].typ != typ
  {
    if cs == [] then None
    else if cs[0].typ == typ then Some(0)
    else
      match FirstOf(cs[1..], typ)
      case None => None
      case Some(k) => Some(k + 1)
  }

  function Put(cs: seq<ConditionValue>, c: ConditionValue): seq<ConditionValue> {
    match FirstOf(cs, c.typ)
    case Some(k) => cs[k := c]
    case None => cs + [c]
  }

  lemma FirstOfIs(cs: seq<ConditionValue>, typ: ConditionType, k: nat)
    requires k < |cs| && cs[k].typ == typ && forall j :: 0 <= j < k ==> cs[j].typ != typ
    ensures FirstOf(cs, typ) == Some(k)
  {
  }

  /** Setting a condition makes it the first of its type and leaves every other type as it was. */
  lemma PutMeaning(cs: seq<ConditionValue>, c: ConditionValue)
    ensures var ds := Put(cs, c);
            && |cs| <= |ds| <= |cs| + 1
            && FirstOf(ds, c.typ).Some? && ds[FirstOf(ds, c.typ).value] == c
            && (forall i :: 0 <= i < |cs| ==> ds[i].typ == cs[i].typ && (cs[i].typ != c.typ ==> ds[i] == cs[i]))
            && (|ds| > |cs| ==> ds[|cs|] == c)
            && (Conditions.UniqueTypes(cs) ==> Conditions.UniqueTypes(ds))
  {
    var ds := Put(cs, c);
    var k := FirstOf(cs, c.typ);
    FirstOfIs(ds, c.typ, if k.Some? then k.value else |cs|);
  }

  ghost predicate Shows(cs: seq<ConditionValue>, typ: ConditionType, status: Truth) {
    FirstOf(cs, typ).Some? && cs[FirstOf(cs, typ).value].status == status
  }

  // ----- The setters, which write through the pointer they find -----

  method FindFirst(list: seq<Condition>, typ: ConditionType) returns (k: Option<nat>)
    ensures k == FirstOf(Views(list), typ)
  {
    for i := 0 to |list|
      invariant forall j :: 0 <= j < i ==> list[j].typ != typ
    {
      if list[i].typ == typ {
        FirstOfIs(Views(list), typ, i);
        return Some(i);
      }
    }
    return None;
  }

  method SetAt(list: seq<Condition>, k: nat, status: Truth, message: Option<string>, reason: Option<string>)
    requires Apart(list) && k < |list|
    modifies list[k]
    ensures Views(list) == old(Views(list))[k := ConditionValue(old(Views(list))[k].typ, status, message, reason)]
  {
    Conditions.Write(list, k, list[k], status, message);
    ghost var written := Views(list);
    assert forall i :: 0 <= i < |list| && i != k ==> list[i] != list[k];
    list[k].reason := NewRef(reason);
    assert Views(list) == written[k := written[k].(reason := reason)];
  }

  method AppendSet(was: seq<Condition>, typ: ConditionType, status: Truth,
                   message: Option<string>, reason: Option<string>)
    returns (list: seq<Condition>)
    requires Apart(was)
    ensures Views(list) == old(Views(was)) + [ConditionValue(typ, status, message, reason)]
    ensures Apart(list) && Conditions.Extends(was, list) && fresh(list[|was|])
  {
    var c;
    c, list := Conditions.Append(was, typ);
    assert Views(list)[|was|].typ == typ;
    SetAt(list, |was|, status, message, reason);
  }

  method SetInList(was: seq<Condition>, typ: ConditionType, status: Truth,
                   message: Option<string>, reason: Option<string>)
    returns (list: seq<Condition>)
    requires Apart(was)
    modifies was
    ensures Views(list) == Put(old(Views(was)), ConditionValue(typ, status, message, reason))
    ensures Apart(list) && Conditions.Extends(was, list)
  {
    list := was;
    var k := FindFirst(list, typ);
    if k.None? {
      list := AppendSet(list, typ, status, message, reason);
    } else {
      assert Views(list)[k.value].typ == typ;
      SetAt(list, k.value, status, message, reason);
    }
  }

  /** The list a Status has after defaults. */
  ghost function ListIn(s: StatusValue): seq<ConditionValue> {
    if s.conditions.None? then [] else s.conditions.value
  }

  method SetCondition(st: Status, typ: ConditionType, status: Truth, message: Option<string>, reason: Option<string>)
    requires EntriesApart(st.conditions)
    modifies st`conditions, Entries(st.conditions)
    ensures st.View() == old(st.View()).(
              conditions := Some(Put(ListIn(old(st.View())), ConditionValue(typ, status, message, reason))))
    ensures EntriesApart(st.conditions) && fresh(Entries(st.conditions) - old(Entries(st.conditions)))
  {
    var list := if st.conditions.None? then [] else st.conditions.value;
    list := SetInList(list, typ, status, message, reason);
    st.conditions := Some(list);
  }
}
