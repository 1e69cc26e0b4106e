/** Resource Status: metadata, conditions and times, with its generated deep copy. */
module Statuses {
  import opened Pointers

  datatype ConditionType = Terminal | Recoverable | ResourceSynced | LateInitialized | OtherType(name: string)

  datatype Truth = True | False | Unknown

  /** What one entry of Status.Conditions says. */
  datatype ConditionValue = ConditionValue(
    typ: ConditionType, status: Truth, message: Option<string>, reason: Option<string>)

  datatype MetadataValue = MetadataValue(
    arn: Option<string>, ownerAccountID: Option<string>, region: Option<string>, partition: Option<string>)

  datatype StatusValue = StatusValue(
    metadata: Option<MetadataValue>, conditions: Option<seq<ConditionValue>>,
    creationTime: Option<int>, lastModifiedTime: Option<int>)

  // ----- Conditions, which the list holds by pointer -----

  class Condition {
    var typ: ConditionType
    var status: Truth
    var message: Ref?<string>
    var reason: Ref?<string>

    constructor (typ: ConditionType)
      ensures View() == ConditionValue(typ, Unknown, None, None)
    {
      this.typ, status, message, reason := typ, Unknown, null, null;
    }

    function View(): ConditionValue
      reads this
    {
      ConditionValue(typ, status, Deref(message), Deref(reason))
    }

    ghost function Owned(): set<object>
      reads this
    {
      {this} + Cell(message) + Cell(reason)
    }

    method DeepCopyInto(out: Condition)
      modifies out
      ensures out.View() == old(View())
      ensures fresh(out.Owned() - {out})
    {
      out.typ, out.status, out.message, out.reason := typ, status, message, reason;
      out.message := CopyRef(out.message);
      out.reason := CopyRef(out.reason);
    }
  }

  function Views(cs: seq<Condition>): (vs: seq<ConditionValue>)
    reads cs
    ensures |vs| == |cs|
  {
    seq(|cs|, i requires 0 <= i < |cs| reads cs => cs[i].View())
  }

  /** The objects of a list. */
  function Entries(cs: Option<seq<Condition>>): set<Condition> {
    if cs.None? then {} else set c | c in cs.value
  }

  function ConditionsView(cs: Option<seq<Condition>>): Option<seq<ConditionValue>>
    reads Entries(cs)
  {
    if cs.None? then None else Some(Views(cs.value))
  }

  /** No object is listed twice, so a write through one entry shows in that entry alone. */
  ghost predicate Apart(cs: seq<Condition>) {
    forall i, j :: 0 <= i < j < |cs| ==> cs[i] != cs[j]
  }

  ghost predicate EntriesApart(cs: Option<seq<Condition>>) {
    cs.Some? ==> Apart(cs.value)
  }

  /** Every entry becomes an object of its own, even where the list held one object twice. */
  method CopyConditions(cs: Option<seq<Condition>>) returns (ds: Option<seq<Condition>>)
    ensures ConditionsView(ds) == old(ConditionsView(cs))
    ensures fresh(Entries(ds)) && EntriesApart(ds)
  {
    if cs.None? {
      return None;
    }
    var list: seq<Condition> := [];
    for i := 0 to |cs.value|
      invariant |list| == i && Apart(list)
      invariant forall j :: 0 <= j < i ==> fresh(list[j]) && list[j].View() == old(cs.value[j].View())
    {
      var c := new Condition(OtherType(""));
      cs.value[i].DeepCopyInto(c);
      list := list + [c];
    }
    assert Views(list) == old(Views(cs.value));
    return Some(list);
  }

  /** Objects that say what is wanted, each its own. */
  method NewConditions(vs: Option<seq<ConditionValue>>) returns (ds: Option<seq<Condition>>)
    ensures ConditionsView(ds) == vs
    ensures fresh(Entries(ds)) && EntriesApart(ds)
  {
    if vs.None? {
      return None;
    }
    var list: seq<Condition> := [];
    for i := 0 to |vs.value|
      invariant |list| == i && Apart(list)
      invariant forall j :: 0 <= j < i ==> fresh(list[j]) && list[j].View() == vs.value[j]
    {
      var c := new Condition(vs.value[i].typ);
      c.status := vs.value[i].status;
      c.message := NewRef(vs.value[i].message);
      c.reason := NewRef(vs.value[i].reason);
      list := list + [c];
    }
    assert Views(list) == vs.value;
    return Some(list);
  }

  class ResourceMetadata {
    var arn: Ref?<string>
    var ownerAccountID: Ref?<string>
    var region: Ref?<string>
    var partition: Ref?<string>

    constructor ()
      ensures View() == MetadataValue(None, None, None, None)
      ensures arn == null && ownerAccountID == null && region == null && partition == null
    {
      arn, ownerAccountID, region, partition := null, null, null, null;
    }

    ghost function View(): MetadataValue
      reads this
    {
      MetadataValue(Deref(arn), Deref(ownerAccountID), Deref(region), Deref(partition))
    }

    ghost function Owned(): set<object>
      reads this
    {
      {this} + Cell(arn) + Cell(ownerAccountID) + Cell(region) + Cell(partition)
    }

    method DeepCopy() returns (out: ResourceMetadata)
      ensures out.View() == View()
      ensures fresh(out.Owned())
    {
      out := new ResourceMetadata();
      out.arn := CopyRef(arn);
      out.ownerAccountID := CopyRef(ownerAccountID);
      out.region := CopyRef(region);
      out.partition := CopyRef(partition);
    }
  }

  ghost function MetadataView(m: ResourceMetadata?): Option<MetadataValue>
    reads m
  {
    if m == null then None else Some(m.View())
  }

  ghost function MetadataOwned(m: ResourceMetadata?): set<object>
    reads m
  {
    if m == null then {} else m.Owned()
  }

  method CopyMetadata(m: ResourceMetadata?) returns (n: ResourceMetadata?)
    ensures MetadataView(n) == old(MetadataView(m))
    ensures fresh(MetadataOwned(n))
  {
    n := null;
    if m != null {
      n := m.DeepCopy();
    }
  }

  class Status {
    var metadata: ResourceMetadata?
    var conditions: Option<seq<Condition>>
    var creationTime: Ref?<int>
    var lastModifiedTime: Ref?<int>

    constructor ()
      ensures View() == StatusValue(None, None, None, None)
      ensures metadata == null && conditions == None
    {
      metadata, conditions, creationTime, lastModifiedTime := null, None, null, null;
    }

    ghost function View(): StatusValue
      reads this, metadata, Entries(conditions)
    {
      StatusValue(MetadataView(metadata), ConditionsView(conditions), Deref(creationTime), Deref(lastModifiedTime))
    }

    method UnshareTimes()
      modifies `creationTime, `lastModifiedTime
      ensures Deref(creationTime) == old(Deref(creationTime)) && Deref(lastModifiedTime) == old(Deref(lastModifiedTime))
      ensures MetadataView(metadata) == old(MetadataView(metadata))
      ensures ConditionsView(conditions) == old(ConditionsView(conditions))
      ensures fresh(Cell(creationTime) + Cell(lastModifiedTime))
    {
      creationTime := CopyRef(creationTime);
      lastModifiedTime := CopyRef(lastModifiedTime);
    }

    method UnshareConditions()
      modifies `conditions
      ensures ConditionsView(conditions) == old(ConditionsView(conditions))
      ensures MetadataView(metadata) == old(MetadataView(metadata))
      ensures fresh(Entries(conditions)) && EntriesApart(conditions)
    {
      conditions := CopyConditions(conditions);
    }

    method UnshareMetadata()
      modifies `metadata
      ensures MetadataView(metadata) == old(MetadataView(metadata))
      ensures ConditionsView(conditions) == old(ConditionsView(conditions))
      ensures fresh(MetadataOwned(metadata))
    {
      metadata := CopyMetadata(metadata);
    }

    /** `*out = *in`: the pointers are shared. */
    method ShallowCopyInto(out: Status)
      modifies out
      ensures out.View() == old(View())
    {
      out.metadata, out.conditions := metadata, conditions;
      out.creationTime, out.lastModifiedTime := creationTime, lastModifiedTime;
    }

    /** Afterwards `out` says what the receiver said and shares neither metadata, conditions nor times with it. */
    method DeepCopyInto(out: Status)
      modifies out
      ensures out.View() == old(View())
      ensures fresh(MetadataOwned(out.metadata)) && fresh(Entries(out.conditions)) && EntriesApart(out.conditions)
      ensures fresh(Cell(out.creationTime) + Cell(out.lastModifiedTime))
    {
      ShallowCopyInto(out);
      out.UnshareTimes();
      out.UnshareConditions();
      out.UnshareMetadata();
    }
  }

  method CopyStatus(s: Status) returns (out: Status)
    ensures out.View() == old(s.View())
    ensures fresh(out)
    ensures fresh(MetadataOwned(out.metadata)) && fresh(Entries(out.conditions)) && EntriesApart(out.conditions)
  {
    out := new Status();
    s.DeepCopyInto(out);
  }

  /** The manager of one account and region. Defaulted metadata points at its three cells. */
  class ResourceManager {
    const awsAccountID: Ref<string>
    const awsRegion: Ref<string>
    const awsPartition: Ref<string>

    constructor (id: string, region: string, partition: string)
      ensures awsAccountID.v == id && awsRegion.v == region && awsPartition.v == partition
    {
      awsAccountID := new Ref(id);
      awsRegion := new Ref(region);
      awsPartition := new Ref(partition);
    }
  }

  ghost function Or<T>(o: Option<T>, d: T): Option<T> {
    if o.None? then Some(d) else o
  }

  ghost function DefaultMetadata(m: Option<MetadataValue>, rm: ResourceManager): MetadataValue {
    var v := if m.None? then MetadataValue(None, None, None, None) else m.value;
    v.(region := Or(v.region, rm.awsRegion.v), partition := Or(v.partition, rm.awsPartition.v),
       ownerAccountID := Or(v.ownerAccountID, rm.awsAccountID.v))
  }

  /** What `setStatusDefaults` leaves behind. */
  ghost function Defaulted(s: StatusValue, rm: ResourceManager): StatusValue {
    s.(metadata := Some(DefaultMetadata(s.metadata, rm)), conditions := Or(s.conditions, []))
  }

  /** Defaults are set once: a second pass changes nothing, whichever manager makes it. */
  lemma DefaultedTwice(s: StatusValue, rm: ResourceManager, other: ResourceManager)
    ensures Defaulted(Defaulted(s, rm), other) == Defaulted(s, rm)
  {
  }

  method SetStatusDefaults(rm: ResourceManager, st: Status)
    modifies st`metadata, st`conditions, st.metadata
    ensures st.View() == Defaulted(old(st.View()), rm)
    ensures st.metadata != null && (old(st.metadata) == null ==> fresh(st.metadata))
    ensures old(st.metadata) != null ==> st.metadata == old(st.metadata)
    ensures st.metadata.arn == old(if st.metadata == null then null else st.metadata.arn)
    ensures st.metadata.region
            == old(if st.metadata == null || st.metadata.region == null then rm.awsRegion else st.metadata.region)
    ensures st.metadata.partition
            == old(if st.metadata == null || st.metadata.partition == null then rm.awsPartition
                   else st.metadata.partition)
    ensures st.metadata.ownerAccountID
            == old(if st.metadata == null || st.metadata.ownerAccountID == null then rm.awsAccountID
                   else st.metadata.ownerAccountID)
    ensures st.conditions == Or(old(st.conditions), [])
    ensures st.conditions == if old(st.conditions).None? then Some([]) else old(st.conditions)
  {
    if st.metadata == null {
      st.metadata := new ResourceMetadata();
    }
    if st.metadata.region == null {
      st.metadata.region := rm.awsRegion;
    }
    if st.metadata.partition == null {
      st.metadata.partition := rm.awsPartition;
    }
    if st.metadata.ownerAccountID == null {
      st.metadata.ownerAccountID := rm.awsAccountID;
    }
    if st.conditions.None? {
      st.conditions := Some([]);
    }
  }
}
