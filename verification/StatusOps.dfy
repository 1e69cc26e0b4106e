/** Status bookkeeping that the two resources' finds, creates and updates share. */
module StatusOps {
  import opened Pointers
  import opened Statuses
  import opened Wire
  import Conditions

  type Error = Conditions.Error

  const NOT_FOUND: Error := Conditions.Error(Conditions.NotFound, "not found", None)

  /** The encoder's own error names the field. */
  function RangeError(f: Int32Field): Error {
    Conditions.Error(Conditions.OutOfRange(f), "range", None)
  }

  // ----- Status after each operation -----

  ghost function WithARN(m: Option<MetadataValue>, arn: Option<string>): Option<MetadataValue> {
    if arn.None? then m
    else
      var v := if m.None? then MetadataValue(None, None, None, None) else m.value;
      Some(v.(arn := arn))
  }

  /** LastModifiedTime starts as CreationTime and is not touched by a read once it is set. */
  ghost function FinishedStatus(s: StatusValue, rm: ResourceManager): StatusValue {
    Defaulted(s, rm).(lastModifiedTime := if s.lastModifiedTime.None? then s.creationTime else s.lastModifiedTime)
  }

  /** What a read leaves of the Status it started from. */
  ghost function FoundStatus(s: StatusValue, rm: ResourceManager, created: Option<int>, arn: Option<string>)
    : StatusValue
  {
    FinishedStatus(s.(creationTime := created, metadata := WithARN(s.metadata, arn)), rm)
  }

  ghost function PutStatus(s: StatusValue, rm: ResourceManager, arn: Option<string>): StatusValue {
    var m := if s.metadata.None? then Some(MetadataValue(None, None, None, None)) else s.metadata;
    Defaulted(s.(metadata := WithARN(m, arn)), rm)
  }

  /** A read brings the creation time and the ARN, when there is one, and starts LastModifiedTime. */
  lemma FoundSays(s: StatusValue, rm: ResourceManager, created: Option<int>, arn: Option<string>)
    ensures var t := FoundStatus(s, rm, created, arn);
            && t.creationTime == created
            && t.lastModifiedTime == (if s.lastModifiedTime.Some? then s.lastModifiedTime else created)
            && t.conditions == (if s.conditions.None? then Some([]) else s.conditions)
            && t.metadata.Some? && MetadataSays(s.metadata, t.metadata.value, rm, arn)
  {
  }

  /** A create or update brings the ARN, when there is one, and leaves the times and the conditions alone. */
  lemma PutSays(s: StatusValue, rm: ResourceManager, arn: Option<string>)
    ensures var t := PutStatus(s, rm, arn);
            && t.creationTime == s.creationTime && t.lastModifiedTime == s.lastModifiedTime
            && t.conditions == (if s.conditions.None? then Some([]) else s.conditions)
            && t.metadata.Some? && MetadataSays(s.metadata, t.metadata.value, rm, arn)
  {
  }

  /** The ARN just sent or else the old one; everything else as it was, or the manager's. */
  ghost predicate MetadataSays(was: Option<MetadataValue>, now: MetadataValue, rm: ResourceManager,
                               arn: Option<string>) {
    && now.arn == (if arn.Some? then arn else if was.Some? then was.value.arn else None)
    && now.region == Some(if was.Some? && was.value.region.Some? then was.value.region.value else rm.awsRegion.v)
    && now.partition == Some(if was.Some? && was.value.partition.Some? then was.value.partition.value
                             else rm.awsPartition.v)
    && now.ownerAccountID == Some(if was.Some? && was.value.ownerAccountID.Some? then was.value.ownerAccountID.value
                                  else rm.awsAccountID.v)
  }

  method SetARN(st: Status, arn: Option<string>)
    modifies st`metadata, st.metadata
    ensures st.View() == old(st.View()).(metadata := WithARN(old(st.View()).metadata, arn))
    ensures st.metadata == old(st.metadata) || fresh(st.metadata)
  {
    if arn.Some? {
      if st.metadata == null {
        st.metadata := new ResourceMetadata();
      }
      st.metadata.arn := new Ref(arn.value);
    }
  }

  method CustomSetLastModifiedTimeToCreationTime(st: Status)
    modifies st`lastModifiedTime
    ensures st.View() == old(st.View()).(lastModifiedTime :=
              if old(st.lastModifiedTime) == null then old(st.View()).creationTime else old(st.View()).lastModifiedTime)
    ensures old(st.lastModifiedTime) == null ==> st.lastModifiedTime == old(st.creationTime) // one shared cell
  {
    if st.creationTime != null && st.lastModifiedTime == null {
      st.lastModifiedTime := st.creationTime;
    }
  }

  method CustomSetLastModifiedTimeToCurrentTime(st: Status, now: int)
    modifies st`lastModifiedTime
    ensures st.View() == old(st.View()).(lastModifiedTime := Some(now))
  {
    st.lastModifiedTime := new Ref(now);
  }

  method MergeStatus(st: Status, created: Option<int>, arn: Option<string>)
    modifies st`creationTime, st`metadata, st.metadata
    ensures st.View() == old(st.View()).(creationTime := created, metadata := WithARN(old(st.View()).metadata, arn))
    ensures st.metadata == old(st.metadata) || fresh(st.metadata)
  {
    st.creationTime := NewRef(created);
    SetARN(st, arn);
  }

  /** The end of a find: defaults, then LastModifiedTime. */
  method FinishFound(rm: ResourceManager, st: Status)
    modifies st`metadata, st`conditions, st`lastModifiedTime, st.metadata
    ensures st.View() == FinishedStatus(old(st.View()), rm)
    ensures st.metadata == old(st.metadata) || fresh(st.metadata)
    ensures st.conditions == Or(old(st.conditions), [])
  {
    SetStatusDefaults(rm, st);
    CustomSetLastModifiedTimeToCreationTime(st);
  }

  method FinishPut(rm: ResourceManager, st: Status, arn: Option<string>)
    modifies st`metadata, st`conditions, st.metadata
    ensures st.View() == PutStatus(old(st.View()), rm, arn)
    ensures st.metadata == old(st.metadata) || fresh(st.metadata)
    ensures st.conditions == Or(old(st.conditions), [])
  {
    if st.metadata == null {
      st.metadata := new ResourceMetadata();
    }
    SetARN(st, arn);
    SetStatusDefaults(rm, st);
  }

  /** A code of "UNKNOWN" means that the resource does not exist. */
  ghost function ReadError(e: Error): Error {
    if e.aws.Some? && e.aws.value.code == "UNKNOWN" then NOT_FOUND else e
  }
}
