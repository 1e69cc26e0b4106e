/**
 * Differences between two resources.
 *
 * A resource is seen as a tree: a function from field paths to nodes. The specification of every
 * comparison is one definition, `Recorded`: of the schema's paths, in order, those where the trees differ
 * although they agree at every enclosing path.
 */
module Deltas {
  import opened Pointers

  datatype Field =
    | Spec
    | PolicyName | PolicyType | ResourceID | ScalableDimension | ServiceNamespace
    | StepConfig | AdjustmentType | Cooldown | MetricAggregationType | MinAdjustmentMagnitude | StepAdjustments
    | TrackingConfig | CustomizedMetric | Dimensions | MetricName | Namespace | Statistic | Unit
    | DisableScaleIn | PredefinedMetric | PredefinedMetricType | ResourceLabel
    | ScaleInCooldown | ScaleOutCooldown | TargetValue
    | MaxCapacity | MinCapacity | RoleARN | RoleRef
    | SuspendedState | DynamicScalingInSuspended | DynamicScalingOutSuspended | ScheduledScalingSuspended

  /** A dotted field path, split at the dots. The empty path names the resource itself. */
  type Path = seq<Field>

  /** A nil pointer, a struct, or a value. */
  datatype Node<+V> = Absent | Group | Leaf(v: V)

  type Tree<!V> = Path -> Node<V>

  /** How `ackcompare.HasNilDifference`, which lives in another repository, reads a pointer to "". */
  datatype NilReading = Strict | EmptyIsNil

  function ReadString(reading: NilReading, s: Option<string>): Option<string> {
    if reading.EmptyIsNil? && s == Some("") then None else s
  }

  class Delta {
    var paths: seq<Path>

    constructor ()
      ensures paths == []
    {
      paths := [];
    }

    method Add(p: Path)
      modifies this
      ensures paths == old(paths) + [p]
    {
      paths := paths + [p];
    }
  }

  // ----- Which paths a comparison must record -----

  ghost predicate Agree<V(!new)>(f: Tree<V>, g: Tree<V>, p: Path) {
    forall k :: 0 < k <= |p| ==> f(p[..k]) == g(p[..k])
  }

  /** The trees differ at `p` and nowhere above it. */
  ghost predicate Minimal<V(!new)>(f: Tree<V>, g: Tree<V>, p: Path) {
    |p| > 0 && f(p) != g(p) && Agree(f, g, p[..|p| - 1])
  }

  ghost function Recorded<V(!new)>(ps: seq<Path>, f: Tree<V>, g: Tree<V>): seq<Path> {
    if ps == [] then []
    else (if Minimal(f, g, ps[0]) then [ps[0]] else []) + Recorded(ps[1..], f, g)
  }

  lemma {:induction false} RecordedAppend<V(!new)>(ps: seq<Path>, qs: seq<Path>, f: Tree<V>, g: Tree<V>)
    ensures Recorded(ps + qs, f, g) == Recorded(ps, f, g) + Recorded(qs, f, g)
  {
    if ps == [] {
      assert ps + qs == qs;
    } else {
      assert (ps + qs)[1..] == ps[1..] + qs;
      RecordedAppend(ps[1..], qs, f, g);
    }
  }

  lemma {:induction false} RecordedMember<V(!new)>(ps: seq<Path>, f: Tree<V>, g: Tree<V>, p: Path)
    ensures p in Recorded(ps, f, g) <==> p in ps && Minimal(f, g, p)
  {
    if ps != [] {
      RecordedMember(ps[1..], f, g, p);
    }
  }

  lemma {:induction false} RecordedNone<V(!new)>(ps: seq<Path>, f: Tree<V>, g: Tree<V>)
    requires forall i :: 0 <= i < |ps| ==> !Minimal(f, g, ps[i])
    ensures Recorded(ps, f, g) == []
  {
    if ps != [] {
      assert forall i :: 0 <= i < |ps[1..]| ==> ps[1..][i] == ps[i + 1];
      RecordedNone(ps[1..], f, g);
    }
  }

  /** A path of a known length is minimal iff the trees differ there and agree at each shorter one. */
  lemma MinimalTop<V(!new)>(f: Tree<V>, g: Tree<V>, s: Field, m: Field)
    ensures Minimal(f, g, [s, m]) <==> f([s, m]) != g([s, m]) && f([s]) == g([s])
  {
    var p := [s, m];
    assert p[..1] == [s] && [s][..1] == [s];
  }

  lemma MinimalInner<V(!new)>(f: Tree<V>, g: Tree<V>, s: Field, t: Field, m: Field)
    ensures Minimal(f, g, [s, t, m]) <==> f([s, t, m]) != g([s, t, m]) && f([s]) == g([s]) && f([s, t]) == g([s, t])
  {
    var p, q := [s, t, m], [s, t];
    assert p[..2] == q && q[..1] == [s] && q[..2] == q;
  }

  lemma MinimalDeep<V(!new)>(f: Tree<V>, g: Tree<V>, s: Field, t: Field, w: Field, m: Field)
    ensures Minimal(f, g, [s, t, w, m])
            <==> && f([s, t, w, m]) != g([s, t, w, m])
                 && f([s]) == g([s]) && f([s, t]) == g([s, t]) && f([s, t, w]) == g([s, t, w])
  {
    var p, q := [s, t, w, m], [s, t, w];
    assert p[..3] == q && q[..1] == [s] && q[..2] == [s, t] && q[..3] == q;
  }

  // ----- The shape of every delta -----

  ghost predicate Distinct(ps: seq<Path>) {
    forall i, j :: 0 <= i < j < |ps| ==> ps[i] != ps[j]
  }

  lemma {:induction false} RecordedDistinct<V(!new)>(ps: seq<Path>, f: Tree<V>, g: Tree<V>)
    requires Distinct(ps)
    ensures Distinct(Recorded(ps, f, g))
  {
    if ps != [] {
      assert forall i, j :: 0 <= i < j < |ps[1..]| ==> ps[1..][i] == ps[i + 1] && ps[1..][j] == ps[j + 1];
      RecordedDistinct(ps[1..], f, g);
      RecordedMember(ps[1..], f, g, ps[0]);
      assert ps[0] !in ps[1..];
    }
  }

  /** No recorded path lies inside another: a missing struct is never reported with its own members. */
  lemma RecordedPrefixFree<V(!new)>(ps: seq<Path>, f: Tree<V>, g: Tree<V>, p: Path, q: Path)
    requires p in Recorded(ps, f, g) && q in Recorded(ps, f, g) && |p| < |q|
    ensures q[..|p|] != p
  {
    RecordedMember(ps, f, g, p);
    RecordedMember(ps, f, g, q);
    assert q[..|q| - 1][..|p|] == q[..|p|];
  }

  lemma {:induction false} RecordedSymmetric<V(!new)>(ps: seq<Path>, f: Tree<V>, g: Tree<V>)
    ensures Recorded(ps, f, g) == Recorded(ps, g, f)
  {
    if ps != [] {
      RecordedSymmetric(ps[1..], f, g);
    }
  }

  // ----- Comparing one field -----

  /** The path of a member of the struct at `parent`. */
  function Under(parent: Path, field: Field): Path {
    parent + [field]
  }

  /** The paths of some members of one struct. */
  function Members(parent: Path, fields: seq<Field>): seq<Path> {
    seq(|fields|, i requires 0 <= i < |fields| => Under(parent, fields[i]))
  }

  ghost function One<V(!new)>(p: Path, f: Tree<V>, g: Tree<V>): seq<Path> {
    if f(p) != g(p) then [p] else []
  }

  lemma RecordMember<V(!new)>(parent: Path, seen: seq<Field>, field: Field, f: Tree<V>, g: Tree<V>)
    requires Agree(f, g, parent)
    ensures var p := Under(parent, field);
            Recorded(Members(parent, seen + [field]), f, g) == Recorded(Members(parent, seen), f, g) + One(p, f, g)
  {
    var p := Under(parent, field);
    assert p[..|p| - 1] == parent;
    assert Members(parent, seen + [field]) == Members(parent, seen) + [p];
    RecordedAppend(Members(parent, seen), [p], f, g);
  }

  /** One more member of the same struct, behind what `start` already holds. */
  lemma RecordNext<V(!new)>(start: seq<Path>, parent: Path, seen: seq<Field>, field: Field, all: seq<Field>,
                            f: Tree<V>, g: Tree<V>)
    requires Agree(f, g, parent) && all == seen + [field]
    ensures start + Recorded(Members(parent, all), f, g)
            == start + Recorded(Members(parent, seen), f, g) + One(Under(parent, field), f, g)
  {
    RecordMember(parent, seen, field, f, g);
    var r, o := Recorded(Members(parent, seen), f, g), One(Under(parent, field), f, g);
    assert start + (r + o) == start + r + o;
  }

  lemma RecordTwo<V(!new)>(start: seq<Path>, parent: Path, m0: Field, m1: Field, f: Tree<V>, g: Tree<V>)
    requires Agree(f, g, parent)
    ensures start + Recorded(Members(parent, [m0, m1]), f, g)
            == start + One(Under(parent, m0), f, g) + One(Under(parent, m1), f, g)
  {
    assert Members(parent, []) == [];
    assert start + [] == start;
    RecordNext(start, parent, [], m0, [m0], f, g);
    RecordNext(start, parent, [m0], m1, [m0, m1], f, g);
  }

  lemma RecordThree<V(!new)>(start: seq<Path>, parent: Path, m0: Field, m1: Field, m2: Field, f: Tree<V>, g: Tree<V>)
    requires Agree(f, g, parent)
    ensures start + Recorded(Members(parent, [m0, m1, m2]), f, g)
            == start + One(Under(parent, m0), f, g) + One(Under(parent, m1), f, g) + One(Under(parent, m2), f, g)
  {
    RecordTwo(start, parent, m0, m1, f, g);
    RecordNext(start, parent, [m0, m1], m2, [m0, m1, m2], f, g);
  }

  lemma RecordFive<V(!new)>(start: seq<Path>, parent: Path, m0: Field, m1: Field, m2: Field, m3: Field, m4: Field,
                            f: Tree<V>, g: Tree<V>)
    requires Agree(f, g, parent)
    ensures start + Recorded(Members(parent, [m0, m1, m2, m3, m4]), f, g)
            == start + One(Under(parent, m0), f, g) + One(Under(parent, m1), f, g) + One(Under(parent, m2), f, g)
               + One(Under(parent, m3), f, g) + One(Under(parent, m4), f, g)
  {
    RecordThree(start, parent, m0, m1, m2, f, g);
    RecordNext(start, parent, [m0, m1, m2], m3, [m0, m1, m2, m3], f, g);
    RecordNext(start, parent, [m0, m1, m2, m3], m4, [m0, m1, m2, m3, m4], f, g);
  }

  /** A struct and its members: a difference at the struct hides its members, agreement opens them. */
  lemma RecordGroup<V(!new)>(parent: Path, field: Field, members: seq<Path>, f: Tree<V>, g: Tree<V>)
    requires Agree(f, g, parent)
    requires forall i :: 0 <= i < |members| ==>
                           |members[i]| > |parent| + 1 && members[i][..|parent| + 1] == Under(parent, field)
    ensures var q := Under(parent, field);
            && (f(q) != g(q) ==> Recorded(Members(parent, [field]) + members, f, g) == [q])
            && (f(q) == g(q) ==>
                  Agree(f, g, q) && Recorded(Members(parent, [field]) + members, f, g) == Recorded(members, f, g))
  {
    var q := Under(parent, field);
    assert Members(parent, []) == [] && [] + [field] == [field];
    RecordMember(parent, [], field, f, g);
    RecordedAppend(Members(parent, [field]), members, f, g);
    if f(q) != g(q) {
      forall i | 0 <= i < |members|
        ensures !Minimal(f, g, members[i])
      {
        var p := members[i];
        assert p[..|p| - 1][..|q|] == q;
      }
      RecordedNone(members, f, g);
    } else {
      forall k | 0 < k <= |q|
        ensures f(q[..k]) == g(q[..k])
      {
        if k == |q| {
          assert q[..k] == q;
        } else {
          assert q[..k] == parent[..k];
        }
      }
    }
  }

  method CompareField<T(==)>(delta: Delta, p: Path, a: Ref?<T>, b: Ref?<T>)
    modifies delta
    ensures delta.paths == old(delta.paths) + (if Deref(a) != Deref(b) then [p] else [])
  {
    if (a == null) != (b == null) {
      delta.Add(p);
    } else if a != null && b != null {
      if a.v != b.v {
        delta.Add(p);
      }
    }
  }

  predicate HasNilDifference(reading: NilReading, a: Ref?<string>, b: Ref?<string>) {
    ReadString(reading, Deref(a)).None? != ReadString(reading, Deref(b)).None?
  }

  method CompareString(delta: Delta, reading: NilReading, p: Path, a: Ref?<string>, b: Ref?<string>)
    modifies delta
    ensures delta.paths == old(delta.paths)
                           + (if ReadString(reading, Deref(a)) != ReadString(reading, Deref(b)) then [p] else [])
  {
    if HasNilDifference(reading, a, b) {
      delta.Add(p);
    } else if a != null && b != null {
      if a.v != b.v {
        delta.Add(p);
      }
    }
  }
}
