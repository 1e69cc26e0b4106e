/** A list of stored resources under put and filtered describe: what AWS is assumed to do, for any resource. */
module Stores {

  function Keep<T>(store: seq<T>, p: T -> bool): seq<T> {
    if store == [] then []
    else (if p(store[0]) then [store[0]] else []) + Keep(store[1..], p)
  }

  /** A put replaces what has the same key and keeps everything else, in order. */
  function Put<T>(store: seq<T>, same: T -> bool, made: T): seq<T> {
    Keep(store, e => !same(e)) + [made]
  }

  lemma {:induction false} KeepAppend<T>(a: seq<T>, b: seq<T>, p: T -> bool)
    ensures Keep(a + b, p) == Keep(a, p) + Keep(b, p)
  {
    if a == [] {
      assert a + b == b;
    } else {
      var head := if p(a[0]) then [a[0]] else [];
      KeepAppend(a[1..], b, p);
      calc {
        Keep(a + b, p);
        { assert (a + b)[0] == a[0] && (a + b)[1..] == a[1..] + b; }
        head + (Keep(a[1..], p) + Keep(b, p));
        (head + Keep(a[1..], p)) + Keep(b, p);
      }
    }
  }

  /** A filter that selects only the key sees nothing of what a put keeps. */
  lemma {:induction false} KeepNone<T(!new)>(store: seq<T>, same: T -> bool, selects: T -> bool)
    requires forall e :: selects(e) ==> same(e)
    ensures Keep(Keep(store, e => !same(e)), selects) == []
  {
    if store != [] {
      var first := if same(store[0]) then [] else [store[0]];
      KeepNone(store[1..], same, selects);
      KeepAppend(first, Keep(store[1..], e => !same(e)), selects);
      if first != [] {
        assert Keep([store[0]][1..], selects) == [];
      }
    }
  }

  /** After a put, a filter that selects the key and nothing else finds what was put and nothing else. */
  lemma PutThenSelect<T(!new)>(store: seq<T>, same: T -> bool, selects: T -> bool, made: T)
    requires forall e :: selects(e) ==> same(e)
    requires selects(made)
    ensures Keep(Put(store, same, made), selects) == [made]
  {
    KeepAppend(Keep(store, e => !same(e)), [made], selects);
    KeepNone(store, same, selects);
    assert Keep([made][1..], selects) == [];
  }

  /** A filter that selects the key finds something. */
  lemma PutIsFound<T>(store: seq<T>, same: T -> bool, selects: T -> bool, made: T)
    requires selects(made)
    ensures Keep(Put(store, same, made), selects) != []
  {
    KeepAppend(Keep(store, e => !same(e)), [made], selects);
    assert Keep([made], selects)[0] == made;
  }

  /** Whatever a filter keeps, it selects. */
  lemma {:induction false} KeepSelects<T>(store: seq<T>, p: T -> bool)
    ensures forall i :: 0 <= i < |Keep(store, p)| ==> p(Keep(store, p)[i])
  {
    if store != [] {
      KeepSelects(store[1..], p);
    }
  }

  /** A filter for everything but the key sees nothing of what was put under it. */
  lemma PutThenRemove<T(!new)>(store: seq<T>, same: T -> bool, others: T -> bool, made: T)
    requires forall e :: others(e) <==> !same(e)
    requires same(made)
    ensures Keep(Put(store, same, made), others) == Keep(store, others)
  {
    KeepAppend(Keep(store, e => !same(e)), [made], others);
    KeepTwice(store, e => !same(e), others);
    KeepSame(store, e => !same(e), others);
    assert Keep([made][1..], others) == [];
  }

  lemma {:induction false} KeepAll<T>(store: seq<T>, p: T -> bool)
    requires forall i :: 0 <= i < |store| ==> p(store[i])
    ensures Keep(store, p) == store
  {
    if store != [] {
      assert forall i :: 0 <= i < |store[1..]| ==> store[1..][i] == store[i + 1];
      KeepAll(store[1..], p);
    }
  }

  lemma {:induction false} KeepSame<T>(store: seq<T>, p: T -> bool, q: T -> bool)
    requires forall i :: 0 <= i < |store| ==> p(store[i]) == q(store[i])
    ensures Keep(store, p) == Keep(store, q)
  {
    if store != [] {
      assert forall i :: 0 <= i < |store[1..]| ==> store[1..][i] == store[i + 1];
      KeepSame(store[1..], p, q);
    }
  }

  lemma {:induction false} KeepTwice<T>(store: seq<T>, p: T -> bool, q: T -> bool)
    requires forall i :: 0 <= i < |store| ==> p(store[i]) == q(store[i])
    ensures Keep(Keep(store, p), q) == Keep(store, p)
  {
    if store != [] {
      assert forall i :: 0 <= i < |store[1..]| ==> store[1..][i] == store[i + 1];
      KeepTwice(store[1..], p, q);
      var head := if p(store[0]) then [store[0]] else [];
      KeepAppend(head, Keep(store[1..], p), q);
      if head != [] {
        assert Keep([store[0]][1..], q) == [];
      }
    }
  }

  /** A filter that lets another key through may find that one first. */
  lemma PutThenStray<T>(other: T, same: T -> bool, selects: T -> bool, made: T)
    requires selects(other) && !same(other)
    ensures Keep(Put([other], same, made), selects) != [] && Keep(Put([other], same, made), selects)[0] == other
  {
  }
}
