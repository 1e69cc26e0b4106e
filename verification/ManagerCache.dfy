/**
 * The manager cache under concurrent calls.
 *
 * Each call of `ManagerFor` looks its key up under the read lock and, on a miss, builds and stores under
 * the write lock without looking again. Every lock operation and every access in between is a step of its
 * own, and a run interleaves the steps of any number of calls in any order.
 */
module ManagerCache {
  import opened Pointers
  import opened Statuses

  datatype Request = Request(id: string, region: string, role: string)

  /** A manager object: `uid` is its identity, counted at allocation. */
  datatype Manager = Manager(uid: nat, id: string, region: string)

  function Key(r: Request): string {
    r.id + "/" + r.region + "/" + r.role
  }

  datatype Pc =
    | Start
    | Reading                       // holds the read lock
    | Looked(found: Option<Manager>) // holds the read lock
    | Missed
    | Building | Built(made: Manager) | Stored(kept: Manager) | Broken // hold the write lock
    | Done(result: Manager, missed: bool)
    | Failed

  datatype Call = Call(req: Request, pc: Pc)

  /** The lock is known by its holders; `made` counts the managers built so far. */
  datatype State = State(
    cache: map<string, Manager>, readers: set<nat>, writer: Option<nat>, calls: seq<Call>, made: nat)

  const INIT := State(map[], {}, None, [], 0)

  datatype Action =
    | Begin(req: Request)
    | RLock(c: nat) | Lookup(c: nat) | RUnlock(c: nat)
    | Lock(c: nat) | Build(c: nat) | FailBuild(c: nat) | Store(c: nat) | Unlock(c: nat)

  predicate Enabled(s: State, a: Action) {
    if a.Begin? then true
    else
      a.c < |s.calls| &&
      var pc := s.calls[a.c].pc;
      match a
      case RLock(_) => pc.Start? && s.writer.None?
      case Lookup(_) => pc.Reading?
      case RUnlock(_) => pc.Looked?
      case Lock(_) => pc.Missed? && s.writer.None? && s.readers == {}
      case Build(_) => pc.Building?
      case FailBuild(_) => pc.Building?
      case Store(_) => pc.Built?
      case Unlock(_) => pc.Stored? || pc.Broken?
  }

  function Move(s: State, c: nat, pc: Pc): State
    requires c < |s.calls|
  {
    s.(calls := s.calls[c := s.calls[c].(pc := pc)])
  }

  function Find(cache: map<string, Manager>, key: string): Option<Manager> {
    if key in cache then Some(cache[key]) else None
  }

  function Do(s: State, a: Action): State
    requires Enabled(s, a)
  {
    match a
    case Begin(req) => s.(calls := s.calls + [Call(req, Start)])
    case RLock(c) => Move(s, c, Reading).(readers := s.readers + {c})
    case Lookup(c) => Move(s, c, Looked(Find(s.cache, Key(s.calls[c].req))))
    case RUnlock(c) =>
      var found := s.calls[c].pc.found;
      Move(s, c, if found.Some? then Done(found.value, false) else Missed).(readers := s.readers - {c})
    case Lock(c) => Move(s, c, Building).(writer := Some(c))
    case Build(c) => Move(s, c, Built(Manager(s.made, s.calls[c].req.id, s.calls[c].req.region))).(made := s.made + 1)
    case FailBuild(c) => Move(s, c, Broken)
    case Store(c) =>
      var rm := s.calls[c].pc.made;
      Move(s, c, Stored(rm)).(cache := s.cache[Key(s.calls[c].req) := rm])
    case Unlock(c) =>
      Move(s, c, if s.calls[c].pc.Broken? then Failed else Done(s.calls[c].pc.kept, true)).(writer := None)
  }

  ghost predicate Next(s: State, t: State) {
    exists a :: Enabled(s, a) && Do(s, a) == t
  }

  ghost predicate StepAt(run: seq<State>, i: int) {
    0 <= i < |run| - 1 && Next(run[i], run[i + 1])
  }

  /** Any interleaving, from the empty cache. */
  ghost predicate Behaviour(run: seq<State>) {
    |run| > 0 && run[0] == INIT && forall i :: 0 <= i < |run| - 1 ==> StepAt(run, i)
  }

  // ----- The key -----

  /** AWS account ids and region names have no slash; role ARNs do. */
  ghost predicate Plain(r: Request) {
    '/' !in r.id && '/' !in r.region
  }

  lemma SplitAtSlash(a: string, x: string, b: string, y: string)
    requires '/' !in a && '/' !in b && a + "/" + x == b + "/" + y
    ensures a == b && x == y
  {
    var s := a + "/" + x;
    assert s[|a|] == (b + "/" + y)[|a|] == '/';
    assert s[|b|] == (b + "/" + y)[|b|] == '/';
    assert |a| == |b|;
    assert a == s[..|a|] == b && x == s[|a| + 1..] == y;
  }

  /** Without slashes in id and region, no two requests share a key, whatever the role ARNs hold. */
  lemma KeyInjective(q: Request, r: Request)
    requires Plain(q) && Plain(r) && Key(q) == Key(r)
    ensures q == r
  {
    assert Key(q) == q.id + "/" + (q.region + "/" + q.role) && Key(r) == r.id + "/" + (r.region + "/" + r.role);
    SplitAtSlash(q.id, q.region + "/" + q.role, r.id, r.region + "/" + r.role);
    SplitAtSlash(q.region, q.role, r.region, r.role);
  }

  // ----- What holds in every state -----

  predicate InRead(pc: Pc) {
    pc.Reading? || pc.Looked?
  }

  predicate InWrite(pc: Pc) {
    pc.Building? || pc.Built? || pc.Stored? || pc.Broken?
  }

  ghost predicate LockInv(s: State) {
    && (forall c: nat :: c in s.readers <==> c < |s.calls| && InRead(s.calls[c].pc))
    && (forall c: nat :: s.writer == Some(c) <==> c < |s.calls| && InWrite(s.calls[c].pc))
    && (s.writer.Some? ==> s.readers == {})
  }

  /** The manager a call has built, if it has. */
  function Made(pc: Pc): Option<Manager> {
    match pc
    case Built(m) => Some(m)
    case Stored(m) => Some(m)
    case Done(m, true) => Some(m)
    case _ => None
  }

  /** The call has put this manager into the cache. */
  predicate Keeps(pc: Pc, m: Manager) {
    pc == Stored(m) || pc == Done(m, true)
  }

  /** The manager a call has found in the cache, if it has. */
  function Got(pc: Pc): Option<Manager> {
    match pc
    case Looked(found) => found
    case Done(m, false) => Some(m)
    case _ => None
  }

  ghost predicate MadeFor(s: State, c: Call) {
    Made(c.pc).Some? ==>
      var m := Made(c.pc).value;
      m.uid < s.made && m.id == c.req.id && m.region == c.req.region
  }

  ghost predicate DistinctMade(s: State) {
    forall c, d :: 0 <= c < d < |s.calls| && Made(s.calls[c].pc).Some? && Made(s.calls[d].pc).Some? ==>
                     Made(s.calls[c].pc).value.uid != Made(s.calls[d].pc).value.uid
  }

  ghost predicate MadeInv(s: State) {
    (forall c :: 0 <= c < |s.calls| ==> MadeFor(s, s.calls[c])) && DistinctMade(s)
  }

  /** Some call with this key built `m` and stored it. */
  ghost predicate StoredBy(s: State, key: string, m: Manager) {
    exists c :: 0 <= c < |s.calls| && Key(s.calls[c].req) == key && Keeps(s.calls[c].pc, m)
  }

  ghost predicate SourceInv(s: State) {
    && (forall key :: key in s.cache ==> StoredBy(s, key, s.cache[key]))
    && (forall c :: 0 <= c < |s.calls| && Got(s.calls[c].pc).Some? ==>
          StoredBy(s, Key(s.calls[c].req), Got(s.calls[c].pc).value))
  }

  ghost predicate Inv(s: State) {
    LockInv(s) && MadeInv(s) && SourceInv(s)
  }

  lemma LockStep(s: State, a: Action)
    requires LockInv(s) && Enabled(s, a)
    ensures LockInv(Do(s, a))
  {
  }

  lemma MadeStep(s: State, a: Action)
    requires MadeInv(s) && Enabled(s, a)
    ensures MadeInv(Do(s, a))
  {
    var t := Do(s, a);
    forall c | 0 <= c < |t.calls|
      ensures MadeFor(t, t.calls[c])
    {
      assert c < |s.calls| ==> MadeFor(s, s.calls[c]);
    }
    DistinctStep(s, a);
  }

  /** A build takes a new uid, and no other step makes a call own another manager. */
  lemma DistinctStep(s: State, a: Action)
    requires MadeInv(s) && Enabled(s, a)
    ensures DistinctMade(Do(s, a))
  {
  }

  lemma StoredByStep(s: State, a: Action, key: string, m: Manager)
    requires Enabled(s, a) && StoredBy(s, key, m)
    ensures StoredBy(Do(s, a), key, m)
  {
    var c :| 0 <= c < |s.calls| && Key(s.calls[c].req) == key && Keeps(s.calls[c].pc, m);
    var t := Do(s, a);
    assert t.calls[c].req == s.calls[c].req && Keeps(t.calls[c].pc, m);
  }

  lemma SourceStep(s: State, a: Action)
    requires SourceInv(s) && Enabled(s, a)
    ensures SourceInv(Do(s, a))
  {
    var t := Do(s, a);
    forall key, m | StoredBy(s, key, m)
      ensures StoredBy(t, key, m)
    {
      StoredByStep(s, a, key, m);
    }
    if a.Store? {
      assert Keeps(t.calls[a.c].pc, s.calls[a.c].pc.made);
    }
  }

  /** The invariant holds in every state of every run. */
  lemma {:induction false} Invariant(run: seq<State>, i: nat)
    requires Behaviour(run) && i < |run|
    ensures Inv(run[i])
  {
    if i > 0 {
      Invariant(run, i - 1);
      assert StepAt(run, i - 1);
      var a :| Enabled(run[i - 1], a) && Do(run[i - 1], a) == run[i];
      LockStep(run[i - 1], a);
      MadeStep(run[i - 1], a);
      SourceStep(run[i - 1], a);
    }
  }

  // ----- Safety over whole runs -----

  /** A writer is alone: no second writer and no reader, at any moment of any run. */
  lemma Exclusion(run: seq<State>, i: nat, c: nat, d: nat)
    requires Behaviour(run) && i < |run| && c < |run[i].calls| && d < |run[i].calls|
    requires InWrite(run[i].calls[c].pc) && c != d
    ensures !InWrite(run[i].calls[d].pc) && !InRead(run[i].calls[d].pc)
  {
    Invariant(run, i);
    assert run[i].writer == Some(c);
  }

  /** What one step can change: keys stay, calls stay, and requests stay what they were. */
  lemma {:induction false} Grows(run: seq<State>, i: nat, j: nat)
    requires Behaviour(run) && i <= j < |run|
    ensures run[i].cache.Keys <= run[j].cache.Keys
    ensures |run[i].calls| <= |run[j].calls|
    ensures forall c :: 0 <= c < |run[i].calls| ==> run[j].calls[c].req == run[i].calls[c].req
    decreases j - i
  {
    if i < j {
      Grows(run, i, j - 1);
      assert StepAt(run, j - 1);
    }
  }

  ghost predicate PlainCalls(s: State) {
    forall c :: 0 <= c < |s.calls| ==> Plain(s.calls[c].req)
  }

  /** Every manager returned is one for the account and region that were asked for. */
  lemma RightManager(run: seq<State>, i: nat, c: nat)
    requires Behaviour(run) && i < |run| && PlainCalls(run[i])
    requires c < |run[i].calls| && run[i].calls[c].pc.Done?
    ensures var m := run[i].calls[c].pc.result;
            m.id == run[i].calls[c].req.id && m.region == run[i].calls[c].req.region
  {
    Invariant(run, i);
    var s := run[i];
    var m := s.calls[c].pc.result;
    if !s.calls[c].pc.missed {
      assert Got(s.calls[c].pc) == Some(m);
      var d :| 0 <= d < |s.calls| && Key(s.calls[d].req) == Key(s.calls[c].req) && Keeps(s.calls[d].pc, m);
      KeyInjective(s.calls[c].req, s.calls[d].req);
      assert Made(s.calls[d].pc) == Some(m);
    }
  }

  // ----- Bounded duplication -----

  /** The call has found nothing and may build. */
  predicate HasMissed(pc: Pc) {
    pc == Looked(None) || pc.Missed? || pc.Building? || pc.Built? || pc.Stored? || pc.Broken? || pc.Failed?
    || (pc.Done? && pc.missed)
  }

  /** The step after state `j` is the lookup of call `c`, and it finds nothing. */
  ghost predicate MissesAt(run: seq<State>, j: int, c: nat) {
    && 0 <= j < |run| - 1 && c < |run[j].calls| && c < |run[j + 1].calls|
    && run[j].calls[c].pc.Reading? && run[j + 1].calls[c].pc == Looked(None)
    && Key(run[j].calls[c].req) !in run[j].cache
  }

  /** A call that has missed either had before the step, or the step is its lookup. */
  lemma MissStep(s: State, a: Action, c: nat)
    requires Enabled(s, a) && c < |Do(s, a).calls| && HasMissed(Do(s, a).calls[c].pc)
    ensures c < |s.calls|
    ensures HasMissed(s.calls[c].pc)
            || (s.calls[c].pc.Reading? && Do(s, a).calls[c].pc == Looked(None) && Key(s.calls[c].req) !in s.cache)
  {
  }

  lemma {:induction false} MissFound(run: seq<State>, i: nat, c: nat)
    requires Behaviour(run) && i < |run|
    requires c < |run[i].calls| && HasMissed(run[i].calls[c].pc)
    ensures exists j :: j < i && MissesAt(run, j, c)
  {
    if i > 0 {
      assert StepAt(run, i - 1);
      var a :| Enabled(run[i - 1], a) && Do(run[i - 1], a) == run[i];
      MissStep(run[i - 1], a, c);
      if HasMissed(run[i - 1].calls[c].pc) {
        MissFound(run, i - 1, c);
      } else {
        assert MissesAt(run, i - 1, c);
      }
    }
  }

  /** A call builds only if its lookup came before the first store for its key. */
  lemma BuildsOnlyAfterEarlyMiss(run: seq<State>, i: nat, c: nat)
    requires Behaviour(run) && i < |run|
    requires c < |run[i].calls| && Made(run[i].calls[c].pc).Some?
    ensures exists j :: j < i && MissesAt(run, j, c)
              && forall k :: 0 <= k <= j ==> Key(run[i].calls[c].req) !in run[k].cache
  {
    MissFound(run, i, c);
    var j :| j < i && MissesAt(run, j, c);
    Grows(run, j, i);
    forall k | 0 <= k <= j
      ensures Key(run[i].calls[c].req) !in run[k].cache
    {
      Grows(run, k, j);
    }
  }

  /** A call that may still store under this key. */
  ghost predicate Pending(s: State, key: string, c: int) {
    && 0 <= c < |s.calls| && Key(s.calls[c].req) == key
    && (s.calls[c].pc == Looked(None) || s.calls[c].pc.Missed? || s.calls[c].pc.Building? || s.calls[c].pc.Built?)
  }

  ghost predicate Settled(s: State, key: string) {
    key in s.cache && forall c :: !Pending(s, key, c)
  }

  lemma SettledStep(s: State, a: Action, key: string)
    requires Settled(s, key) && Enabled(s, a)
    ensures Settled(Do(s, a), key) && Do(s, a).cache[key] == s.cache[key]
  {
    var t := Do(s, a);
    forall c
      ensures !Pending(t, key, c)
    {
      assert !Pending(s, key, c);
    }
    if a.Store? {
      assert !Pending(s, key, a.c);
    }
  }

  /** Once no missed call is pending, the entry never changes again. */
  lemma {:induction false} SettledForever(run: seq<State>, i: nat, j: nat, key: string)
    requires Behaviour(run) && i <= j < |run| && Settled(run[i], key)
    ensures Settled(run[j], key) && run[j].cache[key] == run[i].cache[key]
    decreases j - i
  {
    if i < j {
      SettledForever(run, i, j - 1, key);
      assert StepAt(run, j - 1);
      var a :| Enabled(run[j - 1], a) && Do(run[j - 1], a) == run[j];
      SettledStep(run[j - 1], a, key);
    }
  }

  /** The call has not looked yet. */
  ghost predicate Unlooked(s: State, c: nat) {
    c < |s.calls| ==> s.calls[c].pc.Start? || s.calls[c].pc.Reading?
  }

  /** What a call that had not looked when the key was settled can have come to. */
  lemma {:induction false} SettledLookup(run: seq<State>, i: nat, j: nat, c: nat, key: string)
    requires Behaviour(run) && i <= j < |run| && Settled(run[i], key) && Unlooked(run[i], c)
    requires c < |run[j].calls| && Key(run[j].calls[c].req) == key
    ensures run[j].calls[c].pc in
              {Start, Reading, Looked(Some(run[i].cache[key])), Done(run[i].cache[key], false)}
    decreases j - i
  {
    if i < j {
      assert StepAt(run, j - 1);
      SettledForever(run, i, j - 1, key);
      if c < |run[j - 1].calls| {
        Grows(run, j - 1, j);
        SettledLookup(run, i, j - 1, c, key);
      }
    }
  }

  /** From then on, every call that looks returns that one object, and none of them fails. */
  lemma LaterCallsAgree(run: seq<State>, i: nat, j: nat, c: nat, key: string)
    requires Behaviour(run) && i <= j < |run| && Settled(run[i], key) && Unlooked(run[i], c)
    requires c < |run[j].calls| && Key(run[j].calls[c].req) == key
    ensures run[j].calls[c].pc.Done? ==> run[j].calls[c].pc.result == run[i].cache[key]
    ensures !HasMissed(run[j].calls[c].pc)
  {
    SettledLookup(run, i, j, c, key);
  }

  // ----- Exactly when callers share one manager -----

  /** The call holds a manager for its caller, found or built. */
  function Holds(pc: Pc): Option<Manager> {
    if Got(pc).Some? then Got(pc) else if pc.Stored? || pc.Done? then Made(pc) else None
  }

  ghost predicate HoldsHere(s: State, key: string, c: int) {
    0 <= c < |s.calls| && Key(s.calls[c].req) == key && Holds(s.calls[c].pc).Some?
  }

  ghost predicate OneManager(s: State, key: string) {
    forall c, d :: HoldsHere(s, key, c) && HoldsHere(s, key, d) ==> Holds(s.calls[c].pc) == Holds(s.calls[d].pc)
  }

  ghost predicate StoredHere(s: State, key: string, c: int) {
    && 0 <= c < |s.calls| && Key(s.calls[c].req) == key
    && (s.calls[c].pc.Stored? || (s.calls[c].pc.Done? && s.calls[c].pc.missed))
  }

  ghost predicate OneStore(s: State, key: string) {
    forall c, d :: StoredHere(s, key, c) && StoredHere(s, key, d) ==> c == d
  }

  /** All calls for a key hold the same manager exactly when one call at most has stored one for it. */
  lemma SharedExactly(run: seq<State>, i: nat, key: string)
    requires Behaviour(run) && i < |run|
    ensures OneManager(run[i], key) <==> OneStore(run[i], key)
  {
    Invariant(run, i);
    var s := run[i];
    if OneManager(s, key) {
      forall c, d | StoredHere(s, key, c) && StoredHere(s, key, d)
        ensures c == d
      {
        assert Made(s.calls[c].pc) == Holds(s.calls[c].pc) == Holds(s.calls[d].pc) == Made(s.calls[d].pc);
      }
    }
    if OneStore(s, key) {
      forall c, d | HoldsHere(s, key, c) && HoldsHere(s, key, d)
        ensures Holds(s.calls[c].pc) == Holds(s.calls[d].pc)
      {
        var x := HeldFromStore(s, c);
        var y := HeldFromStore(s, d);
        assert x == y;
      }
    }
  }

  /** The call whose store gave `c` the manager it holds. */
  lemma HeldFromStore(s: State, c: int) returns (d: int)
    requires MadeInv(s) && SourceInv(s) && 0 <= c < |s.calls| && Holds(s.calls[c].pc).Some?
    ensures StoredHere(s, Key(s.calls[c].req), d) && Keeps(s.calls[d].pc, Holds(s.calls[c].pc).value)
  {
    if Got(s.calls[c].pc).Some? {
      var m := Got(s.calls[c].pc).value;
      d :| 0 <= d < |s.calls| && Key(s.calls[d].req) == Key(s.calls[c].req) && Keeps(s.calls[d].pc, m);
    } else {
      d := c;
    }
  }

  /** The call looked this key up and found nothing, before anything was stored for it. */
  ghost predicate EarlyMiss(run: seq<State>, i: nat, key: string, c: int) {
    0 <= c && exists j :: j < i && MissesAt(run, j, c) && forall k :: 0 <= k <= j < |run| ==> key !in run[k].cache
  }

  /** A call that missed early and went on to store what it built. */
  ghost predicate EarlyBuilder(run: seq<State>, i: nat, key: string, c: int)
    requires i < |run|
  {
    EarlyMiss(run, i, key, c) && StoredHere(run[i], key, c)
  }

  /**
   * The same by lookups: different managers are held for a key exactly when two calls both looked before
   * anything was stored for it, found nothing, and both built.
   */
  lemma DifferOnlyByEarlyMisses(run: seq<State>, i: nat, key: string)
    requires Behaviour(run) && i < |run|
    ensures !OneManager(run[i], key)
            <==> exists c, d :: c != d && EarlyBuilder(run, i, key, c) && EarlyBuilder(run, i, key, d)
  {
    SharedExactly(run, i, key);
    forall c | StoredHere(run[i], key, c)
      ensures EarlyBuilder(run, i, key, c)
    {
      BuildsOnlyAfterEarlyMiss(run, i, c);
    }
  }

  // ----- A call that runs alone, and what it shows -----

  ghost predicate Reached(s: State) {
    exists run :: Behaviour(run) && run[|run| - 1] == s
  }

  lemma ReachInit()
    ensures Reached(INIT)
  {
    assert Behaviour([INIT]);
  }

  lemma ReachStep(s: State, a: Action)
    requires Reached(s) && Enabled(s, a)
    ensures Reached(Do(s, a))
  {
    var run :| Behaviour(run) && run[|run| - 1] == s;
    var longer := run + [Do(s, a)];
    forall i | 0 <= i < |longer| - 1
      ensures StepAt(longer, i)
    {
      if i < |run| - 1 {
        assert StepAt(run, i);
      }
    }
    assert Behaviour(longer);
  }

  ghost predicate Free(s: State) {
    s.writer.None? && s.readers == {}
  }

  function At(s: State, c: nat, pc: Pc): seq<Call>
    requires c < |s.calls|
  {
    s.calls[c := s.calls[c].(pc := pc)]
  }

  /** The read phase on its own. */
  lemma LoneLookup(s: State, c: nat)
    requires Reached(s) && Free(s) && c < |s.calls| && s.calls[c].pc.Start?
    ensures var found := Find(s.cache, Key(s.calls[c].req));
            Reached(s.(calls := At(s, c, if found.Some? then Done(found.value, false) else Missed)))
  {
    var s1 := Do(s, RLock(c));
    ReachStep(s, RLock(c));
    var s2 := Do(s1, Lookup(c));
    ReachStep(s1, Lookup(c));
    var s3 := Do(s2, RUnlock(c));
    ReachStep(s2, RUnlock(c));
    var found := Find(s.cache, Key(s.calls[c].req));
    assert s3 == s.(calls := At(s, c, if found.Some? then Done(found.value, false) else Missed));
  }

  /** The write phase on its own. */
  lemma LoneBuild(s: State, c: nat)
    requires Reached(s) && Free(s) && c < |s.calls| && s.calls[c].pc.Missed?
    ensures var rm := Manager(s.made, s.calls[c].req.id, s.calls[c].req.region);
            Reached(State(s.cache[Key(s.calls[c].req) := rm], {}, None, At(s, c, Done(rm, true)), s.made + 1))
  {
    var s1 := Do(s, Lock(c));
    ReachStep(s, Lock(c));
    var s2 := Do(s1, Build(c));
    ReachStep(s1, Build(c));
    var s3 := Do(s2, Store(c));
    ReachStep(s2, Store(c));
    ReachStep(s3, Unlock(c));
    var rm := Manager(s.made, s.calls[c].req.id, s.calls[c].req.region);
    assert Do(s3, Unlock(c))
        == State(s.cache[Key(s.calls[c].req) := rm], {}, None, At(s, c, Done(rm, true)), s.made + 1);
  }

  lemma TwoCalls(q: Request, r: Request)
    ensures Reached(State(map[], {}, None, [Call(q, Start), Call(r, Start)], 0))
  {
    ReachInit();
    ReachStep(INIT, Begin(q));
    ReachStep(Do(INIT, Begin(q)), Begin(r));
    assert [Call(q, Start)] + [Call(r, Start)] == [Call(q, Start), Call(r, Start)];
    assert [] + [Call(q, Start)] == [Call(q, Start)];
  }

  /** There is no second look under the write lock: for any request, two calls can each build a manager. */
  lemma DuplicatesPossible(r: Request)
    ensures exists s :: Reached(s) && !OneManager(s, Key(r)) && forall c :: 0 <= c < |s.calls| ==> s.calls[c].pc.Done?
  {
    var a, b := Manager(0, r.id, r.region), Manager(1, r.id, r.region);
    TwoCalls(r, r);
    var s0 := State(map[], {}, None, [Call(r, Start), Call(r, Start)], 0);
    LoneLookup(s0, 0);
    var s1 := s0.(calls := At(s0, 0, Missed));
    LoneLookup(s1, 1);
    var s2 := s1.(calls := At(s1, 1, Missed));
    LoneBuild(s2, 0);
    var s3 := State(map[Key(r) := a], {}, None, At(s2, 0, Done(a, true)), 1);
    assert s2.cache[Key(r) := a] == map[Key(r) := a];
    LoneBuild(s3, 1);
    var s4 := State(map[Key(r) := a][Key(r) := b], {}, None, At(s3, 1, Done(b, true)), 2);
    assert s4.calls == [Call(r, Done(a, true)), Call(r, Done(b, true))];
    assert HoldsHere(s4, Key(r), 0) && HoldsHere(s4, Key(r), 1);
  }

  /** Two requests that shared a key would share a manager: the second caller gets one for the first's account. */
  lemma SharedKeyMisleads(q: Request, r: Request)
    requires Key(q) == Key(r)
    ensures exists s :: Reached(s) && |s.calls| == 2 && s.calls[1].req == r && s.calls[1].pc.Done?
              && s.calls[1].pc.result.id == q.id && s.calls[1].pc.result.region == q.region
  {
    var a := Manager(0, q.id, q.region);
    TwoCalls(q, r);
    var s0 := State(map[], {}, None, [Call(q, Start), Call(r, Start)], 0);
    LoneLookup(s0, 0);
    var s1 := s0.(calls := At(s0, 0, Missed));
    LoneBuild(s1, 0);
    var s2 := State(map[][Key(q) := a], {}, None, At(s1, 0, Done(a, true)), 1);
    LoneLookup(s2, 1);
    var s3 := s2.(calls := At(s2, 1, Done(a, false)));
    assert s3.calls == [Call(q, Done(a, true)), Call(r, Done(a, false))];
  }

  lemma SlashesCollide(role: string)
    ensures Key(Request("a/b", "c", role)) == Key(Request("a", "b/c", role))
  {
    assert Key(Request("a/b", "c", role)) == "a/b/c/" + role;
    assert Key(Request("a", "b/c", role)) == "a/b/c/" + role;
  }

  /** Once an id may hold a slash, a caller can get the manager of another account: plain ids are needed. */
  lemma WrongAccountPossible(role: string)
    ensures exists s :: Reached(s) && |s.calls| == 2 && s.calls[1].pc.Done?
                        && s.calls[1].pc.result.id != s.calls[1].req.id
  {
    SlashesCollide(role);
    SharedKeyMisleads(Request("a/b", "c", role), Request("a", "b/c", role));
  }

  // ----- The code, one call at a time -----

  /** What a call that nothing interrupts makes of a state. */
  ghost function Alone(s: State, r: Request): State {
    match Find(s.cache, Key(r))
    case Some(m) => s.(calls := s.calls + [Call(r, Done(m, false))])
    case None =>
      var m := Manager(s.made, r.id, r.region);
      State(s.cache[Key(r) := m], s.readers, s.writer, s.calls + [Call(r, Done(m, true))], s.made + 1)
  }

  /** Such a call is a run of the model: the lone lookup and, on a miss, the lone build. */
  lemma AloneReached(s: State, r: Request)
    requires Reached(s) && Free(s)
    ensures Reached(Alone(s, r)) && Free(Alone(s, r))
  {
    var c := |s.calls|;
    var begun := Do(s, Begin(r));
    ReachStep(s, Begin(r));
    LoneLookup(begun, c);
    var found := Find(s.cache, Key(r));
    if found.Some? {
      assert begun.(calls := At(begun, c, Done(found.value, false))) == Alone(s, r);
    } else {
      var missed := begun.(calls := At(begun, c, Missed));
      LoneBuild(missed, c);
      var m := Manager(s.made, r.id, r.region);
      assert At(missed, c, Done(m, true)) == s.calls + [Call(r, Done(m, true))];
    }
  }

  lemma ReachedKeepsInvariant(s: State)
    requires Reached(s)
    ensures Inv(s)
  {
    var run :| Behaviour(run) && run[|run| - 1] == s;
    Invariant(run, |run| - 1);
  }

  /** A manager in the cache is older than the next one to be built. */
  lemma CachedAreOld(s: State, key: string)
    requires MadeInv(s) && SourceInv(s) && key in s.cache
    ensures s.cache[key].uid < s.made
  {
    var c :| 0 <= c < |s.calls| && Key(s.calls[c].req) == key && Keeps(s.calls[c].pc, s.cache[key]);
    assert MadeFor(s, s.calls[c]);
  }

  /** The last call of a state, once done, holds a manager of its own account and region. */
  lemma LastCallRight(s: State)
    requires Reached(s) && PlainCalls(s) && s.calls != [] && s.calls[|s.calls| - 1].pc.Done?
    ensures var c := s.calls[|s.calls| - 1];
            c.pc.result.id == c.req.id && c.pc.result.region == c.req.region
  {
    var run :| Behaviour(run) && run[|run| - 1] == s;
    RightManager(run, |run| - 1, |s.calls| - 1);
  }

  ghost predicate BuiltFor(rm: ResourceManager, id: string, region: string) {
    rm.awsAccountID.v == id && rm.awsRegion.v == region
  }

  /** The objects in the cache are those of the model, one object for one identity. */
  ghost predicate Represents(cache: map<string, ResourceManager>, model: map<string, Manager>) {
    && cache.Keys == model.Keys
    && (forall key :: key in cache ==> BuiltFor(cache[key], model[key].id, model[key].region))
    && (forall k, l :: k in cache && l in cache ==> (cache[k] == cache[l] <==> model[k].uid == model[l].uid))
  }

  class ResourceManagerFactory {
    var rmCache: map<string, ResourceManager>
    ghost var state: State

    constructor ()
      ensures Valid() && rmCache == map[] && state == INIT
    {
      rmCache, state := map[], INIT;
      ReachInit();
    }

    /** The cache stands for a state that the model reaches and in which no call holds the lock. */
    ghost predicate Valid()
      reads this
    {
      Reached(state) && Free(state) && Represents(rmCache, state.cache)
    }

    /** The object is new, and so is its identity. */
    method Remember(key: string, rm: ResourceManager, ghost m: Manager)
      requires Represents(rmCache, state.cache) && BuiltFor(rm, m.id, m.region) && rm !in rmCache.Values
      requires forall k :: k in state.cache ==> state.cache[k].uid != m.uid
      modifies this`rmCache
      ensures rmCache == old(rmCache)[key := rm] && Represents(rmCache, state.cache[key := m])
    {
      assert forall k :: k in rmCache ==> rmCache[k] in rmCache.Values;
      rmCache := rmCache[key := rm];
    }

    /** A call that nothing interrupts does to the cache what it does in the model. */
    method ManagerFor(id: string, region: string, role: string, partition: string) returns (rm: ResourceManager)
      requires Valid()
      modifies this
      ensures Valid() && state == Alone(old(state), Request(id, region, role))
      ensures var key := Key(Request(id, region, role));
              if key in old(rmCache) then rm == old(rmCache)[key] && rmCache == old(rmCache)
              else
                && fresh(rm) && BuiltFor(rm, id, region) && rmCache == old(rmCache)[key := rm]
                && rm.awsPartition.v == partition
      ensures PlainCalls(state) ==> rm.awsAccountID.v == id && rm.awsRegion.v == region
    {
      ghost var req := Request(id, region, role);
      ghost var after := Alone(state, req);
      AloneReached(state, req);
      var rmId := id + "/" + region + "/" + role;
      assert rmId == Key(req);
      if rmId in rmCache {
        rm := rmCache[rmId];
      } else {
        ReachedKeepsInvariant(state);
        forall k | k in state.cache
          ensures state.cache[k].uid < state.made
        {
          CachedAreOld(state, k);
        }
        rm := new ResourceManager(id, region, partition);
        Remember(rmId, rm, after.cache[rmId]);
      }
      state := after;
      if PlainCalls(after) {
        LastCallRight(after);
      }
    }
  }
}
