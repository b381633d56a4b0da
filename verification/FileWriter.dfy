/**
 The file writer as a transition system. Any number of AppendLine, SetDir and Close calls run as
 threads over the writer's mutex `mu`, one mutex per file key, and the map of open handles.
 */
module FileWriter {
  import opened Wrappers
  import opened Decimal

  type Key = string
  type Dir = string
  type Handle = nat

  datatype Op = SetDir(dir: Dir) | Close

  datatype Outcome = Done | WriterClosed | OpenFailed | WriteFailed

  /** An AppendLine call; comments say what it does next. */
  datatype AppendPc =
    | NeedLock                    // lock mu
    | InLookup                    // holds mu: find or create the key's mutex, unlock mu
    | WantFile                    // lock the key's mutex
    | NeedHandle                  // holds the key's mutex: lock mu
    | InHandle                    // holds both: find or open the handle, unlock mu
    | Writing(handle: Handle)     // write the line
    | Unlocking(result: Outcome)  // unlock the key's mutex and return

  /** A SetDir or Close call. `keys` is its snapshot of the file mutexes. */
  datatype BulkPc =
    | NeedSnapshot                              // lock mu
    | InSnapshot                                // holds mu: take the snapshot, unlock mu
    | Locking(keys: seq<Key>, n: nat)           // holds the first n: lock the next
    | NeedDetach(keys: seq<Key>)                // holds them all: lock mu
    | InDetach(keys: seq<Key>)                  // holds mu too: take the handles, unlock mu
    | Closing(keys: seq<Key>, todo: set<Handle>) // close the handles taken
    | UnlockingAll(keys: seq<Key>, n: nat, result: Outcome) // holds the first n: unlock the last of them

  datatype Thread = Appending(key: Key, a: AppendPc) | Bulk(op: Op, b: BulkPc) | Finished(result: Outcome)

  /**
   The life of an opened file: how often it was taken out of the map and how often closed; the call
   that took it, and whether that call had locked its key.
   */
  datatype FileInfo = FileInfo(key: Key, dir: Dir, taken: nat, closes: nat, taker: nat, covered: bool)

  datatype State = State(
    mu: Option<nat>,                  // the thread holding mu
    locks: map<Key, Option<nat>>,     // fileLocks: each key's mutex with the thread holding it
    handles: map<Key, Handle>,        // fileHandles
    dir: Dir, closed: bool,
    threads: seq<Thread>,
    files: seq<FileInfo>,             // every file ever opened, by handle
    closer: Option<nat>,              // the Close call that set closed
    switches: seq<Dir>,               // the directories that SetDir calls have set, in order
    writes: seq<(nat, Handle)>)       // the lines written, in order: by which call, to which file

  datatype Call = AppendCall(key: Key) | BulkCall(op: Op)

  /** A new call arrives, a thread moves on (`fails` if a file operation fails), or it closes one handle. */
  datatype Step = Arrive(call: Call) | Move(t: nat, fails: bool) | CloseOne(t: nat, h: Handle)

  function New(dir: Dir): State {
    State(None, map[], map[], dir, false, [], [], None, [], [])
  }

  // ---------- the snapshot: the keys in order ----------

  predicate StrictlySorted(keys: seq<Key>) {
    forall i, j :: 0 <= i < j < |keys| ==> Less(keys[i], keys[j])
  }

  ghost predicate IsLeast(k: Key, keys: set<Key>) {
    k in keys && forall j <- keys :: j == k || Less(k, j)
  }

  lemma {:induction false} LeastExists(keys: set<Key>)
    requires keys != {}
    ensures exists k :: IsLeast(k, keys)
    decreases keys
  {
    hide Less;
    var x :| x in keys;
    if keys == {x} {
      assert IsLeast(x, keys);
    } else {
      LeastExists(keys - {x});
      var y :| IsLeast(y, keys - {x});
      LessTotal(x, y);
      var k := if Less(x, y) then x else y;
      forall j | j in keys && j != k
        ensures Less(k, j)
      {
        if k == x && j != y {
          LessTransitive(x, y, j);
        }
      }
      assert IsLeast(k, keys);
    }
  }

  ghost function SortedKeys(keys: set<Key>): (r: seq<Key>)
    ensures forall k :: k in r <==> k in keys
    ensures StrictlySorted(r)
    decreases keys
  {
    hide Less;
    if keys == {} then [] else
      LeastExists(keys);
      var k :| IsLeast(k, keys);
      [k] + SortedKeys(keys - {k})
  }

  // ---------- steps ----------

  /** The file mutex a thread is waiting for, if any. */
  function Wanted(th: Thread): Option<Key> {
    match th
    case Appending(key, WantFile) => Some(key)
    case Bulk(_, Locking(keys, n)) => if n < |keys| then Some(keys[n]) else None
    case _ => None
  }

  predicate WantsMu(th: Thread) {
    || (th.Appending? && (th.a.NeedLock? || th.a.NeedHandle?))
    || (th.Bulk? && (th.b.NeedSnapshot? || th.b.NeedDetach?))
  }

  predicate HoldsMu(th: Thread) {
    || (th.Appending? && (th.a.InLookup? || th.a.InHandle?))
    || (th.Bulk? && (th.b.InSnapshot? || th.b.InDetach?))
  }

  predicate Holds(th: Thread, k: Key) {
    match th
    case Appending(key, a) => key == k && (a.NeedHandle? || a.InHandle? || a.Writing? || a.Unlocking?)
    case Bulk(_, Locking(keys, n)) => n <= |keys| && k in keys[..n]
    case Bulk(_, NeedDetach(keys)) => k in keys
    case Bulk(_, InDetach(keys)) => k in keys
    case Bulk(_, Closing(keys, _)) => k in keys
    case Bulk(_, UnlockingAll(keys, n, _)) => n <= |keys| && k in keys[..n]
    case _ => false
  }

  predicate FreeKey(s: State, k: Key) {
    k in s.locks && s.locks[k] == None
  }

  predicate Enabled(s: State, step: Step) {
    match step
    case Arrive(_) => true
    case CloseOne(t, h) => t < |s.threads| && s.threads[t].Bulk? && s.threads[t].b.Closing? && h in s.threads[t].b.todo
    case Move(t, _) =>
      && t < |s.threads|
      && !s.threads[t].Finished?
      && (WantsMu(s.threads[t]) ==> s.mu == None)
      && (Wanted(s.threads[t]).Some? ==> FreeKey(s, Wanted(s.threads[t]).value))
      && (s.threads[t].Bulk? && s.threads[t].b.Closing? ==> s.threads[t].b.todo == {})
  }

  function Set(s: State, t: nat, th: Thread): State
    requires t < |s.threads|
  {
    s.(threads := s.threads[t := th])
  }

  /** Take mu, or give it back, while moving on. */
  function TakeMu(s: State, t: nat, th: Thread): State
    requires t < |s.threads|
  {
    Set(s, t, th).(mu := Some(t))
  }

  function GiveMu(s: State, t: nat, th: Thread): State
    requires t < |s.threads|
  {
    Set(s, t, th).(mu := None)
  }

  function SetOwner(s: State, k: Key, owner: Option<nat>): State {
    s.(locks := s.locks[k := owner])
  }

  /** Writing to a closed file fails. */
  predicate IsClosed(s: State, h: Handle) {
    h < |s.files| && s.files[h].closes > 0
  }

  function AppendMove(s: State, t: nat, fails: bool): State
    requires Enabled(s, Move(t, fails)) && s.threads[t].Appending?
  {
    var key := s.threads[t].key;
    match s.threads[t].a
    case NeedLock => TakeMu(s, t, Appending(key, InLookup))
    case InLookup =>
      var found := if key in s.locks then s else SetOwner(s, key, None);
      GiveMu(found, t, Appending(key, WantFile))
    case WantFile => SetOwner(Set(s, t, Appending(key, NeedHandle)), key, Some(t))
    case NeedHandle => TakeMu(s, t, Appending(key, InHandle))
    case InHandle =>
      if s.closed then GiveMu(s, t, Appending(key, Unlocking(WriterClosed)))
      else if key in s.handles then GiveMu(s, t, Appending(key, Writing(s.handles[key])))
      else if fails then GiveMu(s, t, Appending(key, Unlocking(OpenFailed)))
      else
        var h := |s.files|;
        GiveMu(s, t, Appending(key, Writing(h)))
          .(handles := s.handles[key := h], files := s.files + [FileInfo(key, s.dir, 0, 0, 0, false)])
    case Writing(h) =>
      if fails || IsClosed(s, h) then Set(s, t, Appending(key, Unlocking(WriteFailed)))
      else Set(s, t, Appending(key, Unlocking(Done))).(writes := s.writes + [(t, h)])
    case Unlocking(result) => SetOwner(Set(s, t, Finished(result)), key, None)
  }

  predicate Cached(s: State, h: Handle) {
    h < |s.files| && s.files[h].key in s.handles && s.handles[s.files[h].key] == h
  }

  /** Call t takes every file out of the map; `keys` are those whose mutex it holds. */
  function Taken(s: State, t: nat, keys: seq<Key>): (files: seq<FileInfo>)
    ensures |files| == |s.files|
    ensures forall h :: 0 <= h < |s.files| ==>
      files[h] == if Cached(s, h)
                  then s.files[h].(taken := s.files[h].taken + 1, taker := t, covered := s.files[h].key in keys)
                  else s.files[h]
  {
    seq(|s.files|, h requires 0 <= h < |s.files| =>
      if Cached(s, h)
      then s.files[h].(taken := s.files[h].taken + 1, taker := t, covered := s.files[h].key in keys)
      else s.files[h])
  }

  function BulkFinish(keys: seq<Key>, result: Outcome): BulkPc {
    UnlockingAll(keys, |keys|, result)
  }

  ghost function BulkMove(s: State, t: nat, fails: bool): State
    requires Enabled(s, Move(t, fails)) && s.threads[t].Bulk?
  {
    var op := s.threads[t].op;
    match s.threads[t].b
    case NeedSnapshot => TakeMu(s, t, Bulk(op, InSnapshot))
    case InSnapshot =>
      if s.closed then GiveMu(s, t, Finished(if op.Close? then Done else WriterClosed))
      else
        var next := GiveMu(s, t, Bulk(op, Locking(SortedKeys(s.locks.Keys), 0)));
        if op.Close? then next.(closed := true, closer := Some(t)) else next
    case Locking(keys, n) =>
      if n < |keys| then SetOwner(Set(s, t, Bulk(op, Locking(keys, n + 1))), keys[n], Some(t))
      else Set(s, t, Bulk(op, NeedDetach(keys)))
    case NeedDetach(keys) => TakeMu(s, t, Bulk(op, InDetach(keys)))
    case InDetach(keys) =>
      if op.SetDir? && s.closed then GiveMu(s, t, Bulk(op, BulkFinish(keys, WriterClosed)))
      else
        GiveMu(s, t, Bulk(op, Closing(keys, s.handles.Values)))
          .(handles := map[], files := Taken(s, t, keys), dir := if op.SetDir? then op.dir else s.dir,
            switches := if op.SetDir? then s.switches + [op.dir] else s.switches)
    case Closing(keys, todo) => Set(s, t, Bulk(op, BulkFinish(keys, Done)))
    case UnlockingAll(keys, n, result) =>
      if 0 < n <= |keys| then SetOwner(Set(s, t, Bulk(op, UnlockingAll(keys, n - 1, result))), keys[n - 1], None)
      else Set(s, t, Finished(result))
  }

  function CloseFile(s: State, t: nat, h: Handle): State
    requires Enabled(s, CloseOne(t, h))
  {
    var b := s.threads[t].b;
    var next := Set(s, t, Bulk(s.threads[t].op, Closing(b.keys, b.todo - {h})));
    if h < |s.files| then next.(files := s.files[h := s.files[h].(closes := s.files[h].closes + 1)]) else next
  }

  ghost function Apply(s: State, step: Step): State
    requires Enabled(s, step)
  {
    match step
    case Arrive(AppendCall(key)) => s.(threads := s.threads + [Appending(key, NeedLock)])
    case Arrive(BulkCall(op)) => s.(threads := s.threads + [Bulk(op, NeedSnapshot)])
    case Move(t, fails) => if s.threads[t].Appending? then AppendMove(s, t, fails) else BulkMove(s, t, fails)
    case CloseOne(t, h) => CloseFile(s, t, h)
  }

  // ---------- the locks ----------

  ghost predicate MuInv(s: State) {
    && (s.mu.Some? ==> s.mu.value < |s.threads|)
    && forall t :: 0 <= t < |s.threads| ==> (s.mu == Some(t) <==> HoldsMu(s.threads[t]))
  }

  /** The keys a thread names have mutexes, and a snapshot is sorted. */
  ghost predicate KnownKeys(s: State, th: Thread) {
    match th
    case Appending(key, a) => !a.NeedLock? && !a.InLookup? ==> key in s.locks
    case Bulk(_, b) =>
      !b.NeedSnapshot? && !b.InSnapshot? ==>
        && StrictlySorted(b.keys)
        && (forall k <- b.keys :: k in s.locks)
        && (b.Locking? || b.UnlockingAll? ==> b.n <= |b.keys|)
    case Finished(_) => true
  }

  ghost predicate KeyInv(s: State) {
    forall t :: 0 <= t < |s.threads| ==> KnownKeys(s, s.threads[t])
  }

  /** A key's mutex is owned by exactly the thread that holds it. */
  ghost predicate OwnerInv(s: State) {
    && (forall k <- s.locks :: s.locks[k].Some? ==> s.locks[k].value < |s.threads|)
    && (forall k, t | k in s.locks && 0 <= t < |s.threads| :: s.locks[k] == Some(t) <==> Holds(s.threads[t], k))
  }

  ghost predicate LockInv(s: State) {
    MuInv(s) && KeyInv(s) && OwnerInv(s)
  }

  /** What a step of thread t does to the locks: it takes what t now holds and frees what t held. */
  ghost predicate LockEffect(s: State, t: nat, s2: State) {
    && t < |s.threads| == |s2.threads|
    && s2.threads == s.threads[t := s2.threads[t]]
    && var before, after := s.threads[t], s2.threads[t];
    && s2.mu == (if HoldsMu(after) then Some(t) else if HoldsMu(before) then None else s.mu)
    && (HoldsMu(after) && !HoldsMu(before) ==> s.mu == None)
    && (forall k <- s.locks :: k in s2.locks)
    && (forall k <- s2.locks :: s2.locks[k] ==
          if Holds(after, k) then Some(t) else if Holds(before, k) then None else if k in s.locks then s.locks[k] else None)
    && (forall k :: Holds(after, k) && !Holds(before, k) ==> FreeKey(s, k))
    && KnownKeys(s2, after)
  }

  lemma MuAfterEffect(s: State, t: nat, s2: State)
    requires MuInv(s) && LockEffect(s, t, s2)
    ensures MuInv(s2)
  {
    hide HoldsMu, Holds, KnownKeys;
  }

  lemma KeysAfterEffect(s: State, t: nat, s2: State)
    requires KeyInv(s) && LockEffect(s, t, s2)
    ensures KeyInv(s2)
  {
    hide HoldsMu, Holds, StrictlySorted;
  }

  lemma OwnersAfterEffect(s: State, t: nat, s2: State)
    requires OwnerInv(s) && KeyInv(s) && LockEffect(s, t, s2)
    ensures OwnerInv(s2)
  {
    forall k, u | k in s2.locks && 0 <= u < |s2.threads|
      ensures s2.locks[k] == Some(u) <==> Holds(s2.threads[u], k)
    {
      if u != t {
        HeldIsKnown(s, u, k);
        assert s2.threads[u] == s.threads[u];
        hide KnownKeys, HoldsMu, Holds;
        if k in s.locks {
          assert s.locks[k] == Some(t) <==> Holds(s.threads[t], k);
        } else {
          HeldIsKnown(s, t, k);
        }
      }
    }
  }

  lemma HeldIsKnown(s: State, t: nat, k: Key)
    requires KeyInv(s) && t < |s.threads|
    ensures Holds(s.threads[t], k) ==> k in s.locks
  {
    assert KnownKeys(s, s.threads[t]);
  }

  /** What the invariant says of one thread. */
  lemma OwnThread(s: State, t: nat)
    requires LockInv(s) && t < |s.threads|
    ensures KnownKeys(s, s.threads[t])
    ensures forall k :: Holds(s.threads[t], k) ==> k in s.locks && s.locks[k] == Some(t)
    ensures s.mu == Some(t) <==> HoldsMu(s.threads[t])
  {
    forall k | Holds(s.threads[t], k)
      ensures k in s.locks && s.locks[k] == Some(t)
    {
      HeldIsKnown(s, t, k);
    }
  }

  ghost predicate SameKeys(a: Thread, b: Thread) {
    forall k :: Holds(a, k) <==> Holds(b, k)
  }

  lemma QuietEffect(s: State, t: nat, th: Thread)
    requires LockInv(s) && t < |s.threads| && KnownKeys(s, th)
    requires SameKeys(s.threads[t], th) && HoldsMu(th) == HoldsMu(s.threads[t])
    ensures LockEffect(s, t, Set(s, t, th))
  {
    OwnThread(s, t);
    hide LockInv, Holds, HoldsMu, KnownKeys;
    KnownAnyway(s, Set(s, t, th), th);
  }

  lemma TakeEffect(s: State, t: nat, th: Thread)
    requires LockInv(s) && t < |s.threads| && KnownKeys(s, th)
    requires SameKeys(s.threads[t], th) && s.mu == None && HoldsMu(th)
    ensures LockEffect(s, t, TakeMu(s, t, th))
  {
    OwnThread(s, t);
    hide LockInv, Holds, HoldsMu, KnownKeys;
    KnownAnyway(s, TakeMu(s, t, th), th);
  }

  lemma GiveEffect(s: State, t: nat, th: Thread)
    requires LockInv(s) && t < |s.threads| && KnownKeys(s, th)
    requires SameKeys(s.threads[t], th) && HoldsMu(s.threads[t]) && !HoldsMu(th)
    ensures LockEffect(s, t, GiveMu(s, t, th))
  {
    OwnThread(s, t);
    hide LockInv, Holds, HoldsMu, KnownKeys;
    KnownAnyway(s, GiveMu(s, t, th), th);
  }

  lemma AcquireEffect(s: State, t: nat, th: Thread, k: Key)
    requires LockInv(s) && t < |s.threads| && KnownKeys(s, th) && FreeKey(s, k)
    requires forall j :: Holds(th, j) <==> Holds(s.threads[t], j) || j == k
    requires !HoldsMu(th) && !HoldsMu(s.threads[t])
    ensures LockEffect(s, t, SetOwner(Set(s, t, th), k, Some(t)))
  {
    OwnThread(s, t);
    hide LockInv, Holds, HoldsMu, KnownKeys;
    KnownAnyway(s, SetOwner(Set(s, t, th), k, Some(t)), th);
  }

  lemma ReleaseEffect(s: State, t: nat, th: Thread, k: Key)
    requires LockInv(s) && t < |s.threads| && KnownKeys(s, th) && Holds(s.threads[t], k)
    requires forall j :: Holds(th, j) <==> Holds(s.threads[t], j) && j != k
    requires !HoldsMu(th) && !HoldsMu(s.threads[t])
    ensures LockEffect(s, t, SetOwner(Set(s, t, th), k, None))
  {
    OwnThread(s, t);
    hide LockInv, Holds, HoldsMu, KnownKeys;
    KnownAnyway(s, SetOwner(Set(s, t, th), k, None), th);
  }

  /** More mutexes, other files: a thread's keys stay known. */
  lemma KnownAnyway(s: State, s2: State, th: Thread)
    requires KnownKeys(s, th) && forall k <- s.locks :: k in s2.locks
    ensures KnownKeys(s2, th)
  {
    hide StrictlySorted;
  }

  lemma EffectOnLocksOnly(s: State, t: nat, a: State, b: State)
    requires LockEffect(s, t, a) && b.threads == a.threads && b.mu == a.mu && b.locks == a.locks
    ensures LockEffect(s, t, b)
  {
    hide Holds, HoldsMu, KnownKeys;
    KnownAnyway(a, b, a.threads[t]);
  }

  lemma LookupEffect(s: State, t: nat)
    requires LockInv(s) && t < |s.threads| && s.threads[t].Appending? && s.threads[t].a.InLookup?
    ensures LockEffect(s, t, AppendMove(s, t, false))
  {
    OwnThread(s, t);
    hide LockInv;
  }

  lemma AppendEffect(s: State, t: nat, fails: bool)
    requires LockInv(s) && Enabled(s, Move(t, fails)) && s.threads[t].Appending?
    ensures LockEffect(s, t, AppendMove(s, t, fails))
  {
    OwnThread(s, t);
    hide LockInv, LockEffect;
    var key := s.threads[t].key;
    match s.threads[t].a
    case NeedLock => TakeEffect(s, t, Appending(key, InLookup));
    case InLookup => LookupEffect(s, t);
    case WantFile => AcquireEffect(s, t, Appending(key, NeedHandle), key);
    case NeedHandle => TakeEffect(s, t, Appending(key, InHandle));
    case InHandle =>
      var s2 := AppendMove(s, t, fails);
      GiveEffect(s, t, s2.threads[t]);
      EffectOnLocksOnly(s, t, GiveMu(s, t, s2.threads[t]), s2);
    case Writing(h) => QuietEffect(s, t, AppendMove(s, t, fails).threads[t]);
    case Unlocking(result) => ReleaseEffect(s, t, Finished(result), key);
  }

  lemma SnapshotEffect(s: State, t: nat, fails: bool)
    requires LockInv(s) && Enabled(s, Move(t, fails)) && s.threads[t].Bulk? && s.threads[t].b.InSnapshot?
    ensures LockEffect(s, t, BulkMove(s, t, fails))
  {
    OwnThread(s, t);
    hide LockInv, LockEffect, StrictlySorted, Taken;
    var op := s.threads[t].op;
    assert forall keys: seq<Key> :: keys[..0] == [];
    var s2 := BulkMove(s, t, fails);
    GiveEffect(s, t, s2.threads[t]);
    EffectOnLocksOnly(s, t, GiveMu(s, t, s2.threads[t]), s2);
  }

  lemma LockingEffect(s: State, t: nat, fails: bool)
    requires LockInv(s) && Enabled(s, Move(t, fails)) && s.threads[t].Bulk? && s.threads[t].b.Locking?
    ensures LockEffect(s, t, BulkMove(s, t, fails))
  {
    OwnThread(s, t);
    hide LockInv, LockEffect, StrictlySorted, Taken;
    var op := s.threads[t].op;
    var keys, n := s.threads[t].b.keys, s.threads[t].b.n;
    if n < |keys| {
      assert keys[..n + 1] == keys[..n] + [keys[n]];
      AcquireEffect(s, t, Bulk(op, Locking(keys, n + 1)), keys[n]);
    } else {
      assert keys[..n] == keys;
      QuietEffect(s, t, Bulk(op, NeedDetach(keys)));
    }
  }

  lemma DetachEffect(s: State, t: nat, fails: bool)
    requires LockInv(s) && Enabled(s, Move(t, fails)) && s.threads[t].Bulk? && s.threads[t].b.InDetach?
    ensures LockEffect(s, t, BulkMove(s, t, fails))
  {
    OwnThread(s, t);
    hide LockInv, LockEffect, StrictlySorted, Taken;
    var op := s.threads[t].op;
    assert s.threads[t].b.keys[..|s.threads[t].b.keys|] == s.threads[t].b.keys;
    var s2 := BulkMove(s, t, fails);
    GiveEffect(s, t, s2.threads[t]);
    EffectOnLocksOnly(s, t, GiveMu(s, t, s2.threads[t]), s2);
  }

  lemma UnlockingEffect(s: State, t: nat, fails: bool)
    requires LockInv(s) && Enabled(s, Move(t, fails)) && s.threads[t].Bulk? && s.threads[t].b.UnlockingAll?
    ensures LockEffect(s, t, BulkMove(s, t, fails))
  {
    OwnThread(s, t);
    hide LockInv, LockEffect, StrictlySorted, Taken;
    var op := s.threads[t].op;
    var keys, n, result := s.threads[t].b.keys, s.threads[t].b.n, s.threads[t].b.result;
    if n > 0 {
      UnlockHolds(op, keys, n, result);
      hide Holds;
      ReleaseEffect(s, t, Bulk(op, UnlockingAll(keys, n - 1, result)), keys[n - 1]);
    } else {
      QuietEffect(s, t, Finished(result));
    }
  }

  lemma BulkEffect(s: State, t: nat, fails: bool)
    requires LockInv(s) && Enabled(s, Move(t, fails)) && s.threads[t].Bulk?
    ensures LockEffect(s, t, BulkMove(s, t, fails))
  {
    OwnThread(s, t);
    hide LockInv, LockEffect, StrictlySorted, Taken;
    var op := s.threads[t].op;
    match s.threads[t].b
    case NeedSnapshot => TakeEffect(s, t, Bulk(op, InSnapshot));
    case InSnapshot => SnapshotEffect(s, t, fails);
    case Locking(_, _) => LockingEffect(s, t, fails);
    case NeedDetach(keys) => TakeEffect(s, t, Bulk(op, InDetach(keys)));
    case InDetach(_) => DetachEffect(s, t, fails);
    case Closing(keys, todo) =>
      assert keys[..|keys|] == keys;
      QuietEffect(s, t, Bulk(op, BulkFinish(keys, Done)));
    case UnlockingAll(_, _, _) => UnlockingEffect(s, t, fails);
  }

  lemma UnlockHolds(op: Op, keys: seq<Key>, n: nat, result: Outcome)
    requires StrictlySorted(keys) && 0 < n <= |keys|
    ensures Holds(Bulk(op, UnlockingAll(keys, n, result)), keys[n - 1])
    ensures forall k :: Holds(Bulk(op, UnlockingAll(keys, n - 1, result)), k)
                   <==> Holds(Bulk(op, UnlockingAll(keys, n, result)), k) && k != keys[n - 1]
  {
    LastUnlocked(keys, n);
    hide StrictlySorted;
  }

  lemma LastUnlocked(keys: seq<Key>, n: nat)
    requires StrictlySorted(keys) && 0 < n <= |keys|
    ensures keys[n - 1] in keys[..n]
    ensures forall k :: k in keys[..n - 1] <==> k in keys[..n] && k != keys[n - 1]
  {
    hide Less;
    assert keys[..n] == keys[..n - 1] + [keys[n - 1]];
    LessTotal(keys[n - 1], keys[n - 1]);
    assert forall i :: 0 <= i < n - 1 ==> Less(keys[i], keys[n - 1]);
  }

  lemma CloseEffect(s: State, t: nat, h: Handle)
    requires LockInv(s) && Enabled(s, CloseOne(t, h))
    ensures LockEffect(s, t, CloseFile(s, t, h))
  {
    OwnThread(s, t);
    hide LockInv, LockEffect, StrictlySorted;
    var s2 := CloseFile(s, t, h);
    QuietEffect(s, t, s2.threads[t]);
    EffectOnLocksOnly(s, t, Set(s, t, s2.threads[t]), s2);
  }

  lemma LocksAfterArrival(s: State, call: Call)
    requires LockInv(s)
    ensures LockInv(Apply(s, Arrive(call)))
  {
    hide StrictlySorted;
  }

  /**
   Every step keeps the lock invariant. No key loses its mutex, and a mutex that is held stays with
   its holder until the holder itself gives it back.
   */
  lemma LocksKept(s: State, step: Step)
    requires LockInv(s) && Enabled(s, step)
    ensures LockInv(Apply(s, step))
    ensures s.locks.Keys <= Apply(s, step).locks.Keys
    ensures forall k <- s.locks :: s.locks[k].Some? ==>
      || Apply(s, step).locks[k] == s.locks[k]
      || (Apply(s, step).locks[k] == None && step.Move? && s.locks[k] == Some(step.t))
  {
    hide LockInv, LockEffect, AppendMove, BulkMove, CloseFile;
    match step
    case Arrive(call) => LocksAfterArrival(s, call);
    case Move(t, fails) =>
      if s.threads[t].Appending? { AppendEffect(s, t, fails); } else { BulkEffect(s, t, fails); }
      LocksAfterEffect(s, t, Apply(s, step));
    case CloseOne(t, h) =>
      CloseEffect(s, t, h);
      LocksAfterEffect(s, t, Apply(s, step));
      ClosingKeepsLocks(s, t, h);
  }

  lemma ClosingKeepsLocks(s: State, t: nat, h: Handle)
    requires Enabled(s, CloseOne(t, h))
    ensures CloseFile(s, t, h).locks == s.locks
  {
  }

  lemma LocksAfterEffect(s: State, t: nat, s2: State)
    requires LockInv(s) && LockEffect(s, t, s2)
    ensures LockInv(s2)
    ensures s.locks.Keys <= s2.locks.Keys
    ensures forall k <- s.locks :: s.locks[k].Some? ==>
      s2.locks[k] == s.locks[k] || (s2.locks[k] == None && s.locks[k] == Some(t))
  {
    OwnThread(s, t);
    MuAfterEffect(s, t, s2);
    KeysAfterEffect(s, t, s2);
    OwnersAfterEffect(s, t, s2);
  }

  // ---------- the files ----------

  function Todo(th: Thread): set<Handle> {
    if th.Bulk? && th.b.Closing? then th.b.todo else {}
  }

  /** The map holds exactly the files nobody took; each was opened under the current directory. */
  ghost predicate MapInv(s: State) {
    && (forall k <- s.handles :: s.handles[k] < |s.files| && s.files[s.handles[k]].key == k && s.files[s.handles[k]].dir == s.dir)
    && (forall h :: 0 <= h < |s.files| ==>
         && s.files[h].closes <= s.files[h].taken <= 1
         && (s.files[h].taken == 0 <==> Cached(s, h)))
  }

  predicate InTransit(f: FileInfo) {
    f.taken == 1 && f.closes == 0
  }

  /** A file that was taken and not closed is in the hands of exactly the call that took it. */
  ghost predicate TodoInv(s: State) {
    && (forall t: nat, h: nat {:trigger h in Todo(s.threads[t])} | t < |s.threads| :: h in Todo(s.threads[t]) <==>
         h < |s.files| && InTransit(s.files[h]) && s.files[h].taker == t)
    && (forall h :: 0 <= h < |s.files| && InTransit(s.files[h]) ==> s.files[h].taker < |s.threads|)
  }

  /** The handle of a write in progress was not taken by a call that held its key. */
  ghost predicate WriteInv(s: State) {
    forall t | 0 <= t < |s.threads| && s.threads[t].Appending? && s.threads[t].a.Writing? ::
      var h := s.threads[t].a.handle;
      h < |s.files| && s.files[h].key == s.threads[t].key && (s.files[h].taken > 0 ==> !s.files[h].covered)
  }

  predicate PastDetach(th: Thread) {
    th.Finished? || (th.Bulk? && (th.b.Closing? || th.b.UnlockingAll?))
  }

  /** The Close call that set closed leaves an empty map behind. */
  ghost predicate CloseInv(s: State) {
    && (s.closed <==> s.closer.Some?)
    && (s.closer.Some? ==>
         && s.closer.value < |s.threads|
         && var th := s.threads[s.closer.value];
            && (th.Finished? || (th.Bulk? && th.op.Close? && !th.b.NeedSnapshot? && !th.b.InSnapshot?))
            && (PastDetach(th) ==> s.handles == map[]))
  }

  ghost predicate FileInv(s: State) {
    MapInv(s) && TodoInv(s) && WriteInv(s) && CloseInv(s)
  }

  /** A step of thread t that leaves the files alone. */
  ghost predicate QuietFiles(s: State, t: nat, s2: State) {
    && t < |s.threads| == |s2.threads|
    && s2.threads == s.threads[t := s2.threads[t]]
    && s2.handles == s.handles && s2.files == s.files && s2.dir == s.dir
    && Todo(s2.threads[t]) == Todo(s.threads[t])
    && (s2.threads[t].Appending? && s2.threads[t].a.Writing? ==>
         Cached(s, s2.threads[t].a.handle) && s.files[s2.threads[t].a.handle].key == s2.threads[t].key)
  }

  lemma QuietKeepsFiles(s: State, t: nat, s2: State)
    requires MapInv(s) && TodoInv(s) && WriteInv(s) && QuietFiles(s, t, s2)
    ensures MapInv(s2) && TodoInv(s2) && WriteInv(s2)
  {
    assert forall u :: 0 <= u < |s.threads| ==> Todo(s2.threads[u]) == Todo(s.threads[u]);
    hide Todo;
    assert forall h: nat :: Cached(s2, h) <==> Cached(s, h);
  }

  /** Only the move that opens a file adds one. */
  predicate Opens(s: State, t: nat, fails: bool) {
    && t < |s.threads| && s.threads[t].Appending? && s.threads[t].a.InHandle?
    && !s.closed && s.threads[t].key !in s.handles && !fails
  }

  lemma HandleLookupIsQuiet(s: State, t: nat, fails: bool)
    requires MapInv(s) && Enabled(s, Move(t, fails)) && s.threads[t].Appending? && s.threads[t].a.InHandle?
    requires !Opens(s, t, fails)
    ensures QuietFiles(s, t, AppendMove(s, t, fails))
  {
    hide Holds, FreeKey, Wanted, WantsMu, HoldsMu;
  }

  lemma AppendIsQuiet(s: State, t: nat, fails: bool)
    requires MapInv(s) && Enabled(s, Move(t, fails)) && s.threads[t].Appending? && !Opens(s, t, fails)
    ensures QuietFiles(s, t, AppendMove(s, t, fails))
  {
    hide Holds, FreeKey, Wanted, WantsMu, HoldsMu, MapInv, IsClosed;
    match s.threads[t].a
    case NeedLock =>
    case InLookup =>
    case WantFile =>
    case NeedHandle =>
    case InHandle => HandleLookupIsQuiet(s, t, fails);
    case Writing(_) =>
    case Unlocking(_) =>
  }

  lemma MapAfterOpening(s: State, t: nat)
    requires MapInv(s) && Opens(s, t, false)
    ensures MapInv(AppendMove(s, t, false))
  {
    var s2 := AppendMove(s, t, false);
    assert forall h: nat :: h < |s.files| ==> s2.files[h] == s.files[h] && (Cached(s2, h) <==> Cached(s, h));
  }

  lemma TodoOf(s: State, t: nat, h: Handle)
    requires TodoInv(s) && t < |s.threads|
    ensures h in Todo(s.threads[t]) <==> h < |s.files| && InTransit(s.files[h]) && s.files[h].taker == t
  {
  }

  lemma TodoAfterOpening(s: State, t: nat)
    requires TodoInv(s) && Opens(s, t, false)
    ensures TodoInv(AppendMove(s, t, false))
  {
    var s2 := AppendMove(s, t, false);
    assert forall u :: 0 <= u < |s.threads| ==> Todo(s2.threads[u]) == Todo(s.threads[u]);
    assert forall h: nat :: h < |s.files| ==> s2.files[h] == s.files[h];
    assert |s2.files| == |s.files| + 1;
    assert !InTransit(s2.files[|s.files|]) && |s2.threads| == |s.threads|;
    hide AppendMove, Opens;
    forall u: nat, h: nat | u < |s2.threads|
      ensures h in Todo(s2.threads[u]) <==> h < |s2.files| && InTransit(s2.files[h]) && s2.files[h].taker == u
    {
      assert Todo(s2.threads[u]) == Todo(s.threads[u]);
      assert u < |s.threads|;
      TodoOf(s, u, h);
      if h < |s.files| {
        assert s2.files[h] == s.files[h];
      } else if h < |s2.files| {
        assert h == |s.files|;
      }
    }
  }

  lemma WritesAfterOpening(s: State, t: nat)
    requires WriteInv(s) && Opens(s, t, false)
    ensures WriteInv(AppendMove(s, t, false))
  {
    var s2 := AppendMove(s, t, false);
    assert forall u :: 0 <= u < |s.threads| && u != t ==> s2.threads[u] == s.threads[u];
    assert forall h: nat :: h < |s.files| ==> s2.files[h] == s.files[h];
  }

  /** Only the move that empties the map takes files. */
  predicate Takes(s: State, t: nat) {
    && t < |s.threads| && s.threads[t].Bulk? && s.threads[t].b.InDetach?
    && !(s.threads[t].op.SetDir? && s.closed)
  }

  lemma BulkIsQuiet(s: State, t: nat, fails: bool)
    requires Enabled(s, Move(t, fails)) && s.threads[t].Bulk? && !Takes(s, t)
    ensures QuietFiles(s, t, BulkMove(s, t, fails))
  {
    hide Taken, SortedKeys, Holds, Wanted, WantsMu, FreeKey;
    match s.threads[t].b
    case NeedSnapshot =>
    case InSnapshot =>
    case Locking(_, _) =>
    case NeedDetach(_) =>
    case InDetach(_) =>
    case Closing(_, _) =>
    case UnlockingAll(_, _, _) =>
  }

  lemma MapAfterTaking(s: State, t: nat, fails: bool)
    requires MapInv(s) && Enabled(s, Move(t, fails)) && Takes(s, t)
    ensures MapInv(BulkMove(s, t, fails))
  {
    var s2 := BulkMove(s, t, fails);
    assert forall h: nat :: !Cached(s2, h);
    assert s2.files == Taken(s, t, s.threads[t].b.keys);
    hide Taken, SortedKeys;
  }

  lemma TodoAfterTaking(s: State, t: nat, fails: bool)
    requires MapInv(s) && TodoInv(s) && Enabled(s, Move(t, fails)) && Takes(s, t)
    ensures TodoInv(BulkMove(s, t, fails))
  {
    var s2 := BulkMove(s, t, fails);
    assert s2.files == Taken(s, t, s.threads[t].b.keys);
    forall h: nat
      ensures h in s.handles.Values <==> Cached(s, h)
    {
      if h in s.handles.Values {
        var k :| k in s.handles && s.handles[k] == h;
      }
    }
    assert Todo(s2.threads[t]) == s.handles.Values && Todo(s.threads[t]) == {};
    assert forall u :: 0 <= u < |s.threads| && u != t ==> Todo(s2.threads[u]) == Todo(s.threads[u]);
    assert |s2.threads| == |s.threads|;
    hide Taken, SortedKeys, Todo, BulkMove, Cached;
    forall u: nat, h: nat | u < |s2.threads|
      ensures h in Todo(s2.threads[u]) <==> h < |s2.files| && InTransit(s2.files[h]) && s2.files[h].taker == u
    {
      TodoOf(s, u, h);
      assert Cached(s, h) <==> h in s.handles.Values;
    }
  }

  lemma WritesAfterTaking(s: State, t: nat, fails: bool)
    requires LockInv(s) && WriteInv(s) && Enabled(s, Move(t, fails)) && Takes(s, t)
    ensures WriteInv(BulkMove(s, t, fails))
  {
    var s2 := BulkMove(s, t, fails);
    var keys := s.threads[t].b.keys;
    assert s2.files == Taken(s, t, keys);
    OwnThread(s, t);
    assert forall k <- keys :: Holds(s.threads[t], k);
    assert forall k <- keys :: s.locks[k] == Some(t);
    forall u: nat | u < |s2.threads| && s2.threads[u].Appending? && s2.threads[u].a.Writing?
      ensures s.threads[u] == s2.threads[u] && s2.threads[u].key !in keys
    {
      assert u != t;
      OwnThread(s, u);
      assert Holds(s.threads[u], s.threads[u].key);
      assert s.locks[s.threads[u].key] == Some(u);
    }
    hide Taken, SortedKeys, LockInv, BulkMove;
  }

  lemma ClosingKeepsFiles(s: State, t: nat, h: Handle)
    requires MapInv(s) && TodoInv(s) && WriteInv(s) && Enabled(s, CloseOne(t, h))
    ensures MapInv(CloseFile(s, t, h)) && TodoInv(CloseFile(s, t, h)) && WriteInv(CloseFile(s, t, h))
  {
    var s2 := CloseFile(s, t, h);
    assert h in Todo(s.threads[t]);
    assert Todo(s2.threads[t]) == Todo(s.threads[t]) - {h};
    assert forall u :: 0 <= u < |s.threads| && u != t ==> s2.threads[u] == s.threads[u];
    assert forall g: nat :: Cached(s2, g) <==> Cached(s, g);
    hide Cached, Todo, CloseFile;
    assert s2.files == s.files[h := s.files[h].(closes := 1)];
  }

  lemma ArrivalKeepsFiles(s: State, call: Call)
    requires MapInv(s) && TodoInv(s) && WriteInv(s)
    ensures var s2 := Apply(s, Arrive(call)); MapInv(s2) && TodoInv(s2) && WriteInv(s2)
  {
    var s2 := Apply(s, Arrive(call));
    assert Todo(s2.threads[|s.threads|]) == {};
    assert forall u :: 0 <= u < |s.threads| ==> s2.threads[u] == s.threads[u];
    assert forall h: nat :: Cached(s2, h) <==> Cached(s, h);
    hide Cached, Todo;
  }

  lemma CloseKeptByAppend(s: State, t: nat, fails: bool)
    requires CloseInv(s) && Enabled(s, Move(t, fails)) && s.threads[t].Appending?
    ensures CloseInv(AppendMove(s, t, fails))
  {
    hide Holds, FreeKey, Wanted, WantsMu, HoldsMu, Taken, SortedKeys;
  }

  lemma CloseKeptBySnapshot(s: State, t: nat, fails: bool)
    requires CloseInv(s) && Enabled(s, Move(t, fails)) && s.threads[t].Bulk? && s.threads[t].b.InSnapshot?
    ensures CloseInv(BulkMove(s, t, fails))
  {
    hide Holds, FreeKey, Wanted, WantsMu, HoldsMu, Taken, SortedKeys;
  }

  lemma CloseKeptByDetach(s: State, t: nat, fails: bool)
    requires CloseInv(s) && Enabled(s, Move(t, fails)) && s.threads[t].Bulk? && s.threads[t].b.InDetach?
    ensures CloseInv(BulkMove(s, t, fails))
  {
    hide Holds, FreeKey, Wanted, WantsMu, HoldsMu, Taken, SortedKeys;
  }

  lemma CloseKeptByBulk(s: State, t: nat, fails: bool)
    requires CloseInv(s) && Enabled(s, Move(t, fails)) && s.threads[t].Bulk?
    ensures CloseInv(BulkMove(s, t, fails))
  {
    if s.threads[t].b.InSnapshot? {
      CloseKeptBySnapshot(s, t, fails);
    } else if s.threads[t].b.InDetach? {
      CloseKeptByDetach(s, t, fails);
    } else {
      hide Holds, FreeKey, Wanted, WantsMu, HoldsMu, Taken, SortedKeys;
    }
  }

  lemma CloseKeptByCloseOne(s: State, t: nat, h: Handle)
    requires CloseInv(s) && Enabled(s, CloseOne(t, h))
    ensures CloseInv(CloseFile(s, t, h))
  {
  }

  lemma CloseKeptByArrival(s: State, call: Call)
    requires CloseInv(s)
    ensures CloseInv(Apply(s, Arrive(call)))
  {
  }


  lemma FilesKept(s: State, step: Step)
    requires LockInv(s) && FileInv(s) && Enabled(s, step)
    ensures FileInv(Apply(s, step))
  {
    hide LockInv, MapInv, TodoInv, WriteInv, CloseInv, Enabled, AppendMove, BulkMove, CloseFile;
    match step
    case Arrive(call) =>
      ArrivalKeepsFiles(s, call);
      CloseKeptByArrival(s, call);
    case Move(t, fails) =>
      MoveKeepsFiles(s, t, fails);
    case CloseOne(t, h) =>
      InRange(s, step, t);
      ClosingKeepsFiles(s, t, h);
      CloseKeptByCloseOne(s, t, h);
  }

  lemma InRange(s: State, step: Step, t: nat)
    requires Enabled(s, step) && (step == CloseOne(t, if step.CloseOne? then step.h else 0) || (step.Move? && step.t == t))
    ensures t < |s.threads| && !s.threads[t].Finished?
  {
  }

  lemma MoveKeepsFiles(s: State, t: nat, fails: bool)
    requires LockInv(s) && FileInv(s) && Enabled(s, Move(t, fails))
    ensures FileInv(Apply(s, Move(t, fails)))
  {
    InRange(s, Move(t, fails), t);
    var s2 := Apply(s, Move(t, fails));
    if s.threads[t].Appending? {
      CloseKeptByAppend(s, t, fails);
      if Opens(s, t, fails) {
        MapAfterOpening(s, t);
        TodoAfterOpening(s, t);
        WritesAfterOpening(s, t);
      } else {
        AppendIsQuiet(s, t, fails);
        QuietKeepsFiles(s, t, s2);
      }
    } else {
      CloseKeptByBulk(s, t, fails);
      if Takes(s, t) {
        MapAfterTaking(s, t, fails);
        TodoAfterTaking(s, t, fails);
        WritesAfterTaking(s, t, fails);
      } else {
        BulkIsQuiet(s, t, fails);
        QuietKeepsFiles(s, t, s2);
      }
    }
  }

  // ---------- every reachable state ----------

  ghost predicate Inv(s: State) {
    LockInv(s) && FileInv(s)
  }

  /** The steps lead from s to t. */
  ghost predicate Leads(s: State, steps: seq<Step>, t: State)
    decreases |steps|
  {
    if steps == [] then s == t
    else Enabled(s, steps[0]) && Leads(Apply(s, steps[0]), steps[1..], t)
  }

  ghost predicate Reachable(dir: Dir, s: State) {
    exists steps :: Leads(New(dir), steps, s)
  }

  lemma {:induction false} InvHolds(s: State, steps: seq<Step>, t: State)
    requires Inv(s) && Leads(s, steps, t)
    ensures Inv(t)
    decreases |steps|
  {
    hide LockInv, FileInv, Enabled, Apply;
    if steps != [] {
      LocksKept(s, steps[0]);
      FilesKept(s, steps[0]);
      InvHolds(Apply(s, steps[0]), steps[1..], t);
    }
  }

  lemma ReachableInv(dir: Dir, s: State)
    requires Reachable(dir, s)
    ensures Inv(s)
  {
    var steps :| Leads(New(dir), steps, s);
    assert Inv(New(dir));
    InvHolds(New(dir), steps, s);
  }

  // ---------- deadlock freedom ----------

  /**
   In every reachable state with an unfinished call some thread can take a step, whatever the
   scheduler has done before.
   */
  lemma DeadlockFree(dir: Dir, s: State, t: nat)
    requires Reachable(dir, s) && t < |s.threads| && !s.threads[t].Finished?
    ensures exists step: Step :: !step.Arrive? && Enabled(s, step)
  {
    ReachableInv(dir, s);
    if s.mu.Some? {
      assert HoldsMu(s.threads[s.mu.value]);
      assert Enabled(s, Move(s.mu.value, false));
    } else {
      FindMove(s, t);
    }
  }

  /** The keys after k. */
  function Above(s: State, k: Key): set<Key> {
    set j | j in s.locks && Less(k, j)
  }

  /**
   With mu free, a thread that cannot move waits for a file mutex; its holder, if it waits too, is
   in lockAll and waits for a later key, so the chain of holders ends at a thread that can move.
   */
  lemma {:induction false} FindMove(s: State, t: nat)
    requires LockInv(s) && s.mu == None && t < |s.threads| && !s.threads[t].Finished?
    ensures exists step: Step :: !step.Arrive? && Enabled(s, step)
    decreases if Wanted(s.threads[t]).Some? then |Above(s, Wanted(s.threads[t]).value)| else |s.locks|
  {
    OwnThread(s, t);
    var th := s.threads[t];
    if Wanted(th).Some? {
      var k := Wanted(th).value;
      if s.locks[k] == None {
        assert Enabled(s, Move(t, false));
      } else {
        var u := s.locks[k].value;
        HolderIsAhead(s, u, k);
        if Wanted(s.threads[u]).Some? {
          AboveShrinks(s, k, Wanted(s.threads[u]).value);
          FindMove(s, u);
        } else {
          CanMove(s, u);
        }
      }
    } else {
      CanMove(s, t);
    }
  }

  lemma CanMove(s: State, t: nat)
    requires s.mu == None && t < |s.threads| && !s.threads[t].Finished? && Wanted(s.threads[t]) == None
    ensures exists step: Step :: !step.Arrive? && Enabled(s, step)
  {
    var th := s.threads[t];
    if th.Bulk? && th.b.Closing? && th.b.todo != {} {
      var h :| h in th.b.todo;
      assert Enabled(s, CloseOne(t, h));
    } else {
      assert Enabled(s, Move(t, false));
    }
  }

  /** Whoever holds a key and waits for another waits for a later one. */
  lemma HolderIsAhead(s: State, u: nat, k: Key)
    requires LockInv(s) && k in s.locks && s.locks[k] == Some(u)
    ensures u < |s.threads| && !s.threads[u].Finished?
    ensures Wanted(s.threads[u]).Some? ==> Wanted(s.threads[u]).value in s.locks && Less(k, Wanted(s.threads[u]).value)
  {
    hide Less;
    assert Holds(s.threads[u], k);
    OwnThread(s, u);
    var th := s.threads[u];
    if Wanted(th).Some? {
      var keys, n := th.b.keys, th.b.n;
      var i :| 0 <= i < n && keys[..n][i] == k;
      assert Less(keys[i], keys[n]);
    }
  }

  lemma AboveShrinks(s: State, k: Key, j: Key)
    requires Less(k, j) && j in s.locks
    ensures |Above(s, j)| < |Above(s, k)|
  {
    hide Less;
    forall i | i in Above(s, j)
      ensures i in Above(s, k)
    {
      LessTransitive(k, j, i);
    }
    LessTotal(j, j);
    assert j in Above(s, k) - Above(s, j);
    assert Above(s, j) < Above(s, k);
    SmallerSet(Above(s, j), Above(s, k));
  }

  lemma SmallerSet(a: set<Key>, b: set<Key>)
    requires a < b
    ensures |a| < |b|
  {
    assert b == a + (b - a);
    assert |b| == |a| + |b - a|;
  }

  // ---------- every call ends ----------

  function Sum(threads: seq<Thread>, f: Thread -> nat): nat {
    if threads == [] then 0 else Sum(threads[..|threads| - 1], f) + f(threads[|threads| - 1])
  }

  lemma {:induction false} SumAfterMove(threads: seq<Thread>, t: nat, th: Thread, f: Thread -> nat)
    requires t < |threads|
    ensures Sum(threads[t := th], f) == Sum(threads, f) - f(threads[t]) + f(th)
  {
    var last := |threads| - 1;
    if t < last {
      SumAfterMove(threads[..last], t, th, f);
      assert threads[t := th][..last] == threads[..last][t := th];
    } else {
      assert threads[t := th][..last] == threads[..last];
    }
  }

  /** A SetDir or Close call that has yet to take its snapshot, and so to learn how many keys to lock. */
  function BeforeSnapshot(th: Thread): nat {
    if th.Bulk? && (th.b.NeedSnapshot? || th.b.InSnapshot?) then 1 else 0
  }

  /** A SetDir or Close call that has yet to take the files, and so to learn how many to close. */
  function BeforeDetach(th: Thread): nat {
    if th.Bulk? && !th.b.Closing? && !th.b.UnlockingAll? then 1 else 0
  }

  /** The steps of a call up to where it learns something new. */
  function CallSteps(th: Thread): nat {
    match th
    case Appending(_, a) => (
      match a
      case NeedLock => 7
      case InLookup => 6
      case WantFile => 5
      case NeedHandle => 4
      case InHandle => 3
      case Writing(_) => 2
      case Unlocking(_) => 1)
    case Bulk(_, b) => (
      match b
      case NeedSnapshot => 2
      case InSnapshot => 1
      case Locking(keys, n) => if n <= |keys| then |keys| - n + 3 else 3
      case NeedDetach(_) => 2
      case InDetach(_) => 1
      case Closing(keys, todo) => |todo| + |keys| + 2
      case UnlockingAll(keys, n, _) => n + 1)
    case Finished(_) => 0
  }

  /** Fewer calls before the snapshot, or else fewer before the detach, or else fewer steps. */
  predicate Shorter(before: seq<Thread>, after: seq<Thread>) {
    var a, b := Sum(before, BeforeSnapshot), Sum(after, BeforeSnapshot);
    var c, d := Sum(before, BeforeDetach), Sum(after, BeforeDetach);
    b < a || (b == a && (d < c || (d == c && Sum(after, CallSteps) < Sum(before, CallSteps))))
  }

  /** The same for one thread. */
  predicate ShorterCall(before: Thread, after: Thread) {
    var a, b := BeforeSnapshot(before), BeforeSnapshot(after);
    var c, d := BeforeDetach(before), BeforeDetach(after);
    b < a || (b == a && (d < c || (d == c && CallSteps(after) < CallSteps(before))))
  }

  /**
   Every step of a call brings the calls there are nearer to their ends, in a well-founded order.
   Together with DeadlockFree: every AppendLine, SetDir and Close call returns.
   */
  lemma StepsRunOut(s: State, step: Step)
    requires Enabled(s, step) && !step.Arrive?
    ensures Shorter(s.threads, Apply(s, step).threads)
  {
    var t := step.t;
    var u := Apply(s, step);
    MoverShortens(s, step);
    var th := u.threads[t];
    hide Apply, Enabled, BeforeSnapshot, BeforeDetach, CallSteps;
    SumAfterMove(s.threads, t, th, BeforeSnapshot);
    SumAfterMove(s.threads, t, th, BeforeDetach);
    SumAfterMove(s.threads, t, th, CallSteps);
  }

  lemma MoverShortens(s: State, step: Step)
    requires Enabled(s, step) && !step.Arrive?
    ensures var t, u := step.t, Apply(s, step);
      t < |s.threads| == |u.threads| && u.threads == s.threads[t := u.threads[t]] && ShorterCall(s.threads[t], u.threads[t])
  {
    if step.CloseOne? {
      assert s.threads[step.t].b.todo == (s.threads[step.t].b.todo - {step.h}) + {step.h};
    } else {
      hide AppendMove, BulkMove;
      if s.threads[step.t].Appending? {
        FilesAfterAppend(s, step.t, step.fails);
        AppendShortens(s, step.t, step.fails);
      } else {
        OthersStay(s, step.t, step.fails);
        BulkShortens(s, step.t, step.fails);
      }
    }
  }

  lemma AppendShortens(s: State, t: nat, fails: bool)
    requires Enabled(s, Move(t, fails)) && s.threads[t].Appending?
    ensures |AppendMove(s, t, fails).threads| == |s.threads| && ShorterCall(s.threads[t], AppendMove(s, t, fails).threads[t])
  {
    hide Wanted, Holds, FreeKey, WantsMu, IsClosed;
    match s.threads[t].a
    case NeedLock =>
    case InLookup =>
    case WantFile =>
    case NeedHandle =>
    case InHandle =>
    case Writing(_) =>
    case Unlocking(_) =>
  }

  lemma BulkShortens(s: State, t: nat, fails: bool)
    requires Enabled(s, Move(t, fails)) && s.threads[t].Bulk?
    ensures |BulkMove(s, t, fails).threads| == |s.threads| && ShorterCall(s.threads[t], BulkMove(s, t, fails).threads[t])
  {
    hide Wanted, Holds, FreeKey, WantsMu, Taken, SortedKeys;
    match s.threads[t].b
    case NeedSnapshot =>
    case InSnapshot => SnapshotShortens(s, t, fails);
    case Locking(_, _) => LockingShortens(s, t, fails);
    case NeedDetach(_) =>
    case InDetach(_) => DetachShortens(s, t, fails);
    case Closing(_, _) =>
    case UnlockingAll(_, _, _) => UnlockShortens(s, t, fails);
  }

  lemma SnapshotShortens(s: State, t: nat, fails: bool)
    requires Enabled(s, Move(t, fails)) && s.threads[t].Bulk? && s.threads[t].b.InSnapshot?
    ensures |BulkMove(s, t, fails).threads| == |s.threads| && ShorterCall(s.threads[t], BulkMove(s, t, fails).threads[t])
  {
    hide Wanted, Holds, FreeKey, WantsMu, Taken, SortedKeys;
  }

  lemma LockingShortens(s: State, t: nat, fails: bool)
    requires Enabled(s, Move(t, fails)) && s.threads[t].Bulk? && s.threads[t].b.Locking?
    ensures |BulkMove(s, t, fails).threads| == |s.threads| && ShorterCall(s.threads[t], BulkMove(s, t, fails).threads[t])
  {
    hide Wanted, Holds, FreeKey, WantsMu, Taken, SortedKeys;
  }

  lemma DetachShortens(s: State, t: nat, fails: bool)
    requires Enabled(s, Move(t, fails)) && s.threads[t].Bulk? && s.threads[t].b.InDetach?
    ensures |BulkMove(s, t, fails).threads| == |s.threads| && ShorterCall(s.threads[t], BulkMove(s, t, fails).threads[t])
  {
    hide Wanted, Holds, FreeKey, WantsMu, Taken, SortedKeys;
  }

  lemma UnlockShortens(s: State, t: nat, fails: bool)
    requires Enabled(s, Move(t, fails)) && s.threads[t].Bulk? && s.threads[t].b.UnlockingAll?
    ensures |BulkMove(s, t, fails).threads| == |s.threads| && ShorterCall(s.threads[t], BulkMove(s, t, fails).threads[t])
  {
    hide Wanted, Holds, FreeKey, WantsMu, Taken, SortedKeys;
  }

  // ---------- what the locks and the map give ----------

  predicate InCriticalSection(th: Thread, k: Key) {
    th.Appending? && th.key == k && (th.a.NeedHandle? || th.a.InHandle? || th.a.Writing? || th.a.Unlocking?)
  }

  /** Two AppendLine calls for one key never write at the same time. */
  lemma MutualExclusion(dir: Dir, s: State, t: nat, u: nat, k: Key)
    requires Reachable(dir, s) && t < |s.threads| && u < |s.threads|
    requires InCriticalSection(s.threads[t], k) && InCriticalSection(s.threads[u], k)
    ensures t == u
  {
    ReachableInv(dir, s);
    OwnThread(s, t);
    OwnThread(s, u);
    assert Holds(s.threads[t], k) && Holds(s.threads[u], k);
  }

  /**
   Every cached handle was opened under the current directory. Every file is taken out of the map
   at most once and closed at most once, only after it was taken, and never held by two calls.
   */
  lemma HandleLifecycle(dir: Dir, s: State)
    requires Reachable(dir, s)
    ensures forall k <- s.handles ::
      s.handles[k] < |s.files| && s.files[s.handles[k]].key == k && s.files[s.handles[k]].dir == s.dir
    ensures forall h :: 0 <= h < |s.files| ==> s.files[h].closes <= s.files[h].taken <= 1
    ensures forall h :: 0 <= h < |s.files| ==>
      Cached(s, h) || s.files[h].closes == 1 || (s.files[h].taker < |s.threads| && h in Todo(s.threads[s.files[h].taker]))
    ensures forall t, u | 0 <= t < u < |s.threads| :: Todo(s.threads[t]) !! Todo(s.threads[u])
  {
    ReachableInv(dir, s);
    hide LockInv, WriteInv, CloseInv;
    forall t, u | 0 <= t < u < |s.threads|
      ensures Todo(s.threads[t]) !! Todo(s.threads[u])
    {
      forall h | h in Todo(s.threads[t])
        ensures h !in Todo(s.threads[u])
      {
        TodoOf(s, t, h);
        TodoOf(s, u, h);
      }
    }
  }

  // ---------- which directory ----------

  /** The directory is that of the last switch. */
  ghost predicate DirInv(dir: Dir, s: State) {
    s.dir == if s.switches == [] then dir else s.switches[|s.switches| - 1]
  }

  lemma DirsKept(dir: Dir, s: State, step: Step)
    requires DirInv(dir, s) && Enabled(s, step)
    ensures DirInv(dir, Apply(s, step))
  {
    if step.Move? {
      hide AppendMove, BulkMove, Wanted, Holds, FreeKey, WantsMu;
      if s.threads[step.t].Appending? {
        DirsAfterAppend(s, step.t, step.fails);
      } else {
        DirsAfterBulk(s, step.t, step.fails);
      }
    }
  }

  lemma DirsAfterAppend(s: State, t: nat, fails: bool)
    requires Enabled(s, Move(t, fails)) && s.threads[t].Appending?
    ensures var u := AppendMove(s, t, fails);
      && u.dir == s.dir && u.switches == s.switches && |u.threads| == |s.threads| && !u.threads[t].Bulk?
  {
    hide Wanted, Holds, FreeKey, WantsMu, IsClosed;
    match s.threads[t].a
    case NeedLock =>
    case InLookup =>
    case WantFile =>
    case NeedHandle =>
    case InHandle =>
    case Writing(_) =>
    case Unlocking(_) =>
  }

  lemma DirsAfterBulk(s: State, t: nat, fails: bool)
    requires Enabled(s, Move(t, fails)) && s.threads[t].Bulk?
    ensures var u := BulkMove(s, t, fails);
      if Takes(s, t) && s.threads[t].op.SetDir?
      then u.dir == s.threads[t].op.dir && u.switches == s.switches + [u.dir]
      else u.dir == s.dir && u.switches == s.switches
  {
    hide Wanted, Holds, FreeKey, WantsMu, Taken, SortedKeys;
    match s.threads[t].b
    case NeedSnapshot =>
    case InSnapshot =>
    case Locking(_, _) =>
    case NeedDetach(_) =>
    case InDetach(_) =>
    case Closing(_, _) =>
    case UnlockingAll(_, _, _) =>
  }

  /** Where a SetDir or Close call can go from its position. */
  predicate GoesTo(op: Op, b: BulkPc, takes: bool, closed: bool, next: Thread) {
    match next
    case Bulk(op', b') =>
      && op' == op
      && (b'.Closing? ==> takes)
      && (b'.UnlockingAll? && b'.result == Done ==> b.Closing? || (b.UnlockingAll? && b.result == Done))
    case Finished(result) =>
      (b.UnlockingAll? && b.result == result) || (b.InSnapshot? && closed && (op.SetDir? ==> result == WriterClosed))
    case Appending(_, _) => false
  }

  lemma BulkGoes(s: State, t: nat, fails: bool)
    requires Enabled(s, Move(t, fails)) && s.threads[t].Bulk?
    ensures |BulkMove(s, t, fails).threads| == |s.threads|
    ensures GoesTo(s.threads[t].op, s.threads[t].b, Takes(s, t), s.closed, BulkMove(s, t, fails).threads[t])
  {
    hide Wanted, Holds, FreeKey, WantsMu, Taken, SortedKeys;
    match s.threads[t].b
    case NeedSnapshot =>
    case InSnapshot => SnapshotGoes(s, t, fails);
    case Locking(_, _) =>
    case NeedDetach(_) =>
    case InDetach(_) => DetachGoes(s, t, fails);
    case Closing(_, _) =>
    case UnlockingAll(_, _, _) => UnlockGoes(s, t, fails);
  }

  lemma SnapshotGoes(s: State, t: nat, fails: bool)
    requires Enabled(s, Move(t, fails)) && s.threads[t].Bulk? && s.threads[t].b.InSnapshot?
    ensures |BulkMove(s, t, fails).threads| == |s.threads|
    ensures GoesTo(s.threads[t].op, s.threads[t].b, Takes(s, t), s.closed, BulkMove(s, t, fails).threads[t])
  {
    hide Wanted, Holds, FreeKey, WantsMu, Taken, SortedKeys;
  }

  lemma DetachGoes(s: State, t: nat, fails: bool)
    requires Enabled(s, Move(t, fails)) && s.threads[t].Bulk? && s.threads[t].b.InDetach?
    ensures |BulkMove(s, t, fails).threads| == |s.threads|
    ensures GoesTo(s.threads[t].op, s.threads[t].b, Takes(s, t), s.closed, BulkMove(s, t, fails).threads[t])
  {
    hide Wanted, Holds, FreeKey, WantsMu, Taken, SortedKeys;
  }

  lemma UnlockGoes(s: State, t: nat, fails: bool)
    requires Enabled(s, Move(t, fails)) && s.threads[t].Bulk? && s.threads[t].b.UnlockingAll?
    ensures |BulkMove(s, t, fails).threads| == |s.threads|
    ensures GoesTo(s.threads[t].op, s.threads[t].b, Takes(s, t), s.closed, BulkMove(s, t, fails).threads[t])
  {
    hide Wanted, Holds, FreeKey, WantsMu, Taken, SortedKeys;
  }

  lemma OthersStay(s: State, t: nat, fails: bool)
    requires Enabled(s, Move(t, fails)) && s.threads[t].Bulk?
    ensures var u := BulkMove(s, t, fails);
      |u.threads| == |s.threads| && u.threads == s.threads[t := u.threads[t]]
  {
    hide Wanted, Holds, FreeKey, WantsMu, Taken, SortedKeys;
    match s.threads[t].b
    case NeedSnapshot =>
    case InSnapshot =>
    case Locking(_, _) =>
    case NeedDetach(_) =>
    case InDetach(_) =>
    case Closing(_, _) =>
    case UnlockingAll(_, _, _) =>
  }

  lemma {:induction false} DirsHold(dir: Dir, s: State, steps: seq<Step>, u: State)
    requires DirInv(dir, s) && Leads(s, steps, u)
    ensures DirInv(dir, u)
    decreases |steps|
  {
    hide DirInv, Enabled, Apply;
    if steps != [] {
      DirsKept(dir, s, steps[0]);
      DirsHold(dir, Apply(s, steps[0]), steps[1..], u);
    }
  }

  /** The directory is the first one until a SetDir call has set another, and then the last one set. */
  lemma DirectoryHistory(dir: Dir, s: State)
    requires Reachable(dir, s)
    ensures s.dir == if s.switches == [] then dir else s.switches[|s.switches| - 1]
  {
    var steps :| Leads(New(dir), steps, s);
    DirsHold(dir, New(dir), steps, s);
  }

  /** Call t is a SetDir(d) call, or has been one; past its detach, unless it was refused, d has been set. */
  ghost predicate IsSwitch(s: State, t: nat, d: Dir) {
    && t < |s.threads|
    && match s.threads[t]
       case Bulk(op, b) => op == SetDir(d) && (b.Closing? || (b.UnlockingAll? && b.result == Done) ==> d in s.switches)
       case Finished(result) => result == Done ==> d in s.switches
       case Appending(_, _) => false
  }

  lemma SwitchKept(s: State, step: Step, t: nat, d: Dir)
    requires IsSwitch(s, t, d) && Enabled(s, step)
    ensures IsSwitch(Apply(s, step), t, d)
  {
    if step.Move? {
      hide AppendMove, BulkMove, Wanted, Holds, FreeKey, WantsMu;
      if s.threads[step.t].Appending? {
        DirsAfterAppend(s, step.t, step.fails);
        FilesAfterAppend(s, step.t, step.fails);
      } else {
        DirsAfterBulk(s, step.t, step.fails);
        BulkGoes(s, step.t, step.fails);
        OthersStay(s, step.t, step.fails);
      }
    }
  }

  lemma {:induction false} SwitchHolds(s: State, steps: seq<Step>, u: State, t: nat, d: Dir)
    requires IsSwitch(s, t, d) && Leads(s, steps, u)
    ensures IsSwitch(u, t, d)
    decreases |steps|
  {
    hide Enabled, Apply, IsSwitch;
    if steps != [] {
      SwitchKept(s, steps[0], t, d);
      SwitchHolds(Apply(s, steps[0]), steps[1..], u, t, d);
    }
  }

  /** A SetDir(d) call that returns without an error has set d. */
  lemma SetDirSwitches(s: State, t: nat, d: Dir, steps: seq<Step>, u: State)
    requires t < |s.threads| && s.threads[t] == Bulk(SetDir(d), NeedSnapshot)
    requires Leads(s, steps, u) && t < |u.threads| && u.threads[t] == Finished(Done)
    ensures d in u.switches
  {
    SwitchHolds(s, steps, u, t, d);
  }

  /**
   The file an AppendLine call gets is that of its key under the current directory, whether it finds
   it or opens it: after a switch new writes go to the new directory.
   */
  lemma WritesGoToDirectory(dir: Dir, s: State, t: nat, fails: bool)
    requires Reachable(dir, s) && Enabled(s, Move(t, fails)) && s.threads[t].Appending? && s.threads[t].a.InHandle?
    ensures var u := Apply(s, Move(t, fails));
      var key := s.threads[t].key;
      match u.threads[t].a
      case Writing(h) =>
        !s.closed && h < |u.files| && u.files[h].key == key && u.files[h].dir == s.dir && key in u.handles && u.handles[key] == h
      case Unlocking(result) =>
        if s.closed then result == WriterClosed else result == OpenFailed && fails && key !in s.handles
      case _ => false
  {
    ReachableInv(dir, s);
    MapOfInv(s);
    hide Inv, LockInv, WriteInv, Wanted, Holds, FreeKey, WantsMu, Reachable;
  }

  // ---------- which writes ----------

  ghost predicate WroteNothing(s: State, t: nat) {
    forall i :: 0 <= i < |s.writes| ==> s.writes[i].0 != t
  }

  /** Call t has written one line, to a file of its key. */
  ghost predicate WroteOnce(s: State, t: nat, key: Key) {
    exists i :: 0 <= i < |s.writes| && s.writes[i].0 == t && s.writes[i].1 < |s.files| && s.files[s.writes[i].1].key == key
                && forall j :: 0 <= j < |s.writes| && j != i ==> s.writes[j].0 != t
  }

  /** Call t is an AppendLine call for the key, or has been one, with the writes its position tells of. */
  ghost predicate IsAppend(s: State, t: nat, key: Key) {
    && t < |s.threads|
    && match s.threads[t]
       case Appending(k, a) => k == key && if a == Unlocking(Done) then WroteOnce(s, t, key) else WroteNothing(s, t)
       case Finished(result) => if result == Done then WroteOnce(s, t, key) else WroteNothing(s, t)
       case Bulk(_, _) => false
  }

  /** A step leaves the files' keys alone and adds to the writes only what it writes itself. */
  lemma WritesAfter(s: State, step: Step)
    requires Enabled(s, step)
    ensures var u := Apply(s, step);
      && |s.files| <= |u.files| && (forall h :: 0 <= h < |s.files| ==> u.files[h].key == s.files[h].key)
      && (u.writes == s.writes
          || (step.Move? && IsWriting(s.threads[step.t]) && !IsClosed(s, s.threads[step.t].a.handle)
              && u.writes == s.writes + [(step.t, s.threads[step.t].a.handle)]))
  {
    if step.Move? {
      hide AppendMove, BulkMove;
      if s.threads[step.t].Appending? {
        FilesAfterAppend(s, step.t, step.fails);
        WritesAfterAppend(s, step.t, step.fails);
      } else {
        WritesAfterBulk(s, step.t, step.fails);
      }
    }
  }

  lemma WritesAfterAppend(s: State, t: nat, fails: bool)
    requires Enabled(s, Move(t, fails)) && s.threads[t].Appending?
    ensures var u := AppendMove(s, t, fails);
      && u.writes == s.writes + (if IsWriting(s.threads[t]) && !fails && !IsClosed(s, s.threads[t].a.handle)
                                 then [(t, s.threads[t].a.handle)] else [])
      && |u.threads| == |s.threads|
      && match u.threads[t]
         case Appending(k, a) =>
           && k == s.threads[t].key
           && (a == Unlocking(Done) <==> IsWriting(s.threads[t]) && !fails && !IsClosed(s, s.threads[t].a.handle))
         case Finished(result) => s.threads[t].a == Unlocking(result)
         case Bulk(_, _) => false
  {
    hide Wanted, Holds, FreeKey, WantsMu, IsClosed;
    assert s.writes + [] == s.writes;
    match s.threads[t].a
    case NeedLock =>
    case InLookup =>
    case WantFile =>
    case NeedHandle =>
    case InHandle =>
    case Writing(_) =>
    case Unlocking(_) =>
  }

  lemma WritesAfterBulk(s: State, t: nat, fails: bool)
    requires Enabled(s, Move(t, fails)) && s.threads[t].Bulk?
    ensures var u := BulkMove(s, t, fails);
      && u.writes == s.writes && |s.files| == |u.files| && forall h :: 0 <= h < |s.files| ==> u.files[h].key == s.files[h].key
  {
    BulkWritesNothing(s, t, fails);
    hide BulkMove, Wanted, Holds, FreeKey, WantsMu, Cached;
    if Takes(s, t) {
      FilesAfterTaking(s, t, fails);
    } else {
      BulkIsQuiet(s, t, fails);
    }
  }

  lemma BulkWritesNothing(s: State, t: nat, fails: bool)
    requires Enabled(s, Move(t, fails)) && s.threads[t].Bulk?
    ensures BulkMove(s, t, fails).writes == s.writes
  {
    hide Wanted, Holds, FreeKey, WantsMu, SortedKeys, Cached, Taken;
    match s.threads[t].b
    case NeedSnapshot =>
    case InSnapshot =>
    case Locking(_, _) =>
    case NeedDetach(_) =>
    case InDetach(_) =>
    case Closing(_, _) =>
    case UnlockingAll(_, _, _) =>
  }

  lemma AppendKept(s: State, step: Step, t: nat, key: Key)
    requires WriteInv(s) && IsAppend(s, t, key) && Enabled(s, step)
    ensures IsAppend(Apply(s, step), t, key)
  {
    if step.Move? && step.t == t && s.threads[t].Appending? {
      AppendMoves(s, t, step.fails, key);
    } else {
      WritesAfter(s, step);
      var u := Apply(s, step);
      OtherThreads(s, step, t);
      hide Apply, WriteInv, Enabled, IsWriting, IsClosed;
      OthersWrite(s, u, t, key);
    }
  }

  /** A step of another call, or of one that does not write, leaves thread t where it is. */
  lemma OtherThreads(s: State, step: Step, t: nat)
    requires Enabled(s, step) && t < |s.threads| && !s.threads[t].Bulk? && !(step.Move? && step.t == t)
    ensures t < |Apply(s, step).threads| && Apply(s, step).threads[t] == s.threads[t]
  {
    if step.Move? {
      hide AppendMove, BulkMove, Wanted, Holds, FreeKey, WantsMu;
      if s.threads[step.t].Appending? {
        FilesAfterAppend(s, step.t, step.fails);
      } else {
        OthersStay(s, step.t, step.fails);
      }
    }
  }

  lemma AppendMoves(s: State, t: nat, fails: bool, key: Key)
    requires WriteInv(s) && IsAppend(s, t, key) && Enabled(s, Move(t, fails)) && s.threads[t].Appending?
    ensures IsAppend(AppendMove(s, t, fails), t, key)
  {
    var u := AppendMove(s, t, fails);
    FilesAfterAppend(s, t, fails);
    WritesAfterAppend(s, t, fails);
    assert s.writes + [] == s.writes;
    hide AppendMove, Wanted, Holds, FreeKey, WantsMu, IsClosed, Opens;
    if IsWriting(s.threads[t]) {
      FirstWrite(s, u, t, key, s.threads[t].a.handle);
    } else {
      OthersWrite(s, u, t, key);
    }
    hide WroteOnce, WroteNothing, WriteInv;
  }

  lemma OthersWrite(s: State, u: State, t: nat, key: Key)
    requires |s.files| <= |u.files| && forall h :: 0 <= h < |s.files| ==> u.files[h].key == s.files[h].key
    requires u.writes == s.writes || exists w: (nat, Handle) :: w.0 != t && u.writes == s.writes + [w]
    ensures WroteOnce(s, t, key) ==> WroteOnce(u, t, key)
    ensures WroteNothing(s, t) ==> WroteNothing(u, t)
  {
    if WroteOnce(s, t, key) {
      OnceStays(s, u, t, key);
    }
  }

  /** Other calls' writes change nothing for call t. */
  lemma OnceStays(s: State, u: State, t: nat, key: Key)
    requires WroteOnce(s, t, key) && |s.files| <= |u.files| && forall h :: 0 <= h < |s.files| ==> u.files[h].key == s.files[h].key
    requires u.writes == s.writes || exists w: (nat, Handle) :: w.0 != t && u.writes == s.writes + [w]
    ensures WroteOnce(u, t, key)
  {
    var i :| 0 <= i < |s.writes| && s.writes[i].0 == t && s.writes[i].1 < |s.files| && s.files[s.writes[i].1].key == key
             && forall j :: 0 <= j < |s.writes| && j != i ==> s.writes[j].0 != t;
    assert u.writes[i] == s.writes[i];
  }

  lemma FirstWrite(s: State, u: State, t: nat, key: Key, h: Handle)
    requires WroteNothing(s, t) && h < |s.files| <= |u.files| && u.files[h].key == key
    ensures u.writes == s.writes + [(t, h)] ==> WroteOnce(u, t, key)
    ensures u.writes == s.writes ==> WroteNothing(u, t)
  {
    if u.writes == s.writes + [(t, h)] {
      assert u.writes[|s.writes|] == (t, h);
    }
  }

  lemma {:induction false} AppendHolds(s: State, steps: seq<Step>, u: State, t: nat, key: Key)
    requires Inv(s) && IsAppend(s, t, key) && Leads(s, steps, u)
    ensures IsAppend(u, t, key)
    decreases |steps|
  {
    hide LockInv, FileInv, IsAppend, Enabled, Apply;
    if steps != [] {
      assert WriteInv(s) by { MapOfInv(s); }
      LocksKept(s, steps[0]);
      FilesKept(s, steps[0]);
      AppendKept(s, steps[0], t, key);
      AppendHolds(Apply(s, steps[0]), steps[1..], u, t, key);
    }
  }

  /** Writes come from calls there are, and every AppendLine call has the writes its position tells of. */
  ghost predicate WritersInv(s: State) {
    && (forall i :: 0 <= i < |s.writes| ==> s.writes[i].0 < |s.threads|)
    && forall t :: 0 <= t < |s.threads| && s.threads[t].Appending? ==> IsAppend(s, t, s.threads[t].key)
  }

  lemma WritersKept(s: State, step: Step)
    requires WriteInv(s) && WritersInv(s) && Enabled(s, step)
    ensures WritersInv(Apply(s, step))
  {
    var u := Apply(s, step);
    WritesAfter(s, step);
    StepThreads(s, step);
    forall t: nat | t < |s.threads| && t < |u.threads| && u.threads[t].Appending?
      ensures IsAppend(u, t, u.threads[t].key)
    {
      StillAppending(s, step, t);
      AppendKept(s, step, t, s.threads[t].key);
    }
    if step.Arrive? {
      assert forall t :: 0 <= t < |s.threads| ==> u.threads[t] == s.threads[t];
      assert |u.threads| == |s.threads| + 1 && u.writes == s.writes;
      assert u.threads[|s.threads|].Appending? ==> u.threads[|s.threads|].a == NeedLock;
    }
    hide Apply, WriteInv, WroteOnce, IsWriting, IsClosed;
  }

  lemma StepThreads(s: State, step: Step)
    requires Enabled(s, step)
    ensures |s.threads| <= |Apply(s, step).threads|
    ensures !step.Arrive? ==> step.t < |s.threads| == |Apply(s, step).threads|
  {
    if step.Move? {
      hide AppendMove, BulkMove, Wanted, Holds, FreeKey, WantsMu;
      if s.threads[step.t].Appending? {
        FilesAfterAppend(s, step.t, step.fails);
      } else {
        OthersStay(s, step.t, step.fails);
      }
    }
  }

  lemma StillAppending(s: State, step: Step, t: nat)
    requires Enabled(s, step) && t < |s.threads| && t < |Apply(s, step).threads| && Apply(s, step).threads[t].Appending?
    ensures s.threads[t].Appending? && s.threads[t].key == Apply(s, step).threads[t].key
  {
    if step.Move? {
      hide AppendMove, BulkMove, Wanted, Holds, FreeKey, WantsMu;
      if s.threads[step.t].Appending? {
        FilesAfterAppend(s, step.t, step.fails);
        WritesAfterAppend(s, step.t, step.fails);
      } else {
        OthersStay(s, step.t, step.fails);
        BulkGoes(s, step.t, step.fails);
      }
    }
  }

  lemma {:induction false} WritersHold(s: State, steps: seq<Step>, u: State)
    requires Inv(s) && WritersInv(s) && Leads(s, steps, u)
    ensures WritersInv(u)
    decreases |steps|
  {
    hide LockInv, FileInv, WritersInv, Enabled, Apply;
    if steps != [] {
      assert WriteInv(s) by { MapOfInv(s); }
      LocksKept(s, steps[0]);
      FilesKept(s, steps[0]);
      WritersKept(s, steps[0]);
      WritersHold(Apply(s, steps[0]), steps[1..], u);
    }
  }

  /**
   An AppendLine call that returns without an error has written its line once, to a file of its key;
   one that returns an error has written nothing.
   */
  lemma AppendWritesOnce(dir: Dir, s: State, t: nat, key: Key, steps: seq<Step>, u: State)
    requires Reachable(dir, s) && t < |s.threads| && s.threads[t].Appending? && s.threads[t].key == key
    requires Leads(s, steps, u) && t < |u.threads| && u.threads[t].Finished?
    ensures if u.threads[t].result == Done then WroteOnce(u, t, key) else WroteNothing(u, t)
  {
    ReachableInv(dir, s);
    ReachableWriters(dir, s);
    AppendHolds(s, steps, u, t, key);
  }

  lemma ReachableWriters(dir: Dir, s: State)
    requires Reachable(dir, s)
    ensures WritersInv(s)
  {
    var steps :| Leads(New(dir), steps, s);
    assert Inv(New(dir));
    hide Inv;
    WritersHold(New(dir), steps, s);
  }

  /** Once the Close call that closed the writer has returned, the map stays empty. */
  lemma ClosedMapEmpty(dir: Dir, s: State)
    requires Reachable(dir, s) && s.closer.Some?
    ensures s.closed && s.closer.value < |s.threads|
    ensures s.threads[s.closer.value].Finished? ==> s.handles == map[]
  {
    ReachableInv(dir, s);
    hide LockInv, WriteInv, MapInv, TodoInv;
  }

  // ---------- which Close call leaves an empty map ----------

  /** Call t is still about to look at closed, or it is the one that closed the writer. */
  ghost predicate Closer(s: State, t: nat) {
    || s.closer == Some(t)
    || (t < |s.threads| && s.threads[t] == Bulk(Close, InSnapshot) && !s.closed)
  }

  lemma CloserKept(s: State, step: Step, t: nat)
    requires LockInv(s) && CloseInv(s) && Closer(s, t) && Enabled(s, step)
    ensures Closer(Apply(s, step), t)
  {
    hide KeyInv, OwnerInv, Taken, SortedKeys, Wanted, Holds, FreeKey, WantsMu;
    if step.Move? && s.threads[step.t].Bulk? {
      CloserKeptByBulk(s, step.t, step.fails, t);
    }
  }

  /** Only the holder of mu can set closed. */
  lemma CloserKeptByBulk(s: State, u: nat, fails: bool, t: nat)
    requires MuInv(s) && CloseInv(s) && Closer(s, t) && Enabled(s, Move(u, fails)) && s.threads[u].Bulk?
    ensures Closer(BulkMove(s, u, fails), t)
  {
    hide Taken, SortedKeys, Wanted, Holds, FreeKey, WantsMu;
    if s.closer == None && s.threads[u].b.InSnapshot? {
      assert HoldsMu(s.threads[t]) && HoldsMu(s.threads[u]);
      assert s.mu == Some(t) == Some(u);
    }
    hide MuInv, HoldsMu;
  }

  /** Closed with an empty map: nothing is opened any more. */
  predicate ClosedAndEmpty(s: State) {
    s.closed && s.handles == map[]
  }

  lemma EmptyKept(s: State, step: Step)
    requires ClosedAndEmpty(s) && Enabled(s, step)
    ensures ClosedAndEmpty(Apply(s, step))
  {
    hide Taken, SortedKeys, Wanted, Holds, FreeKey, WantsMu;
  }

  lemma {:induction false} EmptyHolds(s: State, steps: seq<Step>, u: State)
    requires ClosedAndEmpty(s) && Leads(s, steps, u)
    ensures ClosedAndEmpty(u)
    decreases |steps|
  {
    hide ClosedAndEmpty, Enabled, Apply;
    if steps != [] {
      EmptyKept(s, steps[0]);
      EmptyHolds(Apply(s, steps[0]), steps[1..], u);
    }
  }

  lemma {:induction false} CloserHolds(s: State, steps: seq<Step>, u: State, t: nat)
    requires Inv(s) && Closer(s, t) && Leads(s, steps, u)
    ensures Inv(u) && Closer(u, t)
    decreases |steps|
  {
    hide LockInv, FileInv, Closer, Enabled, Apply;
    if steps != [] {
      assert CloseInv(s) by { CloseOfInv(s); }
      LocksKept(s, steps[0]);
      FilesKept(s, steps[0]);
      CloserKept(s, steps[0], t);
      CloserHolds(Apply(s, steps[0]), steps[1..], u, t);
    }
  }

  lemma CloseOfInv(s: State)
    requires Inv(s)
    ensures CloseInv(s)
  {
  }

  lemma FinishedCloser(s: State, t: nat)
    requires CloseInv(s) && Closer(s, t) && t < |s.threads| && s.threads[t].Finished?
    ensures s.handles == map[]
  {
  }

  /** A Close call that finds the writer closed returns at once, leaving the map as it is. */
  lemma LateCloseReturns(s: State, t: nat)
    requires t < |s.threads| && s.threads[t] == Bulk(Close, InSnapshot) && s.closed
    ensures Leads(s, [Move(t, false)], GiveMu(s, t, Finished(Done)))
  {
    hide Taken, SortedKeys;
    var step := Move(t, false);
    assert Enabled(s, step) && Apply(s, step) == GiveMu(s, t, Finished(Done));
    assert [step][1..] == [];
  }

  /**
   A Close call, at its look at closed, is sure to leave an empty map behind when it returns exactly
   if the writer is still open or the map is empty already.
   */
  lemma CloseLeavesEmptyMap(dir: Dir, s: State, t: nat)
    requires Reachable(dir, s) && t < |s.threads| && s.threads[t] == Bulk(Close, InSnapshot)
    ensures (forall steps, u :: Leads(s, steps, u) && t < |u.threads| && u.threads[t].Finished? ==> u.handles == map[])
       <==> !s.closed || s.handles == map[]
  {
    ReachableInv(dir, s);
    hide Inv, Leads, Reachable;
    if s.closed && s.handles != map[] {
      LateCloseReturns(s, t);
      var u := GiveMu(s, t, Finished(Done));
      assert t < |u.threads| && u.threads[t].Finished? && u.handles != map[];
    } else {
      forall steps, u | Leads(s, steps, u) && t < |u.threads| && u.threads[t].Finished?
        ensures u.handles == map[]
      {
        if s.closed {
          EmptyHolds(s, steps, u);
        } else {
          CloserHolds(s, steps, u, t);
          CloseOfInv(u);
          FinishedCloser(u, t);
        }
      }
    }
  }

  // ---------- which write meets a closed file ----------

  /** Whenever a write in progress has its file closed, the closing call had not locked its key. */
  lemma ClosedFileUncovered(dir: Dir, s: State, t: nat)
    requires Reachable(dir, s) && t < |s.threads| && s.threads[t].Appending? && s.threads[t].a.Writing?
    ensures var h := s.threads[t].a.handle;
      h < |s.files| && s.files[h].key == s.threads[t].key && (s.files[h].closes > 0 ==> !s.files[h].covered)
  {
    ReachableInv(dir, s);
    assert MapInv(s) && WriteInv(s);
    hide LockInv, CloseInv, TodoInv;
  }

  /** Who took a file is past its detach: a call takes files once. */
  ghost predicate TakersPast(s: State) {
    forall h :: 0 <= h < |s.files| && s.files[h].taken > 0 ==>
      s.files[h].taker < |s.threads| && PastDetach(s.threads[s.files[h].taker])
  }

  /** An AppendLine call adds at most one file, and changes none. */
  lemma FilesAfterAppend(s: State, t: nat, fails: bool)
    requires Enabled(s, Move(t, fails)) && s.threads[t].Appending?
    ensures var u := AppendMove(s, t, fails);
      && u.files == s.files + (if Opens(s, t, fails) then [FileInfo(s.threads[t].key, s.dir, 0, 0, 0, false)] else [])
      && |u.threads| == |s.threads| && u.threads == s.threads[t := u.threads[t]]
  {
    hide Wanted, Holds, FreeKey, WantsMu;
    assert s.files + [] == s.files;
    match s.threads[t].a
    case NeedLock =>
    case InLookup =>
    case WantFile =>
    case NeedHandle =>
    case InHandle =>
    case Writing(_) =>
    case Unlocking(_) =>
  }

  lemma TakersKeptByAppend(s: State, t: nat, fails: bool)
    requires TakersPast(s) && Enabled(s, Move(t, fails)) && s.threads[t].Appending?
    ensures TakersPast(AppendMove(s, t, fails))
  {
    FilesAfterAppend(s, t, fails);
    hide AppendMove, Wanted, Holds, FreeKey, WantsMu;
  }

  lemma TakersKeptByBulk(s: State, t: nat, fails: bool)
    requires TakersPast(s) && Enabled(s, Move(t, fails)) && s.threads[t].Bulk?
    ensures TakersPast(BulkMove(s, t, fails))
  {
    hide SortedKeys, Wanted, Holds, FreeKey, WantsMu, Cached;
    var u := BulkMove(s, t, fails);
    assert forall i :: 0 <= i < |s.threads| && i != t ==> u.threads[i] == s.threads[i];
    assert PastDetach(s.threads[t]) ==> PastDetach(u.threads[t]);
    if Takes(s, t) {
      assert PastDetach(u.threads[t]) && u.files == Taken(s, t, s.threads[t].b.keys);
    } else {
      BulkIsQuiet(s, t, fails);
    }
    hide BulkMove, Enabled, Takes;
  }

  lemma TakersKept(s: State, step: Step)
    requires TakersPast(s) && Enabled(s, step)
    ensures TakersPast(Apply(s, step))
  {
    if step.Move? {
      hide TakersPast, AppendMove, BulkMove;
      if s.threads[step.t].Appending? {
        TakersKeptByAppend(s, step.t, step.fails);
      } else {
        TakersKeptByBulk(s, step.t, step.fails);
      }
    }
  }

  lemma {:induction false} TakersHold(s: State, steps: seq<Step>, u: State)
    requires TakersPast(s) && Leads(s, steps, u)
    ensures TakersPast(u)
    decreases |steps|
  {
    hide TakersPast, Enabled, Apply;
    if steps != [] {
      TakersKept(s, steps[0]);
      TakersHold(Apply(s, steps[0]), steps[1..], u);
    }
  }

  lemma ReachableTakers(dir: Dir, s: State)
    requires Reachable(dir, s)
    ensures TakersPast(s)
  {
    var steps :| Leads(New(dir), steps, s);
    TakersHold(New(dir), steps, s);
  }

  predicate TakenBy(s: State, h: Handle, t: nat) {
    h < |s.files| && s.files[h].taken > 0 && s.files[h].taker == t
  }

  lemma TakerStays(s: State, step: Step, h: Handle, t: nat)
    requires MapInv(s) && TakenBy(s, h, t) && Enabled(s, step)
    ensures TakenBy(Apply(s, step), h, t)
  {
    assert !Cached(s, h);
    hide MapInv, SortedKeys, Wanted, Holds, FreeKey, WantsMu, Cached, AppendMove, BulkMove;
    if step.Move? {
      if s.threads[step.t].Appending? {
        FilesAfterAppend(s, step.t, step.fails);
      } else if Takes(s, step.t) {
        FilesAfterTaking(s, step.t, step.fails);
      } else {
        BulkIsQuiet(s, step.t, step.fails);
      }
    }
  }

  lemma FilesAfterTaking(s: State, t: nat, fails: bool)
    requires Enabled(s, Move(t, fails)) && Takes(s, t)
    ensures BulkMove(s, t, fails).files == Taken(s, t, s.threads[t].b.keys)
  {
    hide SortedKeys, Wanted, Holds, FreeKey, WantsMu, Cached, Taken;
  }

  lemma {:induction false} TakerRemains(s: State, steps: seq<Step>, u: State, h: Handle, t: nat)
    requires Inv(s) && TakenBy(s, h, t) && Leads(s, steps, u)
    ensures TakenBy(u, h, t)
    decreases |steps|
  {
    hide LockInv, FileInv, TakenBy, Enabled, Apply;
    if steps != [] {
      assert MapInv(s) by { MapOfInv(s); }
      LocksKept(s, steps[0]);
      FilesKept(s, steps[0]);
      TakerStays(s, steps[0], h, t);
      TakerRemains(Apply(s, steps[0]), steps[1..], u, h, t);
    }
  }

  lemma MapOfInv(s: State)
    requires Inv(s)
    ensures MapInv(s) && WriteInv(s)
  {
  }

  predicate IsWriting(th: Thread) {
    th.Appending? && th.a.Writing?
  }

  /** Writer w, writing in s, is still at that write in u, and call t has taken and closed its file. */
  ghost predicate MeetsClosed(s: State, u: State, t: nat, w: nat) {
    && w < |s.threads| && w < |u.threads| && IsWriting(s.threads[w]) && u.threads[w] == s.threads[w]
    && var h := s.threads[w].a.handle;
    && TakenBy(u, h, t) && u.files[h].closes > 0
  }

  /** Writer w is writing a cached file whose key is not in call t's snapshot. */
  predicate Exposed(s: State, t: nat, w: nat) {
    && t < |s.threads| && s.threads[t].Bulk? && s.threads[t].b.InDetach?
    && w < |s.threads| && IsWriting(s.threads[w])
    && Cached(s, s.threads[w].a.handle) && s.threads[w].key !in s.threads[t].b.keys
  }

  /** A key that a call at its detach has in its snapshot is not being written. */
  lemma SnapshotExcludesWrites(s: State, t: nat, w: nat)
    requires LockInv(s) && t < |s.threads| && s.threads[t].Bulk? && s.threads[t].b.InDetach?
    requires w < |s.threads| && IsWriting(s.threads[w])
    ensures s.threads[w].key in s.locks && s.threads[w].key !in s.threads[t].b.keys
  {
    var key := s.threads[w].key;
    OwnThread(s, t);
    OwnThread(s, w);
    assert Holds(s.threads[w], key);
    if key in s.threads[t].b.keys {
      assert Holds(s.threads[t], key);
      assert false;
    }
  }

  /** Taking the files and closing that of an exposed writer. */
  lemma ExposedMeets(s: State, t: nat, w: nat)
    requires Inv(s) && Takes(s, t) && Exposed(s, t, w)
    ensures exists steps, u :: Leads(s, steps, u) && MeetsClosed(s, u, t, w)
  {
    var h := s.threads[w].a.handle;
    assert s.handles[s.files[h].key] in s.handles.Values;
    var take, close := Move(t, false), CloseOne(t, h);
    assert Enabled(s, take);
    var s1 := Apply(s, take);
    hide Inv, SortedKeys;
    assert TakenBy(s1, h, t) && s1.threads[w] == s.threads[w];
    assert Enabled(s1, close);
    var u := Apply(s1, close);
    assert MeetsClosed(s, u, t, w);
    assert [take, close][1..] == [close] && [close][1..] == [];
    assert Leads(s1, [close], u);
    assert Leads(s, [take, close], u);
  }

  /**
   When a SetDir or Close call is about to take the files, a write in progress can find its file
   closed by that call exactly if some thread is writing a cached file whose key is not in the
   call's snapshot.
   */
  lemma WriteMeetsClosedFile(dir: Dir, s: State, t: nat)
    requires Reachable(dir, s) && Takes(s, t)
    ensures (exists steps, u, w :: Leads(s, steps, u) && MeetsClosed(s, u, t, w)) <==> exists w :: Exposed(s, t, w)
  {
    ReachableInv(dir, s);
    ReachableTakers(dir, s);
    hide Leads, Inv, MeetsClosed, Exposed, Reachable, Cached;
    if exists steps, u, w :: Leads(s, steps, u) && MeetsClosed(s, u, t, w) {
      var steps, u, w :| Leads(s, steps, u) && MeetsClosed(s, u, t, w);
      MetIsExposed(s, steps, u, t, w);
    }
    if exists w :: Exposed(s, t, w) {
      var w :| Exposed(s, t, w);
      ExposedMeets(s, t, w);
    }
  }

  lemma MetIsExposed(s: State, steps: seq<Step>, u: State, t: nat, w: nat)
    requires Inv(s) && TakersPast(s) && Takes(s, t) && Leads(s, steps, u) && MeetsClosed(s, u, t, w)
    ensures Exposed(s, t, w)
  {
    MapOfInv(s);
    assert LockInv(s);
    hide LockInv, Inv, Leads, Holds;
    var h := s.threads[w].a.handle;
    if s.files[h].taken > 0 {
      TakerRemains(s, steps, u, h, s.files[h].taker);
    }
    SnapshotExcludesWrites(s, t, w);
  }

  /** A snapshot that still covers every known key keeps every write out, and safe. */
  lemma CoveredSnapshotIsSafe(dir: Dir, s: State, t: nat)
    requires Reachable(dir, s) && Takes(s, t) && forall k <- s.locks :: k in s.threads[t].b.keys
    ensures forall w :: 0 <= w < |s.threads| ==> !IsWriting(s.threads[w])
    ensures forall steps, u, w :: Leads(s, steps, u) ==> !MeetsClosed(s, u, t, w)
  {
    ReachableInv(dir, s);
    hide Leads, Reachable;
    forall w | 0 <= w < |s.threads|
      ensures !IsWriting(s.threads[w])
    {
      if IsWriting(s.threads[w]) {
        SnapshotExcludesWrites(s, t, w);
        assert false;
      }
    }
  }

  // ---------- where the promises end ----------

  lemma {:induction false} LeadsOn(s: State, steps: seq<Step>, t: State, step: Step)
    requires Leads(s, steps, t) && Enabled(t, step)
    ensures Leads(s, steps + [step], Apply(t, step))
    decreases |steps|
  {
    hide Enabled, Apply;
    if steps == [] {
      assert [] + [step] == [step] && [step][1..] == [];
    } else {
      LeadsOn(Apply(s, steps[0]), steps[1..], t, step);
      assert (steps + [step])[1..] == steps[1..] + [step];
    }
  }

  lemma ReachableOn(dir: Dir, s: State, step: Step)
    requires Reachable(dir, s) && Enabled(s, step)
    ensures Reachable(dir, Apply(s, step))
  {
    hide Enabled, Apply, Leads;
    var steps :| Leads(New(dir), steps, s);
    LeadsOn(New(dir), steps, s, step);
  }

  lemma ReachableNew(dir: Dir)
    ensures Reachable(dir, New(dir))
  {
    assert Leads(New(dir), [], New(dir));
  }

  /** A first AppendLine for a key, up to its write. */
  lemma OpensFile(dir: Dir, s: State, key: Key) returns (s2: State)
    requires Reachable(dir, s) && s.mu == None && !s.closed && key !in s.locks && key !in s.handles
    ensures Reachable(dir, s2)
    ensures s2 == s.(threads := s.threads + [Appending(key, Writing(|s.files|))],
                     locks := s.locks[key := Some(|s.threads|)],
                     handles := s.handles[key := |s.files|],
                     files := s.files + [FileInfo(key, s.dir, 0, 0, 0, false)])
  {
    hide Reachable;
    var n := |s.threads|;
    var s1 := s.(threads := s.threads + [Appending(key, NeedLock)]);
    ReachableOn(dir, s, Arrive(AppendCall(key)));
    assert Reachable(dir, s1);
    s2 := LocksFile(dir, s1, n);
    assert s2.threads == s.threads + [Appending(key, NeedHandle)];
    ReachableOn(dir, s2, Move(n, false));
    s2 := Apply(s2, Move(n, false));
    ReachableOn(dir, s2, Move(n, false));
    s2 := Apply(s2, Move(n, false));
    assert s2.threads == s.threads + [Appending(key, Writing(|s.files|))];
  }

  lemma LocksFile(dir: Dir, s: State, t: nat) returns (s2: State)
    requires Reachable(dir, s) && s.mu == None && t < |s.threads|
    requires s.threads[t].Appending? && s.threads[t].a == NeedLock && s.threads[t].key !in s.locks
    ensures Reachable(dir, s2)
    ensures s2 == s.(threads := s.threads[t := Appending(s.threads[t].key, NeedHandle)],
                     locks := s.locks[s.threads[t].key := Some(t)])
  {
    hide Reachable;
    var key := s.threads[t].key;
    ReachableOn(dir, s, Move(t, false));
    s2 := Apply(s, Move(t, false));
    ReachableOn(dir, s2, Move(t, false));
    s2 := Apply(s2, Move(t, false));
    assert s2.threads == s.threads[t := Appending(key, WantFile)] && s2.locks == s.locks[key := None];
    ReachableOn(dir, s2, Move(t, false));
    s2 := Apply(s2, Move(t, false));
    assert s2.locks == s.locks[key := Some(t)];
  }

  /** A SetDir or Close call, up to the end of its first use of mu. */
  lemma TakesSnapshot(dir: Dir, s: State, op: Op) returns (s2: State)
    requires Reachable(dir, s) && s.mu == None
    ensures Reachable(dir, s2)
    ensures s2 == if s.closed
      then s.(threads := s.threads + [Finished(if op.Close? then Done else WriterClosed)])
      else s.(threads := s.threads + [Bulk(op, Locking(SortedKeys(s.locks.Keys), 0))],
              closed := op.Close?, closer := if op.Close? then Some(|s.threads|) else s.closer)
  {
    hide Reachable;
    var n := |s.threads|;
    ReachableOn(dir, s, Arrive(BulkCall(op)));
    s2 := Apply(s, Arrive(BulkCall(op)));
    ReachableOn(dir, s2, Move(n, false));
    s2 := Apply(s2, Move(n, false));
    assert s2.threads == s.threads + [Bulk(op, InSnapshot)];
    ReachableOn(dir, s2, Move(n, false));
    s2 := Apply(s2, Move(n, false));
    assert s2.threads == s.threads +
      [if s.closed then Finished(if op.Close? then Done else WriterClosed) else Bulk(op, Locking(SortedKeys(s.locks.Keys), 0))];
  }

  /** A second Close can return without an error while a handle is still in the map. */
  lemma SecondCloseReturnsEarly(dir: Dir) returns (s: State)
    ensures Reachable(dir, s)
    ensures |s.threads| == 3 && s.closer == Some(1) && s.threads[2] == Finished(Done) && s.handles != map[]
  {
    hide Reachable;
    ReachableNew(dir);
    s := OpensFile(dir, New(dir), "a");
    s := TakesSnapshot(dir, s, Close);
    s := TakesSnapshot(dir, s, Close);
    assert "a" in s.handles;
  }

  /** A write can meet a closed file, when its key was first used between a snapshot and the detach. */
  lemma UncoveredWrite(dir: Dir, other: Dir) returns (s: State)
    ensures Reachable(dir, s)
    ensures |s.threads| == 2 && s.threads[1] == Appending("a", Writing(0))
    ensures |s.files| == 1 && s.files[0].closes == 1 && !s.files[0].covered
  {
    hide Reachable;
    ReachableNew(dir);
    s := TakesSnapshot(dir, New(dir), SetDir(other));
    assert SortedKeys({}) == [];
    ReachableOn(dir, s, Move(0, false));
    s := Apply(s, Move(0, false));
    assert s.threads == [Bulk(SetDir(other), NeedDetach([]))];
    s := OpensFile(dir, s, "a");
    s := DetachesOne(dir, s, other);
  }

  lemma DetachesOne(dir: Dir, s: State, other: Dir) returns (s2: State)
    requires Reachable(dir, s) && s.mu == None && !s.closed
    requires s.threads == [Bulk(SetDir(other), NeedDetach([])), Appending("a", Writing(0))]
    requires s.handles == map["a" := 0] && s.files == [FileInfo("a", s.dir, 0, 0, 0, false)]
    ensures Reachable(dir, s2) && |s2.threads| == 2 && s2.threads[1] == s.threads[1]
    ensures s2.files == [FileInfo("a", s.dir, 1, 1, 0, false)]
  {
    hide Reachable;
    ReachableOn(dir, s, Move(0, false));
    s2 := Apply(s, Move(0, false));
    ReachableOn(dir, s2, Move(0, false));
    assert Cached(s2, 0);
    s2 := Apply(s2, Move(0, false));
    assert s2.files == [FileInfo("a", s.dir, 1, 0, 0, false)];
    assert "a" in s.handles && 0 in s.handles.Values;
    ReachableOn(dir, s2, CloseOne(0, 0));
    s2 := Apply(s2, CloseOne(0, 0));
  }
}
