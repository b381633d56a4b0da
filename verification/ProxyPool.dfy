/** The use counter of one proxy: concurrent compare-and-swap loops against a limit. */
module UseCounter {

  /** A call of IncrementUseCount; comments say what it does next. */
  datatype CallPc =
    | Loads                   // load usedCount
    | Compares(current: int)  // compare with maxUseCount
    | Swaps(current: int)     // compare and swap usedCount
    | Returned(ok: bool)

  datatype State = State(
    used: int, max: int, calls: seq<CallPc>,
    most: int)        // the greatest limit so far

  datatype Step = Call | Move(i: nat) | SetMax(limit: int) | Reset

  function New(max: int): State {
    State(0, max, [], max)
  }

  predicate Enabled(s: State, step: Step) {
    match step
    case Move(i) => i < |s.calls| && !s.calls[i].Returned?
    case _ => true
  }

  function Apply(s: State, step: Step): State
    requires Enabled(s, step)
  {
    match step
    case Call => s.(calls := s.calls + [Loads])
    case SetMax(limit) => s.(max := limit, most := if limit > s.most then limit else s.most)
    case Reset => s.(used := 0)
    case Move(i) =>
      match s.calls[i]
      case Loads => s.(calls := s.calls[i := Compares(s.used)])
      case Compares(current) => s.(calls := s.calls[i := if current >= s.max then Returned(false) else Swaps(current)])
      case Swaps(current) =>
        if s.used == current then s.(calls := s.calls[i := Returned(true)], used := s.used + 1)
        else s.(calls := s.calls[i := Loads])
      case Returned(_) => s
  }

  ghost predicate Leads(s: State, steps: seq<Step>, t: State)
    decreases |steps|
  {
    if steps == [] then s == t
    else Enabled(s, steps[0]) && Leads(Apply(s, steps[0]), steps[1..], t)
  }

  /** How many calls have returned true. */
  function Successes(calls: seq<CallPc>): nat {
    if calls == [] then 0
    else Successes(calls[..|calls| - 1]) + if calls[|calls| - 1] == Returned(true) then 1 else 0
  }

  lemma {:induction false} SuccessesAfterMove(calls: seq<CallPc>, i: nat, pc: CallPc)
    requires i < |calls|
    ensures Successes(calls[i := pc]) ==
      Successes(calls) - (if calls[i] == Returned(true) then 1 else 0) + (if pc == Returned(true) then 1 else 0)
  {
    var last := |calls| - 1;
    if i < last {
      SuccessesAfterMove(calls[..last], i, pc);
      assert calls[i := pc][..last] == calls[..last][i := pc];
    } else {
      assert calls[i := pc][..last] == calls[..last];
    }
  }

  /** Without Reset the counter is the number of successful calls. */
  predicate NoReset(steps: seq<Step>) {
    forall i :: 0 <= i < |steps| ==> !steps[i].Reset?
  }

  lemma {:induction false} CountsSuccesses(s: State, steps: seq<Step>, t: State)
    requires Leads(s, steps, t) && NoReset(steps)
    ensures t.used - Successes(t.calls) == s.used - Successes(s.calls)
    decreases |steps|
  {
    if steps != [] {
      CountStep(s, steps[0]);
      CountsSuccesses(Apply(s, steps[0]), steps[1..], t);
    }
  }

  lemma CountStep(s: State, step: Step)
    requires Enabled(s, step) && !step.Reset?
    ensures Apply(s, step).used - Successes(Apply(s, step).calls) == s.used - Successes(s.calls)
  {
    hide Successes;
    match step
    case Call => AppendedCall(s.calls);
    case Move(i) => SuccessesAfterMove(s.calls, i, Apply(s, step).calls[i]);
    case _ =>
  }

  lemma AppendedCall(calls: seq<CallPc>)
    ensures Successes(calls + [Loads]) == Successes(calls)
  {
    assert (calls + [Loads])[..|calls|] == calls;
  }

  ghost predicate BoundInv(s: State) {
    && s.max <= s.most && (s.used <= s.most || s.used <= 0)
    && forall i :: 0 <= i < |s.calls| && s.calls[i].Swaps? ==> s.calls[i].current < s.most
  }

  /** The counter never passes the greatest limit there was, even across Reset and lowered limits. */
  lemma {:induction false} NeverAboveMost(s: State, steps: seq<Step>, t: State)
    requires BoundInv(s) && Leads(s, steps, t)
    ensures BoundInv(t)
    decreases |steps|
  {
    if steps != [] {
      BoundStep(s, steps[0]);
      NeverAboveMost(Apply(s, steps[0]), steps[1..], t);
    }
  }

  lemma BoundStep(s: State, step: Step)
    requires BoundInv(s) && Enabled(s, step)
    ensures BoundInv(Apply(s, step))
  {
  }

  /**
   A call that nobody interferes with returns true and counts if there is a use left, and returns
   false without counting if there is none.
   */
  lemma CallAlone(s: State) returns (steps: seq<Step>, t: State)
    ensures Leads(s, steps, t)
    ensures t == if s.used < s.max then s.(used := s.used + 1, calls := s.calls + [Returned(true)])
                 else s.(calls := s.calls + [Returned(false)])
  {
    var i := |s.calls|;
    var s1 := Apply(s, Call);
    var s2 := Apply(s1, Move(i));
    var s3 := Apply(s2, Move(i));
    assert s2.calls == s.calls + [Compares(s.used)];
    assert [Move(i)][1..] == [] && [Move(i), Move(i)][1..] == [Move(i)] && [Call, Move(i), Move(i)][1..] == [Move(i), Move(i)];
    if s.used < s.max {
      assert s3.calls == s.calls + [Swaps(s.used)];
      t := Apply(s3, Move(i));
      assert t.calls == s.calls + [Returned(true)];
      steps := [Call, Move(i), Move(i), Move(i)];
      assert Leads(s3, [Move(i)], t);
      assert [Move(i), Move(i), Move(i)][1..] == [Move(i), Move(i)] && steps[1..] == [Move(i), Move(i), Move(i)];
      assert Leads(s2, [Move(i), Move(i)], t);
      assert Leads(s1, [Move(i), Move(i), Move(i)], t);
    } else {
      t := s3;
      assert t.calls == s.calls + [Returned(false)];
      steps := [Call, Move(i), Move(i)];
      assert Leads(s2, [Move(i)], t);
      assert Leads(s1, [Move(i), Move(i)], t);
    }
  }

  /** A call tries again only because another one has changed the counter, and then starts over. */
  lemma RetryMeansChange(s: State, i: nat)
    requires Enabled(s, Move(i)) && s.calls[i].Swaps?
    ensures Apply(s, Move(i)).calls[i] == if s.used == s.calls[i].current then Returned(true) else Loads
    ensures Apply(s, Move(i)).used != s.used <==> Apply(s, Move(i)).calls[i] == Returned(true)
  {
  }

  /** Reset and the limit take effect at once and touch no call. */
  lemma Settings(s: State, limit: int)
    ensures Apply(s, Reset) == s.(used := 0)
    ensures Apply(s, SetMax(limit)).max == limit && Apply(s, SetMax(limit)).used == s.used
    ensures Apply(s, SetMax(limit)).calls == s.calls
  {
  }

  predicate NeverLowers(limit: int, steps: seq<Step>)
    decreases |steps|
  {
    if steps == [] then true
    else if steps[0].SetMax? then steps[0].limit >= limit && NeverLowers(steps[0].limit, steps[1..])
    else NeverLowers(limit, steps[1..])
  }

  lemma {:induction false} RisingLimit(s: State, steps: seq<Step>, t: State)
    requires Leads(s, steps, t) && NeverLowers(s.max, steps) && s.most == s.max
    ensures t.most == t.max
    decreases |steps|
  {
    if steps != [] {
      RisingLimit(Apply(s, steps[0]), steps[1..], t);
    }
  }

  /** A loaded value is never ahead of a counter that is not reset. */
  ghost predicate LoadInv(s: State) {
    forall i :: 0 <= i < |s.calls| ==>
      (s.calls[i].Compares? || s.calls[i].Swaps? ==> s.calls[i].current <= s.used)
  }

  lemma {:induction false} LoadsLag(s: State, steps: seq<Step>, t: State)
    requires LoadInv(s) && Leads(s, steps, t) && NoReset(steps)
    ensures LoadInv(t)
    decreases |steps|
  {
    if steps != [] {
      LoadsLag(Apply(s, steps[0]), steps[1..], t);
    }
  }

  /**
   From a new proxy, as long as nothing resets it or lowers its limit: the counter is the number of
   calls that returned true, it stays within the limit, and a call that refuses does so at the limit.
   */
  lemma UseCountExact(max: int, steps: seq<Step>, s: State)
    requires Leads(New(max), steps, s) && NoReset(steps) && NeverLowers(max, steps)
    ensures s.used == Successes(s.calls)
    ensures s.used <= s.max || s.used == 0
    ensures forall i: nat :: Enabled(s, Move(i)) && Apply(s, Move(i)).calls[i] == Returned(false) ==> s.used >= s.max
  {
    CountsSuccesses(New(max), steps, s);
    NeverAboveMost(New(max), steps, s);
    RisingLimit(New(max), steps, s);
    LoadsLag(New(max), steps, s);
    hide Leads, NeverLowers, NoReset, Successes;
    forall i: nat | Enabled(s, Move(i)) && Apply(s, Move(i)).calls[i] == Returned(false)
      ensures s.used >= s.max
    {
      assert s.calls[i].Compares?;
    }
  }
}

/** Choosing proxies in turn from a pool without duplicates. */
module ProxyPool {
  import opened Wrappers

  /** A proxy as the pool sees it; `expires` is compared with the clock. */
  datatype Item = Item(ip: string, port: string, used: int, max: int, expires: int) {
    function Key(): string {
      ip + ":" + port
    }

    predicate IsAvailable(now: int) {
      now < expires && used < max
    }

    /** After n further attempts to use it. */
    function UsedBy(n: nat): Item {
      this.(used := if used >= max then used else if used + n > max then max else used + n)
    }
  }

  predicate DistinctKeys(items: seq<Item>) {
    forall i, j :: 0 <= i < j < |items| ==> items[i].Key() != items[j].Key()
  }

  /** The items that can be used now, in order. */
  function Available(items: seq<Item>, now: int): seq<Item> {
    if items == [] then []
    else
      var front := Available(items[..|items| - 1], now);
      var last := items[|items| - 1];
      if last.IsAvailable(now) then front + [last] else front
  }

  /** Where the key first occurs, or the length. */
  function PlaceOf(items: seq<Item>, key: string): (i: nat)
    ensures i <= |items|
    ensures i < |items| ==> items[i].Key() == key
    ensures forall j :: 0 <= j < i ==> items[j].Key() != key
  {
    if items == [] || items[0].Key() == key then 0 else 1 + PlaceOf(items[1..], key)
  }

  function Without(items: seq<Item>, i: nat): seq<Item> {
    if i < |items| then items[..i] + items[i + 1..] else items
  }

  /** The items after one more use of the i-th available one. */
  function AfterUse(items: seq<Item>, i: nat): seq<Item> {
    if i < |items| then items[i := items[i].(used := items[i].used + 1)] else items
  }

  /** The pool's items after fetching these addresses. */
  function WithFetched(items: seq<Item>, fetched: seq<(string, string)>, max: int, expires: int): seq<Item>
    decreases |fetched|
  {
    if fetched == [] then items
    else WithFetched(WithAddress(items, fetched[0].0, fetched[0].1, max, expires), fetched[1..], max, expires)
  }

  function WithAddress(items: seq<Item>, ip: string, port: string, max: int, expires: int): seq<Item> {
    if PlaceOf(items, ip + ":" + port) < |items| then items else items + [Item(ip, port, 0, max, expires)]
  }

  /** What another caller, or a refresh, does in one stretch under the pool's lock. */
  datatype Op =
    | Add(ip: string, port: string, at: int)
    | Delete(ip: string, port: string)
    | CleanUp(at: int)
    | Clear
    | Pick(place: nat)   // a Get of another caller: the turn passes on, and the item there is used

  function AfterOp(items: seq<Item>, next: nat, op: Op, max: int, life: int): (seq<Item>, nat) {
    match op
    case Add(ip, port, at) => (WithAddress(items, ip, port, max, at + life), next)
    case Delete(ip, port) => (Without(items, PlaceOf(items, ip + ":" + port)), next)
    case CleanUp(at) => (Available(items, at), next)
    case Clear => ([], next)
    case Pick(place) => (AfterUse(items, place), next + 1)
  }

  function AfterOps(items: seq<Item>, next: nat, ops: seq<Op>, max: int, life: int): (seq<Item>, nat)
    decreases |ops|
  {
    if ops == [] then (items, next)
    else
      var (items', next') := AfterOp(items, next, ops[0], max, life);
      AfterOps(items', next', ops[1..], max, life)
  }

  class Pool {
    var proxies: seq<Item>
    var roundRobinIdx: nat
    const maxUseCount: int
    const expireSeconds: int
    const minPoolSize: int

    ghost predicate Valid()
      reads this
    {
      DistinctKeys(proxies)
    }

    constructor (maxUseCount: int, expireSeconds: int, minPoolSize: int)
      ensures Valid() && proxies == [] && roundRobinIdx == 0
      ensures this.maxUseCount == (if maxUseCount <= 0 then 5 else maxUseCount)
      ensures this.expireSeconds == (if expireSeconds <= 0 then 180 else expireSeconds)
      ensures this.minPoolSize == (if minPoolSize <= 0 then 3 else minPoolSize)
    {
      proxies, roundRobinIdx := [], 0;
      this.maxUseCount := if maxUseCount <= 0 then 5 else maxUseCount;
      this.expireSeconds := if expireSeconds <= 0 then 180 else expireSeconds;
      this.minPoolSize := if minPoolSize <= 0 then 3 else minPoolSize;
    }

    method AddProxy(ip: string, port: string, now: int) returns (added: bool)
      requires Valid()
      modifies this`proxies
      ensures Valid() && proxies == WithAddress(old(proxies), ip, port, maxUseCount, now + expireSeconds)
      ensures added <==> forall i :: 0 <= i < |old(proxies)| ==> old(proxies)[i].Key() != ip + ":" + port
      ensures proxies == old(proxies) + if added then [Item(ip, port, 0, maxUseCount, now + expireSeconds)] else []
    {
      var key := ip + ":" + port;
      for i := 0 to |proxies|
        invariant forall j :: 0 <= j < i ==> proxies[j].Key() != key
      {
        if proxies[i].Key() == key { return false; }
      }
      proxies := proxies + [Item(ip, port, 0, maxUseCount, now + expireSeconds)];
      return true;
    }

    method Remove(ip: string, port: string) returns (removed: bool)
      requires Valid()
      modifies this`proxies
      ensures Valid() && proxies == Without(old(proxies), PlaceOf(old(proxies), ip + ":" + port))
      ensures removed <==> exists i :: 0 <= i < |old(proxies)| && old(proxies)[i].Key() == ip + ":" + port
      ensures forall i :: 0 <= i < |proxies| ==> proxies[i].Key() != ip + ":" + port
      ensures if removed
        then exists i :: 0 <= i < |old(proxies)| && old(proxies)[i].Key() == ip + ":" + port
                         && proxies == old(proxies)[..i] + old(proxies)[i + 1..]
        else proxies == old(proxies)
    {
      var key := ip + ":" + port;
      for i := 0 to |proxies|
        invariant forall j :: 0 <= j < i ==> proxies[j].Key() != key
      {
        if proxies[i].Key() == key {
          proxies := proxies[..i] + proxies[i + 1..];
          return true;
        }
      }
      return false;
    }

    method CleanupUnsafe(now: int)
      requires Valid()
      modifies this`proxies
      ensures Valid() && proxies == Available(old(proxies), now)
    {
      var valid: seq<Item> := [];
      for i := 0 to |proxies|
        invariant valid == Available(proxies[..i], now)
      {
        assert proxies[..i + 1][..i] == proxies[..i];
        if proxies[i].IsAvailable(now) {
          valid := valid + [proxies[i]];
        }
      }
      assert proxies[..|proxies|] == proxies;
      AvailableDistinct(proxies, now);
      proxies := valid;
    }

    method Cleanup(now: int) returns (removed: int)
      requires Valid()
      modifies this`proxies
      ensures Valid() && proxies == Available(old(proxies), now)
      ensures removed == |old(proxies)| - |proxies| >= 0
    {
      var before := |proxies|;
      AvailableFits(proxies, now);
      CleanupUnsafe(now);
      return before - |proxies|;
    }

    /** `fetched` is what the fetch function gave, or None if it failed. */
    method Refresh(fetched: Option<seq<(string, string)>>, now: int) returns (count: nat)
      requires Valid()
      modifies this`proxies
      ensures Valid()
      ensures proxies == if fetched.Some?
        then WithFetched(old(proxies), fetched.value, maxUseCount, now + expireSeconds) else old(proxies)
      ensures count == |proxies| - |old(proxies)|
    {
      count := 0;
      if fetched == None { return; }
      var addresses := fetched.value;
      for i := 0 to |addresses|
        invariant Valid() && count == |proxies| - |old(proxies)|
        invariant WithFetched(old(proxies), addresses, maxUseCount, now + expireSeconds)
               == WithFetched(proxies, addresses[i..], maxUseCount, now + expireSeconds)
      {
        var added := AddProxy(addresses[i].0, addresses[i].1, now);
        if added {
          count := count + 1;
        }
      }
    }

    /** What happens to the pool while Get has let go of the lock. */
    method Meanwhile(ops: seq<Op>)
      requires Valid()
      modifies this`proxies, this`roundRobinIdx
      ensures Valid()
      ensures (proxies, roundRobinIdx) == AfterOps(old(proxies), old(roundRobinIdx), ops, maxUseCount, expireSeconds)
    {
      hide DistinctKeys, WithAddress, Without, PlaceOf, Available, AfterUse;
      for i := 0 to |ops|
        invariant Valid()
        invariant AfterOps(old(proxies), old(roundRobinIdx), ops, maxUseCount, expireSeconds)
               == AfterOps(proxies, roundRobinIdx, ops[i..], maxUseCount, expireSeconds)
      {
        match ops[i] {
          case Add(ip, port, at) => var _ := AddProxy(ip, port, at);
          case Delete(ip, port) => var _ := Remove(ip, port);
          case CleanUp(at) => CleanupUnsafe(at);
          case Clear =>
            proxies := [];
            NoKeys();
          case Pick(place) =>
            AfterUseDistinct(proxies, place);
            proxies := AfterUse(proxies, place);
            roundRobinIdx := roundRobinIdx + 1;
        }
      }
    }

    /**
     Get reads the clock when it cleans up and when it looks for available items. If nothing is left
     after cleaning up it gives up the lock to refresh: `between` is what then happens, its own
     refresh included. `rivals` uses of the chosen proxy come in between, as far as its limit allows.
     A pool that is small but not empty starts a refresh in the background.
     */
    method Get(now: int, later: int, between: seq<Op>, rivals: nat) returns (r: Option<Item>, background: bool)
      requires Valid()
      modifies this`proxies, this`roundRobinIdx
      ensures Valid()
      ensures (proxies, roundRobinIdx, r)
           == GetResult(old(proxies), old(roundRobinIdx), now, later, between, rivals, maxUseCount, expireSeconds)
      ensures background <==> 0 < |Available(old(proxies), now)| < minPoolSize
    {
      hide DistinctKeys, Available, AfterOps;
      CleanupUnsafe(now);
      background := false;
      if |proxies| == 0 {
        Meanwhile(between);
      } else if |proxies| < minPoolSize {
        background := true;
      }
      var available: seq<nat> := [];
      for i := 0 to |proxies|
        invariant available == Places(proxies, later, i)
      {
        if proxies[i].IsAvailable(later) {
          available := available + [i];
        }
      }
      if |available| == 0 { return None, background; }
      var idx := roundRobinIdx % |available|;
      roundRobinIdx := roundRobinIdx + 1;
      var place := available[idx];
      SameKeysDistinct(proxies, place, rivals);
      proxies := proxies[place := proxies[place].UsedBy(rivals)];
      if proxies[place].used >= proxies[place].max { return None, background; }
      AfterUseDistinct(proxies, place);
      proxies := AfterUse(proxies, place);
      return Some(proxies[place]), background;
    }
  }

  lemma NoKeys()
    ensures DistinctKeys([])
  {
  }

  lemma SameKeysDistinct(items: seq<Item>, i: nat, rivals: nat)
    requires DistinctKeys(items) && i < |items|
    ensures DistinctKeys(items[i := items[i].UsedBy(rivals)])
  {
    assert forall k :: 0 <= k < |items| ==> items[i := items[i].UsedBy(rivals)][k].Key() == items[k].Key();
  }

  lemma AfterUseDistinct(items: seq<Item>, i: nat)
    requires DistinctKeys(items)
    ensures DistinctKeys(AfterUse(items, i))
  {
    assert forall k :: 0 <= k < |items| ==> AfterUse(items, i)[k].Key() == items[k].Key();
  }

  /** The places of the available items among the first n. */
  function Places(items: seq<Item>, now: int, n: nat): (p: seq<nat>)
    requires n <= |items|
    ensures forall i :: 0 <= i < |p| ==> p[i] < n && items[p[i]].IsAvailable(now)
  {
    if n == 0 then []
    else if items[n - 1].IsAvailable(now) then Places(items, now, n - 1) + [n - 1] else Places(items, now, n - 1)
  }

  /** The turn goes to the available items in order; rivals may leave no use for this call. */
  function PickResult(items: seq<Item>, next: nat, now: int, rivals: nat): (seq<Item>, nat, Option<Item>) {
    var places := Places(items, now, |items|);
    if places == [] then (items, next, None)
    else
      var place := places[next % |places|];
      var seen := items[place := items[place].UsedBy(rivals)];
      if seen[place].used >= seen[place].max then (seen, next + 1, None)
      else (AfterUse(seen, place), next + 1, Some(AfterUse(seen, place)[place]))
  }

  function GetResult(items: seq<Item>, next: nat, now: int, later: int, between: seq<Op>, rivals: nat,
                     max: int, life: int): (seq<Item>, nat, Option<Item>)
  {
    var cleaned := Available(items, now);
    var (pool, turn) := if cleaned == [] then AfterOps(cleaned, next, between, max, life) else (cleaned, next);
    PickResult(pool, turn, later, rivals)
  }

  /** A refresh that nobody comes in between adds each fetched address. */
  function Adds(fetched: seq<(string, string)>, at: int): seq<Op> {
    seq(|fetched|, i requires 0 <= i < |fetched| => Add(fetched[i].0, fetched[i].1, at))
  }

  lemma {:induction false} RefreshAlone(items: seq<Item>, next: nat, fetched: seq<(string, string)>, at: int, max: int, life: int)
    ensures AfterOps(items, next, Adds(fetched, at), max, life) == (WithFetched(items, fetched, max, at + life), next)
    decreases |fetched|
  {
    hide WithAddress;
    if fetched != [] {
      assert Adds(fetched, at)[1..] == Adds(fetched[1..], at);
      RefreshAlone(WithAddress(items, fetched[0].0, fetched[0].1, max, at + life), next, fetched[1..], at, max, life);
    }
  }

  /** A refresh keeps what there is, and adds each address that is missing, unused, in the order fetched. */
  lemma {:induction false} FetchedAdded(items: seq<Item>, fetched: seq<(string, string)>, max: int, expires: int)
    ensures var after := WithFetched(items, fetched, max, expires);
      && items <= after
      && (forall f <- fetched :: exists u <- after :: u.Key() == f.0 + ":" + f.1)
      && (forall i :: |items| <= i < |after| ==> exists f <- fetched :: after[i] == Item(f.0, f.1, 0, max, expires))
      && (DistinctKeys(items) ==> DistinctKeys(after))
    decreases |fetched|
  {
    if fetched != [] {
      var f, rest := fetched[0], fetched[1..];
      var next := WithAddress(items, f.0, f.1, max, expires);
      FetchedAdded(next, rest, max, expires);
      var after := WithFetched(items, fetched, max, expires);
      AddressAdded(items, f.0, f.1, max, expires);
      hide WithFetched, WithAddress, DistinctKeys;
      assert fetched == [f] + rest;
      assert forall u <- next :: u in after;
      forall i | |items| <= i < |after|
        ensures exists g <- fetched :: after[i] == Item(g.0, g.1, 0, max, expires)
      {
        if i < |next| {
          assert f in fetched && after[i] == next[i];
        }
      }
    }
  }

  lemma AddressAdded(items: seq<Item>, ip: string, port: string, max: int, expires: int)
    ensures var next := WithAddress(items, ip, port, max, expires);
      && items <= next && (exists u <- next :: u.Key() == ip + ":" + port)
      && (forall i :: |items| <= i < |next| ==> next[i] == Item(ip, port, 0, max, expires))
      && (DistinctKeys(items) ==> DistinctKeys(next))
  {
    var next := WithAddress(items, ip, port, max, expires);
    var i := PlaceOf(items, ip + ":" + port);
    assert next[i].Key() == ip + ":" + port && next[i] in next;
  }

  /**
   What Get hands out: an item that had not expired and had uses left, with the rivals' uses and this
   one counted, within its limit. It hands out nothing if there is no such item, or if rivals used up
   the one whose turn it was.
   */
  lemma HandsOut(items: seq<Item>, next: nat, now: int, rivals: nat)
    ensures match PickResult(items, next, now, rivals).2
      case Some(item) =>
        && item.used <= item.max
        && exists i :: 0 <= i < |items| && now < items[i].expires && items[i].used < items[i].max
                       && item == items[i].(used := items[i].used + rivals + 1)
      case None =>
        || (forall i :: 0 <= i < |items| ==> now >= items[i].expires || items[i].used >= items[i].max)
        || exists i :: 0 <= i < |items| && now < items[i].expires && items[i].used < items[i].max
                       && items[i].used + rivals >= items[i].max
  {
    PlacesComplete(items, now, |items|);
  }

  /** Get refreshes only a pool in which nothing can be used. */
  lemma GetRefreshes(items: seq<Item>, next: nat, now: int, later: int, between: seq<Op>, rivals: nat, max: int, life: int)
    ensures GetResult(items, next, now, later, between, rivals, max, life) ==
      if exists u <- items :: now < u.expires && u.used < u.max
      then PickResult(Available(items, now), next, later, rivals)
      else var (pool, turn) := AfterOps([], next, between, max, life); PickResult(pool, turn, later, rivals)
  {
    hide AfterOps, Available, PickResult;
    AvailableOnce(items, now);
    AvailableAll(items, now);
    assert Available(items, now) != [] ==> Available(items, now)[0] in Available(items, now);
  }

  /** The turn passes on whenever there is something to choose from. */
  lemma TurnPasses(items: seq<Item>, next: nat, now: int, rivals: nat)
    ensures PickResult(items, next, now, rivals).1
         == next + if exists u <- items :: now < u.expires && u.used < u.max then 1 else 0
  {
    hide Places;
    PlacesComplete(items, now, |items|);
    var places := Places(items, now, |items|);
    assert places != [] ==> items[places[0]] in items && items[places[0]].IsAvailable(now);
    if u :| u in items && now < u.expires && u.used < u.max {
      var i :| 0 <= i < |items| && items[i] == u;
      assert i in places;
    }
  }

  lemma {:induction false} AvailableAll(items: seq<Item>, now: int)
    ensures forall u <- items :: u.IsAvailable(now) ==> u in Available(items, now)
  {
    if items != [] {
      AvailableAll(items[..|items| - 1], now);
      assert items == items[..|items| - 1] + [items[|items| - 1]];
    }
  }

  /** What another caller's stretch under the lock leaves: what is taken away, */
  lemma TakesAway(items: seq<Item>, next: nat, max: int, life: int, ip: string, port: string, at: int)
    requires DistinctKeys(items)
    ensures AfterOp(items, next, Clear, max, life) == ([], next)
    ensures var (after, turn) := AfterOp(items, next, Delete(ip, port), max, life);
      turn == next && forall u :: u in after <==> u in items && u.Key() != ip + ":" + port
    ensures var (after, turn) := AfterOp(items, next, CleanUp(at), max, life);
      turn == next && forall u :: u in after <==> u in items && at < u.expires && u.used < u.max
  {
    AvailableOnce(items, at);
    AvailableAll(items, at);
    DeleteMeans(items, ip + ":" + port);
    hide Available, Without, PlaceOf;
  }

  /** and what is used or added. */
  lemma UsesOrAdds(items: seq<Item>, next: nat, max: int, life: int, ip: string, port: string, at: int, place: nat)
    ensures var (after, turn) := AfterOp(items, next, Pick(place), max, life);
      && turn == next + 1 && |after| == |items|
      && forall i :: 0 <= i < |items| ==> after[i] == items[i].(used := items[i].used + if i == place then 1 else 0)
    ensures var (after, turn) := AfterOp(items, next, Add(ip, port, at), max, life);
      turn == next
      && after == items + if exists u <- items :: u.Key() == ip + ":" + port then [] else [Item(ip, port, 0, max, at + life)]
  {
    var key := ip + ":" + port;
    var i := PlaceOf(items, key);
    assert i == |items| ==> forall u <- items :: u.Key() != key;
    assert i < |items| ==> items[i] in items && items[i].Key() == key;
    assert items + [] == items;
    hide PlaceOf;
  }

  lemma DeleteMeans(items: seq<Item>, key: string)
    requires DistinctKeys(items)
    ensures forall u :: u in Without(items, PlaceOf(items, key)) <==> u in items && u.Key() != key
  {
    var i := PlaceOf(items, key);
    if i < |items| {
      assert items == items[..i] + [items[i]] + items[i + 1..];
      forall j | 0 <= j < |items| && j != i
        ensures items[j].Key() != key
      {
        assert j < i ==> items[j].Key() != items[i].Key();
        assert i < j ==> items[i].Key() != items[j].Key();
      }
    }
  }

  lemma {:induction false} PlacesComplete(items: seq<Item>, now: int, n: nat)
    requires n <= |items|
    ensures forall i :: 0 <= i < n && items[i].IsAvailable(now) ==> i in Places(items, now, n)
  {
    if n > 0 {
      PlacesComplete(items, now, n - 1);
    }
  }

  /** A clean-up keeps an item exactly if it has not expired and has uses left, and keeps the order. */
  lemma {:induction false} AvailableParts(a: seq<Item>, b: seq<Item>, now: int)
    ensures Available(a + b, now) == Available(a, now) + Available(b, now)
  {
    if b == [] {
      assert a + b == a;
    } else {
      var front, last := b[..|b| - 1], b[|b| - 1];
      AvailableParts(a, front, now);
      assert (a + b)[..|a + b| - 1] == a + front;
    }
  }

  lemma AvailableOne(u: Item, now: int)
    ensures Available([u], now) == if now < u.expires && u.used < u.max then [u] else []
  {
    assert [u][..0] == [];
    assert Available([], now) == [];
  }

  lemma {:induction false} AvailableFits(items: seq<Item>, now: int)
    ensures |Available(items, now)| <= |items|
  {
    if items != [] {
      AvailableFits(items[..|items| - 1], now);
    }
  }

  lemma {:induction false} AvailableOnce(items: seq<Item>, now: int)
    ensures forall u <- Available(items, now) :: u in items && u.IsAvailable(now)
  {
    if items != [] {
      AvailableOnce(items[..|items| - 1], now);
    }
  }

  lemma {:induction false} AvailableDistinct(items: seq<Item>, now: int)
    requires DistinctKeys(items)
    ensures DistinctKeys(Available(items, now))
  {
    if items != [] {
      var front, last := items[..|items| - 1], items[|items| - 1];
      AvailableDistinct(front, now);
      AvailableOnce(front, now);
      forall u | u in Available(front, now)
        ensures u.Key() != last.Key()
      {
        var i :| 0 <= i < |front| && front[i] == u;
        assert items[i].Key() != items[|front|].Key();
      }
    }
  }

  // ---------- turns ----------

  predicate AllAvailable(items: seq<Item>, now: int) {
    forall i :: 0 <= i < |items| ==> items[i].IsAvailable(now)
  }

  /** How often place j comes up in k turns over n places that start at `next`. */
  function Turns(next: nat, n: nat, k: nat, j: nat): nat
    requires n > 0
  {
    if k == 0 then 0 else Turns(next, n, k - 1, j) + if (next + (k - 1)) % n == j then 1 else 0
  }

  /** When a Get cleans up and when it looks for available items. */
  type Clock = nat -> (int, int)

  /** The item lists before, between and after successive Gets, all items staying available. */
  ghost predicate StableRun(history: seq<seq<Item>>, next: nat, clock: Clock) {
    && history != [] && history[0] != []
    && forall i: nat :: i < |history| - 1 ==>
         && AllAvailable(history[i], clock(i).0) && AllAvailable(history[i], clock(i).1)
         && history[i + 1] == GetResult(history[i], next + i, clock(i).0, clock(i).1, [], 0, 0, 0).0
  }

  lemma {:induction false} AllPlaces(items: seq<Item>, now: int, n: nat)
    requires n <= |items| && AllAvailable(items, now)
    ensures |Places(items, now, n)| == n && forall i :: 0 <= i < n ==> Places(items, now, n)[i] == i
  {
    if n > 0 {
      AllPlaces(items, now, n - 1);
    }
  }

  lemma {:induction false} AllStay(items: seq<Item>, now: int)
    requires AllAvailable(items, now)
    ensures Available(items, now) == items
  {
    if items != [] {
      AllStay(items[..|items| - 1], now);
    }
  }

  /** With everything available, Get uses the item whose turn it is and leaves the others alone. */
  lemma StableGet(items: seq<Item>, next: nat, now: int, later: int)
    requires items != [] && AllAvailable(items, now) && AllAvailable(items, later)
    ensures GetResult(items, next, now, later, [], 0, 0, 0)
         == (AfterUse(items, next % |items|), next + 1, Some(AfterUse(items, next % |items|)[next % |items|]))
  {
    AllPlaces(items, later, |items|);
    AllStay(items, now);
    var place := next % |items|;
    assert items[place := items[place].UsedBy(0)] == items;
  }

  lemma {:induction false} UsesAreTurns(history: seq<seq<Item>>, next: nat, clock: Clock, k: nat, j: nat)
    requires StableRun(history, next, clock) && k < |history| && j < |history[0]|
    ensures |history[k]| == |history[0]| && history[k][j].Key() == history[0][j].Key()
    ensures history[k][j].used == history[0][j].used + Turns(next, |history[0]|, k, j)
  {
    hide GetResult;
    if k > 0 {
      UsesAreTurns(history, next, clock, k - 1, j);
      StableGet(history[k - 1], next + (k - 1), clock(k - 1).0, clock(k - 1).1);
    }
  }

  /** Multiples of n in a range, by division. */
  function Multiples(n: nat, from: nat, to: nat): int
    requires n > 0
  {
    to / n - from / n
  }

  lemma DivStep(y: nat, n: nat)
    requires n > 0
    ensures (y + 1) / n == y / n + if (y + 1) % n == 0 then 1 else 0
  {
    var q, r := y / n, y % n;
    assert y == n * q + r;
    if r == n - 1 {
      assert y + 1 == n * (q + 1);
      DivUnique(y + 1, n, q + 1, 0);
    } else {
      DivUnique(y + 1, n, q, r + 1);
    }
  }

  lemma DivUnique(a: nat, n: nat, q: nat, r: nat)
    requires n > 0 && a == n * q + r && r < n
    ensures a / n == q && a % n == r
  {
    var x := a / n - q;
    assert n * x == r - a % n;
    MultipleGrows(n, x);
  }

  lemma MultipleGrows(n: int, x: int)
    requires n > 0
    ensures x >= 1 ==> n * x >= n
    ensures x <= -1 ==> n * x <= -n
  {
  }

  /** Place j's turn comes when next + i + (n - j) is a multiple of n. */
  lemma TurnIsMultiple(x: nat, n: nat, j: nat)
    requires j < n
    ensures x % n == j <==> (x + (n - j)) % n == 0
  {
    var q, r := x / n, x % n;
    assert x == n * q + r;
    if r >= j {
      assert x + (n - j) == n * (q + 1) + (r - j);
      DivUnique(x + (n - j), n, q + 1, r - j);
    } else {
      DivUnique(x + (n - j), n, q, r + n - j);
    }
  }

  lemma {:induction false} TurnsCounted(next: nat, n: nat, k: nat, j: nat)
    requires j < n
    ensures Turns(next, n, k, j) == Multiples(n, next + (n - 1 - j), next + k + (n - 1 - j))
  {
    if k > 0 {
      TurnsCounted(next, n, k - 1, j);
      var x := next + (k - 1);
      TurnIsMultiple(x, n, j);
      DivStep(x + (n - 1 - j), n);
    }
  }

  lemma SumDivides(n: nat, q: nat, r: nat, p: nat, s: nat)
    requires r < n && s < n
    ensures (n * q + r + (n * p + s)) / n == q + p + if r + s < n then 0 else 1
  {
    var x, y := n * q, n * p;
    if r + s < n {
      assert x + y == n * (q + p);
      DivUnique(x + r + (y + s), n, q + p, r + s);
    } else {
      assert x + y + n == n * (q + p + 1);
      DivUnique(x + r + (y + s), n, q + p + 1, r + s - n);
    }
  }

  lemma SumDiv(a: nat, k: nat, n: nat)
    requires n > 0
    ensures (a + k) / n == a / n + k / n + if a % n + k % n < n then 0 else 1
  {
    var q, r := Split(a, n);
    var p, s := Split(k, n);
    SumDivides(n, q, r, p, s);
    assert a + k == n * q + r + (n * p + s);
  }

  lemma Split(a: nat, n: nat) returns (q: nat, r: nat)
    requires n > 0
    ensures a == n * q + r && r < n && q == a / n && r == a % n
  {
    q, r := a / n, a % n;
  }

  lemma CeilDiv(k: nat, n: nat)
    requires n > 0
    ensures (k + n - 1) / n == k / n + if k % n == 0 then 0 else 1
  {
    SumDiv(k, n - 1, n);
    DivUnique(n - 1, n, 0, n - 1);
  }

  lemma RangeDivides(a: nat, k: nat, n: nat)
    requires n > 0
    ensures k / n <= (a + k) / n - a / n <= (k + n - 1) / n
  {
    SumDiv(a, k, n);
    CeilDiv(k, n);
  }

  /**
   Over k successive Gets with a stable set of n available items, each item is used at least
   floor(k/n) and at most ceil(k/n) times, however the clock moves.
   */
  lemma RoundRobinFair(history: seq<seq<Item>>, next: nat, clock: Clock, k: nat, j: nat)
    requires StableRun(history, next, clock) && k < |history| && j < |history[0]|
    ensures |history[k]| == |history[0]|
    ensures var n := |history[0]|;
      k / n <= history[k][j].used - history[0][j].used <= (k + n - 1) / n
  {
    var n := |history[0]|;
    UsesAreTurns(history, next, clock, k, j);
    hide StableRun, Turns, GetResult;
    TurnsBounded(next, n, k, j);
  }

  /** In k turns over n places, each place comes up floor(k/n) or ceil(k/n) times. */
  lemma TurnsBounded(next: nat, n: nat, k: nat, j: nat)
    requires j < n
    ensures k / n <= Turns(next, n, k, j) <= (k + n - 1) / n
  {
    hide Turns;
    TurnsCounted(next, n, k, j);
    var a := next + (n - 1 - j);
    assert next + k + (n - 1 - j) == a + k;
    RangeDivides(a, k, n);
  }
}
