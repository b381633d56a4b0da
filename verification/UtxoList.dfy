/** The unspent outputs of an address as web3utils/bitcoin lists them: filtered, deduplicated, sorted. */
module UtxoList {
  import opened Decimal

  datatype Status = Status(confirmed: bool, blockHeight: int, blockHash: string, blockTime: int)

  /** vout is an uint32 and value an int64 in the program. */
  datatype Utxo = Utxo(txid: string, vout: nat, value: int, status: Status)

  predicate IsHexDigit(c: char) {
    IsDigit(c) || 'a' <= c <= 'f' || 'A' <= c <= 'F'
  }

  predicate IsTransactionID(s: string) {
    |s| == 64 && forall i :: 0 <= i < |s| ==> IsHexDigit(s[i])
  }

  predicate Survives(u: Utxo, includeUnconfirmed: bool) {
    u.value > 0 && IsTransactionID(u.txid) && (includeUnconfirmed || u.status.confirmed)
  }

  /** The text two entries are compared by when duplicates are dropped. */
  function Key(u: Utxo): string {
    u.txid + ":" + Digits(u.vout)
  }

  /** On 64-character transaction ids the dedup text identifies the output. */
  lemma KeyInjective(a: Utxo, b: Utxo)
    requires IsTransactionID(a.txid) && IsTransactionID(b.txid) && Key(a) == Key(b)
    ensures a.txid == b.txid && a.vout == b.vout
  {
    hide IsTransactionID, Digits;
    assert |a.txid| == 64 && |b.txid| == 64 by { IdLength(a.txid); IdLength(b.txid); }
    assert a.txid == Key(a)[..64] == Key(b)[..64] == b.txid;
    assert Digits(a.vout) == Key(a)[65..] == Key(b)[65..] == Digits(b.vout);
    DigitsInjective(a.vout, b.vout);
  }

  lemma IdLength(s: string)
    requires IsTransactionID(s)
    ensures |s| == 64
  {
  }

  // ---------- filtering and dropping duplicates ----------

  function KeysOf(s: seq<Utxo>): set<string> {
    set u | u in s :: Key(u)
  }

  /** The entries that survive, each key once, at its first surviving place. */
  function Survivors(response: seq<Utxo>, includeUnconfirmed: bool): seq<Utxo> {
    if response == [] then [] else
      var before := Survivors(response[..|response| - 1], includeUnconfirmed);
      var u := response[|response| - 1];
      if Survives(u, includeUnconfirmed) && Key(u) !in KeysOf(before) then before + [u] else before
  }

  predicate DistinctKeys(s: seq<Utxo>) {
    forall i, j :: 0 <= i < j < |s| ==> Key(s[i]) != Key(s[j])
  }

  lemma {:induction false} SurvivorsAre(response: seq<Utxo>, inc: bool)
    ensures DistinctKeys(Survivors(response, inc))
    ensures forall u <- Survivors(response, inc) :: u in response && Survives(u, inc)
    ensures forall u <- response :: Survives(u, inc) ==> Key(u) in KeysOf(Survivors(response, inc))
  {
    hide Key, Survives;
    if response != [] {
      var front := response[..|response| - 1];
      SurvivorsAre(front, inc);
      assert response == front + [response[|response| - 1]];
      assert forall k <- KeysOf(Survivors(front, inc)) :: k in KeysOf(Survivors(response, inc));
    }
  }

  /** Surviving entries that share a key are the same entry. */
  ghost predicate Consistent(response: seq<Utxo>, inc: bool) {
    forall a, b | a in response && b in response && Survives(a, inc) && Survives(b, inc) && Key(a) == Key(b) :: a == b
  }

  lemma ConsistentSurvivors(response: seq<Utxo>, inc: bool, u: Utxo)
    requires Consistent(response, inc)
    ensures u in Survivors(response, inc) <==> u in response && Survives(u, inc)
  {
    hide Key, Survives, Survivors;
    SurvivorsAre(response, inc);
    if u in response && Survives(u, inc) {
      var w :| w in Survivors(response, inc) && Key(w) == Key(u);
      assert w == u;
    }
  }

  // ---------- sorting ----------

  /** Greater value first, then smaller id text, then smaller output index. */
  predicate Before(a: Utxo, b: Utxo) {
    if a.value == b.value then
      if a.txid == b.txid then a.vout < b.vout else Less(a.txid, b.txid)
    else a.value > b.value
  }

  lemma BeforeTotal(a: Utxo, b: Utxo)
    ensures !(Before(a, b) && Before(b, a))
    ensures Before(a, b) || Before(b, a) || Key(a) == Key(b)
  {
    LessTotal(a.txid, b.txid);
  }

  lemma BeforeTransitive(a: Utxo, b: Utxo, c: Utxo)
    requires Before(a, b) && Before(b, c)
    ensures Before(a, c)
  {
    if Less(a.txid, b.txid) && Less(b.txid, c.txid) {
      LessTransitive(a.txid, b.txid, c.txid);
      LessTotal(a.txid, c.txid);
    }
  }

  predicate Ordered(s: seq<Utxo>) {
    forall i, j :: 0 <= i < j < |s| ==> Before(s[i], s[j])
  }

  /** A stable sort under Before: each entry goes behind every earlier entry it does not precede. */
  function StableSort(s: seq<Utxo>): seq<Utxo> {
    if s == [] then [] else Insert(StableSort(s[..|s| - 1]), s[|s| - 1])
  }

  function Insert(s: seq<Utxo>, u: Utxo): seq<Utxo> {
    if s == [] || !Before(u, s[|s| - 1]) then s + [u]
    else Insert(s[..|s| - 1], u) + [s[|s| - 1]]
  }

  lemma {:induction false} InsertOrders(s: seq<Utxo>, u: Utxo)
    requires Ordered(s) && Key(u) !in KeysOf(s)
    ensures Ordered(Insert(s, u))
    ensures multiset(Insert(s, u)) == multiset(s) + multiset{u}
  {
    hide Key, Before;
    if s != [] {
      var front, last := s[..|s| - 1], s[|s| - 1];
      assert s == front + [last];
      assert Key(last) in KeysOf(s);
      BeforeTotal(u, last);
      if Before(u, last) {
        InsertOrders(front, u);
        var t := Insert(front, u);
        forall i | 0 <= i < |t|
          ensures Before(t[i], last)
        {
          assert t[i] in multiset(t);
          if t[i] != u {
            var j :| 0 <= j < |front| && front[j] == t[i];
            assert s[j] == t[i];
          }
        }
      } else {
        forall i | 0 <= i < |s|
          ensures Before(s[i], u)
        {
          if i < |front| {
            BeforeTransitive(s[i], last, u);
          }
        }
      }
    }
  }

  lemma {:induction false} SortOrders(s: seq<Utxo>)
    requires DistinctKeys(s)
    ensures Ordered(StableSort(s)) && multiset(StableSort(s)) == multiset(s)
  {
    hide Key, Before;
    if s != [] {
      var front, last := s[..|s| - 1], s[|s| - 1];
      assert s == front + [last];
      SortOrders(front);
      forall u | u in StableSort(front)
        ensures Key(u) != Key(last)
      {
        assert u in multiset(StableSort(front));
        var i :| 0 <= i < |front| && front[i] == u;
        assert Key(s[i]) != Key(s[|front|]);
      }
      InsertOrders(StableSort(front), last);
    }
  }

  /** An ordered list is determined by what it contains. */
  lemma {:induction false} OrderedUnique(s: seq<Utxo>, t: seq<Utxo>)
    requires Ordered(s) && Ordered(t)
    requires forall u :: u in s <==> u in t
    ensures s == t
  {
    hide Before;
    assert s != [] ==> s[0] in t;
    assert t != [] ==> t[0] in s;
    if s != [] {
      var i :| 0 <= i < |t| && t[i] == s[0];
      var j :| 0 <= j < |s| && s[j] == t[0];
      BeforeTotal(s[0], t[0]);
      assert s[0] == t[0];
      HeadOnce(s);
      HeadOnce(t);
      OrderedUnique(s[1..], t[1..]);
      assert s == [s[0]] + s[1..] && t == [t[0]] + t[1..];
    }
  }

  lemma HeadOnce(s: seq<Utxo>)
    requires Ordered(s) && s != []
    ensures Ordered(s[1..])
    ensures forall u :: u in s[1..] <==> u in s && u != s[0]
  {
    forall u | u in s[1..]
      ensures u != s[0]
    {
      var i :| 1 <= i < |s| && s[i] == u;
      BeforeTotal(s[0], u);
    }
    assert s == [s[0]] + s[1..];
  }

  // ---------- the listing ----------

  function Listed(response: seq<Utxo>, inc: bool): seq<Utxo> {
    StableSort(Survivors(response, inc))
  }

  method ListUnspent(response: seq<Utxo>, includeUnconfirmed: bool) returns (filtered: seq<Utxo>)
    ensures filtered == Listed(response, includeUnconfirmed)
  {
    filtered := [];
    var seen: set<string> := {};
    for i := 0 to |response|
      invariant filtered == Survivors(response[..i], includeUnconfirmed)
      invariant seen == KeysOf(filtered)
    {
      var u := response[i];
      assert response[..i + 1][..i] == response[..i];
      if u.value <= 0 || !IsTransactionID(u.txid) { continue; }
      if !includeUnconfirmed && !u.status.confirmed { continue; }
      var key := Key(u);
      if key in seen { continue; }
      seen := seen + {key};
      filtered := filtered + [u];
    }
    assert response[..|response|] == response;
    filtered := StableSort(filtered);
  }

  lemma ListedOrdered(response: seq<Utxo>, inc: bool)
    ensures Ordered(Listed(response, inc))
    ensures DistinctKeys(Listed(response, inc))
    ensures forall u :: u in Listed(response, inc) <==> u in Survivors(response, inc)
    ensures forall u <- Listed(response, inc) :: u in response && Survives(u, inc)
    ensures Descending(Listed(response, inc))
  {
    SurvivorsAre(response, inc);
    var kept := Survivors(response, inc);
    hide Key, Survives, Survivors, StableSort;
    SortOrders(kept);
    var list := StableSort(kept);
    forall u
      ensures u in list <==> u in kept
    {
      assert u in list <==> u in multiset(list);
      assert u in kept <==> u in multiset(kept);
    }
    OrderedDistinct(list, kept);
  }

  lemma OrderedDistinct(list: seq<Utxo>, kept: seq<Utxo>)
    requires Ordered(list) && DistinctKeys(kept) && forall u :: u in list <==> u in kept
    ensures DistinctKeys(list) && Descending(list)
  {
    forall i, j | 0 <= i < j < |list|
      ensures Key(list[i]) != Key(list[j])
    {
      hide Key;
      assert Before(list[i], list[j]);
      BeforeTotal(list[i], list[i]);
      assert list[i] != list[j];
      assert list[i] in kept && list[j] in kept;
    }
  }

  predicate Descending(s: seq<Utxo>) {
    forall i, j :: 0 <= i < j < |s| ==> s[i].value >= s[j].value
  }

  /** The list depends only on which entries survive: order, repetitions and rejected entries do not matter. */
  lemma ListedCanonical(r1: seq<Utxo>, r2: seq<Utxo>, inc: bool)
    requires Consistent(r1, inc)
    requires forall u | Survives(u, inc) :: u in r1 <==> u in r2
    ensures Listed(r1, inc) == Listed(r2, inc)
  {
    assert Consistent(r2, inc);
    hide Survives, Consistent, Listed;
    forall u
      ensures u in Listed(r1, inc) <==> u in Listed(r2, inc)
    {
      ListedOrdered(r1, inc);
      ListedOrdered(r2, inc);
      ConsistentSurvivors(r1, inc, u);
      ConsistentSurvivors(r2, inc, u);
    }
    ListedOrdered(r1, inc);
    ListedOrdered(r2, inc);
    OrderedUnique(Listed(r1, inc), Listed(r2, inc));
  }

  /** Every reordering of the response gives the same list exactly when repeated keys carry equal entries. */
  lemma OrderIndependence(response: seq<Utxo>, inc: bool)
    ensures (forall p: seq<Utxo> :: multiset(p) == multiset(response) ==> Listed(p, inc) == Listed(response, inc))
       <==> Consistent(response, inc)
  {
    if Consistent(response, inc) {
      forall p: seq<Utxo> | multiset(p) == multiset(response)
        ensures Listed(p, inc) == Listed(response, inc)
      {
        forall u
          ensures u in p <==> u in response
        {
          assert u in p <==> u in multiset(p);
          assert u in response <==> u in multiset(response);
        }
        ListedCanonical(response, p, inc);
      }
    } else {
      var a, b :| a in response && b in response && Survives(a, inc) && Survives(b, inc) && Key(a) == Key(b) && a != b;
      var p, q := MovedToFront(response, a), MovedToFront(response, b);
      FrontListed(p, inc);
      FrontListed(q, inc);
      ListedOrdered(p, inc);
      NotBoth(Listed(p, inc), a, b);
      assert Listed(p, inc) != Listed(q, inc);
    }
  }

  /** A confirmed output 0 of the transaction whose id repeats one hexadecimal digit. */
  function Sample(digit: char, value: int): Utxo {
    Utxo(seq(64, _ => digit), 0, value, Status(true, 1, "", 1))
  }

  lemma SurvivingPair(a: Utxo, b: Utxo, inc: bool)
    requires Survives(a, inc) && Survives(b, inc)
    ensures Survivors([a, b], inc) == if Key(a) == Key(b) then [a] else [a, b]
  {
    hide Key, Survives;
    assert [a, b][..1] == [a] && [a][..0] == [];
    assert Survivors([a], inc) == [a];
    assert KeysOf([a]) == {Key(a)};
  }

  lemma SortedPair(a: Utxo, b: Utxo)
    ensures StableSort([a]) == [a]
    ensures StableSort([a, b]) == if Before(b, a) then [b, a] else [a, b]
  {
    hide Before;
    assert [a, b][..1] == [a] && [a][..0] == [];
    assert Insert([], a) == [a] && Insert([], b) == [b];
    assert Insert([a], b) == if Before(b, a) then [b, a] else [a, b];
  }

  lemma ListedPair(a: Utxo, b: Utxo, inc: bool)
    requires Survives(a, inc) && Survives(b, inc)
    ensures Key(a) == Key(b) ==> Listed([a, b], inc) == [a]
    ensures Key(a) != Key(b) ==> Listed([a, b], inc) == if Before(b, a) then [b, a] else [a, b]
  {
    SurvivingPair(a, b, inc);
    SortedPair(a, b);
    hide Key, Survives, Before, Survivors, StableSort;
  }

  /** Two values for one output: whichever comes first is listed. */
  lemma RepeatedKeyMatters()
    ensures var a, b := Sample('a', 1), Sample('a', 2);
      !Consistent([a, b], false) && Listed([a, b], false) == [a] && Listed([b, a], false) == [b] && a != b
  {
    var a, b := Sample('a', 1), Sample('a', 2);
    ListedPair(a, b, false);
    ListedPair(b, a, false);
    assert a in [a, b] && b in [a, b] && a.value != b.value;
  }

  function PlaceOf(s: seq<Utxo>, u: Utxo): (i: nat)
    requires u in s
    ensures i < |s| && s[i] == u
  {
    if s[0] == u then 0 else 1 + PlaceOf(s[1..], u)
  }

  function MovedToFront(s: seq<Utxo>, u: Utxo): (p: seq<Utxo>)
    requires u in s
    ensures multiset(p) == multiset(s) && p != [] && p[0] == u
  {
    var i := PlaceOf(s, u);
    assert s == s[..i] + [s[i]] + s[i + 1..];
    [u] + (s[..i] + s[i + 1..])
  }

  /** A surviving entry at the front of the response is listed. */
  lemma FrontListed(p: seq<Utxo>, inc: bool)
    requires p != [] && Survives(p[0], inc)
    ensures p[0] in Listed(p, inc)
  {
    FrontSurvives(p, inc);
    ListedOrdered(p, inc);
  }

  lemma {:induction false} FrontSurvives(p: seq<Utxo>, inc: bool)
    requires p != [] && Survives(p[0], inc)
    ensures p[0] in Survivors(p, inc)
  {
    if |p| > 1 {
      FrontSurvives(p[..|p| - 1], inc);
    } else {
      assert Survivors(p[..0], inc) == [];
    }
  }

  lemma NotBoth(s: seq<Utxo>, a: Utxo, b: Utxo)
    requires DistinctKeys(s) && Key(a) == Key(b) && a != b && a in s
    ensures b !in s
  {
    var i :| 0 <= i < |s| && s[i] == a;
    forall j | 0 <= j < |s|
      ensures s[j] != b
    {
      assert j < i ==> Key(s[j]) != Key(s[i]);
      assert i < j ==> Key(s[i]) != Key(s[j]);
    }
  }

  // ---------- what the text comparison misses ----------

  function LowerHex(c: char): char {
    if 'A' <= c <= 'F' then (c as int - 'A' as int + 'a' as int) as char else c
  }

  /** The output an entry really names: the id is a hash, so letter case does not matter. */
  function Outpoint(u: Utxo): (string, nat) {
    (seq(|u.txid|, i requires 0 <= i < |u.txid| => LowerHex(u.txid[i])), u.vout)
  }

  /** A listed id in lower case: digits stay, capital letters move down, nothing else is left. */
  lemma OutpointLowered(u: Utxo, i: nat)
    requires IsTransactionID(u.txid) && i < 64
    ensures Outpoint(u).1 == u.vout && |Outpoint(u).0| == 64
    ensures var c, lower := u.txid[i], Outpoint(u).0[i];
      lower in "0123456789abcdef" && (lower == c || lower as int == c as int + 32)
  {
    var lower := Outpoint(u).0[i];
    assert IsHexDigit(u.txid[i]);
    if '0' <= lower <= '9' {
      assert "0123456789abcdef"[lower as int - '0' as int] == lower;
    } else {
      assert "0123456789abcdef"[10 + lower as int - 'a' as int] == lower;
    }
  }

  ghost predicate DistinctOutpoints(s: seq<Utxo>) {
    forall i, j :: 0 <= i < j < |s| ==> Outpoint(s[i]) != Outpoint(s[j])
  }

  /**
   No output is listed twice exactly when the response spells each surviving id one way: entries
   that differ in letter case only are both kept.
   */
  lemma OutpointsDistinct(response: seq<Utxo>, inc: bool)
    ensures DistinctOutpoints(Listed(response, inc)) <==>
      forall a, b | a in response && b in response && Survives(a, inc) && Survives(b, inc) && Outpoint(a) == Outpoint(b) ::
        a.txid == b.txid
  {
    hide Outpoint, IsTransactionID, Survivors, Listed;
    var list := Listed(response, inc);
    ListedOrdered(response, inc);
    if DistinctOutpoints(list) {
      forall a, b | a in response && b in response && Survives(a, inc) && Survives(b, inc) && Outpoint(a) == Outpoint(b)
        ensures a.txid == b.txid
      {
        var i := ListedPlace(response, inc, a);
        var j := ListedPlace(response, inc, b);
        SameOutpoint(list[i], a);
        SameOutpoint(list[j], b);
        assert Outpoint(list[i]) == Outpoint(list[j]);
        assert i == j;
      }
    } else {
      var i, j :| 0 <= i < j < |list| && Outpoint(list[i]) == Outpoint(list[j]);
      assert Key(list[i]) != Key(list[j]);
      assert list[i].txid != list[j].txid by { SameVout(list[i], list[j]); }
    }
  }

  /** One output, its id spelled in lower and in upper case, is listed twice. */
  lemma LetterCaseListsTwice()
    ensures var lower, upper := Sample('a', 1), Sample('A', 1);
      Outpoint(lower) == Outpoint(upper) && Listed([lower, upper], false) == [upper, lower]
  {
    var lower, upper := Sample('a', 1), Sample('A', 1);
    assert Outpoint(lower).0 == Outpoint(upper).0;
    assert Key(lower) != Key(upper) by { assert Key(lower)[0] != Key(upper)[0]; }
    assert Less(upper.txid, lower.txid);
    assert Before(upper, lower);
    ListedPair(lower, upper, false);
  }

  lemma SameVout(a: Utxo, b: Utxo)
    requires Outpoint(a) == Outpoint(b)
    ensures a.vout == b.vout
  {
  }

  lemma SameOutpoint(a: Utxo, b: Utxo)
    requires a.txid == b.txid && a.vout == b.vout
    ensures Outpoint(a) == Outpoint(b)
  {
  }

  lemma ListedPlace(response: seq<Utxo>, inc: bool, u: Utxo) returns (i: nat)
    requires u in response && Survives(u, inc)
    ensures i < |Listed(response, inc)|
    ensures Listed(response, inc)[i].txid == u.txid && Listed(response, inc)[i].vout == u.vout
  {
    hide Key, IsTransactionID, Listed;
    SurvivorsAre(response, inc);
    ListedOrdered(response, inc);
    var w :| w in Survivors(response, inc) && Key(w) == Key(u);
    KeyInjective(w, u);
    assert w in Listed(response, inc);
    i :| 0 <= i < |Listed(response, inc)| && Listed(response, inc)[i] == w;
  }

  // ---------- the listing by its fields ----------

  const HEX_DIGITS := "0123456789abcdefABCDEF"

  lemma HexChar(c: char)
    ensures IsHexDigit(c) <==> c in HEX_DIGITS
  {
    if '0' <= c <= '9' {
      assert HEX_DIGITS[c as int - '0' as int] == c;
    } else if 'a' <= c <= 'f' {
      assert HEX_DIGITS[10 + c as int - 'a' as int] == c;
    } else if 'A' <= c <= 'F' {
      assert HEX_DIGITS[16 + c as int - 'A' as int] == c;
    }
  }

  lemma HexText(s: string)
    ensures IsTransactionID(s) <==> |s| == 64 && forall c <- s :: c in HEX_DIGITS
  {
    forall c: char
      ensures IsHexDigit(c) <==> c in HEX_DIGITS
    {
      HexChar(c);
    }
    hide IsHexDigit;
    if |s| == 64 && forall c <- s :: c in HEX_DIGITS {
      assert forall i :: 0 <= i < |s| ==> s[i] in s;
    }
  }

  /**
   Exactly these entries are listed: positive value, an id of 64 hexadecimal digits, and confirmed
   unless the caller asks for unconfirmed ones. Of entries with one key one is listed.
   */
  lemma ListedEntries(response: seq<Utxo>, inc: bool)
    ensures forall u <- Listed(response, inc) ::
      u in response && u.value > 0 && |u.txid| == 64 && (forall c <- u.txid :: c in HEX_DIGITS)
    ensures !inc ==> forall u <- Listed(response, inc) :: u.status.confirmed
    ensures forall u <- response ::
      u.value > 0 && |u.txid| == 64 && (forall c <- u.txid :: c in HEX_DIGITS) && (inc || u.status.confirmed)
      ==> exists w <- Listed(response, inc) :: w.txid == u.txid && w.vout == u.vout
  {
    hide Listed, IsTransactionID;
    ListedOrdered(response, inc);
    forall u <- response
      ensures IsTransactionID(u.txid) <==> |u.txid| == 64 && forall c <- u.txid :: c in HEX_DIGITS
    {
      HexText(u.txid);
    }
    forall u <- response | Survives(u, inc)
      ensures exists w <- Listed(response, inc) :: w.txid == u.txid && w.vout == u.vout
    {
      var i := ListedPlace(response, inc, u);
      assert Listed(response, inc)[i] in Listed(response, inc);
    }
  }

  /** An unconfirmed output is listed only when asked for. */
  lemma UnconfirmedListed()
    ensures var u := Sample('a', 1).(status := Status(false, 0, "", 0));
      Listed([u], false) == [] && Listed([u], true) == [u]
  {
    var u := Sample('a', 1).(status := Status(false, 0, "", 0));
    assert [u][..0] == [] && Survivors([], true) == [] && Survivors([], false) == [];
    assert Survivors([u], true) == [u] && Survivors([u], false) == [];
  }

  /** Equal values are listed by the text of their ids, and outputs of one transaction by index. */
  lemma ListedTies(response: seq<Utxo>, inc: bool, i: nat, j: nat)
    requires i < j < |Listed(response, inc)| && Listed(response, inc)[i].value == Listed(response, inc)[j].value
    ensures var a, b := Listed(response, inc)[i], Listed(response, inc)[j];
      if a.txid == b.txid then a.vout < b.vout
      else exists k :: 0 <= k < |a.txid| == |b.txid| && a.txid[..k] == b.txid[..k] && a.txid[k] < b.txid[k]
  {
    ListedOrdered(response, inc);
    var a, b := Listed(response, inc)[i], Listed(response, inc)[j];
    assert Before(a, b);
    if a.txid != b.txid {
      assert a in Listed(response, inc) && b in Listed(response, inc);
      IdLength(a.txid);
      IdLength(b.txid);
      hide Listed, Survives;
      var k := FirstDifference(a.txid, b.txid);
      assert 0 <= k < |a.txid| == |b.txid| && a.txid[..k] == b.txid[..k] && a.txid[k] < b.txid[k];
    }
  }
}
