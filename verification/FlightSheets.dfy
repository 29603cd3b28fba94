/** Validation of a flight sheet: it lower-cases host names and orders the pools in
    place, so that accepted sheets are in one canonical form. */
module FlightSheets {
  import opened Revisions
  import opened SheetPaths
  import opened Texts
  import opened Wrappers

  datatype Pool = Pool(host: string, port: nat, tls: bool, priority: nat)

  datatype Threads = Auto(word: string) | Count(number: nat)

  datatype Header = Header(
    schema: string,
    name: string,
    coin: string,
    backend: string,
    algorithm: string,
    identityRef: string,
    workerTemplate: string,
    threads: Threads,
    hugePages: bool,
    maxThreadsHint: nat)

  datatype SheetError = BadMetadata | BadReference | BadPoolCount | BadPool | BadThreads | BadHint

  function LowerChar(c: char): char {
    if 'A' <= c <= 'Z' then c - 'A' + 'a' else c
  }

  function LowerHost(host: string): string {
    seq(|host|, i requires 0 <= i < |host| => LowerChar(host[i]))
  }

  /** The parts of a host name between its dots. */
  function Labels(host: string): (parts: seq<string>)
    ensures |parts| >= 1
  {
    Split(host, '.')
  }

  predicate ValidLabel(part: string) {
    1 <= |part| <= 63 && forall i :: 0 <= i < |part| ==> AsciiAlphanumeric(part[i]) || part[i] == '-'
  }

  predicate ValidHost(host: string) {
    1 <= |host| <= 253 && (':' in host || forall i :: 0 <= i < |Labels(host)| ==> ValidLabel(Labels(host)[i]))
  }

  function LowerPool(p: Pool): Pool {
    p.(host := LowerHost(p.host))
  }

  function LowerPools(pools: seq<Pool>): seq<Pool> {
    seq(|pools|, i requires 0 <= i < |pools| => LowerPool(pools[i]))
  }

  // ----- the order of pools -----

  /** Place `p` after every pool whose priority is no greater. */
  function Placed(sorted: seq<Pool>, p: Pool): seq<Pool> {
    if sorted == [] || sorted[|sorted| - 1].priority <= p.priority then sorted + [p]
    else Placed(sorted[..|sorted| - 1], p) + [sorted[|sorted| - 1]]
  }

  /** Sorting by priority; pools of equal priority keep their order. */
  function SortedPools(pools: seq<Pool>): seq<Pool> {
    if pools == [] then [] else Placed(SortedPools(pools[..|pools| - 1]), pools[|pools| - 1])
  }

  ghost predicate Ordered(pools: seq<Pool>) {
    forall i, j :: 0 <= i < j < |pools| ==> pools[i].priority <= pools[j].priority
  }

  predicate DistinctPriorities(pools: seq<Pool>) {
    forall i, j :: 0 <= i < j < |pools| ==> pools[i].priority != pools[j].priority
  }

  lemma {:induction false} PlacedAdds(sorted: seq<Pool>, p: Pool)
    ensures multiset(Placed(sorted, p)) == multiset(sorted) + multiset{p}
  {
    if sorted != [] && sorted[|sorted| - 1].priority > p.priority {
      var n := |sorted| - 1;
      PlacedAdds(sorted[..n], p);
      assert sorted == sorted[..n] + [sorted[n]];
    }
  }

  ghost predicate AtMost(pools: seq<Pool>, priority: nat) {
    forall i :: 0 <= i < |pools| ==> pools[i].priority <= priority
  }

  lemma {:induction false} PlacedKeepsOrder(sorted: seq<Pool>, p: Pool, bound: nat)
    requires Ordered(sorted) && AtMost(sorted, bound) && p.priority <= bound
    ensures Ordered(Placed(sorted, p)) && AtMost(Placed(sorted, p), bound)
  {
    if sorted != [] && sorted[|sorted| - 1].priority > p.priority {
      var n := |sorted| - 1;
      PlacedKeepsOrder(sorted[..n], p, sorted[n].priority);
    }
  }

  lemma {:induction false} PlacedOrders(sorted: seq<Pool>, p: Pool)
    requires Ordered(sorted)
    ensures Ordered(Placed(sorted, p))
  {
    var last := if sorted == [] then 0 else sorted[|sorted| - 1].priority;
    PlacedKeepsOrder(sorted, p, if last < p.priority then p.priority else last);
  }

  lemma {:induction false} SortingOrders(pools: seq<Pool>)
    ensures Ordered(SortedPools(pools))
    ensures multiset(SortedPools(pools)) == multiset(pools)
  {
    if pools != [] {
      var n := |pools| - 1;
      SortingOrders(pools[..n]);
      PlacedOrders(SortedPools(pools[..n]), pools[n]);
      PlacedAdds(SortedPools(pools[..n]), pools[n]);
      assert pools == pools[..n] + [pools[n]];
    }
  }

  lemma {:induction false} SameLast(a: seq<Pool>, b: seq<Pool>, n: nat)
    requires Ordered(a) && Ordered(b) && DistinctPriorities(b)
    requires |a| == |b| == n + 1 && a[n] in b && b[n] in a
    ensures a[n] == b[n]
  {
    var i :| 0 <= i <= n && a[i] == b[n];
    var j :| 0 <= j <= n && b[j] == a[n];
    assert a[i].priority <= a[n].priority && b[j].priority <= b[n].priority;
  }

  lemma {:induction false} WithoutLast(a: seq<Pool>, n: nat)
    requires |a| == n + 1
    ensures multiset(a[..n]) == multiset(a) - multiset{a[n]}
  {
    assert a == a[..n] + [a[n]];
  }

  lemma {:induction false} WithoutLastOrdered(a: seq<Pool>, n: nat)
    requires |a| == n + 1
    ensures Ordered(a) ==> Ordered(a[..n])
    ensures DistinctPriorities(a) ==> DistinctPriorities(a[..n])
  {
  }

  lemma {:induction false} SameMembers(a: seq<Pool>, b: seq<Pool>, i: nat)
    requires multiset(a) == multiset(b) && i < |a|
    ensures a[i] in b
  {
    assert a[i] in multiset(a);
    assert a[i] in multiset(b);
  }

  /** There is only one way to order pools of distinct priorities. */
  lemma {:induction false} OrderIsUnique(a: seq<Pool>, b: seq<Pool>)
    requires Ordered(a) && Ordered(b) && DistinctPriorities(b)
    requires multiset(a) == multiset(b)
    ensures a == b
  {
    SameLength(a, b);
    if a != [] {
      var n := |a| - 1;
      SameMembers(a, b, n);
      SameMembers(b, a, n);
      SameLast(a, b, n);
      WithoutLast(a, n);
      WithoutLast(b, n);
      WithoutLastOrdered(a, n);
      WithoutLastOrdered(b, n);
      OrderIsUnique(a[..n], b[..n]);
      assert a == a[..n] + [a[n]];
    }
  }

  lemma {:induction false} SameLength(a: seq<Pool>, b: seq<Pool>)
    requires multiset(a) == multiset(b)
    ensures |a| == |b|
  {
    assert |multiset(a)| == |a| && |multiset(b)| == |b|;
  }

  lemma {:induction false} DistinctIsOfMultiset(a: seq<Pool>, b: seq<Pool>)
    requires multiset(a) == multiset(b) && DistinctPriorities(a)
    ensures DistinctPriorities(b)
  {
    forall i, j | 0 <= i < j < |b|
      ensures b[i].priority != b[j].priority
    {
      if b[i] == b[j] {
        TwiceInMultiset(b, i, j);
        OnceInMultiset(a, b[i]);
      } else {
        assert b[i] in multiset(a) && b[j] in multiset(a);
        var x :| 0 <= x < |a| && a[x] == b[i];
        var y :| 0 <= y < |a| && a[y] == b[j];
      }
    }
  }

  lemma {:induction false} TwiceInMultiset(b: seq<Pool>, i: nat, j: nat)
    requires i < j < |b| && b[i] == b[j]
    ensures multiset(b)[b[i]] >= 2
  {
    assert b == b[..j] + [b[j]] + b[j + 1..];
    assert b[..j][i] == b[i];
    assert b[i] in multiset(b[..j]);
  }

  lemma {:induction false} OnceInMultiset(a: seq<Pool>, p: Pool)
    requires DistinctPriorities(a)
    ensures multiset(a)[p] <= 1
  {
    if a != [] {
      var n := |a| - 1;
      OnceInMultiset(a[..n], p);
      assert a == a[..n] + [a[n]];
      if a[n] == p {
        assert p !in a[..n];
      }
    }
  }

  // ----- the canonical form -----

  function Canonical(pools: seq<Pool>): seq<Pool> {
    SortedPools(LowerPools(pools))
  }

  predicate HeaderAccepted(h: Header) {
    && h.schema == "rigos.flight-sheet/v1" && ValidSlug(h.name, 64) && h.backend == "xmrig"
    && 1 <= |h.coin| <= 16 && 1 <= |h.algorithm| <= 64
    && ValidSlug(h.identityRef, 64)
    && (h.workerTemplate == "{node_name}" || h.workerTemplate == "{node_name}.rig")
    && (match h.threads case Auto(word) => word == "auto" case Count(number) => 1 <= number <= 1024)
    && 1 <= h.maxThreadsHint <= 100
  }

  lemma {:induction false} SlugIsStorable(value: string)
    requires forall i :: 0 <= i < |value| ==> AsciiAlphanumeric(value[i]) || value[i] == '-'
    ensures Utf8Length(value) == |value| && '\0' !in value && '/' !in value
  {
    if value != "" {
      SlugIsStorable(value[..|value| - 1]);
    }
  }

  /** The name of an accepted sheet keeps its file in the directory of the revision, where it can be held. */
  lemma {:induction false} AcceptedNameIsConfined(h: Header)
    requires HeaderAccepted(h)
    ensures Confined(h.name) && Storable(h.name) && Landed(h.name) == At(Sheets, h.name + ".json")
  {
    SlugIsStorable(h.name);
    SlashFreeIsConfined(h.name);
  }

  predicate PoolAccepted(p: Pool) {
    ValidHost(LowerHost(p.host)) && p.port != 0
  }

  predicate PoolsAccepted(pools: seq<Pool>) {
    && 1 <= |pools| <= 16
    && DistinctPriorities(pools)
    && forall i :: 0 <= i < |pools| ==> PoolAccepted(pools[i])
  }

  lemma {:induction false} LoweringTwice(p: Pool)
    ensures LowerPool(LowerPool(p)) == LowerPool(p)
    ensures PoolAccepted(LowerPool(p)) <==> PoolAccepted(p)
  {
    assert LowerHost(LowerHost(p.host)) == LowerHost(p.host);
  }

  /** Pools that are all in lower case. */
  lemma {:induction false} FromLowered(pools: seq<Pool>, p: Pool)
    requires p in multiset(LowerPools(pools)) && forall i :: 0 <= i < |pools| ==> PoolAccepted(pools[i])
    ensures LowerPool(p) == p && PoolAccepted(p)
  {
    var k :| 0 <= k < |pools| && LowerPools(pools)[k] == p;
    LoweringTwice(pools[k]);
  }

  lemma {:induction false} CanonicalPools(pools: seq<Pool>)
    requires PoolsAccepted(pools)
    ensures Ordered(Canonical(pools)) && multiset(Canonical(pools)) == multiset(LowerPools(pools))
    ensures PoolsAccepted(Canonical(pools)) && LowerPools(Canonical(pools)) == Canonical(pools)
  {
    var lowered, canonical := LowerPools(pools), Canonical(pools);
    SortingOrders(lowered);
    SameLength(canonical, lowered);
    DistinctIsOfMultiset(lowered, canonical);
    forall i | 0 <= i < |canonical|
      ensures LowerPool(canonical[i]) == canonical[i] && PoolAccepted(canonical[i])
    {
      assert canonical[i] in multiset(canonical);
      FromLowered(pools, canonical[i]);
    }
  }

  /** The canonical form is ordered, has the given pools in lower case, and is accepted again unchanged. */
  lemma {:induction false} CanonicalIsFixpoint(pools: seq<Pool>)
    requires PoolsAccepted(pools)
    ensures Ordered(Canonical(pools)) && multiset(Canonical(pools)) == multiset(LowerPools(pools))
    ensures PoolsAccepted(Canonical(pools)) && Canonical(Canonical(pools)) == Canonical(pools)
  {
    var canonical := Canonical(pools);
    CanonicalPools(pools);
    SortingOrders(canonical);
    OrderIsUnique(SortedPools(canonical), canonical);
  }

  /** Sheets that list the same pools in another order, or in another case, have one canonical form. */
  lemma {:induction false} CanonicalIgnoresOrder(a: seq<Pool>, b: seq<Pool>)
    requires PoolsAccepted(a) && multiset(LowerPools(a)) == multiset(LowerPools(b))
    ensures Canonical(a) == Canonical(b)
  {
    SortingOrders(LowerPools(a));
    SortingOrders(LowerPools(b));
    DistinctIsOfMultiset(LowerPools(a), Canonical(b));
    OrderIsUnique(Canonical(a), Canonical(b));
  }

  class FlightSheet {
    var header: Header
    var pools: array<Pool>

    constructor (header: Header, pools: array<Pool>)
      ensures this.header == header && this.pools == pools
    {
      this.header, this.pools := header, pools;
    }

    /** Lower every host in place and check each pool, up to the first bad one. */
    method CheckPools() returns (ok: bool)
      modifies pools
      ensures ok <==> DistinctPriorities(old(pools[..])) &&
                      forall i :: 0 <= i < pools.Length ==> PoolAccepted(old(pools[i]))
      ensures ok ==> pools[..] == LowerPools(old(pools[..]))
    {
      ghost var given := pools[..];
      var priorities: set<nat> := {};
      var i := 0;
      while i < pools.Length
        invariant 0 <= i <= pools.Length
        invariant forall k :: 0 <= k < i ==> pools[k] == LowerPool(given[k])
        invariant forall k :: i <= k < pools.Length ==> pools[k] == given[k]
        invariant forall k :: 0 <= k < i ==> PoolAccepted(given[k])
        invariant DistinctPriorities(given[..i])
        invariant priorities == set k | 0 <= k < i :: given[k].priority
      {
        pools[i] := LowerPool(pools[i]);
        if !ValidHost(pools[i].host) || pools[i].port == 0 || pools[i].priority in priorities {
          assert given[i].priority in priorities ==> !DistinctPriorities(given[..i + 1]);
          return false;
        }
        priorities := priorities + {pools[i].priority};
        i := i + 1;
      }
      assert given[..i] == given;
      return true;
    }

    method SortPools()
      modifies pools
      ensures pools[..] == SortedPools(old(pools[..]))
    {
      var sorted := SortedPools(pools[..]);
      SortingOrders(pools[..]);
      SameLength(sorted, pools[..]);
      forall i | 0 <= i < pools.Length {
        pools[i] := sorted[i];
      }
    }

    /** Accepts exactly the good sheets and leaves their pools in canonical form. */
    method Validate() returns (error: Option<SheetError>)
      modifies pools
      ensures error.None? <==> HeaderAccepted(header) && PoolsAccepted(old(pools[..]))
      ensures error.None? ==> pools[..] == Canonical(old(pools[..]))
    {
      var h := header;
      if h.schema != "rigos.flight-sheet/v1" || !ValidSlug(h.name, 64) || h.backend != "xmrig" ||
         |h.coin| == 0 || |h.coin| > 16 || |h.algorithm| == 0 || |h.algorithm| > 64 {
        return Some(BadMetadata);
      }
      if !ValidSlug(h.identityRef, 64) || (h.workerTemplate != "{node_name}" && h.workerTemplate != "{node_name}.rig") {
        return Some(BadReference);
      }
      if pools.Length == 0 || pools.Length > 16 {
        return Some(BadPoolCount);
      }
      var ok := CheckPools();
      if !ok {
        return Some(BadPool);
      }
      SortPools();
      if !(match h.threads case Auto(word) => word == "auto" case Count(number) => 1 <= number <= 1024) {
        return Some(BadThreads);
      }
      if !(1 <= h.maxThreadsHint <= 100) {
        return Some(BadHint);
      }
      return None;
    }
  }
}
