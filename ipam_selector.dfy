/** IP-pool selection of the load-balancer IPAM (`matcher.Matches`, `isMatch` and
    `Selector.Select` in vendor/github.com/harvester/harvester-load-balancer/pkg/ipam/selector.go). */
module IpamSelection {
  import opened Wrappers

  /** The wildcard: on either side it matches any value. */
  const All := "*"

  datatype Tuple = Tuple(project: string, namespace: string, guestCluster: string)

  datatype Selector = Selector(network: string, scope: seq<Tuple>, priority: int)

  datatype IPPool = IPPool(name: string, selector: Selector)

  /** What a load balancer asks of a pool. */
  datatype Requirement = Requirement(network: string, project: string, namespace: string, cluster: string)

  /** The zero pool `Select` hands back when no pool qualifies. */
  const EmptyPool := IPPool("", Selector("", [], 0))

  predicate FieldMatches(offered: string, wanted: string)
  {
    offered == All || wanted == All || offered == wanted
  }

  predicate IsMatch(t: Tuple, r: Requirement)
  {
    FieldMatches(t.project, r.project) && FieldMatches(t.namespace, r.namespace)
      && FieldMatches(t.guestCluster, r.cluster)
  }

  /** A scope tuple of wildcards admits every requirement, and a requirement of
      wildcards is admitted by every tuple. */
  lemma WildcardsMatchEverything(t: Tuple, r: Requirement)
    ensures t.project == All && t.namespace == All && t.guestCluster == All ==> IsMatch(t, r)
    ensures r.project == All && r.namespace == All && r.cluster == All ==> IsMatch(t, r)
  {
  }

  /** Without wildcards on either side, a tuple matches exactly when all three fields are equal. */
  lemma MatchWithoutWildcards(t: Tuple, r: Requirement)
    requires t.project != All && t.namespace != All && t.guestCluster != All
    requires r.project != All && r.namespace != All && r.cluster != All
    ensures IsMatch(t, r) <==> t.project == r.project && t.namespace == r.namespace && t.guestCluster == r.cluster
  {
  }

  /** The scope loop of `Matches`: true at the first tuple that matches. */
  function AnyTupleMatches(scope: seq<Tuple>, r: Requirement): bool
  {
    if |scope| == 0 then false
    else if IsMatch(scope[0], r) then true
    else AnyTupleMatches(scope[1..], r)
  }

  /** The scope loop finds a match exactly when some tuple matches. */
  lemma {:induction false} AnyTupleMatchesIff(scope: seq<Tuple>, r: Requirement)
    ensures AnyTupleMatches(scope, r) <==> exists i :: 0 <= i < |scope| && IsMatch(scope[i], r)
    decreases |scope|
  {
    if |scope| > 0 && !IsMatch(scope[0], r) {
      AnyTupleMatchesIff(scope[1..], r);
      assert forall i :: 1 <= i < |scope| ==> scope[1..][i - 1] == scope[i];
    }
  }

  /** A selector matches when its network is the requirement's and some scope
      tuple matches; an empty scope never matches. */
  function Matches(sel: Selector, r: Requirement): (b: bool)
    ensures sel.network != r.network ==> !b
    ensures |sel.scope| == 0 ==> !b
  {
    if sel.network != r.network then false
    else AnyTupleMatches(sel.scope, r)
  }

  /** A selector matches exactly when its network is the requirement's and some
      scope tuple matches. */
  lemma MatchesIff(sel: Selector, r: Requirement)
    ensures Matches(sel, r) <==> sel.network == r.network && exists i :: 0 <= i < |sel.scope| && IsMatch(sel.scope[i], r)
  {
    AnyTupleMatchesIff(sel.scope, r);
  }

  predicate Eligible(pool: IPPool, r: Requirement)
  {
    Matches(pool.selector, r) && pool.selector.priority > 0
  }

  function PriorityOf(pools: seq<IPPool>, chosen: Option<nat>): int
  {
    if chosen.Some? && chosen.value < |pools| then pools[chosen.value].selector.priority else 0
  }

  /** The index `Select`'s loop settles on, computed over the pools in order. */
  function Chosen(pools: seq<IPPool>, r: Requirement): (c: Option<nat>)
    ensures c.Some? ==> c.value < |pools|
  {
    if |pools| == 0 then None
    else
      var init := pools[..|pools| - 1];
      var prev := Chosen(init, r);
      var pool := pools[|pools| - 1];
      if Matches(pool.selector, r) && pool.selector.priority > PriorityOf(init, prev) then Some(|pools| - 1)
      else prev
  }

  /** None is chosen exactly when no pool matches with a positive priority;
      otherwise the chosen pool matches with a positive priority that is at
      least every matching pool's and strictly above every matching pool before it. */
  lemma {:induction false} ChosenIsBest(pools: seq<IPPool>, r: Requirement)
    ensures var c := Chosen(pools, r);
            c.None? <==> forall k :: 0 <= k < |pools| ==> !Eligible(pools[k], r)
    ensures var c := Chosen(pools, r);
            c.Some? ==>
              && Eligible(pools[c.value], r)
              && (forall k :: 0 <= k < |pools| && Matches(pools[k].selector, r) ==>
                    pools[k].selector.priority <= pools[c.value].selector.priority)
              && (forall k :: 0 <= k < c.value && Matches(pools[k].selector, r) ==>
                    pools[k].selector.priority < pools[c.value].selector.priority)
    decreases |pools|
  {
    if |pools| > 0 {
      var n := |pools| - 1;
      var init := pools[..n];
      assert forall k :: 0 <= k < |init| ==> init[k] == pools[k];
      ChosenIsBest(init, r);
      var prev := Chosen(init, r);
      var best := PriorityOf(init, prev);
      assert prev.None? ==> best == 0;
      assert prev.Some? ==> best == pools[prev.value].selector.priority > 0;
      // Every matching pool before the last has a priority of at most `best`.
      assert forall k :: 0 <= k < n && Matches(pools[k].selector, r) ==> pools[k].selector.priority <= best;
      var last := pools[n];
      if Matches(last.selector, r) && last.selector.priority > best {
        assert Chosen(pools, r) == Some(n);
        assert Eligible(last, r);
      } else {
        assert Chosen(pools, r) == prev;
        assert Eligible(last, r) ==> prev.Some?;
      }
    }
  }

  /** The pool `Select` returns for a listed sequence of pools. */
  function SelectedPool(pools: seq<IPPool>, r: Requirement): IPPool
  {
    match Chosen(pools, r)
    case None => EmptyPool
    case Some(k) => pools[k]
  }

  /** `Select`: a failed listing is returned unchanged; otherwise the matching
      pool of strictly greatest priority, the earliest among equals, or the
      empty pool when nothing qualifies. */
  method Select(pools: Result<seq<IPPool>, string>, r: Requirement) returns (res: Result<IPPool, string>)
    ensures pools.Err? ==> res == Err(pools.error)
    ensures pools.Ok? ==> res == Ok(SelectedPool(pools.value, r))
  {
    if pools.Err? {
      return Err(pools.error);
    }
    var list := pools.value;
    var ipPool := EmptyPool;
    var priority := 0;
    for i := 0 to |list|
      invariant ipPool == SelectedPool(list[..i], r)
      invariant priority == PriorityOf(list[..i], Chosen(list[..i], r))
    {
      assert list[..i + 1][..i] == list[..i];
      var pool := list[i];
      if Matches(pool.selector, r) && pool.selector.priority > priority {
        ipPool := pool;
        priority := pool.selector.priority;
      }
    }
    assert list[..|list|] == list;
    return Ok(ipPool);
  }

  /** The selected pool is the empty pool's name exactly when no pool is
      eligible, provided every listed pool is named. */
  lemma SelectedEmptyIffNoneEligible(pools: seq<IPPool>, r: Requirement)
    requires forall k :: 0 <= k < |pools| ==> pools[k].name != ""
    ensures SelectedPool(pools, r).name == "" <==> forall k :: 0 <= k < |pools| ==> !Eligible(pools[k], r)
  {
    ChosenIsBest(pools, r);
  }

  /** Ties go to the earlier pool: a later pool of equal priority never displaces it. */
  lemma TiesGoToEarliest(pools: seq<IPPool>, r: Requirement, i: nat, j: nat)
    requires i < j < |pools|
    requires Eligible(pools[i], r) && Eligible(pools[j], r)
    requires pools[i].selector.priority == pools[j].selector.priority
    ensures Chosen(pools, r) != Some(j)
  {
    ChosenIsBest(pools, r);
  }

  /** Appending pools that are not eligible leaves the choice unchanged. */
  lemma {:induction false} IneligibleSuffixIgnored(pools: seq<IPPool>, extra: seq<IPPool>, r: Requirement)
    requires forall k :: 0 <= k < |extra| ==> !Eligible(extra[k], r)
    ensures Chosen(pools + extra, r) == Chosen(pools, r)
    decreases |extra|
  {
    if |extra| == 0 {
      assert pools + extra == pools;
    } else {
      var init := extra[..|extra| - 1];
      assert (pools + extra)[..|pools + extra| - 1] == pools + init;
      IneligibleSuffixIgnored(pools, init, r);
      ChosenIsBest(pools, r);
      var c := Chosen(pools, r);
      if c.Some? {
        assert (pools + init)[c.value] == pools[c.value];
        assert PriorityOf(pools + init, c) == PriorityOf(pools, c);
      }
    }
  }
}
