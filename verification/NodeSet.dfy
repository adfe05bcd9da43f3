/** The node set and node status table of libs/libkerrighed/libhotplug.c: a vector of
    `kerrighed_max_nodes` chars for a set, and one for a snapshot of node states. */
module NodeSet {

  /** enum krg_status */
  const INVALID: int := 0
  const POSSIBLE: int := 1
  const PRESENT: int := 2
  const ONLINE: int := 3

  /** `x` is the least element of `s` above `node`, or -1 if there is none. */
  ghost predicate IsNext(s: set<int>, node: int, x: int) {
    if x == -1 then forall y :: y in s ==> y <= node
    else x in s && node < x && forall y :: y in s && node < y ==> x <= y
  }

  class Vector {
    var subclusterid: int
    const v: array<int>

    /** The ids in the set. */
    ghost function Members(): set<int>
      reads v
    {
      set i | 0 <= i < v.Length && v[i] != 0
    }

    /** Only 0 and 1 are ever stored. */
    ghost predicate Valid()
      reads v
    {
      forall i :: 0 <= i < v.Length ==> v[i] == 0 || v[i] == 1
    }

    method Clear()
      modifies this, v
      ensures Valid() && Members() == {} && subclusterid == 0
    {
      subclusterid := 0;
      for bcl := 0 to v.Length
        invariant subclusterid == 0
        invariant forall i :: 0 <= i < bcl ==> v[i] == 0
      {
        v[bcl] := 0;
      }
    }

    /** krg_node_set_create */
    constructor (max: nat)
      ensures Valid() && Members() == {} && v.Length == max && subclusterid == 0 && fresh(v)
    {
      v := new int[max];
      new;
      Clear();
    }

    method Add(n: int) returns (r: int)
      requires Valid()
      modifies v
      ensures Valid()
      ensures r == if 0 <= n < v.Length then 0 else -1
      ensures Members() == if 0 <= n < v.Length then old(Members()) + {n} else old(Members())
    {
      if n >= 0 && n < v.Length {
        v[n] := 1;
        return 0;
      }
      return -1;
    }

    method Remove(n: int) returns (r: int)
      requires Valid()
      modifies v
      ensures Valid()
      ensures r == if 0 <= n < v.Length then 0 else -1
      ensures Members() == old(Members()) - {n}
    {
      if n >= 0 && n < v.Length {
        v[n] := 0;
        return 0;
      }
      return -1;
    }

    method Contains(n: int) returns (r: int)
      requires Valid()
      ensures r == if n in Members() then 1 else 0
    {
      if n >= 0 && n < v.Length {
        return v[n];
      }
      return 0;
    }

    method Weight() returns (r: int)
      ensures r == |Members()|
    {
      r := 0;
      ghost var seen: set<int> := {};
      for bcl := 0 to v.Length
        invariant seen == set i | 0 <= i < bcl && v[i] != 0
        invariant r == |seen|
      {
        if v[bcl] != 0 {
          r := r + 1;
          seen := seen + {bcl};
        }
      }
      assert seen == Members();
    }

    /** krg_node_set_next. An id below -1 would make the C code read before the vector. */
    method Next(node: int) returns (r: int)
      requires node >= -1
      ensures IsNext(Members(), node, r)
      ensures r != -1 ==> node < r < v.Length
    {
      var bcl := node + 1;
      while bcl < v.Length
        invariant node < bcl
        invariant forall i :: node < i < bcl && i < v.Length ==> v[i] == 0
      {
        if v[bcl] != 0 {
          return bcl;
        }
        bcl := bcl + 1;
      }
      return -1;
    }
  }

  // ---------------------------------------------------------------- status snapshots

  /** The nodes that a snapshot shows in state `s`. */
  ghost function InState(nodes: seq<int>, s: int): set<int> {
    set i | 0 <= i < |nodes| && nodes[i] == s
  }

  /** krg_nodes_num */
  method Num(nodes: seq<int>, s: int) returns (r: int)
    ensures r == |InState(nodes, s)|
  {
    r := 0;
    ghost var seen: set<int> := {};
    for bcl := 0 to |nodes|
      invariant seen == set i | 0 <= i < bcl && nodes[i] == s
      invariant r == |seen|
    {
      if nodes[bcl] == s {
        r := r + 1;
        seen := seen + {bcl};
      }
    }
    assert seen == InState(nodes, s);
  }

  /** krg_nodes_is */
  method Is(nodes: seq<int>, n: int, s: int) returns (r: int)
    ensures r == -1 <==> !(0 <= n < |nodes|)
    ensures r == 1 <==> n in InState(nodes, s)
    ensures -1 <= r <= 1
  {
    if n >= 0 && n < |nodes| {
      r := if nodes[n] == s then 1 else 0;
    } else {
      r := -1;
    }
  }

  /** krg_nodes_next */
  method NextIn(nodes: seq<int>, node: int, s: int) returns (r: int)
    requires node >= -1
    ensures IsNext(InState(nodes, s), node, r)
    ensures r != -1 ==> node < r < |nodes|
  {
    var bcl := node + 1;
    while bcl < |nodes|
      invariant node < bcl
      invariant forall i :: node < i < bcl && i < |nodes| ==> nodes[i] != s
    {
      if nodes[bcl] == s {
        return bcl;
      }
      bcl := bcl + 1;
    }
    return -1;
  }

  /** krg_nodes_get */
  method Get(nodes: seq<int>, s: int) returns (r: Vector)
    ensures fresh(r) && fresh(r.v) && r.Valid() && r.v.Length == |nodes|
    ensures r.Members() == InState(nodes, s)
  {
    r := new Vector(|nodes|);
    for bcl := 0 to |nodes|
      invariant r.Valid() && r.Members() == set i | 0 <= i < bcl && nodes[i] == s
    {
      if nodes[bcl] == s {
        var _ := r.Add(bcl);
      }
    }
  }

  // ---------------------------------------------------------------- the first few of a set

  /** `t` holds the `k` smallest elements of `s`. */
  ghost predicate IsFirst(t: set<int>, s: set<int>, k: int) {
    t <= s && |t| == k && forall x, y :: x in t && y in s - t ==> x < y
  }

  lemma FirstComesFirst(t: set<int>, s: set<int>, k: int, x: int, y: int)
    requires IsFirst(t, s, k) && x in t && y in s && y !in t
    ensures x < y
  {
    assert y in s - t;
  }

  /** A set has at most one set of `k` smallest elements. */
  lemma FirstIsUnique(t: set<int>, u: set<int>, s: set<int>, k: int)
    requires IsFirst(t, s, k) && IsFirst(u, s, k)
    ensures t == u
  {
    assert t == (t - u) + (t * u);
    assert u == (u - t) + (t * u);
    if exists x, y :: x in t - u && y in u - t {
      var x, y :| x in t - u && y in u - t;
      FirstComesFirst(t, s, k, x, y);
      FirstComesFirst(u, s, k, y, x);
    } else {
      assert t - u == {} || u - t == {};
    }
  }

  lemma SplitSize(t: set<int>, u: set<int>)
    requires t <= u
    ensures |u - t| == |u| - |t|
  {
    assert u == t + (u - t);
  }
}
