/** Which nodes `krgadm nodes add` and `krgadm nodes del` hand to the kernel
    (tools/krgadm.c). The kernel's status replies and its answer to the final request are
    parameters; the request itself is the mask that is returned. */
module NodeSelection {
  import opened NodeSet
  import NodeMask

  datatype Mode = All | Count | Total | Listed

  /** krg_nodes_status: NULL, or one state per node. */
  datatype Reply = NoStatus | Status(nodes: seq<int>)

  /** How a wait ends, as far as the given replies go. */
  datatype Wait = Failed | Joined | StillWaiting

  // ---------------------------------------------------------------- removal

  /** The elements from `node` on; none for -1. */
  ghost function From(all: set<int>, node: int): set<int> {
    set x | x in all && node != -1 && node <= x
  }

  ghost function Under(all: set<int>, lim: int): set<int> {
    set x | x in all && x < lim
  }

  /** What the delete-while-iterating loop has achieved when all ids below `lim` have been
      visited: `kept` of them stay. */
  ghost predicate Pruned(kept: set<int>, cand: set<int>, bcl: int, n: int, lim: int) {
    && |kept| == bcl && (bcl <= n || bcl == 0)
    && kept <= Under(cand, lim)
    && (if bcl < n then kept == Under(cand, lim)
        else forall x, y :: x in kept && y in cand - kept ==> x < y)
  }

  ghost function Kept(kept: set<int>, bcl: int, n: int, self: int, node: int): set<int> {
    if bcl < n && self != node then kept + {node} else kept
  }

  /** One visit. `lim` is where the next id can be found at the earliest. */
  lemma Visit(kept: set<int>, all: set<int>, self: int, bcl: int, n: int, node: int, lim: int)
    requires Pruned(kept, all - {self}, bcl, n, node)
    requires node in all && node < lim && forall x :: x in all && node < x ==> lim <= x
    ensures Pruned(Kept(kept, bcl, n, self, node), all - {self},
                   if bcl < n && self != node then bcl + 1 else bcl, n, lim)
  {
    var cand := all - {self};
    assert node !in kept;
    assert Under(cand, lim) == Under(cand, node) + (if self != node then {node} else {});
  }

  /** Dropping or keeping `node` moves the line between visited and unvisited past it. */
  lemma PassOver(kept: set<int>, all: set<int>, node: int)
    requires kept <= Under(all, node) && node in all && node >= 0
    ensures (kept + From(all, node)) - {node} == kept + From(all, node + 1)
    ensures kept + From(all, node) == kept + {node} + From(all, node + 1)
    ensures kept <= Under(all, node + 1) && kept + {node} <= Under(all, node + 1)
  {
  }

  lemma NextIsAhead(all: set<int>, members: set<int>, kept: set<int>, node: int, next: int)
    requires 0 <= node && kept <= Under(all, node + 1) && members == kept + From(all, node + 1)
    requires IsNext(members, node, next)
    ensures members == kept + From(all, next)
    ensures next != -1 ==> next in all && next > node
    ensures forall x :: x in all && node < x ==> next != -1 && next <= x
  {
    forall x | x in all && node < x ensures next != -1 && next <= x {
      assert x in members;
    }
  }

  /** The state of the loop of nodes_remove, seen from node `node`. */
  ghost predicate AtNode(members: set<int>, kept: set<int>, all: set<int>, self: int,
                         bcl: int, n: int, node: int, max: int)
  {
    && -1 <= node < max && (node != -1 ==> node in all)
    && members == kept + From(all, node)
    && Pruned(kept, all - {self}, bcl, n, if node == -1 then max else node)
  }

  lemma WhenDone(members: set<int>, kept: set<int>, all: set<int>, self: int, bcl: int, n: int, max: int)
    requires AtNode(members, kept, all, self, bcl, n, -1, max) && all == Under(all, max)
    ensures var cand := all - {self};
            if n > |cand| then members == cand else IsFirst(members, cand, if n < 0 then 0 else n)
  {
    assert From(all, -1) == {};
    if bcl >= n {
      SplitSize(members, all - {self});
    }
  }

  /** The body of that loop. */
  method VisitNode(nodes: Vector, bcl: int, n: int, self: int, node: int, ghost all: set<int>, ghost kept: set<int>)
    returns (count: int, next: int)
    requires nodes.Valid() && node != -1
    requires AtNode(nodes.Members(), kept, all, self, bcl, n, node, nodes.v.Length)
    requires all == Under(all, nodes.v.Length)
    modifies nodes.v
    ensures nodes.Valid() && (next == -1 || next > node)
    ensures AtNode(nodes.Members(), Kept(kept, bcl, n, self, node), all, self, count, n, next, nodes.v.Length)
  {
    count := bcl;
    PassOver(kept, all, node);
    if count < n {
      if self == node {
        var _ := nodes.Remove(node);
      } else {
        count := count + 1;
      }
    } else {
      var _ := nodes.Remove(node);
    }
    next := nodes.Next(node);
    NextIsAhead(all, nodes.Members(), Kept(kept, bcl, n, self, node), node, next);
    Visit(kept, all, self, bcl, n, node, if next == -1 then nodes.v.Length else next);
  }

  lemma FirstStep(all: set<int>, node: int, max: int)
    requires all == Under(all, max) && IsNext(all, -1, node)
    requires forall x :: x in all ==> 0 <= x
    ensures all == {} + From(all, node)
    ensures forall x :: x in all ==> node != -1 && node <= x
  {
  }

  /** The loop of nodes_remove over the online set: keep the first `n` that are not the
      current node. */
  method KeepFirst(nodes: Vector, n: int, self: int)
    requires nodes.Valid()
    modifies nodes.v
    ensures nodes.Valid()
    ensures var cand := old(nodes.Members()) - {self};
            if n > |cand| then nodes.Members() == cand
            else IsFirst(nodes.Members(), cand, if n < 0 then 0 else n)
  {
    ghost var all := nodes.Members();
    ghost var kept: set<int> := {};
    var bcl := 0;
    var node := nodes.Next(-1);
    FirstStep(all, node, nodes.v.Length);
    while node != -1
      invariant nodes.Valid()
      invariant AtNode(nodes.Members(), kept, all, self, bcl, n, node, nodes.v.Length)
      decreases if node == -1 then 0 else nodes.v.Length - node
    {
      ghost var keep := Kept(kept, bcl, n, self, node);
      bcl, node := VisitNode(nodes, bcl, n, self, node, all, kept);
      kept := keep;
    }
    WhenDone(nodes.Members(), kept, all, self, bcl, n, nodes.v.Length);
  }

  // ---------------------------------------------------------------- waiting for nodes

  /** While fewer than `i` elements have been taken, there is a next one. */
  lemma ThereIsANext(s: set<int>, cur: int, next: int, count: int)
    requires IsNext(s, cur, next) && |Under(s, cur + 1)| == count < |s|
    ensures next != -1
    ensures Under(s, next + 1) == Under(s, cur + 1) + {next} && |Under(s, next + 1)| == count + 1
  {
    assert next == -1 ==> Under(s, cur + 1) == s;
    assert next != -1 ==> Under(s, next + 1) == Under(s, cur + 1) + {next};
    assert next != -1 ==> next !in Under(s, cur + 1);
  }

  /** The collecting loop of wait_for_nodes_count: it never runs out of present nodes, and
      takes the `i` smallest. */
  method CollectFirst(status: seq<int>, i: int, nodes: Vector) returns (ghost taken: set<int>)
    requires nodes.Valid() && nodes.v.Length == |status| && 1 <= i <= |InState(status, PRESENT)|
    modifies nodes.v
    ensures nodes.Valid() && nodes.Members() == old(nodes.Members()) + taken
    ensures IsFirst(taken, InState(status, PRESENT), i)
  {
    ghost var present := InState(status, PRESENT);
    var cur, count := -1, 0;
    assert Under(present, 0) == {};
    while count < i
      invariant -1 <= cur < |status| && 0 <= count <= i && |Under(present, cur + 1)| == count
      invariant nodes.Valid() && nodes.Members() == old(nodes.Members()) + Under(present, cur + 1)
    {
      ghost var before := cur;
      cur := NextIn(status, cur, PRESENT);
      ThereIsANext(present, before, cur, count);
      var _ := nodes.Add(cur);
      count := count + 1;
    }
    taken := Under(present, cur + 1);
  }

  /** A status reply that shows fewer than `i` present nodes. */
  ghost predicate Short(reply: Reply, i: int) {
    reply.Status? && |InState(reply.nodes, PRESENT)| < i
  }

  /** How a wait for `i` present nodes must end: at the first reply that fails or shows that
      many. */
  ghost predicate WaitedForCount(w: Wait, at: nat, i: int, polls: seq<Reply>, max: nat) {
    if i <= 0 then w == Joined
    else if i > max then w == Failed
    else
      && at <= |polls| && (forall k :: 0 <= k < at ==> Short(polls[k], i))
      && (w == StillWaiting <==> at == |polls|)
      && (w == Failed <==> at < |polls| && polls[at].NoStatus?)
      && (w == Joined <==> at < |polls| && polls[at].Status? && !Short(polls[at], i))
  }

  /** wait_for_nodes_count. It polls until a reply shows `i` present nodes and then takes
      the `i` smallest of exactly that reply. */
  method WaitForNodesCount(i: int, nodes: Vector, polls: seq<Reply>)
    returns (w: Wait, ghost at: nat, ghost taken: set<int>)
    requires nodes.Valid()
    requires forall k :: 0 <= k < |polls| && polls[k].Status? ==> |polls[k].nodes| == nodes.v.Length
    modifies nodes.v
    ensures nodes.Valid() && nodes.Members() == old(nodes.Members()) + taken
    ensures WaitedForCount(w, at, i, polls, nodes.v.Length)
    ensures if w == Joined && i > 0 then IsFirst(taken, InState(polls[at].nodes, PRESENT), i) else taken == {}
    ensures w == Joined && i > 0 ==> polls[at].Status? && |InState(polls[at].nodes, PRESENT)| >= i
    ensures (i <= 0 ==> w == Joined) && (i > nodes.v.Length ==> w == Failed)
    ensures 0 < i <= nodes.v.Length ==>
              && (w == StillWaiting <==> at == |polls|)
              && (w == Failed <==> at < |polls| && polls[at].NoStatus?)
    ensures 0 < i <= nodes.v.Length ==>
              forall k :: 0 <= k < at && k < |polls| ==>
                polls[k].Status? && |InState(polls[k].nodes, PRESENT)| < i
  {
    at, taken := 0, {};
    if i <= 0 {
      return Joined, at, taken;
    }
    if i < 1 || i > nodes.v.Length {
      return Failed, at, taken;
    }
    for k := 0 to |polls|
      invariant at == k && taken == {} && nodes.Valid() && nodes.Members() == old(nodes.Members())
      invariant forall j :: 0 <= j < k ==> Short(polls[j], i)
    {
      if polls[k].NoStatus? {
        return Failed, at, taken;
      }
      var count := Num(polls[k].nodes, PRESENT);
      if count >= i {
        taken := CollectFirst(polls[k].nodes, i, nodes);
        return Joined, at, taken;
      }
      at := at + 1;
    }
    w := StillWaiting;
  }

  /** A status reply that shows every node of `s` present. */
  ghost predicate Shows(reply: Reply, s: set<int>) {
    reply.Status? && s <= InState(reply.nodes, PRESENT)
  }

  /** The scan of wait_for_nodes over one reply. */
  method AllPresent(nodes: Vector, status: seq<int>) returns (done: bool)
    requires nodes.Valid() && |status| == nodes.v.Length
    ensures done <==> nodes.Members() <= InState(status, PRESENT)
  {
    done := true;
    for bcl := 0 to nodes.v.Length
      invariant done <==> Under(nodes.Members(), bcl) <= InState(status, PRESENT)
    {
      var c := nodes.Contains(bcl);
      if c != 0 {
        var p := Is(status, bcl, PRESENT);
        if p == 0 {
          done := false;
        }
      }
      assert Under(nodes.Members(), bcl + 1) ==
             Under(nodes.Members(), bcl) + if c != 0 then {bcl as int} else {};
    }
    assert Under(nodes.Members(), nodes.v.Length) == nodes.Members();
  }

  /** How a wait for the nodes of `s` must end. */
  ghost predicate WaitedForSet(w: Wait, at: nat, s: set<int>, polls: seq<Reply>) {
    if s == {} then w == Joined
    else
      && at <= |polls|
      && (forall k :: 0 <= k < at ==> polls[k].Status? && !Shows(polls[k], s))
      && (w == StillWaiting <==> at == |polls|)
      && (w == Failed <==> at < |polls| && polls[at].NoStatus?)
      && (w == Joined <==> at < |polls| && Shows(polls[at], s))
  }

  /** wait_for_nodes: polls until a reply shows all nodes of the set. */
  method WaitForNodes(nodes: Vector, polls: seq<Reply>) returns (w: Wait, ghost at: nat)
    requires nodes.Valid()
    requires forall k :: 0 <= k < |polls| && polls[k].Status? ==> |polls[k].nodes| == nodes.v.Length
    ensures WaitedForSet(w, at, nodes.Members(), polls)
    ensures w == Joined && nodes.Members() != {} ==>
              at < |polls| && polls[at].Status? && nodes.Members() <= InState(polls[at].nodes, PRESENT)
    ensures forall k :: 0 <= k < at && k < |polls| && nodes.Members() != {} ==>
              polls[k].Status? && !(nodes.Members() <= InState(polls[k].nodes, PRESENT))
  {
    at := 0;
    var weight := nodes.Weight();
    if weight == 0 {
      return Joined, at;
    }
    for k := 0 to |polls|
      invariant at == k
      invariant forall j :: 0 <= j < k ==> polls[j].Status? && !Shows(polls[j], nodes.Members())
    {
      if polls[k].NoStatus? {
        return Failed, at;
      }
      var done := AllPresent(nodes, polls[k].nodes);
      if done {
        return Joined, at;
      }
      at := at + 1;
    }
    w := StillWaiting;
  }

  // ---------------------------------------------------------------- the two commands

  lemma UnderNext(all: set<int>, node: int, lim: int)
    requires node in all && node < lim && forall x :: x in all && node < x ==> lim <= x
    ensures Under(all, lim) == Under(all, node) + {node}
  {
  }

  /** The loops that drop from a typed list the nodes in state ONLINE (`keepOnline` false)
      or those not in it, and the current node (`keepOnline` true). */
  method Filter(nodes: Vector, status: seq<int>, keepOnline: bool, self: int)
    requires nodes.Valid() && |status| == nodes.v.Length
    modifies nodes.v
    ensures nodes.Valid()
    ensures nodes.Members() == if keepOnline then old(nodes.Members()) * InState(status, ONLINE) - {self}
                               else old(nodes.Members()) - InState(status, ONLINE)
  {
    ghost var all, max := nodes.Members(), nodes.v.Length;
    ghost var drop := if keepOnline then (all - InState(status, ONLINE)) + {self} else InState(status, ONLINE);
    var node := nodes.Next(-1);
    FirstStep(all, node, max);
    ghost var kept: set<int> := {};
    while node != -1
      invariant nodes.Valid() && -1 <= node < max
      invariant node != -1 ==> node in all
      invariant nodes.Members() == kept + From(all, node)
      invariant kept == Under(all, if node == -1 then max else node) - drop
      decreases if node == -1 then 0 else max - node
    {
      ghost var visited := node;
      PassOver(kept, all, node);
      var online := Is(status, node, ONLINE);
      if (keepOnline && (online == 0 || self == node)) || (!keepOnline && online == 1) {
        var _ := nodes.Remove(node);
      } else {
        kept := kept + {node};
      }
      node := nodes.Next(node);
      NextIsAhead(all, nodes.Members(), kept, visited, node);
      UnderNext(all, visited, if node == -1 then max else node);
    }
    assert Under(all, max) == all;
  }

  /** The end of both commands: a request only if there is something to ask for. */
  method Request(nodes: Vector, answer: int) returns (r: int, mask: NodeMask.Mask?)
    requires nodes.v.Length <= NodeMask.HARD_MAX_NODES
    ensures mask == null <==> nodes.Members() == {}
    ensures mask == null ==> r == 0
    ensures mask != null ==> r == answer && fresh(mask) && mask.Valid() && mask.Nodes() == nodes.Members()
  {
    var weight := nodes.Weight();
    if weight > 0 {
      mask := NodeMask.FromVector(nodes);
      r := answer;
    } else {
      mask, r := null, 0;
    }
  }

  /** The set of nodes nodes_remove asks to take out, when it asks at all. */
  ghost predicate Removes(chosen: set<int>, mode: Mode, n: int, listed: set<int>, online: set<int>, self: int) {
    match mode
    case All => chosen == online - {self}
    case Listed => chosen == listed * online - {self}
    case Count => n < |online| && IsFirst(chosen, online - {self}, if n < 0 then 0 else n)
    case Total => |online| - n < |online| &&
                  IsFirst(chosen, online - {self}, if |online| - n < 0 then 0 else |online| - n)
  }

  ghost predicate RefusesRemoval(mode: Mode, n: int, online: set<int>) {
    match mode
    case All => false
    case Listed => false
    case Count => n >= |online|
    case Total => |online| - n >= |online|
  }

  lemma CandidatesSuffice(online: set<int>, self: int, n: int)
    requires n < |online|
    ensures n <= |online - {self}|
  {
    SplitSize(online * {self}, online);
    assert online - {self} == online - online * {self};
    assert online * {self} == if self in online then {self} else {};
  }

  /** NODES_MODE_ALL of nodes_remove. */
  method AllOnlineBut(status: seq<int>, self: int) returns (nodes: Vector)
    ensures fresh(nodes) && fresh(nodes.v) && nodes.Valid() && nodes.v.Length == |status|
    ensures nodes.Members() == InState(status, ONLINE) - {self}
  {
    nodes := new Vector(|status|);
    ghost var online := InState(status, ONLINE);
    assert Under(online, 0) == {};
    for bcl := 0 to |status|
      invariant nodes.Valid() && nodes.Members() == Under(online, bcl) - {self}
    {
      var s := Is(status, bcl, ONLINE);
      if s == 1 && self != bcl {
        var _ := nodes.Add(bcl);
      }
      assert Under(online, bcl + 1) == Under(online, bcl) + if s == 1 then {bcl as int} else {};
    }
    assert Under(online, |status|) == online;
  }

  /** nodes_remove. `self` is get_node_id() and `answer` the kernel's answer to a request. */
  method NodesRemove(listed: Vector, n: int, mode: Mode, reply: Reply, self: int, answer: int)
    returns (r: int, mask: NodeMask.Mask?, ghost chosen: set<int>)
    requires listed.Valid() && listed.v.Length <= NodeMask.HARD_MAX_NODES
    requires reply.Status? ==> |reply.nodes| == listed.v.Length
    modifies listed.v
    ensures reply.NoStatus? ==> r == -1 && mask == null
    ensures reply.Status? && RefusesRemoval(mode, n, InState(reply.nodes, ONLINE)) ==> r == -1 && mask == null
    ensures reply.Status? && !RefusesRemoval(mode, n, InState(reply.nodes, ONLINE)) ==>
              && Removes(chosen, mode, n, old(listed.Members()), InState(reply.nodes, ONLINE), self)
              && (if chosen == {} then r == 0 && mask == null
                  else r == answer && mask != null && mask.Valid() && mask.Nodes() == chosen)
    ensures reply.Status? && mode == All ==> chosen == InState(reply.nodes, ONLINE) - {self}
    ensures reply.Status? && mode == Listed ==>
              chosen == old(listed.Members()) * InState(reply.nodes, ONLINE) - {self}
    ensures reply.Status? && (mode == Count || mode == Total) ==>
              var online := InState(reply.nodes, ONLINE);
              var m := if mode == Count then n else |online| - n;
              if m >= |online| then r == -1 && mask == null
              else IsFirst(chosen, online - {self}, if m < 0 then 0 else m)
  {
    chosen := {};
    if reply.NoStatus? {
      return -1, null, chosen;
    }
    var status := reply.nodes;
    ghost var online := InState(status, ONLINE);
    var nodes := listed;
    if mode == All {
      nodes := AllOnlineBut(status, self);
    } else if mode == Listed {
      Filter(nodes, status, true, self);
    } else {
      var m := n;
      if mode == Total {
        var total := Num(status, ONLINE);
        m := total - n;
      }
      nodes := Get(status, ONLINE);
      var weight := nodes.Weight();
      if m >= weight {
        return -1, null, chosen;
      }
      CandidatesSuffice(online, self, m);
      KeepFirst(nodes, m, self);
    }
    chosen := nodes.Members();
    r, mask := Request(nodes, answer);
  }

  /** Whatever the mode, only online nodes are taken out, and never the current one. */
  lemma RemovesOthersOnly(chosen: set<int>, mode: Mode, n: int, listed: set<int>, online: set<int>, self: int)
    requires Removes(chosen, mode, n, listed, online, self)
    ensures chosen <= online && self !in chosen
  {
  }

  /** `--total t` leaves exactly `t` nodes, and the current one among them. */
  lemma TotalLeavesExactly(chosen: set<int>, t: int, listed: set<int>, online: set<int>, self: int)
    requires 1 <= t <= |online| && Removes(chosen, Total, t, listed, online, self)
    ensures |online - chosen| == t
    ensures self in online ==> self in online - chosen
  {
    SplitSize(chosen, online);
  }

  /** What nodes_add waits for. */
  ghost predicate Waits(w: Wait, at: nat, mode: Mode, n: int, listed: set<int>,
                        status: seq<int>, polls: seq<Reply>, max: nat)
  {
    match mode
    case All => w == Joined
    case Listed => WaitedForSet(w, at, listed - InState(status, ONLINE), polls)
    case Count => WaitedForCount(w, at, n, polls, max)
    case Total => WaitedForCount(w, at, n - |InState(status, ONLINE)|, polls, max)
  }

  ghost predicate AddsFirst(chosen: set<int>, n: int, polls: seq<Reply>, at: nat) {
    if n <= 0 then chosen == {}
    else at < |polls| && polls[at].Status? && IsFirst(chosen, InState(polls[at].nodes, PRESENT), n)
  }

  /** The set of nodes nodes_add asks to bring in once it has stopped waiting at reply `at`. */
  ghost predicate Adds(chosen: set<int>, mode: Mode, n: int, listed: set<int>,
                       status: seq<int>, polls: seq<Reply>, at: nat)
  {
    match mode
    case All => chosen == InState(status, PRESENT)
    case Listed => chosen == listed - InState(status, ONLINE) &&
                   (chosen != {} ==> at < |polls| && Shows(polls[at], chosen))
    case Count => AddsFirst(chosen, n, polls, at)
    case Total => AddsFirst(chosen, n - |InState(status, ONLINE)|, polls, at)
  }

  /** nodes_add. `polls` are the status replies after the first one. */
  method NodesAdd(listed: Vector, n: int, mode: Mode, reply: Reply, polls: seq<Reply>, answer: int)
    returns (r: int, mask: NodeMask.Mask?, w: Wait, ghost at: nat, ghost chosen: set<int>)
    requires listed.Valid() && listed.v.Length <= NodeMask.HARD_MAX_NODES
    requires reply.Status? ==> |reply.nodes| == listed.v.Length
    requires forall k :: 0 <= k < |polls| && polls[k].Status? ==> |polls[k].nodes| == listed.v.Length
    modifies listed.v
    ensures reply.NoStatus? ==> w == Failed
    ensures reply.Status? ==> Waits(w, at, mode, n, old(listed.Members()), reply.nodes, polls, listed.v.Length)
    ensures w != Joined ==> mask == null
    ensures w == Failed ==> r == -1
    ensures w == Joined ==>
              && reply.Status?
              && Adds(chosen, mode, n, old(listed.Members()), reply.nodes, polls, at)
              && (if chosen == {} then r == 0 && mask == null
                  else r == answer && mask != null && mask.Valid() && mask.Nodes() == chosen)
    ensures w == Joined && mode == All ==> chosen == InState(reply.nodes, PRESENT)
    ensures w == Joined && mode == Listed ==> chosen == old(listed.Members()) - InState(reply.nodes, ONLINE)
    ensures w == Joined && (mode == Count || mode == Total) ==>
              var m := if mode == Count then n else n - |InState(reply.nodes, ONLINE)|;
              if m <= 0 then chosen == {}
              else at < |polls| && polls[at].Status? && IsFirst(chosen, InState(polls[at].nodes, PRESENT), m)
  {
    at, chosen := 0, {};
    if reply.NoStatus? {
      return -1, null, Failed, at, chosen;
    }
    var status := reply.nodes;
    var nodes := listed;
    w := Joined;
    if mode == All {
      nodes := Get(status, PRESENT);
    } else if mode == Listed {
      Filter(nodes, status, false, -1);
      w, at := WaitForNodes(nodes, polls);
    } else {
      var m := n;
      if mode == Total {
        var online := Num(status, ONLINE);
        m := n - online;
      }
      nodes := new Vector(listed.v.Length);
      ghost var taken;
      w, at, taken := WaitForNodesCount(m, nodes, polls);
    }
    if w != Joined {
      return -1, null, w, at, chosen;
    }
    chosen := nodes.Members();
    r, mask := Request(nodes, answer);
  }

  /** `--total t` makes the cluster exactly `t` nodes large, if the online nodes have not
      changed between the first reply and the one that was waited for. */
  lemma TotalReachesExactly(chosen: set<int>, t: int, listed: set<int>, status: seq<int>, polls: seq<Reply>, at: nat)
    requires Adds(chosen, Total, t, listed, status, polls, at) && t >= |InState(status, ONLINE)|
    requires t > |InState(status, ONLINE)| ==> InState(polls[at].nodes, ONLINE) == InState(status, ONLINE)
    ensures |InState(status, ONLINE)| + |chosen| == t
    ensures chosen !! InState(status, ONLINE)
    ensures |InState(status, ONLINE) + chosen| == t
  {
    var online := InState(status, ONLINE);
    if t > |online| {
      assert InState(polls[at].nodes, PRESENT) !! InState(polls[at].nodes, ONLINE);
    }
    assert |online + chosen| == |online| + |chosen|;
  }
}
