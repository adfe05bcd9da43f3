/** The intrusive list of memory regions excluded from checkpoints, in
    libs/libkrgcheckpoint/libkrgcheckpoint.c. */
module ExclusionLists {

  /** struct cr_mm_region_excluded. What `func` and `arg` point to is never looked at. */
  class Region {
    var pid: int
    var addr: nat
    var size: nat
    var next: Region?

    /** A block from malloc: `junk` is what its memory happens to hold where `next` will be. */
    constructor (addr: nat, size: nat, junk: Region?)
      ensures this.addr == addr && this.size == size && this.pid == 0 && this.next == junk
    {
      this.pid, this.addr, this.size, this.next := 0, addr, size, junk;
    }
  }

  /** What malloc returns. */
  datatype Memory = NoMemory | Block(junk: Region?)

  /** What a caller has asked to exclude. */
  datatype Extent = Extent(addr: nat, size: nat)

  predicate DifferentAddresses(extents: seq<Extent>) {
    forall i, j :: 0 <= i < j < |extents| ==> extents[i].addr != extents[j].addr
  }

  ghost predicate AllDifferent(nodes: seq<Region>) {
    forall i, j :: 0 <= i < j < |nodes| ==> nodes[i] != nodes[j]
  }

  lemma StillDifferent(nodes: seq<Region>, extents: seq<Extent>, k: nat)
    requires k < |nodes| == |extents| && AllDifferent(nodes) && DifferentAddresses(extents)
    ensures AllDifferent(nodes[..k] + nodes[k + 1..])
    ensures DifferentAddresses(extents[..k] + extents[k + 1..])
    ensures nodes[k] !in nodes[..k] + nodes[k + 1..]
  {
  }

  lemma TailDifferent(nodes: seq<Region>, extents: seq<Extent>)
    requires 0 < |nodes| == |extents| && AllDifferent(nodes) && DifferentAddresses(extents)
    ensures AllDifferent(nodes[1..]) && DifferentAddresses(extents[1..])
    ensures nodes[0] !in nodes[1..]
  {
  }

  ghost predicate InUse(extents: seq<Extent>, addr: nat) {
    exists i :: 0 <= i < |extents| && extents[i].addr == addr
  }

  /** Where the address is first found; the length if it is not there. */
  ghost function IndexOf(extents: seq<Extent>, addr: nat): (k: nat)
    ensures k <= |extents| && (k < |extents| ==> extents[k].addr == addr)
    ensures k < |extents| <==> InUse(extents, addr)
    ensures forall i :: 0 <= i < k ==> extents[i].addr != addr
  {
    if extents == [] then 0
    else if extents[0].addr == addr then 0
    else
      var k := IndexOf(extents[1..], addr);
      assert forall i :: 0 < i < |extents| ==> extents[i] == extents[1..][i - 1];
      k + 1
  }

  lemma IndexIs(extents: seq<Extent>, addr: nat, k: nat)
    requires k <= |extents| && (k < |extents| ==> extents[k].addr == addr)
    requires forall i :: 0 <= i < k ==> extents[i].addr != addr
    ensures IndexOf(extents, addr) == k
  {
  }

  /** The list after an exclusion is called off. */
  ghost function Dropped(extents: seq<Extent>, addr: nat): seq<Extent> {
    var k := IndexOf(extents, addr);
    if k == |extents| then extents else extents[..k] + extents[k + 1..]
  }

  class Regions {
    var first: Region?
    ghost var nodes: seq<Region>
    ghost var extents: seq<Extent>   // what the nodes say, in the order of the list
    ghost var freed: set<Region>

    /** The chain from `first` is `nodes` and ends in null. */
    ghost predicate Linked()
      reads this, nodes
    {
      && first == (if nodes == [] then null else nodes[0])
      && (forall i {:trigger nodes[i].next} :: 0 <= i < |nodes| - 1 ==> nodes[i].next == nodes[i + 1])
      && (nodes != [] ==> nodes[|nodes| - 1].next == null)
    }

    ghost predicate Described()
      reads this, nodes
    {
      |extents| == |nodes| &&
      forall i :: 0 <= i < |nodes| ==> nodes[i].addr == extents[i].addr && nodes[i].size == extents[i].size
    }

    /** Acyclic, no two regions at one address, and no region that has been freed. */
    ghost predicate Valid()
      reads this, nodes
    {
      && Linked() && Described()
      && AllDifferent(nodes) && DifferentAddresses(extents)
      && (forall i :: 0 <= i < |nodes| ==> nodes[i] !in freed)
    }

    constructor ()
      ensures Valid() && nodes == [] && freed == {}
    {
      first, nodes, extents, freed := null, [], [], {};
    }

    /** The search loop of cr_exclude_on: the last element, unless `addr` is in use. */
    method FindEnd(addr: nat) returns (busy: bool, element: Region)
      requires Valid() && nodes != []
      ensures busy <==> exists i :: 0 <= i < |nodes| && nodes[i].addr == addr
      ensures !busy ==> element == nodes[|nodes| - 1]
    {
      var next := first;
      element := first;
      ghost var k := 0;
      while next != null
        invariant 0 <= k <= |nodes|
        invariant next == if k < |nodes| then nodes[k] else null
        invariant element == nodes[if k == 0 then 0 else k - 1]
        invariant forall i :: 0 <= i < k ==> nodes[i].addr != addr
        decreases |nodes| - k
      {
        element := next;
        if element.addr == addr {
          return true, element;
        }
        next := element.next;
        k := k + 1;
      }
      busy := false;
    }

    /** The linking part of cr_exclude_on. */
    method Link(region: Region) returns (busy: bool)
      requires Valid() && region !in nodes && region !in freed
      modifies this`first, this`nodes, this`extents, nodes`next
      ensures busy <==> InUse(old(extents), region.addr)
      ensures busy ==> Valid() && nodes == old(nodes) && extents == old(extents)
      ensures !busy ==> nodes == old(nodes) + [region]
      ensures !busy ==> extents == old(extents) + [Extent(region.addr, region.size)]
      ensures Described() && (!busy ==> (Valid() <==> region.next == null))
      ensures region.next == old(region.next)
    {
      if first == null {
        first := region;
        busy := false;
      } else {
        var element;
        busy, element := FindEnd(region.addr);
        if busy {
          return;
        }
        element.next := region;
      }
      nodes, extents := nodes + [region], extents + [Extent(region.addr, region.size)];
    }

    /** cr_exclude_on. `memory` says what malloc leaves in the field `next`, which is never
        set, and `init` is the result of cr_mm_exclusion_init. The list stays sound exactly
        when that field happens to be null and the initialisation succeeds: otherwise the
        chain does not end, or ends in a region that has been freed. */
    method ExcludeOn(data: nat, datasize: nat, memory: Memory, init: int) returns (r: int, linked: bool)
      requires Valid()
      modifies this, nodes
      ensures linked <==> memory.Block? && !InUse(old(extents), data)
      ensures !linked ==>
                r == -1 && Valid() && nodes == old(nodes) && extents == old(extents)
      ensures memory.NoMemory? ==> freed == old(freed)
      ensures linked ==>
                && r == init
                && |nodes| == |old(nodes)| + 1 && nodes[..|old(nodes)|] == old(nodes) && fresh(nodes[|old(nodes)|])
                && extents == old(extents) + [Extent(data, datasize)]
                && Described() && (Valid() <==> memory.junk == null && init == 0)
    {
      if memory.NoMemory? {
        return -1, false;
      }
      var region := new Region(data, datasize, memory.junk);
      var busy := Link(region);
      if busy {
        freed := freed + {region};
        return -1, false;
      }
      r, linked := init, true;
      if r != 0 {
        assert nodes[|nodes| - 1] == region;
        freed := freed + {region};
      }
    }

    /** The search loop of cr_exclude_off: the region at that address and the one before. */
    method Find(data: nat) returns (region: Region?, prev: Region?, ghost k: nat)
      requires Valid()
      ensures k == IndexOf(extents, data)
      ensures region == if k < |nodes| then nodes[k] else null
      ensures prev == if k == 0 then null else nodes[k - 1]
    {
      region, prev, k := first, null, 0;
      while region != null && region.addr != data
        invariant 0 <= k <= |nodes|
        invariant region == if k < |nodes| then nodes[k] else null
        invariant prev == if k == 0 then null else nodes[k - 1]
        invariant forall i :: 0 <= i < k ==> nodes[i].addr != data
        decreases |nodes| - k
      {
        prev := region;
        region := region.next;
        k := k + 1;
      }
      IndexIs(extents, data, k);
    }

    /** Taking out the head of the list. */
    method UnlinkFirst(region: Region)
      requires Valid() && nodes != [] && region == nodes[0]
      modifies this
      ensures Valid() && nodes == old(nodes)[1..] && extents == old(extents)[1..]
      ensures freed == old(freed) + {region}
    {
      TailDifferent(nodes, extents);
      ghost var rest, others := nodes[1..], extents[1..];
      assert forall i :: 0 <= i < |rest| ==> rest[i] == nodes[i + 1] && others[i] == extents[i + 1];
      first := region.next;
      nodes, extents, freed := rest, others, freed + {region};
    }

    /** Taking out the region behind `prev`. */
    method UnlinkAfter(prev: Region, region: Region, ghost k: nat)
      requires Valid() && 0 < k < |nodes| && region == nodes[k] && prev == nodes[k - 1]
      modifies this`nodes, this`extents, this`freed, prev`next
      ensures Valid()
      ensures nodes == old(nodes)[..k] + old(nodes)[k + 1..]
      ensures extents == old(extents)[..k] + old(extents)[k + 1..]
      ensures freed == old(freed) + {region}
    {
      ghost var rest := nodes[..k] + nodes[k + 1..];
      StillDifferent(nodes, extents, k);
      assert forall i :: 0 <= i < k ==> rest[i] == nodes[i];
      assert forall i :: k <= i < |rest| ==> rest[i] == nodes[i + 1];
      prev.next := region.next;
      nodes, extents, freed := rest, extents[..k] + extents[k + 1..], freed + {region};
    }

    /** cr_exclude_off: takes out the region at that address, and nothing else. */
    method ExcludeOff(data: nat) returns (r: int)
      requires Valid()
      modifies this, nodes
      ensures Valid() && (forall i :: 0 <= i < |nodes| ==> nodes[i] in old(nodes))
      ensures r == if InUse(old(extents), data) then 0 else -1
      ensures extents == Dropped(old(extents), data)
      ensures freed == if r == 0 then old(freed) + {old(nodes[IndexOf(extents, data)])} else old(freed)
    {
      var region, prev, k := Find(data);
      if region == null {
        return -1;
      }
      if prev != null {
        UnlinkAfter(prev, region, k);
      } else {
        UnlinkFirst(region);
      }
      return 0;
    }
  }

  // ---------------------------------------------------------------- as an ordered map

  /** The list after an exclusion is asked for. */
  ghost function Added(extents: seq<Extent>, e: Extent): seq<Extent> {
    if InUse(extents, e.addr) then extents else extents + [e]
  }

  /** What malloc comes up with: nothing, or a block that happens to hold a null pointer where
      `next` will be, or one that does not. */
  datatype Grant = Refused | Clean | Dirty

  /** A call, what malloc comes up with, and the result of the initialisation. */
  datatype Command = On(e: Extent, grant: Grant, init: int) | Off(addr: nat)

  /** The list that a sequence of calls is meant to give. */
  ghost function Listed(cmds: seq<Command>): seq<Extent> {
    if cmds == [] then []
    else
      var before := Listed(cmds[..|cmds| - 1]);
      match cmds[|cmds| - 1]
      case On(e, grant, _) => if grant == Refused then before else Added(before, e)
      case Off(a) => Dropped(before, a)
  }

  /** The same calls on a map from address to size: the first exclusion of an address
      counts until it is called off. */
  function Mapped(cmds: seq<Command>): map<nat, nat> {
    if cmds == [] then map[]
    else
      var before := Mapped(cmds[..|cmds| - 1]);
      match cmds[|cmds| - 1]
      case On(e, grant, _) => if e.addr in before || grant == Refused then before else before[e.addr := e.size]
      case Off(a) => before - {a}
  }

  /** The call that put an address in, among those that count. */
  function Born(cmds: seq<Command>, addr: nat): int {
    if cmds == [] then -1
    else
      var front := cmds[..|cmds| - 1];
      match cmds[|cmds| - 1]
      case On(e, grant, _) =>
        if grant != Refused && e.addr == addr && addr !in Mapped(front) then |front| else Born(front, addr)
      case Off(_) => Born(front, addr)
  }

  /** The list holds the map: same addresses, each once, with the same sizes. */
  ghost predicate Holds(extents: seq<Extent>, m: map<nat, nat>) {
    && DifferentAddresses(extents)
    && (forall i :: 0 <= i < |extents| ==> extents[i].addr in m && m[extents[i].addr] == extents[i].size)
    && (forall a :: a in m ==> InUse(extents, a))
  }

  ghost predicate InOrder(extents: seq<Extent>, cmds: seq<Command>) {
    forall i, j :: 0 <= i < j < |extents| ==> Born(cmds, extents[i].addr) < Born(cmds, extents[j].addr)
  }

  lemma AddedHolds(extents: seq<Extent>, m: map<nat, nat>, e: Extent)
    requires Holds(extents, m)
    ensures Holds(Added(extents, e), if e.addr in m then m else m[e.addr := e.size])
    ensures InUse(extents, e.addr) <==> e.addr in m
  {
    if !InUse(extents, e.addr) {
      var r := extents + [e];
      forall a | a in m || a == e.addr ensures InUse(r, a) {
        var i := if a == e.addr then |extents| else IndexOf(extents, a);
        assert r[i].addr == a;
      }
    }
  }

  lemma DroppedHolds(extents: seq<Extent>, m: map<nat, nat>, addr: nat)
    requires Holds(extents, m)
    ensures Holds(Dropped(extents, addr), m - {addr})
  {
    var k, r := IndexOf(extents, addr), Dropped(extents, addr);
    forall a | a in m && a != addr ensures InUse(r, a) {
      var i := IndexOf(extents, a);
      assert r[if i < k then i else i - 1].addr == a;
    }
  }

  lemma {:induction false} BornBound(cmds: seq<Command>, addr: nat)
    ensures Born(cmds, addr) < |cmds|
  {
    if cmds != [] { BornBound(cmds[..|cmds| - 1], addr); }
  }

  /** A call does not change when an address that is already in was put in. */
  lemma BornStays(front: seq<Command>, c: Command, addr: nat)
    requires addr in Mapped(front)
    ensures Born(front + [c], addr) == Born(front, addr) < |front|
  {
    BornBound(front, addr);
    assert (front + [c])[..|front + [c]| - 1] == front;
  }

  lemma BornNow(front: seq<Command>, c: Command)
    requires c.On? && c.grant != Refused && c.e.addr !in Mapped(front)
    ensures Born(front + [c], c.e.addr) == |front|
  {
    assert (front + [c])[..|front|] == front;
  }

  /** What was born in this order still is when one of them is taken out. */
  lemma OrderWithout(extents: seq<Extent>, cmds: seq<Command>, k: nat)
    requires k < |extents| && InOrder(extents, cmds)
    ensures InOrder(extents[..k] + extents[k + 1..], cmds)
  {
    var r := extents[..k] + extents[k + 1..];
    assert forall i :: 0 <= i < |r| ==> r[i] == extents[if i < k then i else i + 1];
  }

  lemma OrderStays(extents: seq<Extent>, front: seq<Command>, c: Command)
    requires Holds(extents, Mapped(front)) && InOrder(extents, front)
    ensures InOrder(extents, front + [c])
    ensures forall i :: 0 <= i < |extents| ==> Born(front + [c], extents[i].addr) < |front|
  {
    forall i | 0 <= i < |extents|
      ensures Born(front + [c], extents[i].addr) == Born(front, extents[i].addr) < |front|
    {
      BornStays(front, c, extents[i].addr);
    }
  }

  lemma OrderAfterOn(extents: seq<Extent>, front: seq<Command>, c: Command)
    requires Holds(extents, Mapped(front)) && InOrder(extents, front) && c.On?
    ensures InOrder(if c.grant == Refused then extents else Added(extents, c.e), front + [c])
  {
    AddedHolds(extents, Mapped(front), c.e);
    OrderStays(extents, front, c);
    if c.grant != Refused && !InUse(extents, c.e.addr) { BornNow(front, c); }
  }

  lemma OrderAfterOff(extents: seq<Extent>, front: seq<Command>, addr: nat)
    requires Holds(extents, Mapped(front)) && InOrder(extents, front)
    ensures InOrder(Dropped(extents, addr), front + [Off(addr)])
  {
    OrderStays(extents, front, Off(addr));
    var k := IndexOf(extents, addr);
    if k < |extents| { OrderWithout(extents, front + [Off(addr)], k); }
  }

  /** For every sequence of calls the list is an insertion-ordered map: each excluded
      address once, with the size given when it was put in, and in the order of those
      calls. */
  lemma {:induction false} ListIsOrderedMap(cmds: seq<Command>)
    ensures Holds(Listed(cmds), Mapped(cmds))
    ensures InOrder(Listed(cmds), cmds)
    decreases |cmds|
  {
    if cmds != [] {
      var front, c := cmds[..|cmds| - 1], cmds[|cmds| - 1];
      ListIsOrderedMap(front);
      assert cmds == front + [c];
      match c {
        case On(e, _, _) =>
          AddedHolds(Listed(front), Mapped(front), e);
          OrderAfterOn(Listed(front), front, c);
        case Off(a) =>
          DroppedHolds(Listed(front), Mapped(front), a);
          OrderAfterOff(Listed(front), front, a);
      }
    }
  }

  /** Call `k` links a new region. */
  ghost predicate Links(cmds: seq<Command>, k: nat)
    requires k < |cmds|
  {
    cmds[k].On? && cmds[k].grant != Refused && !InUse(Listed(cmds[..k]), cmds[k].e.addr)
  }

  /** It links none, or one that ends the chain and is not freed. */
  ghost predicate Harmless(cmds: seq<Command>, k: nat)
    requires k < |cmds|
  {
    Links(cmds, k) ==> cmds[k].grant == Clean && cmds[k].init == 0
  }

  ghost predicate AllHarmless(cmds: seq<Command>, n: nat)
    requires n <= |cmds|
  {
    forall k :: 0 <= k < n ==> Harmless(cmds, k)
  }

  method MemoryFor(grant: Grant) returns (memory: Memory)
    ensures memory.NoMemory? <==> grant == Refused
    ensures memory.Block? ==> (memory.junk == null <==> grant == Clean)
  {
    match grant
    case Refused => memory := NoMemory;
    case Clean => memory := Block(null);
    case Dirty =>
      var elsewhere := new Region(0, 0, null);
      memory := Block(elsewhere);
  }

  /** One call on the linked list itself. */
  method Perform(regions: Regions, c: Command, ghost before: seq<Command>) returns (sound: bool)
    requires regions.Valid() && regions.extents == Listed(before)
    modifies regions, regions.nodes
    ensures sound <==> Harmless(before + [c], |before|)
    ensures sound <==> regions.Valid()
    ensures sound ==> regions.extents == Listed(before + [c])
    ensures forall i :: 0 <= i < |regions.nodes| ==> regions.nodes[i] in old(regions.nodes) || fresh(regions.nodes[i])
  {
    assert (before + [c])[..|before|] == before;
    match c {
      case On(e, grant, init) =>
        var memory := MemoryFor(grant);
        var _, linked := regions.ExcludeOn(e.addr, e.size, memory, init);
        sound := !linked || (grant == Clean && init == 0);
      case Off(a) =>
        var _ := regions.ExcludeOff(a);
        sound := true;
    }
  }

  lemma HarmlessNext(cmds: seq<Command>, n: nat)
    requires n < |cmds|
    ensures Harmless(cmds[..n] + [cmds[n]], n) <==> Harmless(cmds, n)
    ensures AllHarmless(cmds, n + 1) <==> AllHarmless(cmds, n) && Harmless(cmds, n)
  {
    var some := cmds[..n] + [cmds[n]];
    assert some[..n] == cmds[..n] && some[n] == cmds[n];
  }

  /** Carrying out any sequence of calls on the linked list itself, as long as it is one: it
      stays sound, and is the list that is meant, if and only if every region that was linked
      was clean and its initialisation worked. */
  method RunAll(regions: Regions, cmds: seq<Command>) returns (sound: bool)
    requires regions.Valid() && regions.nodes == []
    modifies regions
    ensures sound <==> regions.Valid()
    ensures sound <==> AllHarmless(cmds, |cmds|)
    ensures sound ==> regions.extents == Listed(cmds)
  {
    sound := true;
    for n := 0 to |cmds|
      invariant sound <==> regions.Valid()
      invariant sound <==> AllHarmless(cmds, n)
      invariant sound ==> regions.extents == Listed(cmds[..n])
      invariant forall i :: 0 <= i < |regions.nodes| ==> fresh(regions.nodes[i])
    {
      assert cmds[..n + 1] == cmds[..n] + [cmds[n]];
      if sound {
        sound := Perform(regions, cmds[n], cmds[..n]);
      }
      HarmlessNext(cmds, n);
    }
    assert cmds[..|cmds|] == cmds;
  }
}
