/** The list of children that libs/libkrgcheckpoint/libkrgcheckpoint.c passes callbacks on
    to: add_child, remove_child and remove_all_children. */
module ChildList {

  class Child {
    var pid: int
    var next: Child?

    constructor (pid: int, next: Child?)
      ensures this.pid == pid && this.next == next
    {
      this.pid, this.next := pid, next;
    }
  }

  /** The list without the first occurrence of `pid`. */
  function Without(pids: seq<int>, pid: int): (r: seq<int>)
    ensures |r| == if pid in pids then |pids| - 1 else |pids|
  {
    if pids == [] then [] else if pids[0] == pid then pids[1..] else [pids[0]] + Without(pids[1..], pid)
  }

  lemma {:induction false} WithoutAbsent(pids: seq<int>, pid: int)
    requires forall i :: 0 <= i < |pids| ==> pids[i] != pid
    ensures Without(pids, pid) == pids
  {
    if pids != [] { WithoutAbsent(pids[1..], pid); }
  }

  lemma {:induction false} WithoutAt(pids: seq<int>, pid: int, k: nat)
    requires k < |pids| && pids[k] == pid && forall i :: 0 <= i < k ==> pids[i] != pid
    ensures Without(pids, pid) == pids[..k] + pids[k + 1..]
  {
    if k > 0 {
      var rest := pids[1..];
      WithoutAt(rest, pid, k - 1);
      assert pids[..k] == [pids[0]] + rest[..k - 1];
      assert pids[k + 1..] == rest[k..];
    }
  }

  class Children {
    var first: Child?
    ghost var nodes: seq<Child>

    ghost predicate Valid()
      reads this, nodes
    {
      && first == (if nodes == [] then null else nodes[0])
      && (forall i {:trigger nodes[i].next} :: 0 <= i < |nodes| - 1 ==> nodes[i].next == nodes[i + 1])
      && (nodes != [] ==> nodes[|nodes| - 1].next == null)
      && (forall i, j :: 0 <= i < j < |nodes| ==> nodes[i] != nodes[j])
    }

    ghost function Pids(): (r: seq<int>)
      reads this, nodes
      ensures |r| == |nodes|
    {
      seq(|nodes|, i requires 0 <= i < |nodes| reads this, nodes => nodes[i].pid)
    }

    constructor ()
      ensures Valid() && nodes == []
    {
      first, nodes := null, [];
    }

    /** add_child, as written: the new child is linked to the successor of the head, not to
        the head, which is lost. `ready` says that initialisation and malloc succeed. */
    method AddChild(pid: int, ready: bool)
      requires Valid()
      modifies this
      ensures Valid()
      ensures forall i :: 0 <= i < |nodes| ==> nodes[i] in old(nodes) || fresh(nodes[i])
      ensures Pids() == if !ready then old(Pids()) else [pid] + if old(Pids()) == [] then [] else old(Pids())[1..]
    {
      if !ready {
        return;
      }
      var child := new Child(pid, null);
      if first != null {
        child.next := first.next;
      }
      nodes := [child] + if nodes == [] then [] else nodes[1..];
      first := child;
    }

    /** remove_all_children */
    method RemoveAllChildren()
      requires Valid()
      modifies this
      ensures Valid() && Pids() == [] && nodes == []
    {
      var child := first;
      ghost var k := 0;
      while child != null
        invariant 0 <= k <= |nodes| && child == if k < |nodes| then nodes[k] else null
        decreases |nodes| - k
      {
        child := child.next;
        k := k + 1;
      }
      first, nodes := null, [];
    }

    method Unlink(prev: Child?, child: Child, ghost k: nat)
      requires Valid() && k < |nodes| && child == nodes[k]
      requires prev == if k == 0 then null else nodes[k - 1]
      modifies this, nodes`next
      ensures Valid() && Pids() == old(Pids())[..k] + old(Pids())[k + 1..]
      ensures nodes == old(nodes)[..k] + old(nodes)[k + 1..]
    {
      if prev == null {
        first := child.next;
      } else {
        prev.next := child.next;
      }
      ghost var was := nodes;
      nodes := nodes[..k] + nodes[k + 1..];
      assert forall i :: 0 <= i < |nodes| ==> nodes[i] == was[if i < k then i else i + 1];
    }

    /** remove_child: takes out the first child with that pid and keeps the order of the
        others. */
    method RemoveChild(pid: int)
      requires Valid()
      modifies this, nodes
      ensures Valid() && Pids() == Without(old(Pids()), pid)
      ensures forall i :: 0 <= i < |nodes| ==> nodes[i] in old(nodes)
    {
      ghost var pids := Pids();
      var child, prev: Child? := first, null;
      ghost var k := 0;
      while child != null
        invariant 0 <= k <= |nodes| && Valid() && Pids() == pids
        invariant child == if k < |nodes| then nodes[k] else null
        invariant prev == if k == 0 then null else nodes[k - 1]
        invariant forall i :: 0 <= i < k ==> pids[i] != pid
        invariant nodes == old(nodes)
        decreases |nodes| - k
      {
        if child.pid == pid {
          WithoutAt(pids, pid, k);
          Unlink(prev, child, k);
          return;
        }
        prev := child;
        child := child.next;
        k := k + 1;
      }
      WithoutAbsent(pids, pid);
    }
  }

  // ---------------------------------------------------------------- whole runs

  /** A fork seen by the parent, a child reaped, and the child's side of a fork. `ready` says
      that initialisation and malloc succeed. */
  datatype Event = Forked(pid: int, ready: bool) | Reaped(pid: int) | InChild

  /** The list the code keeps. */
  function Kept(events: seq<Event>): seq<int> {
    if events == [] then []
    else
      var before := Kept(events[..|events| - 1]);
      match events[|events| - 1]
      case Forked(p, ready) => if ready then [p] + (if before == [] then [] else before[1..]) else before
      case Reaped(p) => Without(before, p)
      case InChild => []
  }

  /** The list that is meant: all children forked and not reaped. */
  function Meant(events: seq<Event>): seq<int> {
    if events == [] then []
    else
      var before := Meant(events[..|events| - 1]);
      match events[|events| - 1]
      case Forked(p, _) => [p] + before
      case Reaped(p) => Without(before, p)
      case InChild => []
  }

  /** One event on the linked list itself. */
  method Handle(children: Children, e: Event, ghost before: seq<Event>)
    requires children.Valid() && children.Pids() == Kept(before)
    modifies children, children.nodes
    ensures children.Valid() && children.Pids() == Kept(before + [e])
    ensures forall i :: 0 <= i < |children.nodes| ==>
              children.nodes[i] in old(children.nodes) || fresh(children.nodes[i])
  {
    assert (before + [e])[..|before + [e]| - 1] == before;
    match e {
      case Forked(p, ready) => children.AddChild(p, ready);
      case Reaped(p) => children.RemoveChild(p);
      case InChild => children.RemoveAllChildren();
    }
  }

  /** A whole run on the linked list gives the list kept. */
  method RunAll(children: Children, events: seq<Event>)
    requires children.Valid() && children.nodes == []
    modifies children
    ensures children.Valid() && children.Pids() == Kept(events)
  {
    for n := 0 to |events|
      invariant children.Valid() && children.Pids() == Kept(events[..n])
      invariant forall i :: 0 <= i < |children.nodes| ==> fresh(children.nodes[i])
    {
      Handle(children, events[n], events[..n]);
      assert events[..n + 1] == events[..n] + [events[n]];
    }
    assert events[..|events|] == events;
  }

  /** The code never knows of more than one child. */
  lemma {:induction false} NeverMoreThanOne(events: seq<Event>)
    ensures |Kept(events)| <= 1
    decreases |events|
  {
    if events != [] { NeverMoreThanOne(events[..|events| - 1]); }
  }

  /** Every fork is taken note of, and happens when no earlier child is left. */
  ghost predicate OneAtATime(events: seq<Event>) {
    forall k :: 0 <= k < |events| && events[k].Forked? ==> events[k].ready && Meant(events[..k]) == []
  }

  lemma {:induction false} AgreesOneAtATime(events: seq<Event>)
    requires OneAtATime(events)
    ensures Kept(events) == Meant(events)
    decreases |events|
  {
    if events != [] {
      var front := events[..|events| - 1];
      forall k | 0 <= k < |front| && front[k].Forked? ensures front[k].ready && Meant(front[..k]) == [] {
        assert front[..k] == events[..k];
      }
      AgreesOneAtATime(front);
    }
  }

  /** A fork that goes unnoticed, or happens too early, makes the lists differ in length. */
  lemma ForkBreaks(front: seq<Event>, e: Event)
    requires e.Forked? && Kept(front) == Meant(front) && !(e.ready && Meant(front) == [])
    ensures Kept(front + [e]) != Meant(front + [e])
  {
    assert (front + [e])[..|front|] == front;
    assert |Meant(front + [e])| == |Meant(front)| + 1;
  }

  /** The exact condition: the list kept is the list meant, throughout a run, if and only if
      no fork fails to be noted and no child is forked while another one is alive. */
  lemma KeptIsMeantExactly(events: seq<Event>)
    ensures (forall k :: 0 <= k <= |events| ==> Kept(events[..k]) == Meant(events[..k])) <==> OneAtATime(events)
  {
    if OneAtATime(events) {
      forall k | 0 <= k <= |events| ensures Kept(events[..k]) == Meant(events[..k]) {
        var e := events[..k];
        assert forall j :: 0 <= j < |e| ==> e[..j] == events[..j] && e[j] == events[j];
        AgreesOneAtATime(e);
      }
    } else {
      var k :| 0 <= k < |events| && events[k].Forked? && !(events[k].ready && Meant(events[..k]) == []);
      if Kept(events[..k]) == Meant(events[..k]) {
        ForkBreaks(events[..k], events[k]);
        assert events[..k + 1] == events[..k] + [events[k]];
      }
    }
  }
}
