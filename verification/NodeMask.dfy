/** The 256-bit node mask of libs/include/krgnodemask.h and the loops of libhotplug.c that
    fill it from a node set. `btsl` with a register operand addresses 32-bit words, so the
    mask is kept as eight of them; the kernel reads it as four 64-bit longs. */
module NodeMask {
  import opened Bits
  import NodeSet

  /** KERRIGHED_HARD_MAX_NODES */
  const HARD_MAX_NODES: nat := 256
  const DWORDS: nat := 8

  function TotalOnes(d: seq<nat>): nat {
    if d == [] then 0 else TotalOnes(d[..|d| - 1]) + Ones(d[|d| - 1])
  }

  lemma {:induction false} TotalOnesUpdate(d: seq<nat>, i: nat, w: nat)
    requires i < |d|
    ensures TotalOnes(d[i := w]) == TotalOnes(d) - Ones(d[i]) + Ones(w)
  {
    var front := d[..|d| - 1];
    if i == |d| - 1 {
      assert d[i := w][..|d| - 1] == front;
    } else {
      TotalOnesUpdate(front, i, w);
      assert d[i := w][..|d| - 1] == front[i := w];
    }
  }

  lemma {:induction false} TotalOnesZero(d: seq<nat>)
    requires forall i :: 0 <= i < |d| ==> d[i] == 0
    ensures TotalOnes(d) == 0
  {
    if d != [] { TotalOnesZero(d[..|d| - 1]); }
  }

  /** Which half of which long holds bit `n`. */
  lemma HalfOfLong(n: nat)
    ensures n % 64 < 32 ==> n / 32 == 2 * (n / 64) && n % 32 == n % 64
    ensures n % 64 >= 32 ==> n / 32 == 2 * (n / 64) + 1 && n % 32 == n % 64 - 32
  {
  }

  class Mask {
    const dwords: array<nat>

    ghost predicate Valid()
      reads dwords
    {
      dwords.Length == DWORDS && forall i :: 0 <= i < DWORDS ==> dwords[i] < TWO32
    }

    /** Node `n` is on, reading the mask 32 bits at a time. */
    ghost predicate Has(n: nat)
      requires Valid() && n < HARD_MAX_NODES
      reads dwords
    {
      Bit(dwords[n / 32], n % 32)
    }

    /** The mask as the four longs the kernel is handed. */
    ghost function Long(i: nat): nat
      requires Valid() && i < 4
      reads dwords
    {
      dwords[2 * i] + TWO32 * dwords[2 * i + 1]
    }

    /** Reading it 64 bits at a time gives the same set. */
    lemma LongsAgree(n: nat)
      requires Valid() && n < HARD_MAX_NODES
      ensures Bit(Long(n / 64), n % 64) <==> Has(n)
    {
      HalfOfLong(n);
      Pow32();
      LongBit(dwords[2 * (n / 64)], dwords[2 * (n / 64) + 1], 32, n % 64);
    }

    ghost function Nodes(): set<int>
      requires Valid()
      reads dwords
    {
      set n | 0 <= n < HARD_MAX_NODES && Has(n)
    }

    /** __krgnodes_clear */
    method Clear()
      requires dwords.Length == DWORDS
      modifies dwords
      ensures Valid() && Nodes() == {} && TotalOnes(dwords[..]) == 0
    {
      for i := 0 to DWORDS
        invariant forall j :: 0 <= j < i ==> dwords[j] == 0
      {
        dwords[i] := 0;
      }
      forall n | 0 <= n < HARD_MAX_NODES ensures !Bit(0, n % 32) {
        NoBitsInZero(n % 32);
      }
      TotalOnesZero(dwords[..]);
    }

    constructor ()
      ensures Valid() && fresh(dwords) && Nodes() == {} && TotalOnes(dwords[..]) == 0
    {
      dwords := new nat[DWORDS];
      new;
      Clear();
    }

    /** __krgnode_set: `btsl` on the 32-bit word that holds bit `node`. */
    method SetNode(node: nat)
      requires Valid() && node < HARD_MAX_NODES
      modifies dwords
      ensures Valid() && Nodes() == old(Nodes()) + {node}
      ensures TotalOnes(dwords[..]) == old(TotalOnes(dwords[..])) + if node in old(Nodes()) then 0 else 1
    {
      var i, k := node / 32, node % 32;
      ghost var before := dwords[..];
      Pow32();
      SetBitFits(dwords[i], k, 32);
      SetBitOnes(dwords[i], k);
      TotalOnesUpdate(before, i, SetBit(dwords[i], k));
      dwords[i] := SetBit(dwords[i], k);
      assert dwords[..] == before[i := SetBit(before[i], k)];
      forall n: nat | n < HARD_MAX_NODES ensures Has(n) <==> n == node || Bit(before[n / 32], n % 32) {
        SetBitBits(before[i], k, n % 32);
      }
    }
  }

  /** The mask holds these nodes, with one bit for each. */
  ghost predicate Filled(mask: Mask, nodes: set<int>)
    reads mask.dwords
  {
    mask.Valid() && mask.Nodes() == nodes && TotalOnes(mask.dwords[..]) == |nodes|
  }

  method Include(mask: Mask, node: nat, ghost nodes: set<int>)
    requires Filled(mask, nodes) && node < HARD_MAX_NODES && node !in nodes
    modifies mask.dwords
    ensures Filled(mask, nodes + {node})
  {
    mask.SetNode(node);
  }

  /** The places below `i` where the vector is not zero. */
  ghost function NonZero(v: seq<int>, i: nat): set<int>
    requires i <= |v|
  {
    set j | 0 <= j < i && v[j] != 0
  }

  lemma NonZeroNext(v: seq<int>, i: nat)
    requires i < |v|
    ensures i !in NonZero(v, i)
    ensures NonZero(v, i + 1) == NonZero(v, i) + if v[i] != 0 then {i as int} else {}
  {
  }

  /** The loop of krg_nodes_add, krg_nodes_remove, krg_nodes_fail and krg_nodes_poweroff.
      A vector longer than the mask would make the C code write past it. */
  method FromVector(s: NodeSet.Vector) returns (mask: Mask)
    requires s.v.Length <= HARD_MAX_NODES
    ensures fresh(mask) && fresh(mask.dwords) && mask.Valid()
    ensures mask.Nodes() == s.Members()
    ensures TotalOnes(mask.dwords[..]) == |s.Members()|
  {
    mask := new Mask();
    ghost var v := s.v[..];
    for i := 0 to s.v.Length
      modifies mask.dwords
      invariant s.v[..] == v
      invariant Filled(mask, NonZero(v, i))
    {
      NonZeroNext(v, i);
      if s.v[i] != 0 {
        Include(mask, i, NonZero(v, i));
      }
    }
    assert NonZero(v, |v|) == s.Members();
  }
}
