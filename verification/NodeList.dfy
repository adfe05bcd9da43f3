/** The node list of tools/krgadm.c: the recursive parser that cuts its argument in place,
    and what it makes of every text. */
module NodeList {
  import opened CText
  import NodeSet

  const NODE_RANGE_SEP: char := '-'

  // ---------------------------------------------------------------- strings in buffers

  /** The C string that starts at `p`. */
  function CStr(b: seq<char>, p: nat): string
    requires p <= |b|
    decreases |b| - p
  {
    if p == |b| || b[p] == '\0' then "" else [b[p]] + CStr(b, p + 1)
  }

  ghost predicate Terminated(b: seq<char>, p: nat) {
    exists e :: p <= e < |b| && b[e] == '\0'
  }

  /** `s` is stored at `p`, with its terminator. */
  ghost predicate Holds(b: seq<char>, p: nat, s: string) {
    && p + |s| < |b| && b[p + |s|] == '\0'
    && forall i :: 0 <= i < |s| ==> s[i] == b[p + i] && s[i] != '\0'
  }

  lemma {:induction false} HoldsIsCStr(b: seq<char>, p: nat, s: string)
    requires Holds(b, p, s)
    ensures CStr(b, p) == s
    decreases |s|
  {
    if s != "" {
      assert s[0] == b[p + 0];
      assert forall i :: 0 <= i < |s| - 1 ==> s[1..][i] == s[i + 1] == b[p + 1 + i];
      HoldsIsCStr(b, p + 1, s[1..]);
    }
  }

  lemma {:induction false} CStrHolds(b: seq<char>, p: nat)
    requires Terminated(b, p)
    ensures Holds(b, p, CStr(b, p))
    decreases |b| - p
  {
    if b[p] != '\0' {
      CStrHolds(b, p + 1);
      var rest := CStr(b, p + 1);
      assert forall i :: 0 < i <= |rest| ==> ([b[p]] + rest)[i] == rest[i - 1] == b[p + 1 + (i - 1)];
    }
  }

  /** strrchr, as an index into the string; -1 for NULL. */
  function LastIndex(s: string, c: char): (k: int)
    ensures -1 <= k < |s| && (k != -1 ==> s[k] == c)
    ensures forall i :: k < i < |s| ==> s[i] != c
  {
    if s == "" then -1
    else if s[|s| - 1] == c then |s| - 1
    else LastIndex(s[..|s| - 1], c)
  }

  /** strchr */
  function FirstIndex(s: string, c: char): (k: int)
    ensures -1 <= k < |s| && (k != -1 ==> s[k] == c)
    ensures forall i :: 0 <= i < (if k == -1 then |s| else k) ==> s[i] != c
  {
    if s == "" then -1
    else if s[0] == c then 0
    else var k := FirstIndex(s[1..], c); if k == -1 then -1 else k + 1
  }

  // ---------------------------------------------------------------- meaning of a list

  /** What one item asks for: nothing legible, one id, or the ids of an interval. */
  datatype Item = Bad | One(id: CInt) | Interval(lo: CInt, hi: CInt)

  /** parse_node */
  function ReadNode(t: string): Item {
    var r := Strtol(t, 10);
    if r.end == 0 || r.end != |t| then Bad else One(ToInt(r.value))
  }

  /** parse_nodes_interval */
  function ReadRange(t: string): Item
    requires NODE_RANGE_SEP in t
  {
    var index := FirstIndex(t, NODE_RANGE_SEP);
    var a := Strtol(t, 10);
    var b := Strtol(t[index + 1..], 10);
    if a.end == 0 || a.end == |t| || t[a.end] != NODE_RANGE_SEP then Bad
    else if b.end == 0 || b.end != |t| - (index + 1) then Bad
    else Interval(ToInt(a.value), ToInt(b.value))
  }

  function ReadItem(t: string): Item {
    if NODE_RANGE_SEP in t then ReadRange(t) else ReadNode(t)
  }

  predicate InItem(item: Item, x: int) {
    match item
    case Bad => false
    case One(id) => x == id
    case Interval(lo, hi) => lo <= x <= hi
  }

  /** The ids of an item that a set of `max` nodes can hold. */
  ghost function ItemIds(item: Item, max: nat): set<int> {
    set x | 0 <= x < max && InItem(item, x)
  }

  /** How a parse ends: with a value, or not at all because its counter overflows. */
  datatype Verdict = Returned(r: int) | Endless

  /** The loop over an interval ends unless it has to count past the largest int. */
  predicate LoopEnds(lo: CInt, hi: CInt) {
    lo > hi || hi < INT_MAX
  }

  function ItemVerdict(item: Item): Verdict {
    match item
    case Bad => Returned(-1)
    case One(_) => Returned(1)
    case Interval(lo, hi) => if LoopEnds(lo, hi) then Returned(1) else Endless
  }

  datatype Outcome = Outcome(v: Verdict, ids: set<int>)

  /** The plain reading of a list: go through the items from left to right, collect their
      ids, and stop at the first one that is illegible or endless. */
  ghost function ReadList(items: seq<string>, max: nat): Outcome {
    if items == [] then Outcome(Returned(1), {})
    else
      var before := ReadList(items[..|items| - 1], max);
      var item := ReadItem(items[|items| - 1]);
      if before.v != Returned(1) then before
      else Outcome(ItemVerdict(item), before.ids + ItemIds(item, max))
  }

  /** Cutting at the last comma splits off the last item. */
  lemma SplitAtLast(s: string, k: int)
    requires k == LastIndex(s, COMMA) && k != -1
    ensures Split(s) == Split(s[..k]) + [s[k + 1..]]
  {
    assert s == s[..k] + [COMMA] + s[k + 1..];
    SplitAppend(s[..k], s[k + 1..]);
  }

  lemma ReadListLast(front: seq<string>, t: string, max: nat)
    ensures var before, all, item := ReadList(front, max), ReadList(front + [t], max), ReadItem(t);
            all == if before.v != Returned(1) then before
                   else Outcome(ItemVerdict(item), before.ids + ItemIds(item, max))
  {
    assert (front + [t])[..|front + [t]| - 1] == front;
  }

  lemma ListOfOne(s: string, max: nat)
    requires COMMA !in s
    ensures ReadList(Split(s), max) == Outcome(ItemVerdict(ReadItem(s)), ItemIds(ReadItem(s), max))
  {
    SplitSingle(s);
    ReadListLast([], s, max);
    assert [] + [s] == [s];
  }

  /** What the two recursive calls add up to. */
  lemma ListOfMore(s: string, k: int, max: nat)
    requires k == LastIndex(s, COMMA) && k != -1
    ensures var left, right := ReadList(Split(s[..k]), max), ReadList(Split(s[k + 1..]), max);
            ReadList(Split(s), max) ==
            if left.v != Returned(1) then left else Outcome(right.v, left.ids + right.ids)
  {
    SplitAtLast(s, k);
    ListOfOne(s[k + 1..], max);
    ReadListLast(Split(s[..k]), s[k + 1..], max);
  }

  // ---------------------------------------------------------------- the parser

  /** parse_node */
  method ParseNode(t: string, nodes: NodeSet.Vector) returns (v: Verdict)
    requires nodes.Valid() && NODE_RANGE_SEP !in t
    modifies nodes.v
    ensures nodes.Valid()
    ensures v == ItemVerdict(ReadItem(t))
    ensures nodes.Members() == old(nodes.Members()) + ItemIds(ReadItem(t), nodes.v.Length)
  {
    v := Returned(1);
    var n := Strtol(t, 10);
    if n.end == 0 || n.end != |t| {
      v := Returned(-1);
    } else {
      var _ := nodes.Add(ToInt(n.value));
    }
  }

  /** The counter has been at `x` on its way from `first` to `node`. */
  predicate Passed(first: int, node: int, x: int) {
    first <= x < node
  }

  /** The loop of parse_nodes_interval, with its int counter; `krg_node_set_add` ignores ids
      out of range. Every int is at most the largest one, so when `node2` is that, the guard
      holds whatever an overflowing increment makes of the counter. */
  method AddInterval(node1: CInt, node2: CInt, nodes: NodeSet.Vector) returns (ended: bool)
    requires nodes.Valid()
    modifies nodes.v
    ensures nodes.Valid()
    ensures ended <==> node1 > node2 || node2 < INT_MAX
    ensures nodes.Members() == old(nodes.Members()) + ItemIds(Interval(node1, node2), nodes.v.Length)
  {
    var node: CInt := node1;
    ghost var added: set<int> := {};
    while node <= node2
      invariant node1 <= node && (node <= node2 || node == node1 || node - 1 == node2)
      invariant nodes.Valid() && nodes.Members() == old(nodes.Members()) + added
      invariant added == set x | 0 <= x < nodes.v.Length && Passed(node1, node, x)
      decreases node2 - node
    {
      var _ := nodes.Add(node);
      added := added + if 0 <= node < nodes.v.Length then {node as int} else {};
      if node == INT_MAX {
        assert added == ItemIds(Interval(node1, node2), nodes.v.Length);
        return false;
      }
      node := node + 1;
    }
    assert added == ItemIds(Interval(node1, node2), nodes.v.Length);
    ended := true;
  }

  /** parse_nodes_interval */
  method ParseInterval(t: string, nodes: NodeSet.Vector) returns (v: Verdict)
    requires nodes.Valid() && NODE_RANGE_SEP in t
    modifies nodes.v
    ensures nodes.Valid()
    ensures v == ItemVerdict(ReadItem(t))
    ensures nodes.Members() == old(nodes.Members()) + ItemIds(ReadItem(t), nodes.v.Length)
  {
    var index := FirstIndex(t, NODE_RANGE_SEP);
    var first := Strtol(t, 10);
    if first.end == 0 || first.end == |t| || t[first.end] != NODE_RANGE_SEP {
      assert ReadItem(t) == Bad;
      return Returned(-1);
    }
    var last := Strtol(t[index + 1..], 10);
    if last.end == 0 || last.end != |t| - (index + 1) {
      assert ReadItem(t) == Bad;
      return Returned(-1);
    }
    assert ReadItem(t) == Interval(ToInt(first.value), ToInt(last.value));
    var ended := AddInterval(ToInt(first.value), ToInt(last.value), nodes);
    v := if ended then Returned(1) else Endless;
  }

  /** Writing the terminator over the comma leaves two strings behind. */
  lemma CutAt(b: seq<char>, c: seq<char>, p: nat, s: string, k: nat)
    requires Holds(b, p, s) && k < |s|
    requires |c| == |b| && c[p + k] == '\0'
    requires forall i :: p <= i < |b| && i != p + k ==> c[i] == b[i]
    ensures Holds(c, p, s[..k]) && Holds(c, p + k + 1, s[k + 1..])
  {
    var t := s[k + 1..];
    forall i | 0 <= i < |t| ensures t[i] == c[p + k + 1 + i] && t[i] != '\0' {
      assert t[i] == s[k + 1 + i] == b[p + (k + 1 + i)];
    }
  }

  lemma HoldsElsewhere(b: seq<char>, c: seq<char>, p: nat, s: string)
    requires Holds(b, p, s) && |c| == |b|
    requires forall i :: p <= i < |b| ==> c[i] == b[i]
    ensures Holds(c, p, s)
  {
  }

  /** The end of the recursion in parse_nodes: one item. */
  method ParseItem(t: string, nodes: NodeSet.Vector) returns (v: Verdict)
    requires nodes.Valid()
    modifies nodes.v
    ensures nodes.Valid()
    ensures v == ItemVerdict(ReadItem(t))
    ensures nodes.Members() == old(nodes.Members()) + ItemIds(ReadItem(t), nodes.v.Length)
  {
    var dash := LastIndex(t, NODE_RANGE_SEP);
    if dash != -1 {
      v := ParseInterval(t, nodes);
    } else {
      v := ParseNode(t, nodes);
    }
  }

  /** parse_nodes. `buf` holds the argument from `p` on. The right-splitting recursion
      collects what the plain left-to-right reading collects and ends as it ends, and writes
      to no byte outside the argument. */
  method ParseNodes(buf: array<char>, p: nat, nodes: NodeSet.Vector, ghost s: string) returns (v: Verdict)
    requires Holds(buf[..], p, s) && nodes.Valid()
    modifies buf, nodes.v
    ensures nodes.Valid()
    ensures v == ReadList(Split(s), nodes.v.Length).v
    ensures nodes.Members() == old(nodes.Members()) + ReadList(Split(s), nodes.v.Length).ids
    ensures forall i :: 0 <= i < buf.Length && !(p <= i < p + |s|) ==> buf[i] == old(buf[i])
    decreases |s|, 1
  {
    HoldsIsCStr(buf[..], p, s);
    var ch := CStr(buf[..], p);
    var k := LastIndex(ch, COMMA);
    if k == -1 {
      ListOfOne(s, nodes.v.Length);
      v := ParseItem(ch, nodes);
    } else {
      ListOfMore(s, k, nodes.v.Length);
      ghost var before := buf[..];
      buf[p + k] := '\0';
      CutAt(before, buf[..], p, s, k);
      v := ParseHalves(buf, p, p + k + 1, nodes, s[..k], s[k + 1..]);
    }
  }

  /** The two recursive calls, after the comma has been overwritten. */
  method ParseHalves(buf: array<char>, p: nat, q: nat, nodes: NodeSet.Vector, ghost left: string, ghost right: string)
    returns (v: Verdict)
    requires Holds(buf[..], p, left) && Holds(buf[..], q, right) && q == p + |left| + 1
    requires nodes.Valid()
    modifies buf, nodes.v
    ensures nodes.Valid()
    ensures var a, b := ReadList(Split(left), nodes.v.Length), ReadList(Split(right), nodes.v.Length);
            && v == (if a.v != Returned(1) then a.v else b.v)
            && nodes.Members() == old(nodes.Members()) + if a.v != Returned(1) then a.ids else a.ids + b.ids
    ensures forall i :: 0 <= i < buf.Length && !(p <= i < q + |right|) ==> buf[i] == old(buf[i])
    decreases |left| + 1 + |right|, 0
  {
    ghost var cut := buf[..];
    v := ParseNodes(buf, p, nodes, left);
    if v != Returned(1) {
      return;
    }
    HoldsElsewhere(cut, buf[..], q, right);
    v := ParseNodes(buf, q, nodes, right);
  }

  // ---------------------------------------------------------------- what lists mean

  /** A digit item or a digit range, as typed. */
  datatype Entry = Single(digits: string) | Range(first: string, last: string)

  predicate IsNumber(d: string) {
    d != "" && AllDigits(d, 10) && ValueOf(d, 10) <= INT_MAX
  }

  predicate WellFormed(e: Entry) {
    match e
    case Single(d) => IsNumber(d)
    case Range(a, b) => IsNumber(a) && IsNumber(b)
  }

  function Text(e: Entry): string {
    match e
    case Single(d) => d
    case Range(a, b) => a + [NODE_RANGE_SEP] + b
  }

  /** The ids an entry denotes. */
  predicate Denotes(e: Entry, x: int) {
    match e
    case Single(d) => x == ValueOf(d, 10)
    case Range(a, b) => ValueOf(a, 10) <= x <= ValueOf(b, 10)
  }

  /** A range that counts up to the largest int. */
  predicate Overflows(e: Entry) {
    e.Range? && ValueOf(e.first, 10) <= ValueOf(e.last, 10) == INT_MAX
  }

  lemma DigitsHaveNoSeparator(d: string)
    requires AllDigits(d, 10)
    ensures COMMA !in d && NODE_RANGE_SEP !in d
  {
    forall i | 0 <= i < |d| ensures d[i] != COMMA && d[i] != NODE_RANGE_SEP {
      DigitIsNoSpace(d[i], 10);
    }
  }

  lemma SingleReads(d: string)
    requires IsNumber(d)
    ensures ReadItem(d) == One(ValueOf(d, 10))
  {
    DigitsHaveNoSeparator(d);
    StrtolAllDigits(d);
    ToIntKeepsLowBits(ValueOf(d, 10));
  }

  lemma FirstIndexIs(s: string, c: char, k: int)
    requires 0 <= k < |s| && s[k] == c && forall i :: 0 <= i < k ==> s[i] != c
    ensures FirstIndex(s, c) == k
  {
  }

  lemma RangeReads(a: string, b: string)
    requires IsNumber(a) && IsNumber(b)
    ensures ReadItem(a + [NODE_RANGE_SEP] + b) == Interval(ValueOf(a, 10), ValueOf(b, 10))
  {
    var t := a + [NODE_RANGE_SEP] + b;
    DigitsHaveNoSeparator(a);
    FirstIndexIs(t, NODE_RANGE_SEP, |a|);
    assert t == a + ([NODE_RANGE_SEP] + b);
    StrtolDigits(a, [NODE_RANGE_SEP] + b);
    assert t[|a| + 1..] == b;
    StrtolAllDigits(b);
    ToIntKeepsLowBits(ValueOf(a, 10));
    ToIntKeepsLowBits(ValueOf(b, 10));
  }

  lemma EntryReads(e: Entry)
    requires WellFormed(e)
    ensures ItemVerdict(ReadItem(Text(e))) == (if Overflows(e) then Endless else Returned(1))
    ensures COMMA !in Text(e)
    ensures forall x :: InItem(ReadItem(Text(e)), x) <==> Denotes(e, x)
  {
    match e
    case Single(d) =>
      SingleReads(d);
      DigitsHaveNoSeparator(d);
    case Range(a, b) =>
      RangeReads(a, b);
      DigitsHaveNoSeparator(a);
      DigitsHaveNoSeparator(b);
  }

  /** The items with commas between them. */
  function Join(items: seq<string>): string
    requires |items| > 0
  {
    if |items| == 1 then items[0]
    else Join(items[..|items| - 1]) + [COMMA] + items[|items| - 1]
  }

  lemma {:induction false} SplitJoin(items: seq<string>)
    requires |items| > 0 && forall i :: 0 <= i < |items| ==> COMMA !in items[i]
    ensures Split(Join(items)) == items
    decreases |items|
  {
    if |items| == 1 {
      SplitSingle(items[0]);
    } else {
      SplitJoin(items[..|items| - 1]);
      SplitAppend(Join(items[..|items| - 1]), items[|items| - 1]);
    }
  }

  function Texts(entries: seq<Entry>): seq<string> {
    seq(|entries|, i requires 0 <= i < |entries| => Text(entries[i]))
  }

  ghost predicate SomeDenotes(entries: seq<Entry>, x: int) {
    exists i :: 0 <= i < |entries| && Denotes(entries[i], x)
  }

  /** The ids below `max` that some entry denotes. */
  ghost function Denoted(entries: seq<Entry>, max: nat): set<int> {
    set x | 0 <= x < max && SomeDenotes(entries, x)
  }

  lemma SomeDenotesLast(entries: seq<Entry>, x: int)
    requires |entries| > 0
    ensures SomeDenotes(entries, x) <==>
            SomeDenotes(entries[..|entries| - 1], x) || Denotes(entries[|entries| - 1], x)
  {
    var front := entries[..|entries| - 1];
    assert forall i :: 0 <= i < |front| ==> front[i] == entries[i];
  }

  /** The first entry that overflows; the number of entries if none does. */
  function FirstOverflow(entries: seq<Entry>): (k: nat)
    ensures k <= |entries|
    ensures forall i :: 0 <= i < k ==> !Overflows(entries[i])
    ensures k < |entries| ==> Overflows(entries[k])
  {
    if entries == [] then 0
    else
      var front := entries[..|entries| - 1];
      var k := FirstOverflow(front);
      if k < |front| then k else if Overflows(entries[|entries| - 1]) then |front| else |entries|
  }

  /** What a list of well-formed entries comes to: all ids denoted, or no end at the first
      range that overflows, after the ids up to and including that range. */
  ghost function Meaning(entries: seq<Entry>, max: nat): Outcome {
    var k := FirstOverflow(entries);
    if k == |entries| then Outcome(Returned(1), Denoted(entries, max))
    else Outcome(Endless, Denoted(entries[..k + 1], max))
  }

  lemma MeaningLast(entries: seq<Entry>, max: nat)
    requires |entries| > 0
    ensures var front, e := entries[..|entries| - 1], entries[|entries| - 1];
            Meaning(entries, max) ==
            if Meaning(front, max).v != Returned(1) then Meaning(front, max)
            else Outcome(if Overflows(e) then Endless else Returned(1), Denoted(entries, max))
  {
    var front, k := entries[..|entries| - 1], FirstOverflow(entries);
    if k < |front| {
      assert front[..k + 1] == entries[..k + 1];
    } else if k < |entries| {
      assert entries[..k + 1] == entries;
    }
  }

  lemma TextsLast(entries: seq<Entry>)
    requires |entries| > 0
    ensures Texts(entries) == Texts(entries[..|entries| - 1]) + [Text(entries[|entries| - 1])]
  {
  }

  lemma DenotedLast(entries: seq<Entry>, max: nat)
    requires |entries| > 0 && WellFormed(entries[|entries| - 1])
    ensures Denoted(entries, max) ==
            Denoted(entries[..|entries| - 1], max) + ItemIds(ReadItem(Text(entries[|entries| - 1])), max)
  {
    EntryReads(entries[|entries| - 1]);
    forall x ensures SomeDenotes(entries, x) <==>
                     SomeDenotes(entries[..|entries| - 1], x) || Denotes(entries[|entries| - 1], x)
    {
      SomeDenotesLast(entries, x);
    }
  }

  lemma {:induction false} ReadTexts(entries: seq<Entry>, max: nat)
    requires forall i :: 0 <= i < |entries| ==> WellFormed(entries[i])
    ensures ReadList(Texts(entries), max) == Meaning(entries, max)
    decreases |entries|
  {
    if entries == [] {
      assert Denoted(entries, max) == {};
    } else {
      var front, e := entries[..|entries| - 1], entries[|entries| - 1];
      ReadTexts(front, max);
      TextsLast(entries);
      ReadListLast(Texts(front), Text(e), max);
      EntryReads(e);
      DenotedLast(entries, max);
      MeaningLast(entries, max);
    }
  }

  /** Every comma list of numbers and ranges within int means exactly the ids it denotes
      that a set of `max` nodes can hold, and is accepted, if and only if no range in it
      counts up to the largest int; the parser does not come back from the first that does. */
  lemma ListMeaning(entries: seq<Entry>, max: nat)
    requires |entries| > 0 && forall i :: 0 <= i < |entries| ==> WellFormed(entries[i])
    ensures ReadList(Split(Join(Texts(entries))), max) == Meaning(entries, max)
    ensures Meaning(entries, max) == Outcome(Returned(1), Denoted(entries, max)) <==>
            forall i :: 0 <= i < |entries| ==> !Overflows(entries[i])
  {
    var items := Texts(entries);
    forall i | 0 <= i < |items| ensures COMMA !in items[i] {
      EntryReads(entries[i]);
    }
    SplitJoin(items);
    ReadTexts(entries, max);
  }

  /** The family of shortest failing inputs: from no range up to 2147483647 does the parser
      come back, wherever the range begins. */
  lemma RangeToLargestIntIsEndless(first: string, max: nat)
    requires IsNumber(first)
    ensures ReadList(Split(first + [NODE_RANGE_SEP] + Numeral(INT_MAX, 10)), max).v == Endless
  {
    NumeralReads(INT_MAX, 10);
    var e := Range(first, Numeral(INT_MAX, 10));
    EntryReads(e);
    ListOfOne(Text(e), max);
  }

  // ---------------------------------------------------------------- which texts are accepted

  /** The text is a number, or it has a range sign, and what is before and behind the first
      one are numbers. Only the second one may be negative. */
  ghost predicate Legible(t: string) {
    if '-' !in t then NumberText(t, false)
    else exists p :: 0 <= p < |t| && t[p] == '-' && '-' !in t[..p] &&
                     NumberText(t[..p], false) && NumberText(t[p + 1..], true)
  }

  lemma LegibleNode(t: string)
    requires '-' !in t
    ensures ReadNode(t) != Bad <==> Legible(t)
  {
    NumberTextExactly(t);
    NoMinus(t);
  }

  lemma FirstIndexSplits(t: string, p: int)
    requires 0 <= p < |t| && t[p] == '-' && '-' !in t[..p]
    ensures FirstIndex(t, '-') == p
  {
    forall k | 0 <= k < p ensures t[k] != '-' {
      assert t[k] == t[..p][k];
    }
  }

  /** A number before the range sign is read up to it. */
  lemma FirstNumberReads(t: string, p: int, i: nat, j: nat)
    requires 0 <= p < |t| && t[p] == '-' && '-' !in t[..p] && NumberShape(t[..p], i, j, false)
    ensures Strtol(t, 10) == Read(Clamp(ValueOf(t[j..p], 10)), p)
  {
    var a := t[..p];
    assert NumberShape(a, i, j, true) && a[i] != '-' && a[j..] == t[j..p];
    NumberReads(a, t[p..], i, j);
    assert t == a + t[p..];
  }

  lemma FirstNumberEnds(t: string, p: int)
    requires 0 <= p < |t| && t[p] == '-' && '-' !in t[..p] && NumberText(t[..p], false)
    ensures Strtol(t, 10).end == p > 0
  {
    var i: nat, j: nat :| NumberShape(t[..p], i, j, false);
    FirstNumberReads(t, p, i, j);
  }

  lemma NotTaken(t: string, p: int, e: nat)
    requires 0 <= p < e < |t| && t[p] == t[e] == '-' && NumberText(t[..e], true)
    ensures !NumberText(t[p + 1..], true)
  {
    var i: nat, j: nat :| NumberShape(t[..e], i, j, true);
    assert t[..e][p] == '-';
    assert '0' <= t[..e][p + 1] <= '9' || p + 1 == e;
    assert t[p + 1..][e - p - 1] == '-' && t[p + 1..][0] == t[p + 1];
  }

  /** If the second number is legible, the first one cannot have taken the range sign for its
      own. */
  lemma FirstNumberIsBefore(t: string, p: int)
    requires 0 <= p < |t| && t[p] == '-' && '-' !in t[..p] && NumberText(t[p + 1..], true)
    requires var e := Strtol(t, 10).end; 0 < e < |t| && t[e] == '-'
    ensures Strtol(t, 10).end == p && NumberText(t[..p], false)
  {
    var e := Strtol(t, 10).end;
    StrtolShape(t);
    if e > p { NotTaken(t, p, e); }
    if e < p { assert false; }
    NoMinus(t[..p]);
  }

  lemma LegibleRange(t: string)
    requires '-' in t
    ensures ReadRange(t) != Bad <==> Legible(t)
  {
    var p := FirstIndex(t, '-');
    assert '-' !in t[..p];
    NumberTextExactly(t[p + 1..]);
    if ReadRange(t) != Bad {
      FirstNumberIsBefore(t, p);
    }
    if Legible(t) {
      var q :| 0 <= q < |t| && t[q] == '-' && '-' !in t[..q] &&
               NumberText(t[..q], false) && NumberText(t[q + 1..], true);
      FirstIndexSplits(t, q);
      FirstNumberEnds(t, q);
    }
  }

  lemma WholeReads(t: string, i: nat, j: nat)
    requires NumberShape(t, i, j, true)
    ensures Strtol(t, 10) == Read(Clamp(Signed(t[i] == '-', ValueOf(t[j..], 10))), |t|)
  {
    assert t + [] == t;
    NumberReads(t, [], i, j);
  }

  /** The id of a legible item without a range sign: the decimal value, clamped to long and
      cut to int. */
  lemma NodeValue(t: string, i: nat, j: nat)
    requires '-' !in t && NumberShape(t, i, j, false)
    ensures ReadItem(t) == One(ToInt(Clamp(ValueOf(t[j..], 10))))
  {
    assert NumberShape(t, i, j, true) && t[i] != '-';
    WholeReads(t, i, j);
  }

  lemma RangeIs(t: string, p: int, a: Read, b: Read)
    requires 0 < p < |t| && FirstIndex(t, '-') == p && t[p] == '-' && a.end == p
    requires a == Strtol(t, 10) && b == Strtol(t[p + 1..], 10) && 0 < b.end == |t| - (p + 1)
    ensures ReadItem(t) == Interval(ToInt(a.value), ToInt(b.value))
  {
  }

  /** The ends of a legible range, the second of which may have a minus sign. */
  lemma RangeValues(t: string, p: int, i: nat, j: nat, k: nat, l: nat)
    requires 0 <= p < |t| && t[p] == '-' && '-' !in t[..p]
    requires NumberShape(t[..p], i, j, false) && NumberShape(t[p + 1..], k, l, true)
    ensures var first, second := ValueOf(t[j..p], 10), ValueOf(t[p + 1..][l..], 10);
            ReadItem(t) == Interval(ToInt(Clamp(first)), ToInt(Clamp(Signed(t[p + 1..][k] == '-', second))))
  {
    FirstIndexSplits(t, p);
    FirstNumberReads(t, p, i, j);
    WholeReads(t[p + 1..], k, l);
    RangeIs(t, p, Strtol(t, 10), Strtol(t[p + 1..], 10));
  }

  /** Every text is rejected if and only if it is not legible. */
  lemma LegibleExactly(t: string)
    ensures ItemVerdict(ReadItem(t)) == Returned(-1) <==> !Legible(t)
  {
    if '-' in t { LegibleRange(t); } else { LegibleNode(t); }
  }

  /** What each item of a list comes to on its own. */
  function Verdicts(items: seq<string>): seq<Verdict> {
    seq(|items|, i requires 0 <= i < |items| => ItemVerdict(ReadItem(items[i])))
  }

  /** The first item that is not accepted; the number of items if all are. */
  function FirstTrouble(verdicts: seq<Verdict>): (k: nat)
    ensures k <= |verdicts|
    ensures forall i :: 0 <= i < k ==> verdicts[i] == Returned(1)
    ensures k < |verdicts| ==> verdicts[k] != Returned(1)
  {
    if verdicts == [] then 0
    else
      var front := verdicts[..|verdicts| - 1];
      var k := FirstTrouble(front);
      if k < |front| then k else if verdicts[|front|] == Returned(1) then |verdicts| else |front|
  }

  /** The verdict on a list is that of its first item that is not accepted. */
  function Overall(verdicts: seq<Verdict>): Verdict {
    var k := FirstTrouble(verdicts);
    if k == |verdicts| then Returned(1) else verdicts[k]
  }

  lemma {:induction false} OverallVerdict(items: seq<string>, max: nat)
    ensures ReadList(items, max).v == Overall(Verdicts(items))
    decreases |items|
  {
    if items != [] {
      var front := items[..|items| - 1];
      OverallVerdict(front, max);
      assert Verdicts(items)[..|items| - 1] == Verdicts(front);
    }
  }

  /** The item is legible, and does not make the parser count past the largest int. */
  ghost predicate Accepted(t: string) {
    Legible(t) && ItemVerdict(ReadItem(t)) != Endless
  }

  lemma AcceptedExactly(t: string)
    ensures ItemVerdict(ReadItem(t)) == Returned(1) <==> Accepted(t)
  {
    LegibleExactly(t);
  }

  lemma OverallOne(vs: seq<Verdict>)
    ensures Overall(vs) == Returned(1) <==> forall k :: 0 <= k < |vs| ==> vs[k] == Returned(1)
  {
  }

  lemma OverallMinus(vs: seq<Verdict>, k: nat)
    requires k < |vs| && vs[k] == Returned(-1) && forall i :: 0 <= i < k ==> vs[i] == Returned(1)
    ensures Overall(vs) == Returned(-1)
  {
  }

  /** The verdict on an arbitrary list: 1 if and only if every item is accepted. */
  lemma ListVerdict(items: seq<string>, max: nat)
    ensures ReadList(items, max).v == Returned(1) <==> forall k :: 0 <= k < |items| ==> Accepted(items[k])
  {
    OverallVerdict(items, max);
    OverallOne(Verdicts(items));
    forall k | 0 <= k < |items|
      ensures Verdicts(items)[k] == Returned(1) <==> Accepted(items[k])
    {
      AcceptedExactly(items[k]);
    }
  }

  /** And -1 if and only if there is an illegible item and all before the first one are
      accepted. */
  lemma ListRejected(items: seq<string>, max: nat)
    ensures ReadList(items, max).v == Returned(-1) <==>
            exists k :: 0 <= k < |items| && !Legible(items[k]) && forall i :: 0 <= i < k ==> Accepted(items[i])
  {
    OverallVerdict(items, max);
    var vs := Verdicts(items);
    forall k | 0 <= k < |items|
      ensures vs[k] == Returned(1) <==> Accepted(items[k])
      ensures vs[k] == Returned(-1) <==> !Legible(items[k])
    {
      AcceptedExactly(items[k]);
      LegibleExactly(items[k]);
    }
    if ReadList(items, max).v == Returned(-1) {
      var k := FirstTrouble(vs);
      assert !Legible(items[k]) && forall i :: 0 <= i < k ==> Accepted(items[i]);
    }
    if exists k :: 0 <= k < |items| && !Legible(items[k]) && forall i :: 0 <= i < k ==> Accepted(items[i]) {
      var k :| 0 <= k < |items| && !Legible(items[k]) && forall i :: 0 <= i < k ==> Accepted(items[i]);
      OverallMinus(vs, k);
    }
  }

  lemma EmptyIsBad()
    ensures ItemVerdict(ReadItem("")) == Returned(-1)
  {
    assert Strtol("", 10).end == 0;
  }

  /** A list with an empty item is never accepted; the parser returns -1 if and only if all
      items before its first illegible one are accepted, so that it gets there. */
  lemma EmptyItemIsRejected(s: string, max: nat)
    requires "" in Split(s)
    ensures ReadList(Split(s), max).v != Returned(1)
    ensures var vs := Verdicts(Split(s));
            ReadList(Split(s), max).v == Returned(-1) <==>
            exists k :: 0 <= k < |vs| && vs[k] == Returned(-1) && forall i :: 0 <= i < k ==> vs[i] == Returned(1)
  {
    var items := Split(s);
    var i :| 0 <= i < |items| && items[i] == "";
    EmptyIsBad();
    assert Verdicts(items)[i] == Returned(-1);
    OverallVerdict(items, max);
  }
}
