/** node_set_str of tools/krgadm.c, the bound on its buffer, and the round trip with the
    node list parser. */
module NodePrinter {
  import opened CText
  import NodeSet
  import NodeList

  // ---------------------------------------------------------------- the text

  function Appended(text: string, n: nat): string {
    (if text == "" then "" else text + [COMMA]) + Numeral(n, 10)
  }

  /** The ids below `i` in ascending order, in decimal, with commas between them. */
  function Listing(v: seq<int>, i: nat): string
    requires i <= |v|
  {
    if i == 0 then ""
    else if v[i - 1] == 0 then Listing(v, i - 1)
    else Appended(Listing(v, i - 1), i - 1)
  }

  function BufferSize(max: nat): nat { max * 4 + 2 }

  /** What is printed for a set. */
  function Bracketed(v: seq<int>): string {
    "[" + Listing(v, |v|) + "]"
  }

  /** The bracketed text fits the buffer that the printer allocates. */
  predicate Fits(v: seq<int>) {
    |Bracketed(v)| <= BufferSize(|v|)
  }

  lemma {:induction false} ListingSkips(v: seq<int>, i: nat, j: nat)
    requires i <= j <= |v| && forall k :: i <= k < j ==> v[k] == 0
    ensures Listing(v, j) == Listing(v, i)
  {
    if i < j { ListingSkips(v, i, j - 1); }
  }

  lemma {:induction false} ListingGrows(v: seq<int>, i: nat, j: nat)
    requires i <= j <= |v|
    ensures |Listing(v, i)| <= |Listing(v, j)|
  {
    if i < j { ListingGrows(v, i, j - 1); }
  }

  // ---------------------------------------------------------------- the printer

  /** snprintf(str + at, size, "%d", n) where the text and its terminator fit. */
  method PrintNumber(str: array<char>, at: nat, size: nat, n: nat) returns (length: nat)
    requires at + |Numeral(n, 10)| < str.Length && |Numeral(n, 10)| < size
    modifies str
    ensures length == |Numeral(n, 10)|
    ensures str[..at + length] == old(str[..at]) + Numeral(n, 10)
    ensures forall j :: at + length < j < str.Length ==> str[j] == old(str[j])
  {
    var text := Numeral(n, 10);
    length := |text|;
    for k := 0 to length
      invariant str[..at + k] == old(str[..at]) + text[..k]
      invariant forall j :: at + k <= j < str.Length ==> str[j] == old(str[j])
    {
      str[at + k] := text[k];
    }
    str[at + length] := '\0';
  }

  /** One pass of the loop in node_set_str. */
  method PrintNode(str: array<char>, at: nat, node: nat, ghost text: string) returns (i: nat)
    requires at == 1 + |text| <= str.Length && str[..at] == "[" + text
    requires |Appended(text, node)| + 2 <= str.Length
    modifies str
    ensures i == 1 + |Appended(text, node)|
    ensures str[..i] == "[" + Appended(text, node)
    ensures forall j :: i < j < str.Length ==> str[j] == old(str[j])
  {
    i := at;
    if i > 1 {
      str[i] := COMMA;
      i := i + 1;
    }
    assert str[..i] == "[" + (if text == "" then "" else text + [COMMA]);
    var n := PrintNumber(str, i, str.Length, node);
    i := i + n;
  }

  /** Between an id and the next one there is nothing to print. */
  lemma NextSkips(v: seq<int>, members: set<int>, node: int, next: int)
    requires -1 <= node < |v| && members == set i | 0 <= i < |v| && v[i] != 0
    requires NodeSet.IsNext(members, node, next)
    ensures next == -1 ==> Listing(v, |v|) == Listing(v, node + 1)
    ensures next != -1 ==> node < next < |v| && v[next] != 0 && Listing(v, next) == Listing(v, node + 1)
  {
    var upTo := if next == -1 then |v| else next;
    forall k | node + 1 <= k < upTo ensures v[k] == 0 {
      assert v[k] != 0 ==> k in members;
    }
    ListingSkips(v, node + 1, upTo);
  }

  /** The loop of node_set_str, behind the opening bracket. */
  method PrintNodes(nodes: NodeSet.Vector, str: array<char>) returns (i: nat)
    requires nodes.Valid() && Fits(nodes.v[..]) && str.Length == BufferSize(nodes.v.Length) && str[0] == '['
    modifies str
    ensures i == 1 + |Listing(nodes.v[..], nodes.v.Length)|
    ensures str[..i] == "[" + Listing(nodes.v[..], nodes.v.Length)
    ensures forall j :: i < j < str.Length ==> str[j] == old(str[j])
  {
    ghost var v := nodes.v[..];
    i := 1;
    ghost var done := 0;
    var node := nodes.Next(-1);
    NextSkips(v, nodes.Members(), -1, node);
    while node != -1
      modifies str
      invariant 0 <= done <= |v| && i == 1 + |Listing(v, done)| < str.Length
      invariant -1 <= node < |v|
      invariant if node == -1 then Listing(v, |v|) == Listing(v, done)
                else done <= node && v[node] != 0 && Listing(v, node) == Listing(v, done)
      invariant str[..i] == "[" + Listing(v, done)
      invariant forall j :: i < j < str.Length ==> str[j] == old(str[j])
      invariant nodes.v[..] == v
      decreases if node == -1 then 0 else |v| - node
    {
      ListingGrows(v, node + 1, |v|);
      i := PrintNode(str, i, node, Listing(v, done));
      done := node + 1;
      node := nodes.Next(node);
      NextSkips(v, nodes.Members(), done - 1, node);
    }
  }

  /** node_set_str. `junk` is what malloc returns memory full of. All writes are inside the
      buffer, which then holds the bracketed list and, behind it, what it held before. */
  method NodeSetStr(nodes: NodeSet.Vector, junk: seq<char>) returns (str: array<char>, end: nat)
    requires nodes.Valid() && Fits(nodes.v[..]) && |junk| == BufferSize(nodes.v.Length)
    ensures fresh(str) && str.Length == BufferSize(nodes.v.Length) && end < str.Length
    ensures str[..] == Bracketed(nodes.v[..]) + junk[end + 1..] && end + 1 == |Bracketed(nodes.v[..])|
    ensures str.Length == 4 * nodes.v.Length + 2 && str[0] == '[' && str[end] == ']'
  {
    var l := BufferSize(nodes.v.Length);
    str := new char[l](k requires 0 <= k < l => junk[k]);
    str[0] := '[';
    end := PrintNodes(nodes, str);
    str[end] := ']';
    assert str[..end + 1] == Bracketed(nodes.v[..]);
    assert str[end + 1..] == junk[end + 1..];
    assert str[..] == str[..end + 1] + str[end + 1..];
  }

  // ---------------------------------------------------------------- its missing terminator

  /** The C string in buffer `b` is `text`. */
  ghost predicate IsString(b: seq<char>, text: string) {
    NodeList.Terminated(b, 0) && NodeList.CStr(b, 0) == text
  }

  lemma NumeralHasNoNul(n: nat)
    ensures '\0' !in Numeral(n, 10)
  {
    NumeralReads(n, 10);
    assert !IsDigit('\0', 10);
  }

  lemma {:induction false} ListingHasNoNul(v: seq<int>, i: nat)
    requires i <= |v|
    ensures '\0' !in Listing(v, i)
  {
    if i > 0 {
      ListingHasNoNul(v, i - 1);
      NumeralHasNoNul(i - 1);
    }
  }

  lemma BracketedHasNoNul(v: seq<int>)
    ensures '\0' !in Bracketed(v)
  {
    ListingHasNoNul(v, |v|);
  }

  lemma StringEndsAtNul(b: seq<char>, text: string)
    requires text <= b && '\0' !in text
    ensures IsString(b, text) <==> |text| < |b| && b[|text|] == '\0'
  {
    if |text| < |b| && b[|text|] == '\0' {
      assert forall i :: 0 <= i < |text| ==> text[i] == b[0 + i] && text[i] != '\0';
      NodeList.HoldsIsCStr(b, 0, text);
    }
    if IsString(b, text) {
      NodeList.CStrHolds(b, 0);
    }
  }

  /** The exact condition: what the printer leaves in its buffer is the bracketed list as a C
      string if and only if the next byte exists and happened to be zero. */
  lemma StringExactlyByLuck(v: seq<int>, junk: seq<char>)
    requires Fits(v) && |junk| == BufferSize(|v|)
    ensures var end := |Bracketed(v)| - 1;
            IsString(Bracketed(v) + junk[end + 1..], Bracketed(v)) <==>
            end + 1 < |junk| && junk[end + 1] == '\0'
  {
    BracketedHasNoNul(v);
    StringEndsAtNul(Bracketed(v) + junk[|Bracketed(v)|..], Bracketed(v));
  }

  /** Memory without a zero byte never makes a string of it. */
  lemma NoZeroNoString(v: seq<int>, junk: seq<char>)
    requires Fits(v) && |junk| == BufferSize(|v|) && '\0' !in junk
    ensures !IsString(Bracketed(v) + junk[|Bracketed(v)|..], Bracketed(v))
  {
    StringExactlyByLuck(v, junk);
  }

  // ---------------------------------------------------------------- how long it can get

  /** The length of the listing of all ids below `n`. */
  function FullLength(n: nat): nat {
    if n <= 1 then n else FullLength(n - 1) + 1 + |Numeral(n - 1, 10)|
  }

  lemma NumeralNonEmpty(n: nat)
    ensures |Numeral(n, 10)| >= 1
    ensures n < 10 ==> |Numeral(n, 10)| == 1
  {
  }

  lemma NumeralLength(n: nat)
    ensures n < 10 ==> |Numeral(n, 10)| == 1
    ensures 10 <= n < 100 ==> |Numeral(n, 10)| == 2
    ensures 100 <= n < 1000 ==> |Numeral(n, 10)| == 3
    ensures 1000 <= n ==> |Numeral(n, 10)| >= 4
    ensures 1000 <= n < 10000 ==> |Numeral(n, 10)| == 4
  {
    if n >= 10 {
      var q := n / 10;
      if q >= 10 {
        var r := q / 10;
        if r >= 10 {
          assert Numeral(r, 10) == Numeral(r / 10, 10) + [DigitChar(r % 10)];
          NumeralNonEmpty(r / 10);
        }
      }
    }
  }

  lemma {:induction false} FullLengthSmall(n: nat)
    requires 1 <= n <= 1000
    ensures n <= 10 ==> FullLength(n) == 2 * n - 1
    ensures 10 <= n <= 100 ==> FullLength(n) == 3 * n - 11
    ensures 100 <= n <= 1000 ==> FullLength(n) == 4 * n - 111
  {
    if n > 1 {
      FullLengthSmall(n - 1);
      NumeralLength(n - 1);
    }
  }

  lemma {:induction false} FullLengthLarge(n: nat)
    requires 1000 <= n
    ensures FullLength(n) >= 5 * n - 1111
    ensures n <= 10000 ==> FullLength(n) == 5 * n - 1111
  {
    if n == 1000 {
      FullLengthSmall(1000);
    } else {
      FullLengthLarge(n - 1);
      NumeralLength(n - 1);
    }
  }

  lemma {:induction false} ListingNotLonger(v: seq<int>, i: nat)
    requires i <= |v|
    ensures |Listing(v, i)| <= FullLength(i)
  {
    if i > 0 {
      ListingNotLonger(v, i - 1);
      NumeralNonEmpty(i - 1);
    }
  }

  function Everything(max: nat): seq<int> { seq(max, i => 1) }

  lemma {:induction false} ListingOfEverything(max: nat, i: nat)
    requires i <= max
    ensures |Listing(Everything(max), i)| == FullLength(i)
  {
    if i > 0 {
      ListingOfEverything(max, i - 1);
      NumeralNonEmpty(i - 1);
    }
  }

  /** The exact bound: the buffer is large enough for every set of nodes if and only if
      there are at most 1111 nodes. The mask allows 256. */
  lemma BufferSufficesExactly(max: nat)
    ensures (forall v: seq<int> :: |v| == max ==> Fits(v)) <==> max <= 1111
  {
    if max <= 1111 {
      forall v: seq<int> | |v| == max ensures Fits(v) {
        ListingNotLonger(v, max);
        if 1 <= max <= 1000 {
          FullLengthSmall(max);
        } else if max > 1000 {
          FullLengthLarge(max);
        }
      }
    } else {
      ListingOfEverything(max, max);
      FullLengthLarge(max);
      assert !Fits(Everything(max));
    }
  }

  /** The set of all 1111 nodes fills the buffer and leaves no byte for a terminator. */
  lemma FullSetIsNeverAString()
    ensures var text := Bracketed(Everything(1111)); |text| == BufferSize(1111) && !IsString(text, text)
  {
    var v := Everything(1111);
    ListingOfEverything(1111, 1111);
    FullLengthLarge(1111);
    BracketedHasNoNul(v);
    StringEndsAtNul(Bracketed(v), Bracketed(v));
  }

  // ---------------------------------------------------------------- the round trip

  /** The ids below `i` as list entries. */
  function Entries(v: seq<int>, i: nat): seq<NodeList.Entry>
    requires i <= |v|
  {
    if i == 0 then []
    else if v[i - 1] == 0 then Entries(v, i - 1)
    else Entries(v, i - 1) + [NodeList.Single(Numeral(i - 1, 10))]
  }

  lemma JoinMore(entries: seq<NodeList.Entry>, e: NodeList.Entry)
    requires |entries| > 0
    ensures NodeList.Join(NodeList.Texts(entries + [e])) ==
            NodeList.Join(NodeList.Texts(entries)) + [COMMA] + NodeList.Text(e)
  {
    NodeList.TextsLast(entries + [e]);
    assert (entries + [e])[..|entries|] == entries;
    var items := NodeList.Texts(entries);
    assert (items + [NodeList.Text(e)])[..|items|] == items;
  }

  lemma JoinOne(e: NodeList.Entry)
    ensures NodeList.Join(NodeList.Texts([e])) == NodeList.Text(e)
  {
  }

  lemma {:induction false} ListingIsJoin(v: seq<int>, i: nat)
    requires i <= |v|
    ensures Entries(v, i) == [] <==> Listing(v, i) == ""
    ensures Entries(v, i) != [] ==> Listing(v, i) == NodeList.Join(NodeList.Texts(Entries(v, i)))
  {
    if i > 0 {
      ListingIsJoin(v, i - 1);
      if v[i - 1] != 0 {
        var e := NodeList.Single(Numeral(i - 1, 10));
        NumeralNonEmpty(i - 1);
        if Entries(v, i - 1) == [] {
          JoinOne(e);
          assert [] + [e] == [e];
        } else {
          JoinMore(Entries(v, i - 1), e);
        }
      }
    }
  }

  lemma {:induction false} EntriesWellFormed(v: seq<int>, i: nat)
    requires i <= |v| <= INT_MAX + 1
    ensures forall k :: 0 <= k < |Entries(v, i)| ==> NodeList.WellFormed(Entries(v, i)[k])
  {
    if i > 0 {
      EntriesWellFormed(v, i - 1);
      NumeralReads(i - 1, 10);
    }
  }

  lemma {:induction false} EntriesDenoteMembers(v: seq<int>, i: nat, x: int)
    requires i <= |v|
    ensures NodeList.SomeDenotes(Entries(v, i), x) <==> 0 <= x < i && v[x] != 0
  {
    if i > 0 {
      EntriesDenoteMembers(v, i - 1, x);
      if v[i - 1] != 0 {
        NumeralReads(i - 1, 10);
        NodeList.SomeDenotesLast(Entries(v, i), x);
        assert Entries(v, i)[..|Entries(v, i)| - 1] == Entries(v, i - 1);
      }
    }
  }

  lemma {:induction false} EntriesAreSingle(v: seq<int>, i: nat)
    requires i <= |v|
    ensures forall k :: 0 <= k < |Entries(v, i)| ==> Entries(v, i)[k].Single?
  {
    if i > 0 { EntriesAreSingle(v, i - 1); }
  }

  lemma EntriesDenote(v: seq<int>, members: set<int>)
    requires |v| <= INT_MAX + 1 && members == (set i | 0 <= i < |v| && v[i] != 0)
    ensures var entries := Entries(v, |v|);
            && (forall k :: 0 <= k < |entries| ==> NodeList.WellFormed(entries[k]) && !NodeList.Overflows(entries[k]))
            && NodeList.Denoted(entries, |v|) == members
  {
    EntriesWellFormed(v, |v|);
    EntriesAreSingle(v, |v|);
    forall x: int ensures NodeList.SomeDenotes(Entries(v, |v|), x) <==> 0 <= x < |v| && v[x] != 0 {
      EntriesDenoteMembers(v, |v|, x);
    }
  }

  /** The round trip: for every set of nodes that is not empty, parsing the text between
      the brackets gives exactly that set back. */
  lemma PrintParseRoundTrip(v: seq<int>, members: set<int>)
    requires |v| <= INT_MAX + 1 && members == (set i | 0 <= i < |v| && v[i] != 0) && members != {}
    ensures NodeList.ReadList(Split(Listing(v, |v|)), |v|) == NodeList.Outcome(NodeList.Returned(1), members)
  {
    var entries := Entries(v, |v|);
    EntriesDenote(v, members);
    ListingIsJoin(v, |v|);
    if entries != [] {
      NodeList.ListMeaning(entries, |v|);
    }
  }

  /** The empty set prints as nothing between the brackets, which the parser rejects. */
  lemma EmptySetDoesNotRoundTrip(v: seq<int>)
    requires forall i :: 0 <= i < |v| ==> v[i] == 0
    ensures Listing(v, |v|) == ""
    ensures NodeList.ReadList(Split(""), |v|).v == NodeList.Returned(-1)
  {
    ListingSkips(v, 0, |v|);
    SplitSingle("");
    NodeList.EmptyItemIsRejected("", |v|);
  }
}
