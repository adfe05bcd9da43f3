/** tools/krgcapset.c: capability names and numbers, and the four capability words of a
    process. A word is a 32-bit pattern; a long is stored in it by keeping its low bits. */
module Capabilities {
  import opened Bits
  import opened CText

  /** cap_text, indexed by capability number. */
  const NAMES: seq<string> := [
    "CHANGE_KERRIGHED_CAP",
    "CAN_MIGRATE",
    "DISTANT_FORK",
    "FORK_DELAY",
    "CHECKPOINTABLE",
    "USE_REMOTE_MEMORY",
    "USE_INTRA_CLUSTER_KERSTREAMS",
    "USE_INTER_CLUSTER_KERSTREAMS",
    "USE_WORLD_VISIBLE_KERSTREAMS",
    "SEE_LOCAL_PROC_STAT",
    "DEBUG",
    "SYSCALL_EXIT_HOOK"]

  const CAP_SIZE: nat := 12

  type Word = w: nat | w < TWO32

  /** The low 32 bits. */
  function ToWord(v: int): (r: Word)
    ensures (v - r) % TWO32 == 0
  {
    v % TWO32
  }

  /** strncmp with the length of the name: the token starts with it. */
  predicate Matches(token: string, i: nat)
    requires i < CAP_SIZE
  {
    NAMES[i] <= token
  }

  /** Capability `i` is the first one whose name the token starts with. */
  ghost predicate Selects(token: string, i: nat) {
    i < CAP_SIZE && Matches(token, i) && forall j: nat :: j < i ==> !Matches(token, j)
  }

  ghost predicate SomeSelects(tokens: seq<string>, i: nat) {
    exists t :: t in tokens && Selects(t, i)
  }

  /** The capabilities that the tokens of a list name. */
  ghost function Named(tokens: seq<string>): set<nat> {
    set i: nat | i < CAP_SIZE && SomeSelects(tokens, i)
  }

  /** A place where two names differ. */
  function Difference(i: nat, j: nat): nat
    requires i < j < CAP_SIZE
  {
    if NAMES[i][0] != NAMES[j][0] then 0
    else if i == 6 && j == 7 then 7
    else if i >= 5 && j <= 8 then 4
    else if i == 0 && j == 4 then 2
    else 1
  }

  lemma NamesDiffer(i: nat, j: nat)
    requires i < j < CAP_SIZE
    ensures var k := Difference(i, j); k < |NAMES[i]| && k < |NAMES[j]| && NAMES[i][k] != NAMES[j][k]
  {
  }

  /** No name is the beginning of another one, so a token selects a capability if and only
      if it starts with its name. */
  lemma SelectsIsMatches(token: string, i: nat)
    requires i < CAP_SIZE
    ensures Selects(token, i) <==> Matches(token, i)
  {
    forall j: nat | j < i && Matches(token, i) ensures !Matches(token, j) {
      NamesDiffer(j, i);
      assert token[Difference(j, i)] == NAMES[i][Difference(j, i)];
    }
  }

  // ---------------------------------------------------------------- lists of names

  /** The first capability whose name the token starts with; CAP_SIZE if there is none. */
  method FindName(token: string) returns (i: nat)
    ensures i <= CAP_SIZE
    ensures if i < CAP_SIZE then Selects(token, i) else forall j: nat :: !Selects(token, j)
  {
    i := 0;
    while i < CAP_SIZE
      invariant i <= CAP_SIZE && forall j: nat :: j < i ==> !Matches(token, j)
    {
      if NAMES[i] <= token {
        return;
      }
      i := i + 1;
    }
  }

  lemma SomeSelectsLast(tokens: seq<string>, t: string, i: nat)
    ensures SomeSelects(tokens + [t], i) <==> SomeSelects(tokens, i) || Selects(t, i)
  {
    assert t in tokens + [t];
    assert forall u :: u in tokens ==> u in tokens + [t];
  }

  /** The word has exactly the bits of the set. */
  ghost predicate IsWordOf(w: nat, caps: set<nat>) {
    forall k: nat :: Bit(w, k) <==> k in caps
  }

  ghost function BitsOf(w: Word): set<nat> {
    set k: nat | k < 32 && Bit(w, k)
  }

  lemma BitsOfWord(w: Word)
    ensures IsWordOf(w, BitsOf(w))
  {
    Pow32();
    forall k: nat | k >= 32 ensures !Bit(w, k) {
      NoHighBits(w, 32, k);
    }
  }

  /** res |= 1 << i, if the token was recognised. */
  method AddToken(w: nat, ghost before: seq<string>, token: string, i: nat) returns (res: nat)
    requires i <= CAP_SIZE && w < Pow2(CAP_SIZE)
    requires forall k: nat :: Bit(w, k) <==> SomeSelects(before, k)
    requires if i < CAP_SIZE then Selects(token, i) else forall j: nat :: !Selects(token, j)
    ensures res < Pow2(CAP_SIZE)
    ensures forall k: nat :: Bit(res, k) <==> SomeSelects(before + [token], k)
  {
    res := w;
    if i < CAP_SIZE {
      res := SetBit(w, i);
      SetBitFits(w, i, CAP_SIZE);
    }
    forall k: nat ensures Bit(res, k) <==> SomeSelects(before + [token], k) {
      SomeSelectsLast(before, token, k);
      SetBitBits(w, i, k);
    }
  }

  /** Some token begins with the name of capability `k`. */
  ghost predicate Mentions(tokens: seq<string>, k: nat) {
    k < CAP_SIZE && exists t :: t in tokens && NAMES[k] <= t
  }

  /** The tokens that begin with a name turn on its bit, and nothing else turns on any. */
  lemma NamedExactly(tokens: seq<string>, k: nat)
    ensures k in Named(tokens) <==> Mentions(tokens, k)
  {
    if k < CAP_SIZE {
      forall t | t in tokens ensures Selects(t, k) <==> NAMES[k] <= t {
        SelectsIsMatches(t, k);
      }
    }
  }

  /** construct_capability. The word it returns has on exactly the bits that some token
      names; unknown tokens only cause a message. */
  method ConstructCapability(description: string) returns (res: Word)
    ensures IsWordOf(res, Named(Split(description))) && res < Pow2(CAP_SIZE)
    ensures forall k: nat :: Bit(res, k) <==> Mentions(Split(description), k)
  {
    var tokens := Split(description);
    var w: nat := 0;
    forall k: nat ensures !Bit(0, k) {
      NoBitsInZero(k);
    }
    for n := 0 to |tokens|
      invariant w < Pow2(CAP_SIZE)
      invariant forall k: nat :: Bit(w, k) <==> SomeSelects(tokens[..n], k)
    {
      var i := FindName(tokens[n]);
      w := AddToken(w, tokens[..n], tokens[n], i);
      assert tokens[..n + 1] == tokens[..n] + [tokens[n]];
    }
    assert tokens[..|tokens|] == tokens;
    assert Pow2(12) == 4096;
    res := w;
    assert IsWordOf(res, Named(tokens));
    forall k: nat ensures k in Named(tokens) <==> Mentions(tokens, k) {
      NamedExactly(tokens, k);
    }
  }

  /** What a list with its optional sign makes of the capabilities a process has. */
  ghost function Updated(description: string, had: set<nat>): set<nat> {
    if description != "" && description[0] == '+' then had + Named(Split(description[1..]))
    else if description != "" && description[0] == '-' then had - Named(Split(description[1..]))
    else Named(Split(description))
  }

  /** update_capability: union, difference or replacement. */
  method UpdateCapability(description: string, oldcapability: Word) returns (res: Word)
    ensures IsWordOf(res, Updated(description, BitsOf(oldcapability)))
    ensures description != "" && description[0] == '+' ==>
              forall k: nat :: Bit(res, k) <==> Bit(oldcapability, k) || k in Named(Split(description[1..]))
    ensures description != "" && description[0] == '-' ==>
              forall k: nat :: Bit(res, k) <==> Bit(oldcapability, k) && k !in Named(Split(description[1..]))
    ensures description == "" || (description[0] != '+' && description[0] != '-') ==>
              forall k: nat :: Bit(res, k) <==> k in Named(Split(description))
  {
    ghost var had := BitsOf(oldcapability);
    BitsOfWord(oldcapability);
    if description != "" && description[0] == '+' {
      var tmp := ConstructCapability(description[1..]);
      Pow32();
      OrFits(tmp, oldcapability, 32);
      res := Or(tmp, oldcapability);
      forall k: nat ensures Bit(res, k) <==> k in Updated(description, had) {
        OrBits(tmp, oldcapability, k);
      }
    } else if description != "" && description[0] == '-' {
      var tmp := ConstructCapability(description[1..]);
      AndNotFits(oldcapability, tmp);
      res := AndNot(oldcapability, tmp);
      forall k: nat ensures Bit(res, k) <==> k in Updated(description, had) {
        AndNotBits(oldcapability, tmp, k);
      }
    } else {
      res := ConstructCapability(description);
    }
  }

  /** The bits that a list turns on, off or into depend only on which tokens occur in it:
      neither their order nor repetitions matter. */
  lemma OrderIsIrrelevant(a: seq<string>, b: seq<string>)
    requires forall t :: t in a <==> t in b
    ensures Named(a) == Named(b)
  {
    forall i: nat ensures SomeSelects(a, i) <==> SomeSelects(b, i) {
    }
  }

  /** And a word is determined by its bits, so the results are equal as numbers. */
  lemma WordIsDetermined(v: nat, w: nat, caps: set<nat>)
    requires IsWordOf(v, caps) && IsWordOf(w, caps)
    ensures v == w
  {
    SameBitsSameWord(v, w);
  }

  // ---------------------------------------------------------------- numbers

  /** What print_capabilities writes for a word: 0%o. */
  function Printed(w: Word): string {
    "0" + Numeral(w, 8)
  }

  lemma PrintedReads(w: Word)
    ensures Strtol(Printed(w), 0) == Read(w, |Printed(w)|)
  {
    NumeralReads(w, 8);
    LeadingZero(Numeral(w, 8), 8);
    StrtolOctal(Printed(w));
  }

  /** What an option argument makes of a set of capabilities: the bits of the number if all
      of it is one, and the effect of the list of names otherwise. */
  ghost function AfterOption(arg: string, had: set<nat>): set<nat> {
    var n := Strtol(arg, 0);
    if n.end == |arg| then BitsOf(ToWord(n.value)) else Updated(arg, had)
  }

  /** A sign and something that is not a digit: not a number, but a list of names. */
  predicate IsList(arg: string, sign: char) {
    arg != "" && arg[0] == sign && (|arg| == 1 || !('0' <= arg[1] <= '9'))
  }

  lemma ListIsNoNumber(arg: string)
    requires IsList(arg, '+') || IsList(arg, '-')
    ensures Strtol(arg, 0).end == 0
  {
    assert SpaceRun(arg) == 0 && arg[0..] == arg;
    if |arg| > 1 { assert arg[1..][0] == arg[1]; }
  }

  /** `+` and a list of names keeps what there was and turns on what the list names. */
  lemma PlusTurnsOn(arg: string, had: set<nat>)
    requires IsList(arg, '+')
    ensures AfterOption(arg, had) == had + Named(Split(arg[1..]))
  {
    ListIsNoNumber(arg);
  }

  /** `-` and a list of names turns off what the list names and nothing else. */
  lemma MinusTurnsOff(arg: string, had: set<nat>)
    requires IsList(arg, '-')
    ensures AfterOption(arg, had) == had - Named(Split(arg[1..]))
  {
    ListIsNoNumber(arg);
  }

  lemma NumberReplaces(arg: string, v: int, had: set<nat>)
    requires Strtol(arg, 0) == Read(v, |arg|)
    ensures AfterOption(arg, had) == BitsOf(ToWord(v))
  {
  }

  /** `v` is what a decimal, octal or hexadecimal text stands for after its sign. */
  ghost predicate StandsFor(t: string, v: int) {
    || (t != [] && t[0] != '0' && (forall k :: 0 <= k < |t| ==> '0' <= t[k] <= '9') && v == ValueOf(t, 10))
    || (t != [] && t[0] == '0' && (forall k :: 0 <= k < |t| ==> '0' <= t[k] <= '7') && v == ValueOf(t, 8))
    || (|t| > 2 && t[0] == '0' && (t[1] == 'x' || t[1] == 'X') && (forall k :: 2 <= k < |t| ==> HexDigit(t[k])) &&
        v == ValueOf(t[2..], 16))
  }

  lemma NumberIsRead(sign: string, t: string, v: int)
    requires IsSign(sign) && StandsFor(t, v)
    ensures Strtol(sign + t, 0) == Read(Clamp(Signed(sign == "-", v)), |sign| + |t|)
  {
    if t[0] != '0' {
      DecimalInBaseZero(sign, t);
    } else if |t| > 1 && (t[1] == 'x' || t[1] == 'X') {
      HexInBaseZero(sign, t);
    } else {
      OctalInBaseZero(sign, t);
    }
  }

  /** A number, positive or negative, replaces the word by its low 32 bits, whatever the
      process has. */
  lemma NumberSets(arg: string, sign: string, t: string, v: int, had: set<nat>)
    requires IsSign(sign) && StandsFor(t, v) && arg == sign + t
    ensures AfterOption(arg, had) == BitsOf(ToWord(Clamp(Signed(sign == "-", v))))
  {
    NumberIsRead(sign, t, v);
    NumberReplaces(arg, Clamp(Signed(sign == "-", v)), had);
  }

  /** An argument that is neither a number nor begins with a sign is a list of names, and
      replaces the word by what the list names. */
  lemma NamesReplace(arg: string, had: set<nat>)
    requires arg != "" && !Blank(arg[0]) && arg[0] != '+' && arg[0] != '-' && !('0' <= arg[0] <= '9')
    ensures AfterOption(arg, had) == Named(Split(arg))
  {
    NothingRead(arg);
  }

  /** So does a number with something behind it. */
  lemma NumberAndMoreIsNoNumber(t: string, u: string, had: set<nat>)
    requires t != [] && t[0] != '0' && (forall k :: 0 <= k < |t| ==> '0' <= t[k] <= '9')
    requires u != [] && !('0' <= u[0] <= '9')
    ensures AfterOption(t + u, had) == Named(Split(t + u))
  {
    DecimalThenText(t, u);
    assert (t + u)[0] == t[0];
  }

  method NewValue(arg: string, oldcapability: Word) returns (res: Word)
    ensures IsWordOf(res, AfterOption(arg, BitsOf(oldcapability)))
  {
    var n := Strtol(arg, 0);
    if n.end != |arg| {
      res := UpdateCapability(arg, oldcapability);
    } else {
      res := ToWord(n.value);
      BitsOfWord(res);
    }
  }

  /** The round trip: giving back the number that was shown restores the word, whatever the
      process has now. It holds for all 32-bit words, the negative ones included. */
  lemma ShowThenSet(w: Word, had: set<nat>)
    ensures AfterOption(Printed(w), had) == BitsOf(w)
  {
    PrintedReads(w);
  }

  // ---------------------------------------------------------------- the second pass

  /** -e, -p, -i and -d with their arguments; everything else is skipped. */
  datatype Option = Effective(arg: string) | Permitted(arg: string)
                  | InheritablePermitted(arg: string) | InheritableEffective(arg: string) | Other

  datatype Field = E | P | I | D

  predicate IsFor(o: Option, f: Field) {
    match f
    case E => o.Effective?
    case P => o.Permitted?
    case I => o.InheritablePermitted?
    case D => o.InheritableEffective?
  }

  /** The options for one field, applied from left to right. */
  ghost function Applied(options: seq<Option>, f: Field, had: set<nat>): set<nat> {
    if options == [] then had
    else
      var before := Applied(options[..|options| - 1], f, had);
      var o := options[|options| - 1];
      if IsFor(o, f) then AfterOption(o.arg, before) else before
  }

  lemma AppliedLast(options: seq<Option>, o: Option, f: Field, had: set<nat>)
    ensures Applied(options + [o], f, had) ==
            var before := Applied(options, f, had);
            if IsFor(o, f) then AfterOption(o.arg, before) else before
  {
    assert (options + [o])[..|options + [o]| - 1] == options;
  }

  /** After `+L` and then `-L` for one field, whatever came before, the bits the list names
      are off and all others are as they were before the two. */
  lemma PlusThenMinus(options: seq<Option>, plus: Option, minus: Option, f: Field, had: set<nat>)
    requires IsFor(plus, f) && IsFor(minus, f) && IsList(plus.arg, '+') && IsList(minus.arg, '-')
    requires plus.arg[1..] == minus.arg[1..]
    ensures Applied(options + [plus] + [minus], f, had) ==
            Applied(options, f, had) - Named(Split(minus.arg[1..]))
  {
    AppliedLast(options, plus, f, had);
    AppliedLast(options + [plus], minus, f, had);
    PlusTurnsOn(plus.arg, Applied(options, f, had));
    MinusTurnsOff(minus.arg, Applied(options + [plus], f, had));
  }

  /** Lists with a plus sign only ever turn bits on, lists with a minus sign only off. */
  lemma {:induction false} OnlyUp(options: seq<Option>, f: Field, had: set<nat>)
    requires forall k :: 0 <= k < |options| && IsFor(options[k], f) ==> IsList(options[k].arg, '+')
    ensures had <= Applied(options, f, had)
    decreases |options|
  {
    if options != [] {
      var front, o := options[..|options| - 1], options[|options| - 1];
      OnlyUp(front, f, had);
      if IsFor(o, f) { PlusTurnsOn(o.arg, Applied(front, f, had)); }
    }
  }

  lemma {:induction false} OnlyDown(options: seq<Option>, f: Field, had: set<nat>)
    requires forall k :: 0 <= k < |options| && IsFor(options[k], f) ==> IsList(options[k].arg, '-')
    ensures Applied(options, f, had) <= had
    decreases |options|
  {
    if options != [] {
      var front, o := options[..|options| - 1], options[|options| - 1];
      OnlyDown(front, f, had);
      if IsFor(o, f) { MinusTurnsOff(o.arg, Applied(front, f, had)); }
    }
  }

  /** A word is what the options so far make of the word it started as. */
  ghost predicate Follows(w: Word, options: seq<Option>, f: Field, start: Word) {
    BitsOf(w) == Applied(options, f, BitsOf(start))
  }

  lemma FollowsOther(w: Word, options: seq<Option>, o: Option, f: Field, start: Word)
    requires Follows(w, options, f, start) && !IsFor(o, f)
    ensures Follows(w, options + [o], f, start)
  {
    AppliedLast(options, o, f, BitsOf(start));
  }

  lemma FollowsOwn(w: Word, w': Word, options: seq<Option>, o: Option, f: Field, start: Word)
    requires Follows(w, options, f, start) && IsFor(o, f)
    requires IsWordOf(w', AfterOption(o.arg, BitsOf(w)))
    ensures Follows(w', options + [o], f, start)
  {
    AppliedLast(options, o, f, BitsOf(start));
    Pow32();
    forall k: nat | k >= 32 ensures !Bit(w', k) {
      NoHighBits(w', 32, k);
    }
    assert BitsOf(w') == AfterOption(o.arg, BitsOf(w));
  }

  lemma OptionFollows(w: Word, w': Word, options: seq<Option>, o: Option, f: Field, start: Word)
    requires Follows(w, options, f, start)
    requires if IsFor(o, f) then IsWordOf(w', AfterOption(o.arg, BitsOf(w))) else w' == w
    ensures Follows(w', options + [o], f, start)
  {
    if IsFor(o, f) {
      FollowsOwn(w, w', options, o, f, start);
    } else {
      FollowsOther(w, options, o, f, start);
    }
  }

  class Caps {
    var effective: Word
    var permitted: Word
    var inheritablePermitted: Word
    var inheritableEffective: Word

    ghost function Get(f: Field): Word
      reads this
    {
      match f
      case E => effective
      case P => permitted
      case I => inheritablePermitted
      case D => inheritableEffective
    }

    constructor (e: Word, p: Word, i: Word, d: Word)
      ensures Get(E) == e && Get(P) == p && Get(I) == i && Get(D) == d
    {
      effective, permitted, inheritablePermitted, inheritableEffective := e, p, i, d;
    }

    /** One option: only the field it is for changes. */
    method Apply(o: Option)
      modifies this
      ensures if o.Effective? then IsWordOf(effective, AfterOption(o.arg, BitsOf(old(effective))))
              else effective == old(effective)
      ensures if o.Permitted? then IsWordOf(permitted, AfterOption(o.arg, BitsOf(old(permitted))))
              else permitted == old(permitted)
      ensures if o.InheritablePermitted?
              then IsWordOf(inheritablePermitted, AfterOption(o.arg, BitsOf(old(inheritablePermitted))))
              else inheritablePermitted == old(inheritablePermitted)
      ensures if o.InheritableEffective?
              then IsWordOf(inheritableEffective, AfterOption(o.arg, BitsOf(old(inheritableEffective))))
              else inheritableEffective == old(inheritableEffective)
    {
      match o
      case Effective(arg) => effective := NewValue(arg, effective);
      case Permitted(arg) => permitted := NewValue(arg, permitted);
      case InheritablePermitted(arg) => inheritablePermitted := NewValue(arg, inheritablePermitted);
      case InheritableEffective(arg) => inheritableEffective := NewValue(arg, inheritableEffective);
      case Other =>
    }

    /** The second pass of main: each field ends as its own options make it, in order, and
        options for one field never touch another. */
    method SecondPass(options: seq<Option>) returns (changed: bool)
      modifies this
      ensures Follows(effective, options, E, old(effective)) && Follows(permitted, options, P, old(permitted))
      ensures Follows(inheritablePermitted, options, I, old(inheritablePermitted))
      ensures Follows(inheritableEffective, options, D, old(inheritableEffective))
      ensures !changed ==> forall f :: Get(f) == old(Get(f))
    {
      changed := false;
      for n := 0 to |options|
        invariant forall f :: Follows(Get(f), options[..n], f, old(Get(f)))
        invariant !changed ==> forall f :: Get(f) == old(Get(f))
      {
        ghost var e, p, i, d := Get(E), Get(P), Get(I), Get(D);
        var o := options[n];
        Apply(o);
        changed := changed || !o.Other?;
        forall f ensures Follows(Get(f), options[..n] + [o], f, old(Get(f))) {
          ghost var w := match f case E => e case P => p case I => i case D => d;
          OptionFollows(w, Get(f), options[..n], o, f, old(Get(f)));
        }
        assert options[..n + 1] == options[..n] + [o];
      }
      assert options[..|options|] == options;
      assert Follows(Get(E), options, E, old(Get(E))) && Follows(Get(P), options, P, old(Get(P)));
      assert Follows(Get(I), options, I, old(Get(I))) && Follows(Get(D), options, D, old(Get(D)));
    }
  }
}
