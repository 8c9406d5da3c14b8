/**
  The C ABI of the solver: masks in, a return code and a postfix tree out. The tree is written
  as 32-bit integers, a relation as itself and a join on edge e as -1 - e, and read back by a
  stack machine.
 */
module Postfix {
  import opened Basics
  import opened RelSets
  import opened Tables
  import opened Hypergraph
  import opened PlanTable
  import opened Dphyp

  const TWO31: int := 0x8000_0000
  const TWO32: int := 0x1_0000_0000

  // `x as i32` of an unsigned 32-bit value.
  function AsI32(x: nat): int {
    if x < TWO31 then x else x - TWO32
  }

  function Entries(t: JoinTree): seq<int> {
    match t
    case Rel(r) => [AsI32(r)]
    case Join(l, r, e) => Entries(l) + Entries(r) + [-1 - AsI32(e)]
  }

  // The caller's growing vector.
  class Vec {
    var items: seq<int>

    constructor ()
      ensures items == []
    {
      items := [];
    }

    method Push(x: int)
      modifies this
      ensures items == old(items) + [x]
    {
      items := items + [x];
    }
  }

  /** Appends the postfix form of a tree to the caller's vector. */
  method WritePostfix(t: JoinTree, out: Vec)
    modifies out
    ensures out.items == old(out.items) + Entries(t)
    decreases t
  {
    match t {
      case Rel(r) => out.Push(AsI32(r));
      case Join(l, r, e) =>
        WritePostfix(l, out);
        WritePostfix(r, out);
        out.Push(-1 - AsI32(e));
    }
  }

  // ------------------------------------------------------------ the reader

  // Push a relation; at a join pop the right tree, then the left. `None` on underflow.
  function Step(x: int, stack: seq<JoinTree>): Option<seq<JoinTree>> {
    if x >= 0 then Some(stack + [Rel(x)])
    else if |stack| < 2 then None
    else Some(stack[..|stack| - 2] + [Join(stack[|stack| - 2], stack[|stack| - 1], -1 - x)])
  }

  function Run(code: seq<int>, stack: seq<JoinTree>): Option<seq<JoinTree>> {
    if code == [] then Some(stack)
    else
      match Step(code[0], stack)
      case None => None
      case Some(next) => Run(code[1..], next)
  }

  function ReadBack(code: seq<int>): Option<JoinTree> {
    match Run(code, [])
    case None => None
    case Some(stack) => if |stack| == 1 then Some(stack[0]) else None
  }

  lemma {:induction false} RunThen(a: seq<int>, b: seq<int>, stack: seq<JoinTree>)
    ensures Run(a + b, stack) ==
            match Run(a, stack) case None => None case Some(mid) => Run(b, mid)
    decreases |a|
  {
    if a == [] {
      assert a + b == b;
    } else {
      assert (a + b)[1..] == a[1..] + b;
      var next := Step(a[0], stack);
      if next.Some? {
        RunThen(a[1..], b, next.value);
      }
    }
  }

  // Every edge index, read as a signed 32-bit value, is still that index.
  predicate EdgesFit(t: JoinTree) {
    t.Join? ==> t.edge < TWO31 && EdgesFit(t.left) && EdgesFit(t.right)
  }

  // Relations and edge indices of a tree the solver can return.
  predicate InWords(t: JoinTree) {
    match t
    case Rel(r) => r < WORD
    case Join(l, r, e) => e < TWO32 && InWords(l) && InWords(r)
  }

  lemma {:induction false} RunEntries(t: JoinTree, stack: seq<JoinTree>)
    requires InWords(t) && EdgesFit(t)
    ensures Run(Entries(t), stack) == Some(stack + [t])
    decreases t
  {
    hide Run, Step, AsI32;
    match t
    case Rel(r) => RunRelation(r, stack);
    case Join(l, r, e) =>
      RunEntries(l, stack);
      RunEntries(r, stack + [l]);
      RunThen(Entries(l), Entries(r), stack);
      RunThen(Entries(l) + Entries(r), [-1 - AsI32(e)], stack);
      RunJoin(l, r, e, stack);
  }

  lemma RunRelation(r: nat, stack: seq<JoinTree>)
    requires r < WORD
    ensures Run([AsI32(r)], stack) == Some(stack + [Rel(r)])
  {
    assert Run([AsI32(r)], stack) == Run([], stack + [Rel(r)]);
  }

  lemma RunJoin(l: JoinTree, r: JoinTree, e: nat, stack: seq<JoinTree>)
    requires e < TWO31
    ensures Run([-1 - AsI32(e)], stack + [l] + [r]) == Some(stack + [Join(l, r, e)])
  {
    var op, full := [-1 - AsI32(e)], stack + [l] + [r];
    assert full[..|full| - 2] == stack;
    assert op[1..] == [];
    assert Run(op, full) == Run([], stack + [Join(l, r, e)]);
  }

  // Leaves, which are also the entries that push, and the entries that push without meaning to.
  function Leaves(t: JoinTree): nat {
    match t case Rel(_) => 1 case Join(l, r, _) => Leaves(l) + Leaves(r)
  }

  function Overflows(t: JoinTree): nat {
    match t
    case Rel(_) => 0
    case Join(l, r, e) => (if e < TWO31 then 0 else 1) + Overflows(l) + Overflows(r)
  }

  // How much a code adds to the stack, if it runs.
  function Growth(code: seq<int>): int {
    if code == [] then 0 else (if code[0] >= 0 then 1 else -1) + Growth(code[1..])
  }

  lemma {:induction false} GrowthThen(a: seq<int>, b: seq<int>)
    ensures Growth(a + b) == Growth(a) + Growth(b)
    decreases |a|
  {
    if a == [] {
      assert a + b == b;
    } else {
      assert (a + b)[1..] == a[1..] + b;
      GrowthThen(a[1..], b);
    }
  }

  lemma {:induction false} GrowthOfEntries(t: JoinTree)
    requires InWords(t)
    ensures Growth(Entries(t)) == 1 + 2 * Overflows(t)
    ensures Overflows(t) == 0 <==> EdgesFit(t)
    decreases t
  {
    match t
    case Rel(r) => assert Growth([AsI32(r)][1..]) == 0;
    case Join(l, r, e) =>
      GrowthOfEntries(l);
      GrowthOfEntries(r);
      GrowthThen(Entries(l), Entries(r));
      var op := [-1 - AsI32(e)];
      GrowthThen(Entries(l) + Entries(r), op);
      assert op[1..] == [];
  }

  lemma {:induction false} RunGrows(code: seq<int>, stack: seq<JoinTree>)
    ensures Run(code, stack).Some? ==> |Run(code, stack).value| == |stack| + Growth(code)
    decreases |code|
  {
    if code != [] {
      var next := Step(code[0], stack);
      if next.Some? {
        RunGrows(code[1..], next.value);
      }
    }
  }

  // The round trip holds exactly when no edge index is past the signed range.
  lemma RoundTrip(t: JoinTree)
    requires InWords(t)
    ensures ReadBack(Entries(t)) == Some(t) <==> EdgesFit(t)
    ensures !EdgesFit(t) ==> ReadBack(Entries(t)) == None
  {
    if EdgesFit(t) {
      RunEntries(t, []);
      assert [] + [t] == [t];
    } else {
      RunGrows(Entries(t), []);
      GrowthOfEntries(t);
    }
  }

  // A tree over n relations takes 2n - 1 entries.
  lemma {:induction false} EntryCount(g: Graph, t: JoinTree)
    requires ValidTree(g, t)
    ensures |Entries(t)| == 2 * |Relations(t)| - 1
    decreases t
  {
    match t
    case Rel(_) =>
    case Join(l, r, _) =>
      EntryCount(g, l);
      EntryCount(g, r);
      DisjointCardinality(Relations(l), Relations(r));
  }

  lemma DisjointCardinality(a: RelSet, b: RelSet)
    requires a !! b
    ensures |a + b| == |a| + |b|
  {
  }

  lemma {:induction false} AllBelowCardinality(n: nat)
    ensures |AllBelow(n)| == n
  {
    if n > 0 {
      AllBelowCardinality(n - 1);
      assert n - 1 !in AllBelow(n - 1);
    }
  }

  lemma {:induction false} SolvedInWords(g: Graph, t: JoinTree)
    requires WellFormed(g) && ValidTree(g, t) && |g.edges| < TWO32
    ensures InWords(t)
    ensures |g.edges| <= TWO31 ==> EdgesFit(t)
    decreases t
  {
    match t
    case Rel(_) =>
    case Join(l, r, e) =>
      SolvedInWords(g, l);
      SolvedInWords(g, r);
  }

  // ------------------------------------------------------------ dphyp_solve

  // 2n - 1 in 32-bit unsigned arithmetic.
  function Needed(n: nat): int {
    (2 * n - 1) % TWO32
  }

  function EdgesOf(lefts: seq<nat>, rights: seq<nat>): (edges: seq<Edge>)
    requires |lefts| == |rights|
    requires forall i :: 0 <= i < |lefts| ==> IsWord(lefts[i]) && IsWord(rights[i])
    ensures |edges| == |lefts|
  {
    seq(|lefts|, i requires 0 <= i < |lefts| => Edge(Bits(lefts[i]), Bits(rights[i])))
  }

  function CodeOf(why: Unsolved): int {
    match why
    case BudgetExhausted => 1
    case Disconnected => 2
    case RelationCount(_) => -1
    case EdgeAt(_) => -2
  }

  ghost predicate FfiAnswers(g: Graph, setCost: RelSet -> real, maxPairs: nat, code: int, tree: seq<int>) {
    if |CsgCmpPairs(g)| > maxPairs then code == 1
    else if !Connected(g, AllBelow(g.n)) then code == 2
    else
      && code == 0 && |tree| == 2 * g.n - 1
      && (|g.edges| <= TWO31 ==>
            && ReadBack(tree).Some?
            && IsOptimum(g, setCost, ReadBack(tree).value, TreeCost(setCost, ReadBack(tree).value)))
  }

  // The callback takes a mask.
  function OnSets(setCost: nat -> real): RelSet -> real {
    s => setCost(Mask(s))
  }

  /** The postfix form of a solved tree, which its reader turns back into that tree. */
  method PostfixOf(g: Graph, t: JoinTree) returns (items: seq<int>)
    requires WellFormed(g) && ValidTree(g, t) && Relations(t) == AllBelow(g.n) && |g.edges| < TWO32
    ensures |items| == 2 * g.n - 1
    ensures |g.edges| <= TWO31 ==> ReadBack(items) == Some(t)
  {
    var postfix := new Vec();
    WritePostfix(t, postfix);
    items := postfix.items;
    assert items == Entries(t);
    EntryCount(g, t);
    AllBelowCardinality(g.n);
    SolvedInWords(g, t);
    RoundTrip(t);
  }

  /** The solver's answer as a code and entries, its result matched case by case. */
  method SolveToCode(n: nat, edges: seq<Edge>, setCost: RelSet -> real, maxPairs: nat)
    returns (code: int, tree: seq<int>, asked: seq<RelSet>)
    requires |edges| < TWO32
    ensures code >= -2 && (code != 0 ==> tree == [])
    ensures code == -1 <==> n == 0 || n > 64
    ensures code == -2 <==> 1 <= n <= 64 && !WellFormed(Graph(n, edges))
    ensures code >= 0 ==> FfiAnswers(Graph(n, edges), setCost, maxPairs, code, tree)
    ensures code >= 0 ==> AsksOnce(Graph(n, edges), maxPairs, asked)
    ensures code < 0 ==> asked == []
    ensures code == 0 ==> |tree| == 2 * n - 1
  {
    hide Connected, CsgCmpPairs, ValidTree, NamesFirstEdges, ReadBack, AsksOnce, Malformed, TreeCost, EdgeOk;
    var res;
    res, asked := Solve(n, edges, setCost, maxPairs);
    match res {
      case Err(why) =>
        code, tree := CodeOf(why), [];
      case Ok(solved) =>
        code := 0;
        tree := PostfixOf(Graph(n, edges), solved.tree);
    }
  }

  // What the callback is asked, as words: no word twice, each naming by its bits a connected set
  // of two or more relations, and one for every such set when the budget lasts.
  ghost predicate AsksWordsOnce(g: Graph, maxPairs: nat, asked: seq<nat>) {
    && NoDup(asked)
    && (forall w, s :: w in asked && StandsFor(w, s) ==> Compound(g, s))
    && (|CsgCmpPairs(g)| <= maxPairs ==> forall s :: Compound(g, s) ==> exists w :: w in asked && StandsFor(w, s))
  }

  lemma AskedAsWords(g: Graph, maxPairs: nat, asked: seq<RelSet>)
    requires WellFormed(g) && AsksOnce(g, maxPairs, asked)
    ensures AsksWordsOnce(g, maxPairs, Map(Mask, asked))
  {
    hide Compound, CsgCmpPairs, StandsFor, Mask, Bits;
    var words := Map(Mask, asked);
    forall k | 0 <= k < |asked|
      ensures StandsFor(words[k], asked[k]) && asked[k] <= AllBelow(WORD)
    {
      assert asked[k] in asked;
      CompoundInWord(g, asked[k]);
      WordOf(asked[k]);
    }
    forall i, j | 0 <= i < j < |asked|
      ensures words[i] != words[j]
    {
      OneSet(words[i], asked[i], asked[j]);
    }
    forall w, s | w in words && StandsFor(w, s)
      ensures Compound(g, s)
    {
      var k :| 0 <= k < |words| && words[k] == w;
      OneSet(w, s, asked[k]);
    }
    forall s | |CsgCmpPairs(g)| <= maxPairs && Compound(g, s)
      ensures exists w :: w in words && StandsFor(w, s)
    {
      var k :| 0 <= k < |asked| && asked[k] == s;
      assert words[k] in words;
    }
  }

  lemma CompoundInWord(g: Graph, s: RelSet)
    requires WellFormed(g) && Compound(g, s)
    ensures s <= AllBelow(WORD)
  {
    ConnectedInRange(g, s);
  }

  lemma WordOf(s: RelSet)
    requires s <= AllBelow(WORD)
    ensures StandsFor(Mask(s), s)
  {
    MaskRoundTrip(s, 0);
    WordStands(Mask(s));
  }

  lemma OneSet(w: nat, s: RelSet, t: RelSet)
    requires StandsFor(w, s)
    ensures StandsFor(w, t) <==> s == t
  {
    if StandsFor(w, t) {
      assert forall r: nat :: r in s <==> r in t;
    }
  }

  // What is wrong with an edge, read off its two words: an empty one, a bit past n, or one in both.
  ghost predicate WordsMalformed(n: nat, left: nat, right: nat) {
    || left == 0 || right == 0
    || (exists r: nat :: HasBit(left, r) && (r >= n || HasBit(right, r)))
    || (exists r: nat :: HasBit(right, r) && r >= n)
  }

  lemma MalformedWords(n: nat, left: nat, right: nat)
    requires IsWord(left) && IsWord(right)
    ensures WordsMalformed(n, left, right) <==> !EdgeOk(n, Edge(Bits(left), Bits(right)))
  {
    hide HasBit, Bits;
    WordStands(left);
    WordStands(right);
    ZeroIsEmpty(left);
    ZeroIsEmpty(right);
    MalformedIs(n, Edge(Bits(left), Bits(right)));
  }

  lemma ZeroIsEmpty(w: nat)
    requires IsWord(w)
    ensures Bits(w) == {} <==> w == 0
  {
    WordStands(w);
    NoMask(WORD);
    MaskRoundTrip({}, 0);
  }

  lemma {:induction false} NoMask(k: nat)
    ensures MaskBelow({}, k) == 0
  {
    if k > 0 {
      NoMask(k - 1);
    }
  }

  /** The C entry point. `tree` is what it writes, at most `capacity` entries, and nothing unless
      the code is 0; `asked` is what the callback was asked on the way. */
  method DphypSolve(n: nat, lefts: seq<nat>, rights: seq<nat>, setCost: nat -> real, maxPairs: nat, capacity: nat)
    returns (code: int, tree: seq<int>, asked: seq<nat>)
    requires n < TWO32 && |lefts| == |rights| < TWO32
    requires forall i :: 0 <= i < |lefts| ==> IsWord(lefts[i]) && IsWord(rights[i])
    ensures code != 0 ==> tree == []
    ensures |tree| <= capacity
    ensures code == -3 <==> n >= 1 && capacity < (2 * n - 1) % 0x1_0000_0000
    ensures code == -1 <==> n == 0 || (n > 64 && capacity >= (2 * n - 1) % 0x1_0000_0000)
    ensures code == -2 <==>
              && 1 <= n <= 64 && capacity >= 2 * n - 1
              && exists i :: 0 <= i < |lefts| && WordsMalformed(n, lefts[i], rights[i])
    ensures code >= 0 ==>
      FfiAnswers(Graph(n, EdgesOf(lefts, rights)), OnSets(setCost), maxPairs, code, tree)
    // A set costs what the callback says of the word whose bits are its relations.
    ensures forall w, s :: IsWord(w) && StandsFor(w, s) ==> OnSets(setCost)(s) == setCost(w)
    ensures code >= 0 ==> AsksWordsOnce(Graph(n, EdgesOf(lefts, rights)), maxPairs, asked)
  {
    hide FfiAnswers, AsksWordsOnce, AsksOnce, WordsMalformed, StandsFor, Bits, Mask, OnSets, WellFormed;
    var edges := EdgesOf(lefts, rights);
    CallbackWords(setCost);
    if n >= 1 && capacity < Needed(n) {
      return -3, [], [];
    }
    var sets;
    code, tree, sets := SolveToCode(n, edges, OnSets(setCost), maxPairs);
    asked := Map(Mask, sets);
    if code >= 0 {
      AskedAsWords(Graph(n, edges), maxPairs, sets);
    }
    if 1 <= n <= 64 {
      SomeMalformed(n, lefts, rights);
    }
  }

  lemma SomeMalformed(n: nat, lefts: seq<nat>, rights: seq<nat>)
    requires |lefts| == |rights| && 1 <= n <= 64
    requires forall i :: 0 <= i < |lefts| ==> IsWord(lefts[i]) && IsWord(rights[i])
    ensures !WellFormed(Graph(n, EdgesOf(lefts, rights))) <==>
            exists i :: 0 <= i < |lefts| && WordsMalformed(n, lefts[i], rights[i])
  {
    hide EdgeOk, WordsMalformed, IsWord, Bits;
    forall i | 0 <= i < |lefts|
      ensures WordsMalformed(n, lefts[i], rights[i]) <==> !EdgeOk(n, EdgesOf(lefts, rights)[i])
    {
      MalformedWords(n, lefts[i], rights[i]);
    }
  }

  lemma CallbackWords(setCost: nat -> real)
    ensures forall w, s :: IsWord(w) && StandsFor(w, s) ==> OnSets(setCost)(s) == setCost(w)
  {
    forall w, s | IsWord(w) && StandsFor(w, s)
      ensures OnSets(setCost)(s) == setCost(w)
    {
      WordStands(w);
      OneSet(w, s, Bits(w));
    }
  }
}
