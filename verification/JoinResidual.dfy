/**
  A join's residual condition: three-valued expressions over the filter's own columns, the
  AND-chain they are split into, which sides each conjunct reads, and the two-table AST some of
  them are handed to the device as.

  The engine evaluates a conjunct in three ways: over gathered pairs, over the rows of one side
  alone, and as an AST whose references name a column of the left or the right condition table,
  some of those columns hoisted there beforehand. The lemmas say that all of them give the value
  the plan's own condition has on the pair.
 */
module JoinResidual {

  datatype Value = Null | Bool(b: bool) | Num(n: int)

  type Row = seq<Value>

  datatype CmpOp = Eq | NotEq | Lt | LtEq | Gt | GtEq

  // What a node computes from its operands. Only the comparisons matter to the split; every
  // other operator, cast, function or CASE is `Other`.
  datatype Kind = Compare(op: CmpOp) | Other(id: nat)

  datatype Expr =
    | Col(index: nat)                     // into the filter's own schema
    | Lit(value: Value)
    | And(left: Expr, right: Expr)
    | Node(kind: Kind, args: seq<Expr>)

  // The meaning of the nodes other than AND, any function of the operand values.
  type Meaning = (Kind, seq<Value>) -> Value

  datatype Side = Build | Probe

  datatype FilterColumn = FilterColumn(index: nat, side: Side)

  type FilterMap = seq<FilterColumn>

  // ------------------------------------------------------------ three-valued evaluation

  // SQL's AND: false wins over NULL.
  function And3(a: Value, b: Value): Value {
    if a == Bool(false) || b == Bool(false) then Bool(false)
    else if a == Bool(true) && b == Bool(true) then Bool(true)
    else Null
  }

  // Where false, NULL and true are in this order, it is the lower of the two.
  lemma AndIsLower(a: Value, b: Value)
    ensures Standing(And3(a, b)) == if Standing(a) <= Standing(b) then Standing(a) else Standing(b)
    ensures And3(a, b) in {Bool(false), Null, Bool(true)}
  {
  }

  function Standing(v: Value): int {
    if v == Bool(false) then -1 else if v == Bool(true) then 1 else 0
  }

  predicate IsTrue(v: Value) {
    v == Bool(true)
  }

  function Eval(m: Meaning, e: Expr, row: Row): Value
    decreases e
  {
    match e
    case Col(i) => if i < |row| then row[i] else Null
    case Lit(v) => v
    case And(l, r) => And3(Eval(m, l, row), Eval(m, r, row))
    case Node(k, args) => m(k, seq(|args|, i requires 0 <= i < |args| => Eval(m, args[i], row)))
  }

  // A node of two operands meets their values in order.
  lemma OperandsInOrder(m: Meaning, k: Kind, x: Expr, y: Expr, row: Row)
    ensures Eval(m, Node(k, [x, y]), row) == m(k, [Eval(m, x, row), Eval(m, y, row)])
  {
    var args := [x, y];
    assert seq(|args|, i requires 0 <= i < |args| => Eval(m, args[i], row)) == [Eval(m, x, row), Eval(m, y, row)];
  }

  // The filter's row for a pair: each filter column from its own side.
  function PairRow(map_: FilterMap, b: Row, p: Row): (r: Row)
    ensures |r| == |map_|
  {
    seq(|map_|, k requires 0 <= k < |map_| => Cell(if map_[k].side == Build then b else p, map_[k].index))
  }

  function Cell(row: Row, i: nat): Value {
    if i < |row| then row[i] else Null
  }

  // ------------------------------------------------------------ the AND-chain

  function Conjuncts(e: Expr): (cs: seq<Expr>)
    ensures cs != []
  {
    match e
    case And(l, r) => Conjuncts(l) + Conjuncts(r)
    case _ => [e]
  }

  // AND over the conjuncts of `c IS TRUE`.
  predicate AllTrue(m: Meaning, cs: seq<Expr>, row: Row) {
    forall c :: c in cs ==> IsTrue(Eval(m, c, row))
  }

  // Splitting the chain loses nothing: the condition is true exactly where every conjunct is,
  // whatever NULLs are about.
  lemma {:induction false} ConjunctsMean(m: Meaning, e: Expr, row: Row)
    ensures AllTrue(m, Conjuncts(e), row) <==> IsTrue(Eval(m, e, row))
    decreases e
  {
    match e
    case And(l, r) =>
      ConjunctsMean(m, l, row);
      ConjunctsMean(m, r, row);
      assert forall c :: c in Conjuncts(e) <==> c in Conjuncts(l) || c in Conjuncts(r);
    case _ => assert e in Conjuncts(e);
  }

  // ------------------------------------------------------------ sides

  predicate InRange(e: Expr, map_: FilterMap)
    decreases e
  {
    match e
    case Col(i) => i < |map_|
    case Lit(_) => true
    case And(l, r) => InRange(l, map_) && InRange(r, map_)
    case Node(_, args) => forall i :: 0 <= i < |args| ==> InRange(args[i], map_)
  }

  predicate Reads(e: Expr, map_: FilterMap, side: Side)
    decreases e
  {
    match e
    case Col(i) => i < |map_| && map_[i].side == side
    case Lit(_) => false
    case And(l, r) => Reads(l, map_, side) || Reads(r, map_, side)
    case Node(_, args) => exists i :: 0 <= i < |args| && Reads(args[i], map_, side)
  }

  // The filter columns an expression names, however deep.
  predicate Mentions(e: Expr, i: nat)
    decreases e
  {
    match e
    case Col(k) => k == i
    case Lit(_) => false
    case And(l, r) => Mentions(l, i) || Mentions(r, i)
    case Node(_, args) => exists a :: 0 <= a < |args| && Mentions(args[a], i)
  }

  // It reads a side when it names one of its columns.
  lemma {:induction false} ReadsWhatItNames(e: Expr, map_: FilterMap, side: Side)
    ensures Reads(e, map_, side) <==> exists i: nat :: i < |map_| && Mentions(e, i) && map_[i].side == side
    decreases e
  {
    match e
    case Col(i) => assert Mentions(e, i);
    case Lit(_) =>
    case And(l, r) =>
      ReadsWhatItNames(l, map_, side);
      ReadsWhatItNames(r, map_, side);
      assert forall i: nat :: Mentions(e, i) <==> Mentions(l, i) || Mentions(r, i);
    case Node(_, args) =>
      forall a | 0 <= a < |args|
        ensures Reads(args[a], map_, side) <==>
                exists i: nat :: i < |map_| && Mentions(args[a], i) && map_[i].side == side
      {
        ReadsWhatItNames(args[a], map_, side);
      }
      assert forall i: nat, a :: 0 <= a < |args| && Mentions(args[a], i) ==> Mentions(e, i);
  }

  ghost predicate NamesWithin(e: Expr, n: nat) {
    forall i: nat :: Mentions(e, i) ==> i < n
  }

  // It is in range when it names only columns there are.
  lemma {:induction false} InRangeOfNames(e: Expr, map_: FilterMap)
    ensures InRange(e, map_) <==> NamesWithin(e, |map_|)
    decreases e
  {
    match e
    case Col(i) => assert Mentions(e, i);
    case Lit(_) =>
    case And(l, r) =>
      InRangeOfNames(l, map_);
      InRangeOfNames(r, map_);
      BothWithin(l, r, |map_|);
    case Node(_, args) =>
      forall a | 0 <= a < |args|
        ensures InRange(args[a], map_) <==> NamesWithin(args[a], |map_|)
      {
        InRangeOfNames(args[a], map_);
      }
      AllWithin(e, |map_|);
  }

  lemma BothWithin(l: Expr, r: Expr, n: nat)
    ensures NamesWithin(And(l, r), n) <==> NamesWithin(l, n) && NamesWithin(r, n)
  {
    forall i: nat
      ensures Mentions(And(l, r), i) <==> Mentions(l, i) || Mentions(r, i)
    {
    }
  }

  lemma AllWithin(e: Expr, n: nat)
    requires e.Node?
    ensures NamesWithin(e, n) <==> forall a :: 0 <= a < |e.args| ==> NamesWithin(e.args[a], n)
  {
    if NamesWithin(e, n) {
      forall a | 0 <= a < |e.args|
        ensures NamesWithin(e.args[a], n)
      {
        assert forall i: nat :: Mentions(e.args[a], i) ==> Mentions(e, i);
      }
    } else {
      var i: nat :| Mentions(e, i) && i >= n;
      var a :| 0 <= a < |e.args| && Mentions(e.args[a], i);
      assert !NamesWithin(e.args[a], n);
    }
  }

  // The conjuncts are in range when the condition is.
  lemma {:induction false} ConjunctsWithin(e: Expr, n: nat)
    ensures NamesWithin(e, n) <==> forall c :: c in Conjuncts(e) ==> NamesWithin(c, n)
    decreases e
  {
    hide NamesWithin;
    match e
    case And(l, r) =>
      ConjunctsWithin(l, n);
      ConjunctsWithin(r, n);
      BothWithin(l, r, n);
      assert forall c :: c in Conjuncts(e) <==> c in Conjuncts(l) || c in Conjuncts(r);
    case _ => assert e in Conjuncts(e);
  }

  // An expression's value depends only on the columns of the sides it reads.
  lemma {:induction false} DependsOnReads(m: Meaning, e: Expr, map_: FilterMap, r: Row, s: Row)
    requires InRange(e, map_) && |r| == |map_| && |s| == |map_|
    requires forall k :: 0 <= k < |map_| && Reads(e, map_, map_[k].side) ==> r[k] == s[k]
    ensures Eval(m, e, r) == Eval(m, e, s)
    decreases e
  {
    match e
    case Col(i) =>
    case Lit(_) =>
    case And(x, y) =>
      DependsOnReads(m, x, map_, r, s);
      DependsOnReads(m, y, map_, r, s);
    case Node(k, args) =>
      forall i | 0 <= i < |args|
        ensures Eval(m, args[i], r) == Eval(m, args[i], s)
      {
        DependsOnReads(m, args[i], map_, r, s);
      }
      assert seq(|args|, i requires 0 <= i < |args| => Eval(m, args[i], r)) ==
             seq(|args|, i requires 0 <= i < |args| => Eval(m, args[i], s));
  }

  // What an expression over the filter's columns sees when only one side's row is at hand.
  function SideSlots(map_: FilterMap, which: Side, row: Row): (r: Row)
    ensures |r| == |map_|
  {
    seq(|map_|, k requires 0 <= k < |map_| => Cell(row, if map_[k].side == which then map_[k].index else 0))
  }

  predicate ReadsOnly(e: Expr, map_: FilterMap, side: Side) {
    !Reads(e, map_, if side == Build then Probe else Build)
  }

  // A conjunct that reads one side has its value on every pair from that side's row alone.
  lemma OneSideMeans(m: Meaning, e: Expr, map_: FilterMap, which: Side, b: Row, p: Row)
    requires InRange(e, map_) && ReadsOnly(e, map_, which)
    ensures Eval(m, e, SideSlots(map_, which, if which == Build then b else p)) == Eval(m, e, PairRow(map_, b, p))
  {
    DependsOnReads(m, e, map_, SideSlots(map_, which, if which == Build then b else p), PairRow(map_, b, p));
  }

  // `eval_on`: the conjuncts of one side over one of its rows.
  predicate TrueOn(m: Meaning, cs: seq<Expr>, map_: FilterMap, which: Side, row: Row) {
    AllTrue(m, cs, SideSlots(map_, which, row))
  }

  ghost predicate AllReadOnly(cs: seq<Expr>, map_: FilterMap, which: Side) {
    forall c :: c in cs ==> InRange(c, map_) && ReadsOnly(c, map_, which)
  }

  lemma TrueOnMeans(m: Meaning, cs: seq<Expr>, map_: FilterMap, which: Side, b: Row, p: Row)
    requires AllReadOnly(cs, map_, which)
    ensures TrueOn(m, cs, map_, which, if which == Build then b else p) <==> AllTrue(m, cs, PairRow(map_, b, p))
  {
    forall c | c in cs
      ensures Eval(m, c, SideSlots(map_, which, if which == Build then b else p)) == Eval(m, c, PairRow(map_, b, p))
    {
      OneSideMeans(m, c, map_, which, b, p);
    }
  }

  // ------------------------------------------------------------ the AST

  // A reference names a column of the left or the right condition table.
  datatype Ast =
    | Ref(left: bool, index: nat)
    | AstLit(value: Value)
    | AstAnd(a: Ast, b: Ast)
    | AstNode(kind: Kind, args: seq<Ast>)

  function EvalAst(m: Meaning, a: Ast, left: Row, right: Row): Value
    decreases a
  {
    match a
    case Ref(l, i) => Cell(if l then left else right, i)
    case AstLit(v) => v
    case AstAnd(x, y) => And3(EvalAst(m, x, left, right), EvalAst(m, y, left, right))
    case AstNode(k, args) => m(k, seq(|args|, i requires 0 <= i < |args| => EvalAst(m, args[i], left, right)))
  }

  // `build_expr` through a filter map.
  function BuildExpr(e: Expr, map_: FilterMap): Ast
    requires InRange(e, map_)
    decreases e
  {
    match e
    case Col(i) => Ref(map_[i].side == Build, map_[i].index)
    case Lit(v) => AstLit(v)
    case And(l, r) => AstAnd(BuildExpr(l, map_), BuildExpr(r, map_))
    case Node(k, args) => AstNode(k, seq(|args|, i requires 0 <= i < |args| => BuildExpr(args[i], map_)))
  }

  // The map as seen by a device call whose left table is the probe.
  function Flip(map_: FilterMap): (f: FilterMap)
    ensures |f| == |map_|
    ensures forall k :: 0 <= k < |map_| ==>
              f[k] == FilterColumn(map_[k].index, if map_[k].side == Build then Probe else Build)
  {
    seq(|map_|, k requires 0 <= k < |map_| =>
      FilterColumn(map_[k].index, if map_[k].side == Build then Probe else Build))
  }

  lemma {:induction false} FlipInRange(e: Expr, map_: FilterMap)
    requires InRange(e, map_)
    ensures InRange(e, Flip(map_))
    decreases e
  {
    match e
    case Col(_) =>
    case Lit(_) =>
    case And(l, r) =>
      FlipInRange(l, map_);
      FlipInRange(r, map_);
    case Node(_, args) =>
      forall i | 0 <= i < |args|
        ensures InRange(args[i], Flip(map_))
      {
        FlipInRange(args[i], map_);
      }
  }

  // The sides as the call orders them.
  function Oriented(flip: bool, map_: FilterMap): FilterMap {
    if flip then Flip(map_) else map_
  }

  // Every filter column lies within its side's own width, so a condition table's extra columns
  // are never read by it.
  predicate MapFits(map_: FilterMap, bw: nat, pw: nat) {
    forall k :: 0 <= k < |map_| ==> map_[k].index < if map_[k].side == Build then bw else pw
  }

  // The plan's own expression as an AST over the condition tables, flipped or not.
  lemma {:induction false} PlainAstMeans(
      m: Meaning, e: Expr, map_: FilterMap, flip: bool, b: Row, p: Row, bc: Row, pc: Row)
    requires InRange(e, map_) && InRange(e, Oriented(flip, map_))
    requires MapFits(map_, |b|, |p|) && b <= bc && p <= pc
    ensures var a := BuildExpr(e, Oriented(flip, map_));
            EvalAst(m, a, if flip then pc else bc, if flip then bc else pc) == Eval(m, e, PairRow(map_, b, p))
    decreases e
  {
    match e
    case Col(i) =>
    case Lit(_) =>
    case And(x, y) =>
      PlainAstMeans(m, x, map_, flip, b, p, bc, pc);
      PlainAstMeans(m, y, map_, flip, b, p, bc, pc);
    case Node(k, args) =>
      var o := Oriented(flip, map_);
      var left, right := if flip then pc else bc, if flip then bc else pc;
      var asts := seq(|args|, i requires 0 <= i < |args| => BuildExpr(args[i], o));
      forall i | 0 <= i < |args|
        ensures EvalAst(m, asts[i], left, right) == Eval(m, args[i], PairRow(map_, b, p))
      {
        PlainAstMeans(m, args[i], map_, flip, b, p, bc, pc);
      }
      assert seq(|asts|, i requires 0 <= i < |asts| => EvalAst(m, asts[i], left, right)) ==
             seq(|args|, i requires 0 <= i < |args| => Eval(m, args[i], PairRow(map_, b, p)));
  }

  // ------------------------------------------------------------ hoisting

  // Where a comparison finds an operand: on which side, and whether among its own columns or those
  // computed for the condition.
  datatype Operand = Operand(build: bool, hoisted: bool, ordinal: nat)

  datatype AstConjunct =
    | Plain(expr: Expr)
    | Hoisted(op: CmpOp, lhs: Operand, rhs: Operand)

  function OperandRef(o: Operand, flip: bool, bw: nat, pw: nat): Ast {
    Ref(o.build != flip, if o.hoisted then (if o.build then bw else pw) + o.ordinal else o.ordinal)
  }

  function ConjunctAst(c: AstConjunct, map_: FilterMap, flip: bool, bw: nat, pw: nat): Ast
    requires c.Plain? ==> InRange(c.expr, map_)
  {
    match c
    case Plain(e) => BuildExpr(e, map_)
    case Hoisted(op, l, r) => AstNode(Compare(op), [OperandRef(l, flip, bw, pw), OperandRef(r, flip, bw, pw)])
  }

  // One AST for all of them, AND-ed left to right.
  function CrossAst(cs: seq<AstConjunct>, map_: FilterMap, flip: bool, bw: nat, pw: nat): Ast
    requires cs != []
    requires forall c :: c in cs && c.Plain? ==> InRange(c.expr, map_)
  {
    var last := |cs| - 1;
    var ast := ConjunctAst(cs[last], map_, flip, bw, pw);
    if last == 0 then ast else AstAnd(CrossAst(cs[..last], map_, flip, bw, pw), ast)
  }

  // A side's condition row: its own columns, then the expressions hoisted onto it.
  function CondRow(m: Meaning, map_: FilterMap, which: Side, hoisted: seq<Expr>, row: Row): (r: Row)
    ensures row <= r && |r| == |row| + |hoisted|
    ensures forall k :: 0 <= k < |hoisted| ==> r[|row| + k] == Eval(m, hoisted[k], SideSlots(map_, which, row))
  {
    row + seq(|hoisted|, k requires 0 <= k < |hoisted| => Eval(m, hoisted[k], SideSlots(map_, which, row)))
  }

  // `o` stands for `e`: a bare column of its side, or a one-side expression hoisted there.
  ghost predicate OperandMeans(o: Operand, e: Expr, map_: FilterMap, hoistBuild: seq<Expr>, hoistProbe: seq<Expr>) {
    && InRange(e, map_)
    && if o.hoisted then
         var hoisted := if o.build then hoistBuild else hoistProbe;
         o.ordinal < |hoisted| && hoisted[o.ordinal] == e && ReadsOnly(e, map_, if o.build then Build else Probe)
       else
         e.Col? && o.ordinal == map_[e.index].index && o.build == (map_[e.index].side == Build)
  }

  ghost predicate ConjunctMeans(
      c: AstConjunct, e: Expr, map_: FilterMap, hoistBuild: seq<Expr>, hoistProbe: seq<Expr>)
  {
    && InRange(e, map_)
    && match c
       case Plain(x) => x == e
       case Hoisted(op, l, r) =>
         && e.Node? && e.kind == Compare(op) && |e.args| == 2
         && OperandMeans(l, e.args[0], map_, hoistBuild, hoistProbe)
         && OperandMeans(r, e.args[1], map_, hoistBuild, hoistProbe)
  }

  lemma OperandMeansGrows(
      o: Operand, e: Expr, map_: FilterMap, hb: seq<Expr>, hp: seq<Expr>, hb': seq<Expr>, hp': seq<Expr>)
    requires OperandMeans(o, e, map_, hb, hp) && hb <= hb' && hp <= hp'
    ensures OperandMeans(o, e, map_, hb', hp')
  {
  }

  lemma OperandValue(
      m: Meaning, o: Operand, e: Expr, map_: FilterMap, hb: seq<Expr>, hp: seq<Expr>, flip: bool, b: Row, p: Row)
    requires OperandMeans(o, e, map_, hb, hp) && MapFits(map_, |b|, |p|)
    ensures var bc, pc := CondRow(m, map_, Build, hb, b), CondRow(m, map_, Probe, hp, p);
            EvalAst(m, OperandRef(o, flip, |b|, |p|), if flip then pc else bc, if flip then bc else pc)
            == Eval(m, e, PairRow(map_, b, p))
  {
    if o.hoisted {
      OneSideMeans(m, e, map_, if o.build then Build else Probe, b, p);
    }
  }

  // A hoisted comparison, or a plain conjunct, as an AST: the same value on every pair, whether
  // or not the call swaps its sides.
  lemma ConjunctAstMeans(
      m: Meaning, c: AstConjunct, e: Expr, map_: FilterMap, hb: seq<Expr>, hp: seq<Expr>, flip: bool, b: Row, p: Row)
    requires ConjunctMeans(c, e, map_, hb, hp) && MapFits(map_, |b|, |p|)
    ensures InRange(e, Oriented(flip, map_))
    ensures var bc, pc := CondRow(m, map_, Build, hb, b), CondRow(m, map_, Probe, hp, p);
            EvalAst(m, ConjunctAst(c, Oriented(flip, map_), flip, |b|, |p|),
                    if flip then pc else bc, if flip then bc else pc)
            == Eval(m, e, PairRow(map_, b, p))
  {
    FlipInRange(e, map_);
    var bc, pc := CondRow(m, map_, Build, hb, b), CondRow(m, map_, Probe, hp, p);
    match c
    case Plain(_) => PlainAstMeans(m, e, map_, flip, b, p, bc, pc);
    case Hoisted(op, l, r) =>
      OperandValue(m, l, e.args[0], map_, hb, hp, flip, b, p);
      OperandValue(m, r, e.args[1], map_, hb, hp, flip, b, p);
      var asts := [OperandRef(l, flip, |b|, |p|), OperandRef(r, flip, |b|, |p|)];
      var left, right := if flip then pc else bc, if flip then bc else pc;
      assert seq(|asts|, i requires 0 <= i < |asts| => EvalAst(m, asts[i], left, right)) ==
             seq(|e.args|, i requires 0 <= i < |e.args| => Eval(m, e.args[i], PairRow(map_, b, p)));
  }

  // `cs[i]` stands for `es[i]`.
  ghost predicate AllMean(cs: seq<AstConjunct>, es: seq<Expr>, map_: FilterMap, hb: seq<Expr>, hp: seq<Expr>) {
    |cs| == |es| && forall i :: 0 <= i < |cs| ==> ConjunctMeans(cs[i], es[i], map_, hb, hp)
  }

  lemma AstInRange(cs: seq<AstConjunct>, es: seq<Expr>, map_: FilterMap, hb: seq<Expr>, hp: seq<Expr>, flip: bool)
    requires AllMean(cs, es, map_, hb, hp)
    ensures forall c :: c in cs && c.Plain? ==> InRange(c.expr, Oriented(flip, map_))
  {
    forall i | 0 <= i < |cs| && cs[i].Plain?
      ensures InRange(cs[i].expr, Oriented(flip, map_))
    {
      FlipInRange(es[i], map_);
    }
  }

  // AND-ing keeps three-valued truth: the whole is true exactly where each part is.
  lemma {:induction false} CrossAstFolds(
      m: Meaning, cs: seq<AstConjunct>, map_: FilterMap, flip: bool, bw: nat, pw: nat, left: Row, right: Row)
    requires cs != [] && forall c :: c in cs && c.Plain? ==> InRange(c.expr, map_)
    ensures IsTrue(EvalAst(m, CrossAst(cs, map_, flip, bw, pw), left, right)) <==>
            forall i :: 0 <= i < |cs| ==> IsTrue(EvalAst(m, ConjunctAst(cs[i], map_, flip, bw, pw), left, right))
    decreases |cs|
  {
    hide ConjunctAst, InRange;
    var last := |cs| - 1;
    if last > 0 {
      var init := cs[..last];
      CrossAstFolds(m, init, map_, flip, bw, pw, left, right);
      assert forall i :: 0 <= i < last ==> init[i] == cs[i];
    }
  }

  // The whole predicate: true on a pair exactly where every conjunct it stands for is.
  lemma CrossAstMeans(
      m: Meaning, cs: seq<AstConjunct>, es: seq<Expr>, map_: FilterMap, hb: seq<Expr>, hp: seq<Expr>, flip: bool,
      b: Row, p: Row)
    requires cs != [] && AllMean(cs, es, map_, hb, hp) && MapFits(map_, |b|, |p|)
    requires forall c :: c in cs && c.Plain? ==> InRange(c.expr, Oriented(flip, map_))
    ensures var bc, pc := CondRow(m, map_, Build, hb, b), CondRow(m, map_, Probe, hp, p);
            IsTrue(EvalAst(m, CrossAst(cs, Oriented(flip, map_), flip, |b|, |p|),
                           if flip then pc else bc, if flip then bc else pc))
            <==> AllTrue(m, es, PairRow(map_, b, p))
  {
    var bc, pc := CondRow(m, map_, Build, hb, b), CondRow(m, map_, Probe, hp, p);
    var left, right := if flip then pc else bc, if flip then bc else pc;
    var o := Oriented(flip, map_);
    CrossAstFolds(m, cs, o, flip, |b|, |p|, left, right);
    forall i | 0 <= i < |cs|
      ensures EvalAst(m, ConjunctAst(cs[i], o, flip, |b|, |p|), left, right) == Eval(m, es[i], PairRow(map_, b, p))
    {
      ConjunctAstMeans(m, cs[i], es[i], map_, hb, hp, flip, b, p);
    }
    hide ConjunctMeans, CondRow, InRange, PairRow, ConjunctAst, MapFits, Eval, EvalAst, CrossAst;
    assert forall i :: 0 <= i < |es| ==> es[i] in es;
  }

  // ------------------------------------------------------------ the split

  // The cross conjuncts by what the AST can take: `asts` stands for `taken`, `rest` is left to
  // be evaluated over pairs.
  datatype Split = Split(asts: seq<AstConjunct>, rest: seq<Expr>, hoistBuild: seq<Expr>, hoistProbe: seq<Expr>)

  ghost predicate SplitOk(s: Split, taken: seq<Expr>, cross: seq<Expr>, map_: FilterMap) {
    && AllMean(s.asts, taken, map_, s.hoistBuild, s.hoistProbe)
    && forall c :: c in cross <==> c in taken || c in s.rest
  }

  function OperandFor(e: Expr, map_: FilterMap): (o: Operand)
    requires InRange(e, map_)
  {
    if e.Col? then Operand(map_[e.index].side == Build, false, map_[e.index].index)
    else Operand(Reads(e, map_, Build), true, 0)
  }

  // A comparison the device takes once its operands are columns: each operand reads at most one
  // side, and one of them reads a side.
  predicate Hoistable(e: Expr, map_: FilterMap, comparable: Expr -> bool)
    requires InRange(e, map_)
  {
    && e.Node? && e.kind.Compare? && |e.args| == 2
    && (forall i :: 0 <= i < 2 ==> !(Reads(e.args[i], map_, Build) && Reads(e.args[i], map_, Probe)))
    && (exists i :: 0 <= i < 2 && (Reads(e.args[i], map_, Build) || Reads(e.args[i], map_, Probe)))
    && comparable(e)
  }

  /** Hoists the one-side operands of a comparison into condition columns. `comparable` is the
      engine's own word on whether the device can compare the two. */
  method Hoist(s: Split, e: Expr, map_: FilterMap, comparable: Expr -> bool, ghost taken: seq<Expr>)
    returns (ok: bool, s': Split)
    requires InRange(e, map_) && AllMean(s.asts, taken, map_, s.hoistBuild, s.hoistProbe)
    ensures ok <==> Hoistable(e, map_, comparable)
    ensures !ok ==> s' == s
    ensures ok ==> |s'.asts| == |s.asts| + 1 && s'.rest == s.rest
    ensures ok ==> AllMean(s'.asts, taken + [e], map_, s'.hoistBuild, s'.hoistProbe)
  {
    ok, s' := false, s;
    if !(e.Node? && e.kind.Compare? && |e.args| == 2) {
      return;
    }
    var x, y := e.args[0], e.args[1];
    var xb, xp := Reads(x, map_, Build), Reads(x, map_, Probe);
    var yb, yp := Reads(y, map_, Build), Reads(y, map_, Probe);
    if (xb && xp) || (yb && yp) {
      return;
    }
    if !xb && !xp && !yb && !yp {
      return;
    }
    var l, r := OperandFor(x, map_), OperandFor(y, map_);
    if !xb && !xp {
      l := l.(build := !r.build);
    }
    if !yb && !yp {
      r := r.(build := !l.build);
    }
    if !comparable(e) {
      return;
    }
    hide AllMean, ReadsOnly;
    var hb, hp := s.hoistBuild, s.hoistProbe;
    l, hb, hp := Place(l, x, map_, hb, hp);
    ghost var l1, hb1, hp1 := l, hb, hp;
    r, hb, hp := Place(r, y, map_, hb, hp);
    OperandMeansGrows(l1, x, map_, hb1, hp1, hb, hp);
    s' := Split(s.asts + [Hoisted(e.kind.op, l, r)], s.rest, hb, hp);
    ok := true;
    AllMeanGrows(s.asts, taken, map_, s.hoistBuild, s.hoistProbe, hb, hp);
    AllMeanNext(s.asts, taken, map_, hb, hp, Hoisted(e.kind.op, l, r), e);
  }

  // Gives an operand its column: what has none yet is appended to the columns its side computes.
  method Place(o: Operand, e: Expr, map_: FilterMap, hb: seq<Expr>, hp: seq<Expr>)
    returns (o': Operand, hb': seq<Expr>, hp': seq<Expr>)
    requires InRange(e, map_)
    requires if o.hoisted then ReadsOnly(e, map_, if o.build then Build else Probe)
             else OperandMeans(o, e, map_, hb, hp)
    ensures OperandMeans(o', e, map_, hb', hp') && hb <= hb' && hp <= hp'
    ensures o'.hoisted == o.hoisted && o'.build == o.build
  {
    o', hb', hp' := o, hb, hp;
    if o.hoisted {
      o' := o.(ordinal := if o.build then |hb| else |hp|);
      if o.build {
        hb' := hb + [e];
      } else {
        hp' := hp + [e];
      }
    }
  }

  lemma AllMeanNext(
      cs: seq<AstConjunct>, es: seq<Expr>, map_: FilterMap, hb: seq<Expr>, hp: seq<Expr>, c: AstConjunct, e: Expr)
    requires AllMean(cs, es, map_, hb, hp) && ConjunctMeans(c, e, map_, hb, hp)
    ensures AllMean(cs + [c], es + [e], map_, hb, hp)
  {
  }

  lemma AllMeanGrows(
      cs: seq<AstConjunct>, es: seq<Expr>, map_: FilterMap, hb: seq<Expr>, hp: seq<Expr>, hb': seq<Expr>,
      hp': seq<Expr>)
    requires AllMean(cs, es, map_, hb, hp) && hb <= hb' && hp <= hp'
    ensures AllMean(cs, es, map_, hb', hp')
  {
    forall i | 0 <= i < |cs|
      ensures ConjunctMeans(cs[i], es[i], map_, hb', hp')
    {
      if cs[i].Hoisted? {
        OperandMeansGrows(cs[i].lhs, es[i].args[0], map_, hb, hp, hb', hp');
        OperandMeansGrows(cs[i].rhs, es[i].args[1], map_, hb, hp, hb', hp');
      }
    }
  }

  /** Each cross conjunct to the AST as it is, to the AST hoisted, or to the rest. */
  method SplitCross(cross: seq<Expr>, map_: FilterMap, astAble: Expr -> bool, comparable: Expr -> bool)
    returns (s: Split, ghost taken: seq<Expr>)
    requires forall c :: c in cross ==> InRange(c, map_)
    ensures SplitOk(s, taken, cross, map_) && |s.asts| + |s.rest| == |cross|
    ensures forall c :: c in s.rest <==> c in cross && !astAble(c) && !Hoistable(c, map_, comparable)
  {
    s, taken := Split([], [], [], []), [];
    for i := 0 to |cross|
      invariant SplitOk(s, taken, cross[..i], map_) && |s.asts| + |s.rest| == i
      invariant forall c :: c in s.rest <==> c in cross[..i] && !astAble(c) && !Hoistable(c, map_, comparable)
    {
      var e := cross[i];
      assert e in cross;
      assert cross[..i + 1] == cross[..i] + [e];
      if astAble(e) {
        s, taken := s.(asts := s.asts + [Plain(e)]), taken + [e];
      } else {
        var ok, s' := Hoist(s, e, map_, comparable, taken);
        if ok {
          s, taken := s', taken + [e];
        } else {
          s := s.(rest := s.rest + [e]);
        }
      }
    }
    assert cross[..|cross|] == cross;
  }
}
