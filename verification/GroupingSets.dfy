/**
  Grouping sets. Each set masks some keys to NULL and groups on its own; the answers are put
  under one another with the set's grouping id as a further key. The id tells the sets apart, so
  grouping the whole by keys and id never mixes a key that is NULL with one that is masked.
 */
module GroupingSets {
  import opened Basics
  import opened Tables
  import opened JoinResidual
  import opened Aggregate
  import opened Groups
  import opened GroupCells
  import opened AggregateNode
  import opened AggregateRuns

  type Mask = seq<bool>

  // ------------------------------------------------------------ the grouping id

  // A mask read as a binary number, the first key its highest digit.
  function IdOf(mask: Mask): nat {
    if mask == [] then 0 else 2 * IdOf(mask[..|mask| - 1]) + if mask[|mask| - 1] then 1 else 0
  }

  lemma {:induction false} IdBelow(mask: Mask)
    ensures IdOf(mask) < Pow2(|mask|)
  {
    if mask != [] {
      IdBelow(mask[..|mask| - 1]);
    }
  }

  // No two masks over the same keys share an id.
  lemma {:induction false} IdTellsApart(a: Mask, b: Mask)
    requires |a| == |b|
    ensures IdOf(a) == IdOf(b) <==> a == b
  {
    if a != [] && IdOf(a) == IdOf(b) {
      var n := |a| - 1;
      IdTellsApart(a[..n], b[..n]);
      assert a == a[..n] + [a[n]] && b == b[..n] + [b[n]];
    }
  }

  // The digits of a mask's id: one bit for each key, the first key's the highest, set where masked.
  ghost predicate IsIdOf(mask: Mask, id: nat) {
    id < Pow2(|mask|) && forall i :: 0 <= i < |mask| ==> (HasBit(id, |mask| - 1 - i) <==> mask[i])
  }

  lemma {:induction false} IdDigits(mask: Mask)
    ensures IsIdOf(mask, IdOf(mask))
  {
    IdBelow(mask);
    if mask != [] {
      var n := |mask| - 1;
      var init, b := mask[..n], if mask[n] then 1 else 0;
      IdDigits(init);
      hide Pow2, HasBit;
      forall i | 0 <= i < |mask|
        ensures HasBit(IdOf(mask), n - i) <==> mask[i]
      {
        ShiftedBit(IdOf(init), b, if i < n then n - 1 - i else 0);
        assert i < n ==> init[i] == mask[i];
      }
    }
  }

  // How many bits the id column of so many keys has.
  function IdWidth(nkeys: nat): nat {
    if nkeys <= 8 then 8 else if nkeys <= 16 then 16 else if nkeys <= 32 then 32 else 64
  }

  // The id at its column's width: shifted in 64 bits and cast, it loses nothing.
  method GroupingIdColumn(mask: Mask, nkeys: nat) returns (r: Result<nat>)
    requires |mask| == nkeys
    ensures r.Ok? <==> nkeys <= 64
    ensures r.Ok? ==> r.value == IdOf(mask) && r.value < Pow2(IdWidth(nkeys))
  {
    hide Pow2, Truncated, IdOf;
    if nkeys > 64 {
      return Refused(TooManyKeys);
    }
    var gid := 0;
    EmptyId();
    for i := 0 to nkeys
      invariant gid == IdOf(mask[..i])
    {
      Shifted(mask, i);
      gid := Truncated(gid * 2, 64) + if mask[i] then 1 else 0;
    }
    assert mask[..nkeys] == mask;
    IdFits(mask);
    return Ok(Truncated(gid, IdWidth(nkeys)));
  }

  // The low `bits` bits.
  function Truncated(v: nat, bits: nat): nat {
    assert Pow2(bits) > 0 by { Pow2Grows(0, bits); }
    v % Pow2(bits)
  }

  lemma EmptyId()
    ensures IdOf([]) == 0
  {
  }

  // The shift drops no bit while there is room for one more.
  lemma Shifted(mask: Mask, i: nat)
    requires i < |mask| <= 64
    ensures IdOf(mask[..i + 1]) == Truncated(IdOf(mask[..i]) * 2, 64) + if mask[i] then 1 else 0
  {
    hide Pow2, Truncated;
    assert mask[..i + 1][..i] == mask[..i];
    IdBelow(mask[..i + 1]);
    Pow2Grows(i + 1, 64);
    Untruncated(IdOf(mask[..i]) * 2, 64);
  }

  lemma Untruncated(v: nat, bits: nat)
    requires v < Pow2(bits)
    ensures Truncated(v, bits) == v
  {
    hide Pow2;
    SmallMod(v, Pow2(bits));
  }

  lemma SmallMod(v: nat, m: nat)
    requires v < m
    ensures v % m == v
  {
  }

  // Nor does the cast.
  lemma IdFits(mask: Mask)
    requires |mask| <= 64
    ensures Truncated(IdOf(mask), IdWidth(|mask|)) == IdOf(mask) < Pow2(IdWidth(|mask|))
  {
    hide Pow2, IdOf, Truncated;
    IdBelow(mask);
    Pow2Grows(|mask|, IdWidth(|mask|));
    Untruncated(IdOf(mask), IdWidth(|mask|));
  }

  // ------------------------------------------------------------ one set

  function MaskKey(mask: Mask, key: Row): (k: Row)
    ensures |k| == |key|
    ensures forall i :: 0 <= i < |key| && i < |mask| ==> k[i] == if mask[i] then Null else key[i]
  {
    seq(|key|, i requires 0 <= i < |key| => if i < |mask| && mask[i] then Null else key[i])
  }

  function MaskRow(mask: Mask): InRow -> InRow {
    (r: InRow) => InRow(MaskKey(mask, r.key), r.args)
  }

  function SetKey(mask: Mask, key: Row): Row {
    MaskKey(mask, key) + [Num(IdOf(mask))]
  }

  function SetRow(mask: Mask): InRow -> InRow {
    (r: InRow) => InRow(SetKey(mask, r.key), r.args)
  }

  // The rows every set sees, under its own keys and id.
  function Expand(masks: seq<Mask>, rows: seq<InRow>): seq<InRow> {
    if masks == [] then []
    else Expand(masks[..|masks| - 1], rows) + Map(SetRow(masks[|masks| - 1]), rows)
  }

  function WithId(id: nat): InRow -> InRow {
    (r: InRow) => InRow(r.key + [Num(id)], r.args)
  }

  lemma SetCells(mask: Mask, rows: seq<InRow>, k: Row)
    ensures CellsOf(Map(SetRow(mask), rows), k + [Num(IdOf(mask))]) == CellsOf(Map(MaskRow(mask), rows), k)
  {
    var k' := k + [Num(IdOf(mask))];
    var kept := (r: InRow) => MaskKey(mask, r.key) == k;
    forall r: InRow
      ensures kept(r) == HasKey(k')(SetRow(mask)(r)) == HasKey(k)(MaskRow(mask)(r))
    {
      if SetKey(mask, r.key) == k' {
        assert SetKey(mask, r.key)[..|SetKey(mask, r.key)| - 1] == MaskKey(mask, r.key);
        assert k'[..|k'| - 1] == k;
      }
    }
    WhereMap(SetRow(mask), HasKey(k'), kept, rows);
    WhereMap(MaskRow(mask), HasKey(k), kept, rows);
  }

  lemma RekeyedKeys(mask: Mask, rows: seq<InRow>, table: seq<InRow>)
    requires DistinctKeys(table) && KeySet(table) == KeySet(Map(MaskRow(mask), rows))
    ensures DistinctKeys(Map(WithId(IdOf(mask)), table))
    ensures KeySet(Map(WithId(IdOf(mask)), table)) == KeySet(Map(SetRow(mask), rows))
  {
    var id := IdOf(mask);
    var masked, set_, out := Map(MaskRow(mask), rows), Map(SetRow(mask), rows), Map(WithId(id), table);
    forall i, j | 0 <= i < j < |out|
      ensures out[i].key != out[j].key
    {
      assert table[i].key == out[i].key[..|out[i].key| - 1];
      assert table[j].key == out[j].key[..|out[j].key| - 1];
    }
    forall k | k in KeySet(out)
      ensures k in KeySet(set_)
    {
      var i :| 0 <= i < |out| && out[i].key == k;
      assert table[i] in table && table[i].key in KeySet(masked);
      var j :| 0 <= j < |masked| && masked[j].key == table[i].key;
      assert set_[j] in set_;
    }
    forall k | k in KeySet(set_)
      ensures k in KeySet(out)
    {
      var j :| 0 <= j < |set_| && set_[j].key == k;
      assert masked[j] in masked && masked[j].key in KeySet(table);
      var i :| 0 <= i < |table| && table[i].key == masked[j].key;
      assert out[i] in out;
    }
  }

  // Grouping on masked keys and then adding the id is grouping on both.
  lemma SetAggregates(funcs: seq<Func>, phase: Phase, mask: Mask, table: seq<InRow>, rows: seq<InRow>)
    requires Aggregates(funcs, phase, table, Map(MaskRow(mask), rows))
    ensures Aggregates(funcs, phase, Map(WithId(IdOf(mask)), table), Map(SetRow(mask), rows))
  {
    hide Answers, CellsOf, IdOf;
    RekeyedKeys(mask, rows, table);
    var out := Map(WithId(IdOf(mask)), table);
    forall i | 0 <= i < |out|
      ensures out[i].args == Answers(funcs, phase, CellsOf(Map(SetRow(mask), rows), out[i].key))
    {
      assert table[i] in table;
      SetCells(mask, rows, table[i].key);
    }
  }

  // ------------------------------------------------------------ what the sets' rows say

  // The rows as one set sees them: masked keys NULL, everything else as it was.
  ghost predicate IsMasked(mask: Mask, rows: seq<InRow>, seen: seq<InRow>) {
    |seen| == |rows| && forall h :: 0 <= h < |rows| ==> IsMaskedRow(mask, rows[h], seen[h])
  }

  ghost predicate IsMaskedRow(mask: Mask, row: InRow, seen: InRow) {
    seen.args == row.args && IsMaskedKey(mask, row.key, seen.key)
  }

  ghost predicate IsMaskedKey(mask: Mask, key: Row, seen: Row) {
    && |seen| == |key|
    && forall i :: 0 <= i < |key| ==> seen[i] == if i < |mask| && mask[i] then Null else key[i]
  }

  // A key of one set: a row's own, masked, and after it the number with the mask's digits.
  ghost predicate IsSetKey(mask: Mask, key: Row, k: Row) {
    && |k| == |key| + 1 && IsMaskedKey(mask, key, k[..|key|])
    && k[|key|].Num? && k[|key|].n >= 0 && IsIdOf(mask, k[|key|].n)
  }

  // A group of one set, its cells what the rows say as the set sees them.
  ghost predicate IsGroupOf(fns: seq<Fn>, cols: seq<nat>, mask: Mask, rows: seq<InRow>, r: InRow)
    requires |cols| == |fns|
  {
    exists q, seen ::
      && q in rows && IsSetKey(mask, q.key, r.key)
      && IsMasked(mask, rows, seen) && HoldsStates(fns, cols, seen, r.key[..|q.key|], r.args)
  }

  // Every row is a group of one of the sets, and every row of the input has its group in each.
  ghost predicate HoldsSets(fns: seq<Fn>, cols: seq<nat>, masks: seq<Mask>, rows: seq<InRow>, table: seq<InRow>)
    requires |cols| == |fns|
  {
    && (forall r :: r in table ==> InSomeSet(fns, cols, masks, rows, r))
    && forall j, q :: 0 <= j < |masks| && q in rows ==> HasSetKey(masks[j], q.key, table)
  }

  ghost predicate InSomeSet(fns: seq<Fn>, cols: seq<nat>, masks: seq<Mask>, rows: seq<InRow>, r: InRow)
    requires |cols| == |fns|
  {
    exists j :: 0 <= j < |masks| && IsGroupOf(fns, cols, masks[j], rows, r)
  }

  ghost predicate HasSetKey(mask: Mask, key: Row, table: seq<InRow>) {
    exists r :: r in table && IsSetKey(mask, key, r.key)
  }

  lemma SetKeyIs(mask: Mask, key: Row)
    ensures IsSetKey(mask, key, SetKey(mask, key)) && SetKey(mask, key)[..|key|] == MaskKey(mask, key)
  {
    hide IsIdOf, IdOf;
    IdDigits(mask);
    assert SetKey(mask, key)[..|key|] == MaskKey(mask, key);
  }

  lemma MaskedRows(mask: Mask, rows: seq<InRow>)
    ensures IsMasked(mask, rows, Map(MaskRow(mask), rows))
  {
  }

  // What a group of one set's rows holds, under the set's key.
  lemma GroupIs(fns: seq<Fn>, cols: seq<nat>, mask: Mask, rows: seq<InRow>, q: InRow, r: InRow)
    requires |cols| == |fns| && q in rows && r.key == SetKey(mask, q.key)
    requires HoldsStates(fns, cols, Map(MaskRow(mask), rows), MaskKey(mask, q.key), r.args)
    ensures IsGroupOf(fns, cols, mask, rows, r)
  {
    hide HoldsStates, SetKey, MaskKey, IsSetKey, IsMasked;
    SetKeyIs(mask, q.key);
    MaskedRows(mask, rows);
  }

  // One set's groups under their keys and id are the set's.
  lemma OneSetHeld(fns: seq<Fn>, cols: seq<nat>, mask: Mask, rows: seq<InRow>, groups: seq<InRow>)
    requires |cols| == |fns| && HoldsGroups(fns, cols, groups, Map(MaskRow(mask), rows))
    ensures HoldsSets(fns, cols, [mask], rows, Map(WithId(IdOf(mask)), groups))
  {
    hide HoldsStates, MaskKey, IsGroupOf, IsSetKey, IdOf;
    var seen, out := Map(MaskRow(mask), rows), Map(WithId(IdOf(mask)), groups);
    forall r | r in out
      ensures InSomeSet(fns, cols, [mask], rows, r)
    {
      var i :| 0 <= i < |out| && out[i] == r;
      assert groups[i] in groups && HasRow(groups, groups[i].key) && HasRow(seen, groups[i].key);
      var h :| 0 <= h < |seen| && seen[h].key == groups[i].key;
      assert rows[h] in rows;
      GroupIs(fns, cols, mask, rows, rows[h], r);
      assert [mask][0] == mask;
    }
    forall j, q | 0 <= j < |[mask]| && q in rows
      ensures HasSetKey([mask][j], q.key, out)
    {
      var h :| 0 <= h < |rows| && rows[h] == q;
      assert seen[h] in seen && HasRow(seen, seen[h].key) && HasRow(groups, seen[h].key);
      var i :| 0 <= i < |groups| && groups[i].key == seen[h].key;
      SetKeyIs(mask, q.key);
      assert out[i] in out;
    }
  }

  lemma NoSetsHeld(fns: seq<Fn>, cols: seq<nat>, masks: seq<Mask>, rows: seq<InRow>)
    requires |cols| == |fns|
    ensures HoldsSets(fns, cols, masks[..0], rows, []) && Concat<InRow>([]) == []
  {
  }

  lemma OneMorePart(parts: seq<seq<InRow>>, part: seq<InRow>)
    ensures Concat(parts + [part]) == Concat(parts) + part
  {
    ConcatThen(parts, [part]);
    ConcatOne(part);
  }

  // The sets' tables, one under the other.
  lemma MoreSetsHeld(
      fns: seq<Fn>, cols: seq<nat>, masks: seq<Mask>, mask: Mask, rows: seq<InRow>, s: seq<InRow>, t: seq<InRow>)
    requires |cols| == |fns|
    requires HoldsSets(fns, cols, masks, rows, s) && HoldsSets(fns, cols, [mask], rows, t)
    ensures HoldsSets(fns, cols, masks + [mask], rows, s + t)
  {
    hide IsGroupOf, IsSetKey;
    var all := masks + [mask];
    forall r | r in s + t
      ensures InSomeSet(fns, cols, all, rows, r)
    {
      if r in s {
        assert InSomeSet(fns, cols, masks, rows, r);
        var j :| 0 <= j < |masks| && IsGroupOf(fns, cols, masks[j], rows, r);
        assert all[j] == masks[j];
      } else {
        assert InSomeSet(fns, cols, [mask], rows, r);
        assert all[|masks|] == mask;
      }
    }
    forall j, q | 0 <= j < |all| && q in rows
      ensures HasSetKey(all[j], q.key, s + t)
    {
      if j < |masks| {
        assert HasSetKey(masks[j], q.key, s);
      } else {
        assert HasSetKey([mask][0], q.key, t);
      }
    }
  }

  // ------------------------------------------------------------ tables of different groups

  lemma CellsThen(xs: seq<InRow>, ys: seq<InRow>, k: Row)
    ensures CellsOf(xs + ys, k) == CellsOf(xs, k) + CellsOf(ys, k)
    ensures k !in KeySet(xs) ==> CellsOf(xs, k) == []
    ensures k !in KeySet(ys) ==> CellsOf(ys, k) == []
  {
    WhereThen(HasKey(k), xs, ys);
    MapThen(ArgsOf(), Where(HasKey(k), xs), Where(HasKey(k), ys));
    if k !in KeySet(xs) {
      WhereNone(HasKey(k), xs);
    }
    if k !in KeySet(ys) {
      WhereNone(HasKey(k), ys);
    }
  }

  // Aggregates of inputs that share no key, one under the other, aggregate the inputs together.
  lemma ApartAggregates(funcs: seq<Func>, phase: Phase, s: seq<InRow>, t: seq<InRow>, xs: seq<InRow>, ys: seq<InRow>)
    requires Aggregates(funcs, phase, s, xs) && Aggregates(funcs, phase, t, ys)
    requires KeySet(xs) !! KeySet(ys)
    ensures Aggregates(funcs, phase, s + t, xs + ys)
  {
    hide Answers, CellsOf;
    assert KeySet(xs + ys) == KeySet(xs) + KeySet(ys);
    assert KeySet(s + t) == KeySet(s) + KeySet(t);
    forall i | 0 <= i < |s|
      ensures s[i].key in KeySet(xs)
    {
      assert s[i].key in KeySet(s);
    }
    forall i | 0 <= i < |t|
      ensures t[i].key in KeySet(ys)
    {
      assert t[i].key in KeySet(t);
    }
    forall r | r in s + t
      ensures r.args == Answers(funcs, phase, CellsOf(xs + ys, r.key))
    {
      CellsThen(xs, ys, r.key);
      if r in s {
        assert CellsOf(xs, r.key) + [] == CellsOf(xs, r.key);
      } else {
        assert [] + CellsOf(ys, r.key) == CellsOf(ys, r.key);
      }
    }
  }

  // ------------------------------------------------------------ the sets together

  lemma {:induction false} ExpandKeys(masks: seq<Mask>, rows: seq<InRow>, k: Row)
    requires k in KeySet(Expand(masks, rows))
    ensures exists j, r :: 0 <= j < |masks| && r in rows && k == SetKey(masks[j], r.key)
    decreases |masks|
  {
    var n := |masks| - 1;
    var init, last := Expand(masks[..n], rows), Map(SetRow(masks[n]), rows);
    if k in KeySet(init) {
      ExpandKeys(masks[..n], rows, k);
      var j, r :| 0 <= j < n && r in rows && k == SetKey(masks[..n][j], r.key);
      assert k == SetKey(masks[j], r.key);
    } else {
      var i :| 0 <= i < |last| && last[i].key == k;
      assert rows[i] in rows && k == SetKey(masks[n], rows[i].key);
    }
  }

  lemma SetKeysApart(a: Mask, b: Mask, x: Row, y: Row)
    requires |a| == |b| && a != b
    ensures SetKey(a, x) != SetKey(b, y)
  {
    IdTellsApart(a, b);
    assert SetKey(a, x)[|SetKey(a, x)| - 1] == Num(IdOf(a));
    assert SetKey(b, y)[|SetKey(b, y)| - 1] == Num(IdOf(b));
  }

  lemma SetsApart(masks: seq<Mask>, mask: Mask, rows: seq<InRow>)
    requires mask !in masks && forall j :: 0 <= j < |masks| ==> |masks[j]| == |mask|
    ensures KeySet(Expand(masks, rows)) !! KeySet(Map(SetRow(mask), rows))
  {
    hide SetKey, Expand;
    forall k | k in KeySet(Expand(masks, rows)) && k in KeySet(Map(SetRow(mask), rows))
      ensures false
    {
      ExpandKeys(masks, rows, k);
      var j, r :| 0 <= j < |masks| && r in rows && k == SetKey(masks[j], r.key);
      var i :| 0 <= i < |rows| && Map(SetRow(mask), rows)[i].key == k;
      SetKeysApart(masks[j], mask, r.key, rows[i].key);
    }
  }

  // One groupby per set over one set of requests, the id after the keys, one table under the
  // other. It is the grouping of all the sets' rows by keys and id exactly when no mask is given
  // twice (or there is nothing to group).
  method GroupingSetAggregate(
      funcs: seq<Func>, phase: Phase, nkeys: nat, nullExprs: nat, masks: seq<Mask>, input: seq<InRow>)
    returns (r: Result<seq<InRow>>)
    ensures r.Ok? <==> (nullExprs == nkeys && (forall f :: f in funcs ==> Shaped(f, phase)) &&
                        (masks == [] || nkeys <= 64) && forall j :: 0 <= j < |masks| ==> |masks[j]| == nkeys)
    ensures r.Ok? ==> (Aggregates(funcs, phase, r.value, Expand(masks, input)) <==> NoDup(masks) || input == [])
    ensures r.Ok? && OnValues(funcs, phase) ==> HoldsSets(Kinds(funcs), FirstArgs(funcs), masks, input, r.value)
  {
    hide *;
    if nullExprs != nkeys {
      return Refused(NullExprsMismatch);
    }
    var built := NodeRequests(funcs, phase);
    if built.Refused? {
      return Refused(built.why);
    }
    var out := [];
    ghost var parts: seq<seq<InRow>> := [];
    NoSetsHeld(Kinds(funcs), FirstArgs(funcs), masks, input);
    for s := 0 to |masks|
      invariant s == 0 || nkeys <= 64
      invariant forall j :: 0 <= j < s ==> |masks[j]| == nkeys
      invariant |parts| == s && out == Concat(parts)
      invariant forall j :: 0 <= j < s ==> Aggregates(funcs, phase, parts[j], Map(SetRow(masks[j]), input))
      invariant OnValues(funcs, phase) ==> HoldsSets(Kinds(funcs), FirstArgs(funcs), masks[..s], input, out)
    {
      if |masks[s]| != nkeys {
        return Refused(MaskMismatch);
      }
      var groups := RunGroups(built.value, Map(MaskRow(masks[s]), input), funcs, phase);
      var id := GroupingIdColumn(masks[s], nkeys);
      if id.Refused? {
        return Refused(id.why);
      }
      SetAggregates(funcs, phase, masks[s], groups, input);
      var part := Map(WithId(id.value), groups);
      OneMorePart(parts, part);
      NextSetHeld(funcs, phase, masks, s, input, groups, out);
      parts := parts + [part];
      out := out + part;
    }
    assert masks[..|masks|] == masks;
    SetsDecide(funcs, phase, nkeys, masks, parts, input);
    return Ok(out);
  }

  lemma NextSetHeld(
      funcs: seq<Func>, phase: Phase, masks: seq<Mask>, s: nat, input: seq<InRow>, groups: seq<InRow>, out: seq<InRow>)
    requires s < |masks| && Aggregates(funcs, phase, groups, Map(MaskRow(masks[s]), input))
    requires OnValues(funcs, phase) ==> HoldsSets(Kinds(funcs), FirstArgs(funcs), masks[..s], input, out)
    ensures OnValues(funcs, phase) ==>
              HoldsSets(Kinds(funcs), FirstArgs(funcs), masks[..s + 1], input,
                        out + Map(WithId(IdOf(masks[s])), groups))
  {
    hide *;
    if OnValues(funcs, phase) {
      assert masks[..s + 1] == masks[..s] + [masks[s]];
      AggregatesHold(funcs, phase, groups, Map(MaskRow(masks[s]), input));
      OneSetHeld(Kinds(funcs), FirstArgs(funcs), masks[s], input, groups);
      MoreSetsHeld(Kinds(funcs), FirstArgs(funcs), masks[..s], masks[s], input, out,
                   Map(WithId(IdOf(masks[s])), groups));
    }
  }

  // The sets' tables together group the sets' rows exactly when no mask is given twice.
  lemma SetsDecide(
      funcs: seq<Func>, phase: Phase, nkeys: nat, masks: seq<Mask>, parts: seq<seq<InRow>>, input: seq<InRow>)
    requires |parts| == |masks| && forall j :: 0 <= j < |masks| ==> |masks[j]| == nkeys
    requires forall j :: 0 <= j < |masks| ==> Aggregates(funcs, phase, parts[j], Map(SetRow(masks[j]), input))
    ensures Aggregates(funcs, phase, Concat(parts), Expand(masks, input)) <==> NoDup(masks) || input == []
  {
    hide Aggregates, SetRow, Expand, Concat, Map;
    assert masks[..|masks|] == masks && parts[..|parts|] == parts;
    if NoDup(masks) {
      SetsAggregate(funcs, phase, nkeys, masks, parts, input, |masks|);
    } else if input == [] {
      NoRowsAggregate(funcs, phase, masks, parts, |masks|);
    } else {
      SetTwice(funcs, phase, masks, parts, input);
    }
  }

  lemma {:induction false} SetsAggregate(
      funcs: seq<Func>, phase: Phase, nkeys: nat, masks: seq<Mask>, parts: seq<seq<InRow>>, input: seq<InRow>,
      n: nat)
    requires NoDup(masks) && forall j :: 0 <= j < |masks| ==> |masks[j]| == nkeys
    requires |parts| == |masks| && n <= |masks|
    requires forall j :: 0 <= j < |masks| ==> Aggregates(funcs, phase, parts[j], Map(SetRow(masks[j]), input))
    ensures Aggregates(funcs, phase, Concat(parts[..n]), Expand(masks[..n], input))
  {
    if n > 0 {
      hide Aggregates, KeySet;
      SetsAggregate(funcs, phase, nkeys, masks, parts, input, n - 1);
      assert masks[..n][..n - 1] == masks[..n - 1] && parts[..n][..n - 1] == parts[..n - 1];
      SetsApart(masks[..n - 1], masks[n - 1], input);
      ApartAggregates(funcs, phase, Concat(parts[..n - 1]), parts[n - 1], Expand(masks[..n - 1], input),
        Map(SetRow(masks[n - 1]), input));
    }
  }

  lemma {:induction false} NoRowsAggregate(
      funcs: seq<Func>, phase: Phase, masks: seq<Mask>, parts: seq<seq<InRow>>, n: nat)
    requires |parts| == |masks| && n <= |masks|
    requires forall j :: 0 <= j < |masks| ==> Aggregates(funcs, phase, parts[j], Map(SetRow(masks[j]), []))
    ensures Aggregates(funcs, phase, Concat(parts[..n]), Expand(masks[..n], []))
  {
    if n > 0 {
      hide Aggregates, KeySet;
      NoRowsAggregate(funcs, phase, masks, parts, n - 1);
      assert masks[..n][..n - 1] == masks[..n - 1] && parts[..n][..n - 1] == parts[..n - 1];
      assert Map(SetRow(masks[n - 1]), []) == [];
      NoKeys();
      ApartAggregates(funcs, phase, Concat(parts[..n - 1]), parts[n - 1], Expand(masks[..n - 1], []),
        Map(SetRow(masks[n - 1]), []));
    }
  }

  lemma NoKeys()
    ensures KeySet([]) == {}
  {
  }

  // A mask given twice answers each of its groups twice.
  lemma SetTwice(funcs: seq<Func>, phase: Phase, masks: seq<Mask>, parts: seq<seq<InRow>>, input: seq<InRow>)
    requires !NoDup(masks) && input != [] && |parts| == |masks|
    requires forall j :: 0 <= j < |masks| ==> Aggregates(funcs, phase, parts[j], Map(SetRow(masks[j]), input))
    ensures !Aggregates(funcs, phase, Concat(parts), Expand(masks, input))
  {
    hide Answers, CellsOf, SetKey, Expand;
    var i, j :| 0 <= i < j < |masks| && masks[i] == masks[j];
    var k := SetKey(masks[i], input[0].key);
    var a := KeyedRow(funcs, phase, masks[i], parts[i], input);
    var b := KeyedRow(funcs, phase, masks[j], parts[j], input);
    var x, y := Placed(parts, i, a, j, b);
    assert Concat(parts)[x].key == Concat(parts)[y].key;
  }

  lemma KeyedRow(funcs: seq<Func>, phase: Phase, mask: Mask, part: seq<InRow>, input: seq<InRow>) returns (at: nat)
    requires input != [] && Aggregates(funcs, phase, part, Map(SetRow(mask), input))
    ensures at < |part| && part[at].key == SetKey(mask, input[0].key)
  {
    var rows := Map(SetRow(mask), input);
    assert rows[0] in rows && rows[0].key in KeySet(part);
    at :| 0 <= at < |part| && part[at].key == rows[0].key;
  }

  // Elements of two parts keep their order in the concatenation.
  lemma {:induction false} Placed<T>(parts: seq<seq<T>>, i: nat, a: nat, j: nat, b: nat) returns (x: nat, y: nat)
    requires i < j < |parts| && a < |parts[i]| && b < |parts[j]|
    ensures x < y < |Concat(parts)| && Concat(parts)[x] == parts[i][a] && Concat(parts)[y] == parts[j][b]
    decreases |parts|
  {
    var n := |parts| - 1;
    if j < n {
      x, y := Placed(parts[..n], i, a, j, b);
    } else {
      x := PlacedOne(parts[..n], i, a);
      y := |Concat(parts[..n])| + b;
    }
  }

  lemma {:induction false} PlacedOne<T>(parts: seq<seq<T>>, i: nat, a: nat) returns (x: nat)
    requires i < |parts| && a < |parts[i]|
    ensures x < |Concat(parts)| && Concat(parts)[x] == parts[i][a]
    decreases |parts|
  {
    var n := |parts| - 1;
    if i < n {
      x := PlacedOne(parts[..n], i, a);
    } else {
      x := |Concat(parts[..n])| + a;
    }
  }

  // ------------------------------------------------------------ merging grouping sets

  lemma StatesFromCells(fns: seq<Fn>, xs: seq<InRow>, k: Row, ys: seq<InRow>, k': Row)
    requires CellsOf(xs, k) == CellsOf(ys, k')
    ensures StatesOf(fns, xs, k) == StatesOf(fns, ys, k')
  {
    hide Partial;
    forall i: nat
      ensures Column(xs, k, i) == Column(ys, k', i)
    {
      assert Column(xs, k, i) == Map(CellAt(i), CellsOf(xs, k));
      assert Column(ys, k', i) == Map(CellAt(i), CellsOf(ys, k'));
    }
  }

  // Among the rows of every set, the rows under one set's key are that set's own.
  lemma {:induction false} OwnCells(masks: seq<Mask>, nkeys: nat, rows: seq<InRow>, j: nat, key: Row, n: nat)
    requires NoDup(masks) && forall j :: 0 <= j < |masks| ==> |masks[j]| == nkeys
    requires j < |masks| && n <= |masks|
    ensures CellsOf(Expand(masks[..n], rows), SetKey(masks[j], key))
            == if j < n then CellsOf(Map(MaskRow(masks[j]), rows), MaskKey(masks[j], key)) else []
  {
    hide CellsOf, MaskKey, SetKey, KeySet;
    var k := SetKey(masks[j], key);
    if n == 0 {
      NoCells(k);
    } else {
      var init, last := masks[..n - 1], Map(SetRow(masks[n - 1]), rows);
      OwnCells(masks, nkeys, rows, j, key, n - 1);
      assert masks[..n][..n - 1] == init;
      CellsThen(Expand(init, rows), last, k);
      if j == n - 1 {
        KeyedCells(masks[j], rows, key);
      } else {
        OthersKeys(masks[n - 1], masks[j], rows, key);
      }
    }
  }

  lemma NoCells(k: Row)
    ensures CellsOf([], k) == []
  {
  }

  lemma KeyedCells(mask: Mask, rows: seq<InRow>, key: Row)
    ensures CellsOf(Map(SetRow(mask), rows), SetKey(mask, key)) == CellsOf(Map(MaskRow(mask), rows), MaskKey(mask, key))
  {
    SetCells(mask, rows, MaskKey(mask, key));
  }

  lemma OthersKeys(other: Mask, mask: Mask, rows: seq<InRow>, key: Row)
    requires |other| == |mask| && other != mask
    ensures SetKey(mask, key) !in KeySet(Map(SetRow(other), rows))
  {
    hide SetKey;
    forall r: InRow
      ensures SetKey(other, r.key) != SetKey(mask, key)
    {
      SetKeysApart(other, mask, r.key, key);
    }
  }

  lemma {:induction false} ExpandThen(masks: seq<Mask>, xs: seq<InRow>, ys: seq<InRow>)
    ensures multiset(Expand(masks, xs + ys)) == multiset(Expand(masks, xs) + Expand(masks, ys))
    decreases |masks|
  {
    if masks != [] {
      var n := |masks| - 1;
      ExpandThen(masks[..n], xs, ys);
      MapThen(SetRow(masks[n]), xs, ys);
    }
  }

  // The plan with every batch through the grouping-set node.
  function ExpandPlan(masks: seq<Mask>, plan: Plan): Plan {
    match plan
    case Batch(rows) => Batch(Expand(masks, rows))
    case MergeOf(children) => MergeOf(ExpandAll(masks, children))
  }

  function ExpandAll(masks: seq<Mask>, plans: seq<Plan>): (r: seq<Plan>)
    ensures |r| == |plans|
  {
    if plans == [] then []
    else ExpandAll(masks, plans[..|plans| - 1]) + [ExpandPlan(masks, plans[|plans| - 1])]
  }

  lemma {:induction false} ExpandRows(masks: seq<Mask>, plan: Plan)
    ensures multiset(RowsOf(ExpandPlan(masks, plan))) == multiset(Expand(masks, RowsOf(plan)))
    decreases plan
  {
    match plan
    case Batch(rows) =>
    case MergeOf(children) => ExpandAllRows(masks, children);
  }

  lemma {:induction false} ExpandAllRows(masks: seq<Mask>, plans: seq<Plan>)
    ensures multiset(RowsOfAll(ExpandAll(masks, plans))) == multiset(Expand(masks, RowsOfAll(plans)))
    decreases plans
  {
    if plans == [] {
      ExpandNothing(masks);
    } else {
      hide Expand;
      var n := |plans| - 1;
      ExpandAllRows(masks, plans[..n]);
      ExpandRows(masks, plans[n]);
      ExpandThen(masks, RowsOfAll(plans[..n]), RowsOf(plans[n]));
      assert ExpandAll(masks, plans)[..n] == ExpandAll(masks, plans[..n]);
    }
  }

  lemma {:induction false} ExpandNothing(masks: seq<Mask>)
    ensures Expand(masks, []) == []
  {
    if masks != [] {
      ExpandNothing(masks[..|masks| - 1]);
    }
  }

  lemma {:induction false} ExpandHolds(masks: seq<Mask>, rows: seq<InRow>, j: nat, r: InRow)
    requires j < |masks| && r in rows
    ensures SetKey(masks[j], r.key) in KeySet(Expand(masks, rows))
    decreases |masks|
  {
    hide SetKey, MaskKey;
    var n := |masks| - 1;
    var init, last := Expand(masks[..n], rows), Map(SetRow(masks[n]), rows);
    KeysOfBoth(init, last);
    if j < n {
      ExpandHolds(masks[..n], rows, j, r);
      assert masks[..n][j] == masks[j];
    } else {
      var i :| 0 <= i < |rows| && rows[i] == r;
      assert last[i] in last;
    }
  }

  lemma KeysOfBoth(xs: seq<InRow>, ys: seq<InRow>)
    ensures KeySet(xs + ys) == KeySet(xs) + KeySet(ys)
  {
  }

  // In `g`, a row's group in a set has the states the set alone would answer over all the rows.
  ghost predicate HasOwnGroup(fns: seq<Fn>, mask: Mask, rows: seq<InRow>, q: InRow, g: Groups) {
    var own := GroupPartial(fns, Map(MaskRow(mask), rows));
    && MaskKey(mask, q.key) in own && SetKey(mask, q.key) in g
    && g[SetKey(mask, q.key)] == own[MaskKey(mask, q.key)]
  }

  ghost predicate IsSomeSetKey(masks: seq<Mask>, rows: seq<InRow>, k: Row) {
    exists j, q :: 0 <= j < |masks| && q in rows && k == SetKey(masks[j], q.key)
  }

  // `g` are exactly the groups of every set.
  ghost predicate AreSetGroups(fns: seq<Fn>, masks: seq<Mask>, rows: seq<InRow>, g: Groups) {
    && (forall j, q :: 0 <= j < |masks| && q in rows ==> HasOwnGroup(fns, masks[j], rows, q, g))
    && forall k :: k in g ==> IsSomeSetKey(masks, rows, k)
  }

  // However the batches are merged, the answer lists, for each set, exactly the groups of that
  // set over all the rows with the states the set alone would answer: what the rows say as the set
  // sees them.
  lemma SetsSurviveMerging(fns: seq<Fn>, masks: seq<Mask>, nkeys: nat, plan: Plan, t: seq<InRow>)
    returns (table: seq<OutRow>, g: Groups)
    requires NoDup(masks) && forall j :: 0 <= j < |masks| ==> |masks[j]| == nkeys
    requires Yields(fns, ExpandPlan(masks, plan), t)
    ensures t == Map(FlatRow(), table) && Lists(table, g) && AreSetGroups(fns, masks, RowsOf(plan), g)
    ensures HoldsSets(fns, FirstColumns(|fns|), masks, RowsOf(plan), t)
    ensures forall i, j :: 0 <= i < j < |t| ==> t[i].key != t[j].key
  {
    hide Yields, Lists, GroupPartial, SetKey, Expand, MaskKey, StatesOf, CellsOf, HoldsSets, HoldsStates,
         HasOwnGroup, IsSomeSetKey;
    var rows := RowsOf(plan);
    table := AnyMergeTree(fns, ExpandPlan(masks, plan), t);
    ExpandRows(masks, plan);
    GroupPartialPermutes(fns, RowsOf(ExpandPlan(masks, plan)), Expand(masks, rows));
    g := GroupPartial(fns, Expand(masks, rows));
    forall j, q | 0 <= j < |masks| && q in rows
      ensures HasOwnGroup(fns, masks[j], rows, q, g)
    {
      OwnGroup(fns, masks, nkeys, rows, j, q);
    }
    forall k | k in g
      ensures IsSomeSetKey(masks, rows, k)
    {
      KeyOfSomeSet(masks, rows, k);
    }
    ListedSetsHold(fns, masks, rows, table, g);
  }

  lemma KeyOfSomeSet(masks: seq<Mask>, rows: seq<InRow>, k: Row)
    requires k in KeySet(Expand(masks, rows))
    ensures IsSomeSetKey(masks, rows, k)
  {
    hide SetKey, Expand;
    ExpandKeys(masks, rows, k);
  }

  lemma OwnGroup(fns: seq<Fn>, masks: seq<Mask>, nkeys: nat, rows: seq<InRow>, j: nat, r: InRow)
    requires NoDup(masks) && forall j :: 0 <= j < |masks| ==> |masks[j]| == nkeys
    requires j < |masks| && r in rows
    ensures HasOwnGroup(fns, masks[j], rows, r, GroupPartial(fns, Expand(masks, rows)))
  {
    hide Expand, SetKey, MaskKey, CellsOf, StatesOf;
    var own := Map(MaskRow(masks[j]), rows);
    ExpandHolds(masks, rows, j, r);
    var i :| 0 <= i < |rows| && rows[i] == r;
    assert own[i] in own && own[i].key in KeySet(own);
    OwnCells(masks, nkeys, rows, j, r.key, |masks|);
    assert masks[..|masks|] == masks;
    StatesFromCells(fns, Expand(masks, rows), SetKey(masks[j], r.key), own, MaskKey(masks[j], r.key));
  }

  lemma ListedSetsHold(fns: seq<Fn>, masks: seq<Mask>, rows: seq<InRow>, table: seq<OutRow>, g: Groups)
    requires Lists(table, g) && AreSetGroups(fns, masks, rows, g)
    ensures HoldsSets(fns, FirstColumns(|fns|), masks, rows, Map(FlatRow(), table))
  {
    hide HasOwnGroup, IsSomeSetKey, IsGroupOf, IsSetKey, FlatStates, SetKey;
    var t, cols := Map(FlatRow(), table), FirstColumns(|fns|);
    forall r | r in t
      ensures InSomeSet(fns, cols, masks, rows, r)
    {
      var i :| 0 <= i < |t| && t[i] == r;
      assert table[i] in table;
      ListedInSet(fns, masks, rows, table[i], g);
    }
    forall j, q | 0 <= j < |masks| && q in rows
      ensures HasSetKey(masks[j], q.key, t)
    {
      assert HasOwnGroup(fns, masks[j], rows, q, g);
      ListedKey(fns, masks[j], rows, q, table, g);
    }
  }

  lemma ListedInSet(fns: seq<Fn>, masks: seq<Mask>, rows: seq<InRow>, r: OutRow, g: Groups)
    requires AreSetGroups(fns, masks, rows, g) && r.key in g && r.states == g[r.key]
    ensures InSomeSet(fns, FirstColumns(|fns|), masks, rows, FlatRow()(r))
  {
    hide HoldsStates, MaskKey, SetKey, IsGroupOf, StatesOf, FlatStates;
    assert IsSomeSetKey(masks, rows, r.key);
    var j, q :| 0 <= j < |masks| && q in rows && r.key == SetKey(masks[j], q.key);
    assert HasOwnGroup(fns, masks[j], rows, q, g);
    StatesHold(fns, Map(MaskRow(masks[j]), rows), MaskKey(masks[j], q.key));
    GroupIs(fns, FirstColumns(|fns|), masks[j], rows, q, FlatRow()(r));
  }

  lemma ListedKey(fns: seq<Fn>, mask: Mask, rows: seq<InRow>, q: InRow, table: seq<OutRow>, g: Groups)
    requires Lists(table, g) && HasOwnGroup(fns, mask, rows, q, g)
    ensures HasSetKey(mask, q.key, Map(FlatRow(), table))
  {
    hide MaskKey, SetKey, IsSetKey, StatesOf, FlatStates, GroupPartial;
    var t := Map(FlatRow(), table);
    assert SetKey(mask, q.key) in OutKeys(table);
    var i :| 0 <= i < |table| && table[i].key == SetKey(mask, q.key);
    SetKeyIs(mask, q.key);
    assert t[i] in t;
  }

  // ------------------------------------------------------------ the node

  datatype Node = Node(funcs: seq<Func>, phase: Phase, nkeys: nat, nullExprs: nat, sets: seq<Mask>)

  predicate UsesSets(node: Node) {
    node.nkeys > 0 && node.nullExprs > 0 && node.sets != []
  }

  datatype Handed = Nothing | Table(rows: seq<InRow>)

  // What the node answers: without keys one row whatever the input, with grouping sets the groups
  // of every set, and otherwise the groups. Handed nothing, a partial node answers for no rows.
  method ExecuteAggregate(node: Node, handed: Handed) returns (r: Result<seq<InRow>>)
    ensures r.Ok? <==>
              && (handed == Nothing ==> node.phase == AtPartial)
              && (node.nkeys == 0 ==> node.funcs != [])
              && (forall f :: f in node.funcs ==> Shaped(f, node.phase))
              && (UsesSets(node) ==> node.nullExprs == node.nkeys <= 64)
              && (UsesSets(node) ==> forall j :: 0 <= j < |node.sets| ==> |node.sets[j]| == node.nkeys)
    ensures var input := if handed.Table? then handed.rows else [];
            r.Ok? ==>
              if node.nkeys == 0 then
                r.value == [InRow([], Answers(node.funcs, node.phase, Map(ArgsOf(), input)))]
              else if UsesSets(node) then
                Aggregates(node.funcs, node.phase, r.value, Expand(node.sets, input)) <==>
                  NoDup(node.sets) || input == []
              else
                Aggregates(node.funcs, node.phase, r.value, input)
    ensures var input := if handed.Table? then handed.rows else [];
            var fns, cols := Kinds(node.funcs), FirstArgs(node.funcs);
            r.Ok? && OnValues(node.funcs, node.phase) ==>
              if node.nkeys == 0 then
                && |r.value| == 1 && r.value[0].key == []
                && HoldsStates(fns, cols, OneGroup(Map(ArgsOf(), input)), [], r.value[0].args)
              else if node.nullExprs > 0 && node.sets != [] then HoldsSets(fns, cols, node.sets, input, r.value)
              else HoldsGroups(fns, cols, r.value, input)
  {
    hide Answers, Aggregates, Shaped, Expand, NoDup, HoldsStates, HoldsSets, HoldsGroups, OnValues, Kinds, FirstArgs;
    if handed.Nothing? && node.phase == AtMerge {
      return Refused(NoInput);
    }
    var input := if handed.Table? then handed.rows else [];
    if node.nkeys == 0 {
      var row: Result<Cells>;
      if exists i :: 0 <= i < |node.funcs| && node.funcs[i].kind == Welford {
        row := KeylessWelfordAggregate(node.funcs, node.phase, input);
      } else {
        row := KeylessAggregate(node.funcs, node.phase, Map(ArgsOf(), input));
      }
      if row.Refused? {
        return Refused(row.why);
      }
      return Ok([InRow([], row.value)]);
    }
    if node.nullExprs > 0 && node.sets != [] {
      r := GroupingSetAggregate(node.funcs, node.phase, node.nkeys, node.nullExprs, node.sets, input);
    } else {
      r := GroupedAggregate(node.funcs, node.phase, input);
    }
  }
}
