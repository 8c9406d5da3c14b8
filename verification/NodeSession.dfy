/**
  The session a plan is driven through: resident tables under handles, live joins under ids, and
  the calls that consume and produce them. What an operator computes is a parameter of the call,
  any function of the tables it is given that may also fail; what a join computes is the streaming
  join's own; what the session does with the handles around them is the model.
 */
module NodeSessions {
  import opened Basics
  import opened Tables
  import opened JoinResidual
  import JoinSpec
  import JoinArms
  import JoinSessions

  // A table: its column views, a name and an owner per column, and its rows.
  datatype TableResult = TableResult(columns: nat, names: seq<string>, owners: nat, rows: seq<Row>)

  datatype Outcome = Answer(table: TableResult) | Throws

  // A call's end: its value, a refusal of a join call, any other exception, or a read past the end
  // of the handles it was given, of which nothing can be said.
  datatype Reply<T> = Done(value: T) | Refusal | Failure | Undefined

  datatype NodeKind =
    | Scan(batches: nat)
    | CoalescePartitions
    | SortPreservingMerge
    | HashRepartition(partitions: nat)
    | JoinNode(join: JoinSpec.Desc)
    | MapNode

  // A live join: whether it is finished, the build side it took and every probe row since.
  datatype JoinState = JoinState(finished: bool, build: seq<Row>, probed: seq<Row>)

  // ------------------------------------------------------------ a session's state as a value

  datatype Snap = Snap(
    registry: map<nat, TableResult>, nextHandle: nat,
    joins: map<nat, JoinState>, joinSeq: map<nat, nat>, nextJoin: nat)

  // The shape a table must have to be resident.
  predicate Shaped(t: TableResult) {
    t.columns > 0 && |t.names| == t.columns && t.owners == t.columns
  }

  ghost predicate ValidSnap(nodes: seq<NodeKind>, s: Snap) {
    && s.nextHandle >= 1 && s.nextJoin >= 1
    && (forall h :: h in s.registry ==> 1 <= h < s.nextHandle && Shaped(s.registry[h]))
    && s.joins.Keys == s.joinSeq.Keys
    && forall j :: j in s.joins ==>
         1 <= j < s.nextJoin && s.joinSeq[j] < |nodes| && nodes[s.joinSeq[j]].JoinNode?
  }

  const FreshSnap := Snap(map[], 1, map[], map[], 1)

  // What every call keeps: ids are only ever issued upwards, an id issued before either still
  // names the same table or names none, and a join keeps its build side, forgets no probe row and
  // stays finished once it is.
  ghost predicate Step(a: Snap, b: Snap) {
    && a.nextHandle <= b.nextHandle && a.nextJoin <= b.nextJoin
    && (forall h :: h in b.registry && h < a.nextHandle ==> h in a.registry && b.registry[h] == a.registry[h])
    && b.joins.Keys == b.joinSeq.Keys && a.joins.Keys == a.joinSeq.Keys
    && forall j :: j in b.joins && j < a.nextJoin ==>
         j in a.joins && b.joinSeq[j] == a.joinSeq[j] && SameJoin(a.joins[j], b.joins[j])
  }

  predicate SameJoin(a: JoinState, b: JoinState) {
    b.build == a.build && a.probed <= b.probed && (a.finished ==> b.finished)
  }

  lemma StepThen(a: Snap, b: Snap, c: Snap)
    requires Step(a, b) && Step(b, c)
    ensures Step(a, c)
  {
  }

  // ------------------------------------------------------------ what calls do to a registry

  function Without(reg: map<nat, TableResult>, hs: seq<nat>): (r: map<nat, TableResult>)
    ensures forall h :: h in r <==> h in reg && h !in hs
    ensures forall h :: h in r ==> r[h] == reg[h]
  {
    map h | h in reg && h !in hs :: reg[h]
  }

  // `outs` under consecutive ids from `first`.
  function Issued(first: nat, outs: seq<TableResult>): (m: map<nat, TableResult>)
    ensures forall h :: h in m <==> first <= h < first + |outs|
    ensures forall h :: h in m ==> m[h] == outs[h - first]
  {
    if outs == [] then map[]
    else Issued(first, outs[..|outs| - 1])[first + |outs| - 1 := outs[|outs| - 1]]
  }

  function Ids(first: nat, n: nat): (hs: seq<nat>)
    ensures |hs| == n && forall p :: 0 <= p < n ==> hs[p] == first + p
  {
    seq(n, p requires 0 <= p < n => first + p)
  }

  function TableAt(reg: map<nat, TableResult>): nat -> TableResult {
    h => if h in reg then reg[h] else TableResult(0, [], 0, [])
  }

  function TablesAt(reg: map<nat, TableResult>, hs: seq<nat>): seq<TableResult> {
    Map(TableAt(reg), hs)
  }

  // Partition p of every child.
  function Lane(child: seq<seq<nat>>, p: nat): seq<nat>
    requires forall c :: 0 <= c < |child| ==> p < |child[c]|
  {
    seq(|child|, c requires 0 <= c < |child| => child[c][p])
  }

  function Lanes(child: seq<seq<nat>>, n: nat): seq<nat>
    requires forall c :: 0 <= c < |child| ==> n <= |child[c]|
  {
    if n == 0 then [] else Lanes(child, n - 1) + Lane(child, n - 1)
  }

  // The registry midway: the tables there at the start and those issued since, less the ones used.
  ghost predicate Midway(s: Snap, start: Snap, used: seq<nat>, outs: seq<TableResult>) {
    && s == start.(registry := s.registry, nextHandle := start.nextHandle + |outs|)
    && s.registry == Without(start.registry + Issued(start.nextHandle, outs), used)
    && NoDup(used)
    && forall h :: h in used ==> h in start.registry || start.nextHandle <= h < start.nextHandle + |outs|
  }

  function Everything(start: Snap, outs: seq<TableResult>): map<nat, TableResult> {
    start.registry + Issued(start.nextHandle, outs)
  }

  lemma MidwayStart(nodes: seq<NodeKind>, s: Snap)
    requires ValidSnap(nodes, s)
    ensures Midway(s, s, [], [])
  {
  }

  lemma MidwayTake(s: Snap, start: Snap, used: seq<nat>, outs: seq<TableResult>, h: nat, s': Snap)
    requires Midway(s, start, used, outs) && h in s.registry
    requires s' == s.(registry := s.registry - {h})
    ensures Midway(s', start, used + [h], outs)
    ensures h in Everything(start, outs) && s.registry[h] == TableAt(Everything(start, outs))(h)
  {
    var all := start.registry + Issued(start.nextHandle, outs);
    assert s'.registry == Without(all, used + [h]);
    assert h !in used;
  }

  lemma MidwayRegister(
      nodes: seq<NodeKind>, s: Snap, start: Snap, used: seq<nat>, outs: seq<TableResult>, t: TableResult, s': Snap)
    requires ValidSnap(nodes, start) && Midway(s, start, used, outs)
    requires s' == s.(registry := s.registry[s.nextHandle := t], nextHandle := s.nextHandle + 1)
    ensures Midway(s', start, used, outs + [t])
  {
    hide Without, Issued;
    var id := s.nextHandle;
    IssuedNext(start.nextHandle, outs, t);
    assert id !in used;
    PutLast(start.registry, Issued(start.nextHandle, outs), id, t);
    WithoutNext(start.registry + Issued(start.nextHandle, outs), used, id, t);
  }

  lemma PutLast(reg: map<nat, TableResult>, more: map<nat, TableResult>, id: nat, t: TableResult)
    ensures reg + more[id := t] == (reg + more)[id := t]
  {
  }

  lemma IssuedNext(first: nat, outs: seq<TableResult>, t: TableResult)
    ensures Issued(first, outs + [t]) == Issued(first, outs)[first + |outs| := t]
  {
    assert (outs + [t])[..|outs|] == outs;
  }

  lemma WithoutNext(reg: map<nat, TableResult>, used: seq<nat>, id: nat, t: TableResult)
    requires id !in used
    ensures Without(reg[id := t], used) == Without(reg, used)[id := t]
  {
  }

  lemma MidwayStep(nodes: seq<NodeKind>, s: Snap, start: Snap, used: seq<nat>, outs: seq<TableResult>)
    requires ValidSnap(nodes, start) && Midway(s, start, used, outs)
    requires forall p :: 0 <= p < |outs| ==> Shaped(outs[p])
    ensures ValidSnap(nodes, s) && Step(start, s)
  {
  }

  // What a table was at the start, or when it was issued, it still is when read later.
  lemma EverythingGrows(nodes: seq<NodeKind>, start: Snap, outs: seq<TableResult>, t: TableResult, hs: seq<nat>)
    requires forall h :: h in hs ==> h in Everything(start, outs)
    requires ValidSnap(nodes, start)
    ensures TablesAt(Everything(start, outs), hs) == TablesAt(Everything(start, outs + [t]), hs)
    ensures forall h :: h in hs ==> h in Everything(start, outs + [t])
  {
    hide Issued, Shaped;
    IssuedNext(start.nextHandle, outs, t);
    var before, after := Everything(start, outs), Everything(start, outs + [t]);
    forall i | 0 <= i < |hs|
      ensures hs[i] in after && TableAt(after)(hs[i]) == TableAt(before)(hs[i])
    {
      var h := hs[i];
      assert h in hs && h < start.nextHandle + |outs|;
    }
  }

  // ------------------------------------------------------------ row ranges

  predicate Within(i: int, lo: int, hi: int) {
    lo <= i < hi
  }

  // Rows `offset` to `offset + length` of a table, the sum taken without overflow.
  method ClampRowRange(offset: nat, length: nat, rows: nat) returns (begin: nat, end: nat)
    ensures begin <= end <= rows
    ensures forall i :: Within(i, begin, end) <==> Within(i, offset, offset + length) && i < rows
  {
    begin := if offset < rows then offset else rows;
    var take := if length < rows - begin then length else rows - begin;
    end := begin + take;
  }

  // A node's outputs.
  predicate ScansBatches(kind: NodeKind) {
    kind.Scan? && kind.batches > 0
  }

  predicate Collapses(kind: NodeKind) {
    kind.CoalescePartitions? || kind.SortPreservingMerge?
  }

  predicate Maps(kind: NodeKind) {
    !ScansBatches(kind) && !Collapses(kind) && !kind.HashRepartition?
  }

  // A node that maps runs once even for a first child with no partitions.
  function OutCount(kind: NodeKind, child: seq<seq<nat>>): nat {
    if ScansBatches(kind) then kind.batches
    else if Collapses(kind) then 1
    else if kind.HashRepartition? then kind.partitions
    else if child == [] || child[0] == [] then 1
    else |child[0]|
  }

  // The calls that get past every check and then read a handle that is not there: a collapse or
  // a scatter of no children its first child, any other node the first partition of a first
  // child that has none.
  predicate ReadsPastEnd(kind: NodeKind, child: seq<seq<nat>>, outCap: nat) {
    if ScansBatches(kind) then false
    else if Collapses(kind) then child == [] && outCap >= 1
    else if kind.HashRepartition? then child == [] && 0 < kind.partitions <= outCap
    else child != [] && child[0] == [] && outCap >= 1 && forall c :: 1 <= c < |child| ==> |child[c]| == 1
  }

  // The calls that get past every check and read only what is there.
  predicate Accepted(kind: NodeKind, child: seq<seq<nat>>, outCap: nat) {
    && OutCount(kind, child) <= outCap
    && (Collapses(kind) ==> child != [] && child[0] != [])
    && (kind.HashRepartition? ==> kind.partitions > 0 && child != [] && |child[0]| == 1)
    && (Maps(kind) ==> forall c :: 0 <= c < |child| ==> |child[c]| == OutCount(kind, child))
  }

  lemma AcceptedStaysIn(kind: NodeKind, child: seq<seq<nat>>, outCap: nat)
    requires Accepted(kind, child, outCap)
    ensures !ReadsPastEnd(kind, child, outCap)
  {
  }

  // The handles a call consumes.
  function Used(kind: NodeKind, child: seq<seq<nat>>, outCap: nat): seq<nat>
    requires Accepted(kind, child, outCap)
  {
    if ScansBatches(kind) then []
    else if Collapses(kind) || kind.HashRepartition? then child[0]
    else Lanes(child, OutCount(kind, child))
  }

  // The handles whose tables output p is computed from.
  function InputsOf(kind: NodeKind, child: seq<seq<nat>>, outCap: nat, p: nat): seq<nat>
    requires Accepted(kind, child, outCap) && p < OutCount(kind, child)
  {
    if ScansBatches(kind) then []
    else if Collapses(kind) || kind.HashRepartition? then child[0]
    else Lane(child, p)
  }

  type Work = (nat, seq<TableResult>) -> Outcome

  // The operator never fails.
  ghost predicate Working(work: Work) {
    forall p, ts :: work(p, ts).Answer? && Shaped(work(p, ts).table)
  }

  // A handle a call can name for its output p: resident at the start, or issued by the call before.
  predicate Named(start: Snap, h: nat, p: nat) {
    h in start.registry || start.nextHandle <= h < start.nextHandle + p
  }

  // Every output so far is what the operator answered for its inputs.
  ghost predicate Computed(
      work: Work, kind: NodeKind, child: seq<seq<nat>>, outCap: nat, start: Snap, outs: seq<TableResult>)
    requires Accepted(kind, child, outCap)
  {
    var all := Everything(start, outs);
    && |outs| <= OutCount(kind, child)
    && (forall p :: 0 <= p < |outs| ==> Shaped(outs[p]))
    && (forall p, h :: 0 <= p < |outs| && h in InputsOf(kind, child, outCap, p) ==> Named(start, h, p))
    && forall p :: 0 <= p < |outs| ==>
         work(p, TablesAt(all, InputsOf(kind, child, outCap, p))) == Answer(outs[p])
  }

  // A call that succeeded: its outputs under the next ids, its inputs gone.
  ghost predicate Executed(
      work: Work, kind: NodeKind, child: seq<seq<nat>>, outCap: nat,
      start: Snap, end: Snap, handles: seq<nat>, outs: seq<TableResult>)
  {
    && Accepted(kind, child, outCap)
    && |outs| == OutCount(kind, child)
    && handles == Ids(start.nextHandle, |outs|)
    && Midway(end, start, Used(kind, child, outCap), outs)
    && Computed(work, kind, child, outCap, start, outs)
  }

  // ------------------------------------------------------------ the same, table by table

  // The table a handle names during a call: one resident at the start, or an output of the call's own.
  ghost predicate Names(start: Snap, outs: seq<TableResult>, h: nat, t: TableResult) {
    || (h in start.registry && t == start.registry[h])
    || (start.nextHandle <= h < start.nextHandle + |outs| && t == outs[h - start.nextHandle])
  }

  // Every output is what the operator answered for the tables under `inputs`, in that order.
  ghost predicate EachFrom(work: Work, inputs: seq<nat>, start: Snap, outs: seq<TableResult>) {
    forall p :: 0 <= p < |outs| ==> OneFrom(work, inputs, start, outs, p)
  }

  ghost predicate OneFrom(work: Work, inputs: seq<nat>, start: Snap, outs: seq<TableResult>, p: nat)
    requires p < |outs|
  {
    exists ts: seq<TableResult> ::
      && |ts| == |inputs| && work(p, ts) == Answer(outs[p])
      && forall i :: 0 <= i < |inputs| ==> Names(start, outs, inputs[i], ts[i])
  }

  // Output p is what the operator answered for one table of each child, the one under the child's
  // p-th handle.
  ghost predicate EachFromItsLane(work: Work, child: seq<seq<nat>>, start: Snap, outs: seq<TableResult>) {
    forall p :: 0 <= p < |outs| ==> OneFromItsLane(work, child, start, outs, p)
  }

  ghost predicate OneFromItsLane(work: Work, child: seq<seq<nat>>, start: Snap, outs: seq<TableResult>, p: nat)
    requires p < |outs|
  {
    exists ts: seq<TableResult> ::
      && |ts| == |child| && work(p, ts) == Answer(outs[p])
      && forall c :: 0 <= c < |child| ==> p < |child[c]| && Names(start, outs, child[c][p], ts[c])
  }

  // The outputs have the next ids, and of the tables there were and those there are now all are
  // resident but the consumed.
  ghost predicate Replaced(start: Snap, end: Snap, outs: seq<TableResult>, handles: seq<nat>, consumed: set<nat>) {
    && |handles| == |outs| && (forall p :: 0 <= p < |outs| ==> handles[p] == start.nextHandle + p)
    && end == start.(registry := end.registry, nextHandle := start.nextHandle + |outs|)
    && (forall h :: h in end.registry ==> h !in consumed && Names(start, outs, h, end.registry[h]))
    && (forall h :: h in start.registry && h !in consumed ==> h in end.registry)
    && forall h :: start.nextHandle <= h < start.nextHandle + |outs| && h !in consumed ==> h in end.registry
  }

  function HandlesIn(hs: seq<nat>): set<nat> {
    set h | h in hs
  }

  function EveryHandle(child: seq<seq<nat>>): set<nat> {
    set c, p | 0 <= c < |child| && 0 <= p < |child[c]| :: child[c][p]
  }

  /** A call that succeeded, kind by kind. A scan with batches reads nothing; a collapse and a scatter
      read the whole of their first child; any other node maps. */
  ghost predicate Ran(
      work: Work, kind: NodeKind, child: seq<seq<nat>>, start: Snap, end: Snap, handles: seq<nat>,
      outs: seq<TableResult>)
  {
    if kind.Scan? && kind.batches > 0 then
      && |outs| == kind.batches
      && EachFrom(work, [], start, outs) && Replaced(start, end, outs, handles, {})
    else if kind.CoalescePartitions? || kind.SortPreservingMerge? || kind.HashRepartition? then
      && |outs| == (if kind.HashRepartition? then kind.partitions else 1) && child != []
      && EachFrom(work, child[0], start, outs) && Replaced(start, end, outs, handles, HandlesIn(child[0]))
    else
      && |outs| == (if child == [] then 1 else |child[0]|)
      && (forall c :: 0 <= c < |child| ==> |child[c]| == |outs|)
      && EachFromItsLane(work, child, start, outs) && Replaced(start, end, outs, handles, EveryHandle(child))
  }

  lemma EverythingNames(nodes: seq<NodeKind>, start: Snap, outs: seq<TableResult>, h: nat)
    requires ValidSnap(nodes, start) && h in Everything(start, outs)
    ensures Names(start, outs, h, TableAt(Everything(start, outs))(h))
  {
  }

  lemma {:induction false} LanesAre(child: seq<seq<nat>>, n: nat, h: nat)
    requires forall c :: 0 <= c < |child| ==> n <= |child[c]|
    ensures h in Lanes(child, n) <==> exists c, p :: 0 <= c < |child| && 0 <= p < n && child[c][p] == h
    decreases n
  {
    if n > 0 {
      LanesAre(child, n - 1, h);
      var last := Lane(child, n - 1);
      if c, p :| 0 <= c < |child| && 0 <= p < n && child[c][p] == h {
        assert last[c] == child[c][n - 1];
        assert p < n - 1 ==> h in Lanes(child, n - 1);
      }
    }
  }

  lemma UsedIs(kind: NodeKind, child: seq<seq<nat>>, outCap: nat, h: nat)
    requires Accepted(kind, child, outCap)
    ensures h in Used(kind, child, outCap) <==>
            if ScansBatches(kind) then false
            else if Collapses(kind) || kind.HashRepartition? then h in HandlesIn(child[0])
            else h in EveryHandle(child)
  {
    if Maps(kind) {
      LanesAre(child, OutCount(kind, child), h);
    }
  }

  lemma ReplacedWhen(
      nodes: seq<NodeKind>, start: Snap, end: Snap, outs: seq<TableResult>, handles: seq<nat>, used: seq<nat>,
      consumed: set<nat>)
    requires ValidSnap(nodes, start) && Midway(end, start, used, outs) && handles == Ids(start.nextHandle, |outs|)
    requires forall h :: h in used <==> h in consumed
    ensures Replaced(start, end, outs, handles, consumed)
  {
    hide ValidSnap, Shaped;
    forall h | h in end.registry
      ensures h !in consumed && Names(start, outs, h, end.registry[h])
    {
      EverythingNames(nodes, start, outs, h);
    }
  }

  lemma TablesNamed(
      nodes: seq<NodeKind>, start: Snap, outs: seq<TableResult>, hs: seq<nat>, p: nat)
    requires ValidSnap(nodes, start) && p <= |outs| && forall h :: h in hs ==> Named(start, h, p)
    ensures forall i :: 0 <= i < |hs| ==> Names(start, outs, hs[i], TablesAt(Everything(start, outs), hs)[i])
  {
    hide ValidSnap, Names;
    forall i | 0 <= i < |hs|
      ensures Names(start, outs, hs[i], TablesAt(Everything(start, outs), hs)[i])
    {
      assert hs[i] in hs;
      NamedIsThere(start, outs, hs[i]);
      EverythingNames(nodes, start, outs, hs[i]);
    }
  }

  lemma ComputedMeans(
      nodes: seq<NodeKind>, work: Work, kind: NodeKind, child: seq<seq<nat>>, outCap: nat, start: Snap,
      outs: seq<TableResult>)
    requires ValidSnap(nodes, start) && Accepted(kind, child, outCap)
    requires Computed(work, kind, child, outCap, start, outs) && |outs| == OutCount(kind, child)
    ensures ScansBatches(kind) ==> EachFrom(work, [], start, outs)
    ensures Collapses(kind) || kind.HashRepartition? ==> EachFrom(work, child[0], start, outs)
    ensures Maps(kind) ==> EachFromItsLane(work, child, start, outs)
  {
    hide ValidSnap, Names, Everything, TablesAt, Named;
    forall p | 0 <= p < |outs|
      ensures ScansBatches(kind) ==> OneFrom(work, [], start, outs, p)
      ensures Collapses(kind) || kind.HashRepartition? ==> OneFrom(work, child[0], start, outs, p)
      ensures Maps(kind) ==> OneFromItsLane(work, child, start, outs, p)
    {
      var hs := InputsOf(kind, child, outCap, p);
      TablesNamed(nodes, start, outs, hs, p);
      var ts := TablesAt(Everything(start, outs), hs);
      TablesCount(Everything(start, outs), hs);
      assert |ts| == |hs| && work(p, ts) == Answer(outs[p]);
      if Maps(kind) {
        assert forall c :: 0 <= c < |child| ==> hs[c] == child[c][p];
      }
    }
  }

  lemma TablesCount(reg: map<nat, TableResult>, hs: seq<nat>)
    ensures |TablesAt(reg, hs)| == |hs|
  {
  }

  lemma ExecutedMeans(
      nodes: seq<NodeKind>, work: Work, kind: NodeKind, child: seq<seq<nat>>, outCap: nat, start: Snap, end: Snap,
      handles: seq<nat>, outs: seq<TableResult>)
    requires ValidSnap(nodes, start) && Executed(work, kind, child, outCap, start, end, handles, outs)
    ensures Ran(work, kind, child, start, end, handles, outs)
  {
    hide ValidSnap, Midway, Computed, EachFrom, EachFromItsLane, Replaced, Used, HandlesIn, EveryHandle;
    ComputedMeans(nodes, work, kind, child, outCap, start, outs);
    var used := Used(kind, child, outCap);
    forall h
      ensures h in used <==>
              if ScansBatches(kind) then false
              else if Collapses(kind) || kind.HashRepartition? then h in HandlesIn(child[0])
              else h in EveryHandle(child)
    {
      UsedIs(kind, child, outCap, h);
    }
    ReplacedWhen(nodes, start, end, outs, handles, used,
                 if ScansBatches(kind) then {} else if Maps(kind) then EveryHandle(child) else HandlesIn(child[0]));
  }

  // Nothing stands in the call's way: it is accepted, the operator never fails, no handle is named
  // twice and each is there when its turn comes.
  ghost predicate WillRun(work: Work, kind: NodeKind, child: seq<seq<nat>>, outCap: nat, start: Snap) {
    && Accepted(kind, child, outCap) && Working(work)
    && NoDup(Used(kind, child, outCap))
    && forall p, h :: 0 <= p < OutCount(kind, child) && h in InputsOf(kind, child, outCap, p) ==> Named(start, h, p)
  }

  lemma NamedIsThere(start: Snap, outs: seq<TableResult>, h: nat)
    ensures Named(start, h, |outs|) <==> h in Everything(start, outs)
  {
  }

  lemma ComputedNext(
      nodes: seq<NodeKind>, work: Work, kind: NodeKind, child: seq<seq<nat>>, outCap: nat,
      start: Snap, outs: seq<TableResult>, t: TableResult)
    requires ValidSnap(nodes, start) && Accepted(kind, child, outCap)
    requires Computed(work, kind, child, outCap, start, outs) && |outs| < OutCount(kind, child) && Shaped(t)
    requires forall h :: h in InputsOf(kind, child, outCap, |outs|) ==> Named(start, h, |outs|)
    requires work(|outs|, TablesAt(Everything(start, outs), InputsOf(kind, child, outCap, |outs|))) == Answer(t)
    ensures Computed(work, kind, child, outCap, start, outs + [t])
  {
    hide InputsOf, TablesAt, Accepted, OutCount, Everything, ValidSnap;
    forall p | 0 <= p <= |outs|
      ensures work(p, TablesAt(Everything(start, outs + [t]), InputsOf(kind, child, outCap, p)))
              == Answer((outs + [t])[p])
    {
      forall h | h in InputsOf(kind, child, outCap, p)
        ensures h in Everything(start, outs)
      {
        NamedIsThere(start, outs, h);
      }
      EverythingGrows(nodes, start, outs, t, InputsOf(kind, child, outCap, p));
    }
  }

  lemma Untaken(s: Snap, start: Snap, used: seq<nat>, hs: seq<nat>, i: nat, outs: seq<TableResult>)
    requires i < |hs| && Midway(s, start, used + hs[..i], outs) && hs[i] !in s.registry
    ensures !(NoDup(used + hs) && forall h :: h in hs ==> h in Everything(start, outs))
  {
    if hs[i] in Everything(start, outs) {
      assert hs[i] in used + hs[..i];
      var k :| 0 <= k < |used + hs[..i]| && (used + hs[..i])[k] == hs[i];
      assert (used + hs)[k] == (used + hs)[|used| + i];
    }
  }

  // ------------------------------------------------------------ the session

  class Session {
    const nodes: seq<NodeKind>
    var registry: map<nat, TableResult>
    var nextHandle: nat
    var joins: map<nat, JoinSessions.JoinSession>
    var joinSeq: map<nat, nat>
    var nextJoin: nat

    ghost function JoinStates(): map<nat, JoinState>
      reads `joins, joins.Values
    {
      map j | j in joins :: JoinState(joins[j].finished, joins[j].B0, joins[j].probed)
    }

    ghost function State(): (s: Snap)
      reads this, joins.Values
      ensures s.registry == registry && s.nextHandle == nextHandle && s.joinSeq == joinSeq && s.nextJoin == nextJoin
    {
      Snap(registry, nextHandle, JoinStates(), joinSeq, nextJoin)
    }

    // Every live join is a session of its own over its node's join.
    ghost predicate JoinsLive()
      reads `joins, `joinSeq, joins.Values
    {
      joins.Keys == joinSeq.Keys && JoinsValid() && JoinsPlanned() && JoinsOwn()
    }

    ghost predicate JoinsValid()
      reads `joins, joins.Values
    {
      forall j :: j in joins ==> joins[j].Valid()
    }

    ghost predicate JoinsPlanned()
      reads `joins, `joinSeq
    {
      forall j :: j in joins && j in joinSeq ==> IsJoin(nodes, joinSeq[j]) && joins[j].d == nodes[joinSeq[j]].join
    }

    ghost predicate JoinsOwn()
      reads `joins
    {
      forall i, j :: i in joins && j in joins && joins[i] == joins[j] ==> i == j
    }

    ghost predicate Valid()
      reads this, joins.Values
    {
      ValidSnap(nodes, State()) && JoinsLive()
    }

    constructor (nodes: seq<NodeKind>)
      ensures this.nodes == nodes && State() == FreshSnap && Valid() && joins == map[]
    {
      this.nodes := nodes;
      registry, nextHandle := map[], 1;
      joins, joinSeq, nextJoin := map[], map[], 1;
    }

    // The only way into the registry: a misshapen table is turned away.
    method RegisterHandle(t: TableResult) returns (r: Reply<nat>)
      requires Valid()
      modifies `registry, `nextHandle
      ensures Valid() && Step(old(State()), State())
      ensures r == if Shaped(t) then Done(old(nextHandle)) else Failure
      ensures State() == if Shaped(t) then Registered(old(State()), t) else old(State())
    {
      hide JoinsLive, JoinStates, Step, ValidSnap;
      SelfStep(nodes, State());
      if t.columns == 0 {
        return Failure;
      }
      if |t.names| != t.columns || t.owners != t.columns {
        return Failure;
      }
      var handle := nextHandle;
      nextHandle := nextHandle + 1;
      registry := registry[handle := t];
      RegisteredStep(nodes, old(State()), t);
      return Done(handle);
    }

    // A resident input, consumed.
    method TakeHandle(h: nat) returns (r: Reply<TableResult>)
      requires Valid()
      modifies `registry
      ensures Valid() && Step(old(State()), State())
      ensures r == if h in old(registry) then Done(old(registry)[h]) else Failure
      ensures State() == Dropped(old(State()), h)
    {
      hide JoinsLive, JoinStates, Step, ValidSnap;
      DroppedStep(nodes, State(), h);
      if h !in registry {
        NothingDropped(State(), h);
        return Failure;
      }
      r := Done(registry[h]);
      registry := registry - {h};
    }

    // The tables under some handles, each consumed as it is found.
    method TakeAll(hs: seq<nat>, ghost start: Snap, ghost used: seq<nat>, ghost outs: seq<TableResult>)
      returns (r: Reply<seq<TableResult>>)
      requires Valid() && ValidSnap(nodes, start) && Midway(State(), start, used, outs)
      requires forall p :: 0 <= p < |outs| ==> Shaped(outs[p])
      modifies `registry
      ensures Valid() && Step(start, State())
      ensures r.Done? || r.Failure?
      ensures r.Done? ==>
                Midway(State(), start, used + hs, outs) && r.value == TablesAt(Everything(start, outs), hs)
      ensures r.Done? ==> forall h :: h in hs ==> h in Everything(start, outs)
      ensures NoDup(used + hs) && (forall h :: h in hs ==> h in Everything(start, outs)) ==> r.Done?
    {
      hide Midway, ValidSnap, Step, Without, Issued, Everything, TablesAt, TableAt, NoDup, Shaped, JoinsLive,
           JoinStates;
      var taken: seq<TableResult> := [];
      MidwayStep(nodes, State(), start, used, outs);
      NothingTaken(used, hs, Everything(start, outs));
      for i := 0 to |hs|
        invariant Midway(State(), start, used + hs[..i], outs)
        invariant Valid()
        invariant taken == TablesAt(Everything(start, outs), hs[..i])
        invariant forall h :: h in hs[..i] ==> h in Everything(start, outs)
      {
        ghost var before := State();
        var t := TakeHandle(hs[i]);
        if t.Failure? {
          MidwayStep(nodes, before, start, used + hs[..i], outs);
          Untaken(before, start, used, hs, i, outs);
          NothingDropped(before, hs[i]);
          return Failure;
        }
        MidwayTake(before, start, used + hs[..i], outs, hs[i], State());
        NextTaken(used, hs, i, Everything(start, outs));
        taken := taken + [t.value];
      }
      assert hs[..|hs|] == hs;
      MidwayStep(nodes, State(), start, used + hs, outs);
      return Done(taken);
    }

    // Runs the operator for the next output and registers its answer.
    method EmitNext(
        work: Work, inputs: seq<TableResult>, p: nat, kind: NodeKind, child: seq<seq<nat>>, outCap: nat,
        ghost start: Snap, ghost used: seq<nat>, ghost outs: seq<TableResult>)
      returns (r: Reply<nat>, ghost outs': seq<TableResult>)
      requires Valid() && ValidSnap(nodes, start) && Midway(State(), start, used, outs)
      requires Accepted(kind, child, outCap)
      requires Computed(work, kind, child, outCap, start, outs) && p == |outs| < OutCount(kind, child)
      requires forall h :: h in InputsOf(kind, child, outCap, p) ==> Named(start, h, p)
      requires inputs == TablesAt(Everything(start, outs), InputsOf(kind, child, outCap, p))
      modifies `registry, `nextHandle
      ensures Valid() && Step(start, State())
      ensures r.Done? || (r.Failure? && !Working(work))
      ensures r.Done? ==> r.value == start.nextHandle + p && |outs'| == p + 1 && outs' == outs + [outs'[p]]
      ensures r.Done? ==> Midway(State(), start, used, outs') && Computed(work, kind, child, outCap, start, outs')
    {
      hide InputsOf, TablesAt, Accepted, OutCount, Everything, Without, Issued, NoDup, Step, ValidSnap, JoinsLive,
           JoinStates;
      MidwayStep(nodes, State(), start, used, outs);
      outs' := outs;
      var answer := work(p, inputs);
      if answer.Throws? {
        return Failure, outs;
      }
      ghost var before := State();
      r := RegisterHandle(answer.table);
      if r.Done? {
        outs' := outs + [answer.table];
        MidwayRegister(nodes, before, start, used, outs, answer.table, State());
        ComputedNext(nodes, work, kind, child, outCap, start, outs, answer.table);
        MidwayStep(nodes, State(), start, used, outs');
      }
    }

    // A scan's batches, a collapse's one table or a scatter's slices: the inputs are already taken,
    // and every output is computed from them.
    method EmitAll(
        work: Work, inputs: seq<TableResult>, n: nat, kind: NodeKind, child: seq<seq<nat>>, outCap: nat,
        ghost start: Snap)
      returns (r: Reply<seq<nat>>, ghost outs: seq<TableResult>)
      requires Valid() && ValidSnap(nodes, start) && Accepted(kind, child, outCap) && !Maps(kind)
      requires n == OutCount(kind, child) && Midway(State(), start, Used(kind, child, outCap), [])
      requires forall h :: h in Used(kind, child, outCap) ==> h in Everything(start, [])
      requires inputs == TablesAt(Everything(start, []), Used(kind, child, outCap))
      modifies `registry, `nextHandle
      ensures Valid() && Step(start, State())
      ensures r.Done? || (r.Failure? && !Working(work))
      ensures r.Done? ==> Executed(work, kind, child, outCap, start, State(), r.value, outs)
    {
      hide TablesAt, Accepted, Everything, Without, Issued, NoDup, Step, ValidSnap, Midway, Computed, OutCount,
           JoinsLive, JoinStates, Named;
      var handles: seq<nat> := [];
      outs := [];
      ghost var used := Used(kind, child, outCap);
      ComputedNone(work, kind, child, outCap, start);
      MidwayStep(nodes, State(), start, used, outs);
      for p := 0 to n
        invariant |outs| == p && handles == Ids(start.nextHandle, p)
        invariant Valid() && Step(start, State())
        invariant Midway(State(), start, used, outs) && Computed(work, kind, child, outCap, start, outs)
        invariant forall h :: h in used ==> h in Everything(start, outs)
        invariant inputs == TablesAt(Everything(start, outs), used)
      {
        ghost var before := outs;
        NamedThere(start, outs, used);
        var h;
        h, outs := EmitNext(work, inputs, p, kind, child, outCap, start, used, outs);
        if h.Failure? {
          return Failure, outs;
        }
        handles := handles + [h.value];
        EverythingGrows(nodes, start, before, outs[p], used);
      }
      return Done(handles), outs;
    }

    // Any other node maps over its children's partitions.
    method MapPartitions(work: Work, n: nat, kind: NodeKind, child: seq<seq<nat>>, outCap: nat)
      returns (r: Reply<seq<nat>>, ghost outs: seq<TableResult>)
      requires Valid() && Accepted(kind, child, outCap) && Maps(kind) && n == OutCount(kind, child)
      modifies `registry, `nextHandle
      ensures Valid() && Step(old(State()), State())
      ensures r.Done? || (r.Failure? && !WillRun(work, kind, child, outCap, old(State())))
      ensures r.Done? ==> Executed(work, kind, child, outCap, old(State()), State(), r.value, outs)
      ensures r.Done? ==> Ran(work, kind, child, old(State()), State(), r.value, outs)
    {
      hide Ran, TablesAt, Everything, Without, Issued, NoDup, Step, ValidSnap, Midway, Computed, JoinsLive, JoinStates,
           Named;
      ghost var start := State();
      var handles: seq<nat> := [];
      outs := [];
      ComputedNone(work, kind, child, outCap, start);
      MidwayStart(nodes, start);
      MidwayStep(nodes, start, start, [], []);
      for p := 0 to n
        invariant |outs| == p && handles == Ids(start.nextHandle, p)
        invariant Valid() && Step(start, State())
        invariant Midway(State(), start, Lanes(child, p), outs) && Computed(work, kind, child, outCap, start, outs)
      {
        var lane := Lane(child, p);
        OutsShaped(work, kind, child, outCap, start, outs);
        var inputs := TakeAll(lane, start, Lanes(child, p), outs);
        if inputs.Failure? {
          if WillRun(work, kind, child, outCap, start) {
            LanePrefix(child, p, n);
            NamedThere(start, outs, lane);
          }
          return Failure, outs;
        }
        NamedThere(start, outs, lane);
        var h;
        h, outs := EmitNext(work, inputs.value, p, kind, child, outCap, start, Lanes(child, p + 1), outs);
        if h.Failure? {
          return Failure, outs;
        }
        handles := handles + [h.value];
      }
      ExecutedMeans(nodes, work, kind, child, outCap, start, State(), handles, outs);
      return Done(handles), outs;
    }

    // One plan node over its children's tables. The source's checks come first, arm by arm; a call
    // that passes them and names no handle where one is read is undefined.
    method ExecuteNode(seqNo: nat, child: seq<seq<nat>>, outCap: nat, work: Work)
      returns (r: Reply<seq<nat>>, ghost outs: seq<TableResult>)
      requires Valid()
      modifies `registry, `nextHandle
      ensures Valid() && Step(old(State()), State())
      ensures !r.Refusal?
      ensures r.Undefined? <==> seqNo < |nodes| && ReadsPastEnd(nodes[seqNo], child, outCap)
      ensures r.Undefined? ==> State() == old(State())
      ensures r.Failure? ==> !(seqNo < |nodes| && WillRun(work, nodes[seqNo], child, outCap, old(State())))
      ensures r.Done? ==>
                seqNo < |nodes| && Executed(work, nodes[seqNo], child, outCap, old(State()), State(), r.value, outs)
      ensures r.Done? ==> Ran(work, nodes[seqNo], child, old(State()), State(), r.value, outs)
    {
      hide Executed, Ran, Midway, TablesAt, Everything, Step, Working, NoDup, ValidSnap, JoinsLive, JoinStates, Named;
      ghost var start := State();
      outs := [];
      SelfStep(nodes, start);
      if seqNo >= |nodes| {
        return Failure, outs;
      }
      var kind := nodes[seqNo];
      MidwayStart(nodes, start);
      if kind.Scan? && kind.batches > 0 {
        if kind.batches > outCap {
          return Failure, outs;
        }
        NoTables(start);
        r, outs := EmitAll(work, [], kind.batches, kind, child, outCap, start);
      } else if kind.CoalescePartitions? || kind.SortPreservingMerge? {
        if outCap < 1 {
          return Failure, outs;
        }
        if child == [] {
          return Undefined, outs;
        }
        var owned := TakeAll(child[0], start, [], []);
        NothingOwned(start, child[0]);
        if owned.Failure? || |owned.value| == 0 {
          FirstNamed(work, kind, child, outCap, start);
          return Failure, outs;
        }
        r, outs := EmitAll(work, owned.value, 1, kind, child, outCap, start);
      } else if kind.HashRepartition? {
        if kind.partitions == 0 || kind.partitions > outCap {
          return Failure, outs;
        }
        if child == [] {
          return Undefined, outs;
        }
        if |child[0]| != 1 {
          return Failure, outs;
        }
        var owned := TakeAll(child[0], start, [], []);
        NothingOwned(start, child[0]);
        if owned.Failure? {
          FirstNamed(work, kind, child, outCap, start);
          return Failure, outs;
        }
        r, outs := EmitAll(work, owned.value, kind.partitions, kind, child, outCap, start);
      } else {
        var n := if |child| > 0 then |child[0]| else 1;
        if n == 0 {
          n := 1;
        }
        if n > outCap {
          return Failure, outs;
        }
        if exists c :: 1 <= c < |child| && |child[c]| != n {
          return Failure, outs;
        }
        if child != [] && child[0] == [] {
          return Undefined, outs;
        }
        r, outs := MapPartitions(work, n, kind, child, outCap);
      }
      if r.Done? && !Maps(kind) {
        ExecutedMeans(nodes, work, kind, child, outCap, start, State(), r.value, outs);
      }
    }

    method ExecuteScanRowgroups(seqNo: nat, rowGroups: seq<nat>, scan: Outcome) returns (r: Reply<nat>)
      requires Valid()
      modifies `registry, `nextHandle
      ensures Valid() && Step(old(State()), State())
      ensures var ok := seqNo < |nodes| && rowGroups != [] && nodes[seqNo].Scan? && scan.Answer? && Shaped(scan.table);
              && r == (if ok then Done(old(nextHandle)) else Failure)
              && State() == if ok then Registered(old(State()), scan.table) else old(State())
    {
      hide JoinsLive, JoinStates, Step, ValidSnap;
      if seqNo >= |nodes| || |rowGroups| == 0 || !nodes[seqNo].Scan? || scan.Throws? {
        SelfStep(nodes, State());
        return Failure;
      }
      r := RegisterHandle(scan.table);
    }

    // The rows of a range in a table of their own, the handle consumed.
    method SliceHandle(handle: nat, offset: nat, length: nat) returns (r: Reply<nat>)
      requires Valid()
      modifies `registry, `nextHandle
      ensures Valid() && Step(old(State()), State())
      ensures r == if handle in old(registry) then Done(old(nextHandle)) else Failure
      ensures handle !in old(registry) ==> State() == old(State())
      ensures handle in old(registry) ==>
                exists t :: IsRange(t, old(registry)[handle], offset, length) &&
                  State() == Registered(Dropped(old(State()), handle), t)
    {
      hide JoinsLive, JoinStates, Step, Within;
      ghost var start := State();
      var taken := TakeHandle(handle);
      ghost var mid := State();
      if taken.Failure? {
        NothingDropped(start, handle);
        return Failure;
      }
      var input := taken.value;
      var begin, end := ClampRowRange(offset, length, |input.rows|);
      var kept := TableResult(input.columns, input.names, input.columns, input.rows[begin..end]);
      r := RegisterHandle(kept);
      StepThen(start, mid, State());
      assert IsRange(kept, input, offset, length);
    }

    // A new join over its node's plan. The build table is gone once it was looked up, whether the
    // join opens or not; handle 0 means no table.
    method JoinBuild(seqNo: nat, build: nat, fails: bool) returns (r: Reply<nat>)
      requires Valid()
      modifies this
      ensures Valid() && Step(old(State()), State())
      ensures fresh(joins.Values - old(joins.Values))
      ensures r.Done? || r.Failure?
      ensures r.Done? <==> BuildOpens(nodes, old(State()), seqNo, build, fails)
      ensures r.Failure? ==>
                State() == if IsJoin(nodes, seqNo) then Dropped(old(State()), build) else old(State())
      ensures r.Done? ==>
                && r.value == old(nextJoin)
                && State() == WithJoin(Dropped(old(State()), build), seqNo, RowsOr(BuildRows(old(State()), build)))
    {
      hide Step, ValidSnap, JoinStates, JoinsLive;
      ghost var start := State();
      SelfStep(nodes, start);
      if seqNo >= |nodes| || !nodes[seqNo].JoinNode? {
        return Failure;
      }
      var d := nodes[seqNo].join;
      var rows: Option<seq<Row>> := None;
      NoHandleZero(nodes, start);
      if build != 0 {
        var batch := TakeHandle(build);
        if batch.Failure? {
          return Failure;
        }
        rows := Some(batch.value.rows);
      }
      if fails || (rows.Some? && !JoinArms.Shaped(rows.value, d.buildWidth)) {
        return Failure;
      }
      var began := JoinSessions.Open(d, rows);
      if began.NotOpened? {
        return Failure;
      }
      ghost var mid := State();
      AddJoin(seqNo, began.session);
      StepThen(start, mid, State());
      return Done(nextJoin - 1);
    }

    // A session just opened, under the next join id.
    method AddJoin(seqNo: nat, s: JoinSessions.JoinSession)
      requires Valid() && IsJoin(nodes, seqNo) && s !in joins.Values
      requires s.Valid() && s.d == nodes[seqNo].join && s.probed == [] && !s.finished
      modifies `joins, `joinSeq, `nextJoin
      ensures Valid() && Step(old(State()), State())
      ensures joins.Values <= old(joins.Values) + {s}
      ensures State() == WithJoin(old(State()), seqNo, s.B0) && nextJoin == old(nextJoin) + 1
    {
      hide Step, ValidSnap, JoinsLive, JoinStates, JoinSessions.JoinSession.Valid;
      var id := nextJoin;
      JoinKnown(id);
      NextJoinIsNew(nodes, State());
      WithJoinStep(nodes, State(), seqNo, s.B0);
      nextJoin := nextJoin + 1;
      joins := joins[id := s];
      joinSeq := joinSeq[id := seqNo];
      JoinAdded(id);
    }

    twostate lemma JoinAdded(id: nat)
      requires old(JoinsLive()) && id !in old(joins) && id in joins && joins == old(joins)[id := joins[id]]
      requires id in joinSeq && joinSeq == old(joinSeq)[id := joinSeq[id]] && IsJoin(nodes, joinSeq[id])
      requires forall j :: j in old(joins) ==> unchanged(old(joins)[j])
      requires joins[id] !in old(joins.Values) && joins[id].Valid() && joins[id].d == nodes[joinSeq[id]].join
      ensures JoinsLive()
      ensures JoinStates() == old(JoinStates())[id := JoinState(joins[id].finished, joins[id].B0, joins[id].probed)]
    {
      hide JoinSessions.JoinSession.Valid, JoinStates;
      AddedLive(id);
      JoinStateAdded(id);
    }

    twostate lemma AddedLive(id: nat)
      requires old(JoinsLive()) && id !in old(joins) && id in joins && joins == old(joins)[id := joins[id]]
      requires id in joinSeq && joinSeq == old(joinSeq)[id := joinSeq[id]] && IsJoin(nodes, joinSeq[id])
      requires forall j :: j in old(joins) ==> unchanged(old(joins)[j])
      requires joins[id] !in old(joins.Values) && joins[id].Valid() && joins[id].d == nodes[joinSeq[id]].join
      ensures JoinsLive()
    {
      hide JoinsValid, JoinsPlanned, JoinsOwn;
      AddedValid(id);
      AddedPlanned(id);
      AddedOwn(id);
    }

    twostate lemma AddedValid(id: nat)
      requires old(JoinsValid()) && id in joins && joins == old(joins)[id := joins[id]] && joins[id].Valid()
      requires forall j :: j in old(joins) && j != id ==> unchanged(old(joins)[j])
      ensures JoinsValid()
    {
      hide JoinSessions.JoinSession.Valid;
      forall j | j in joins
        ensures joins[j].Valid()
      {
        if j != id {
          assert old(joins[j].Valid());
        }
      }
    }

    twostate lemma AddedPlanned(id: nat)
      requires old(JoinsPlanned()) && old(joins.Keys) == old(joinSeq.Keys)
      requires id in joins && joins == old(joins)[id := joins[id]]
      requires id in joinSeq && joinSeq == old(joinSeq)[id := joinSeq[id]] && IsJoin(nodes, joinSeq[id])
      requires joins[id].d == nodes[joinSeq[id]].join
      ensures JoinsPlanned()
    {
    }

    twostate lemma AddedOwn(id: nat)
      requires old(JoinsOwn()) && id in joins && joins == old(joins)[id := joins[id]]
      requires joins[id] !in old(joins.Values)
      ensures JoinsOwn()
    {
      forall j | j in joins && j != id
        ensures joins[j] in old(joins.Values)
      {
      }
    }

    twostate lemma JoinStateAdded(id: nat)
      requires id in joins && joins == old(joins)[id := joins[id]]
      requires forall j :: j in old(joins) && j != id ==> unchanged(old(joins)[j])
      ensures JoinStates() == old(JoinStates())[id := JoinState(joins[id].finished, joins[id].B0, joins[id].probed)]
    {
    }

    twostate lemma JoinRemoved(id: nat)
      requires old(JoinsLive()) && joins == old(joins) - {id} && joinSeq == old(joinSeq) - {id}
      requires forall j :: j in old(joins) ==> unchanged(old(joins)[j])
      ensures JoinsLive()
    {
      hide JoinSessions.JoinSession.Valid;
    }

    twostate lemma JoinStateRemoved(id: nat)
      requires joins == old(joins) - {id}
      requires forall j :: j in old(joins) ==> unchanged(old(joins)[j])
      ensures JoinStates() == old(JoinStates()) - {id}
    {
    }

    // The plan of a live join.
    ghost function DescOf(join: nat): JoinSpec.Desc
      requires join in joinSeq && IsJoin(nodes, joinSeq[join])
      reads `joinSeq
    {
      nodes[joinSeq[join]].join
    }

    // A table a join answered, under a new id.
    method RegisterRows(d: JoinSpec.Desc, rows: seq<Row>) returns (r: Reply<nat>)
      requires Valid()
      modifies `registry, `nextHandle
      ensures Valid() && Step(old(State()), State())
      ensures r == if OutWidth(d) > 0 then Done(old(nextHandle)) else Failure
      ensures State() == if OutWidth(d) > 0 then Registered(old(State()), AsTable(d, rows)) else old(State())
    {
      r := RegisterHandle(AsTable(d, rows));
    }

    // The batch is taken before the join is asked, so a join already finished refuses a batch
    // that is gone; an unknown join refuses with everything as it was. An answer is the batch's
    // share of the declarative join of the build side.
    method JoinProbe(join: nat, probe: nat, fails: bool) returns (r: Reply<nat>)
      requires Valid()
      modifies `registry, `nextHandle, joins.Values
      ensures Valid() && Step(old(State()), State())
      ensures !r.Undefined?
      ensures r.Refusal? <==> ProbeRefuses(old(State()), join, probe)
      ensures r.Refusal? ==> State() == if join in old(joins) then Dropped(old(State()), probe) else old(State())
      ensures r.Done? <==>
                && join in old(joins) && probe in old(registry) && !old(joins[join].finished)
                && !fails && JoinArms.Shaped(old(registry)[probe].rows, old(DescOf(join)).probeWidth)
                && !JoinSessions.BreaksProbe(old(DescOf(join)), old(joins[join].B0))
                && (JoinSpec.IsBuildSideSemi(old(DescOf(join)).joinType) || OutWidth(old(DescOf(join))) > 0)
      ensures r.Done? ==> Probed(old(DescOf(join)), old(State()), State(), join, probe, r.value)
    {
      hide Step, ValidSnap, JoinStates, JoinsLive, Probed, JoinSessions.BreaksProbe;
      ghost var start := State();
      SelfStep(nodes, start);
      JoinKnown(join);
      if join !in joins {
        return Refusal;
      }
      var batch := TakeHandle(probe);
      ghost var taken := State();
      if batch.Failure? {
        return Failure;
      }
      var js := joins[join];
      if js.finished {
        return Refusal;
      }
      if fails || !JoinArms.Shaped(batch.value.rows, js.d.probeWidth) {
        return Failure;
      }
      var a := AskProbe(join, batch.value.rows);
      StepThen(start, taken, State());
      match a {
        case Refused => r := Refusal;
        case Threw => r := Failure;
        case Silent =>
          r := Done(0);
          ProbedSilently(js.d, start, State(), join, probe);
        case Rows(rows) =>
          ghost var mid := State();
          r := RegisterRows(js.d, rows);
          StepThen(start, mid, State());
          if r.Done? {
            ProbedWith(js.d, start, mid, State(), join, probe, r.value, rows);
          }
      }
    }

    // One live join asked for a batch; the others are as they were.
    method AskProbe(join: nat, rows: seq<Row>) returns (a: JoinSessions.Answer)
      requires Valid() && join in joins && JoinArms.Shaped(rows, joins[join].d.probeWidth) && !joins[join].finished
      modifies joins.Values
      ensures Valid() && Step(old(State()), State())
      ensures !a.Refused? && (a.Threw? <==> JoinSessions.BreaksProbe(joins[join].d, joins[join].B0))
      ensures a.Threw? ==> State() == old(State())
      ensures !a.Threw? ==> State() == MoreProbed(old(State()), join, rows)
      ensures a.Silent? ==> JoinSpec.IsBuildSideSemi(joins[join].d.joinType)
      ensures a.Rows? ==> !JoinSpec.IsBuildSideSemi(joins[join].d.joinType)
      ensures a.Rows? ==> IsShare(joins[join].d, old(joins[join].B0), rows, a.table)
    {
      hide Step, ValidSnap, JoinsLive, JoinStates, JoinSessions.JoinSession.Valid, JoinSessions.BreaksProbe,
           JoinSpec.ProbePart, JoinSpec.Project, JoinSpec.MatchOf, JoinSpec.IsBuildSideSemi, Map;
      JoinKnown(join);
      a := joins[join].Probe(rows);
      OneMoved(join);
      MoreProbedStep(nodes, old(State()), join, rows);
      SelfStep(nodes, old(State()));
      assert a.Threw? ==> old(JoinStates())[join := old(JoinStates())[join]] == old(JoinStates());
    }

    method JoinFinish(join: nat, fails: bool) returns (r: Reply<nat>)
      requires Valid()
      modifies `registry, `nextHandle, joins.Values
      ensures Valid() && Step(old(State()), State())
      ensures !r.Undefined?
      ensures r.Refusal? <==> join !in old(joins) || old(joins[join].finished)
      ensures r.Refusal? ==> State() == old(State())
      ensures !r.Refusal? ==> State().joins == NowFinished(old(State()), join).joins
      ensures r.Done? <==>
                && join in old(joins) && !old(joins[join].finished) && !fails
                && !JoinSessions.BreaksFinish(old(DescOf(join)))
                && (!JoinSessions.Tracks(old(DescOf(join)).joinType) || OutWidth(old(DescOf(join))) > 0)
      ensures r.Done? ==> Finished(old(DescOf(join)), old(State()), State(), join, r.value)
    {
      hide Step, ValidSnap, JoinStates, JoinsLive, JoinSessions.BreaksFinish;
      ghost var start := State();
      SelfStep(nodes, start);
      JoinKnown(join);
      if join !in joins {
        return Refusal;
      }
      var js := joins[join];
      if js.finished {
        return Refusal;
      }
      var a := AskFinish(join);
      if fails {
        return Failure;
      }
      match a {
        case Refused => r := Refusal;
        case Threw => r := Failure;
        case Silent => r := Done(0);
        case Rows(rows) =>
          ghost var mid := State();
          r := RegisterRows(js.d, rows);
          StepThen(start, mid, State());
      }
    }

    method AskFinish(join: nat) returns (a: JoinSessions.Answer)
      requires Valid() && join in joins && !joins[join].finished
      modifies joins.Values
      ensures Valid() && Step(old(State()), State())
      ensures State() == NowFinished(old(State()), join)
      ensures !a.Refused? && (a.Threw? <==> JoinSessions.BreaksFinish(joins[join].d))
      ensures a.Silent? <==> !JoinSessions.Tracks(joins[join].d.joinType)
      ensures a.Rows? ==> a.table == LastShare(joins[join].d, old(joins[join].B0), old(joins[join].probed))
    {
      hide Step, ValidSnap, JoinsLive, JoinStates, JoinSessions.BreaksFinish;
      JoinKnown(join);
      a := joins[join].Finish();
      OneMoved(join);
      NowFinishedStep(nodes, old(State()), join);
    }

    // A call on one live join leaves the others as they were.
    twostate lemma OneMoved(join: nat)
      requires old(JoinsLive()) && join in joins && joins == old(joins) && joinSeq == old(joinSeq)
      requires joins[join].Valid() && forall j :: j in joins && joins[j] != joins[join] ==> unchanged(joins[j])
      ensures JoinsLive()
      ensures JoinStates() ==
              old(JoinStates())[join := JoinState(joins[join].finished, joins[join].B0, joins[join].probed)]
    {
      hide JoinSessions.JoinSession.Valid, JoinStates;
      StillLive(join);
      OneStateMoved(join);
    }

    twostate lemma StillLive(join: nat)
      requires old(JoinsLive()) && join in joins && joins == old(joins) && joinSeq == old(joinSeq)
      requires joins[join].Valid() && forall j :: j in joins && joins[j] != joins[join] ==> unchanged(joins[j])
      ensures JoinsLive()
    {
      hide JoinsValid, JoinsPlanned, JoinsOwn, JoinSessions.JoinSession.Valid;
      StillPlanned();
      StillValid(join);
    }

    twostate lemma StillPlanned()
      requires joins == old(joins) && joinSeq == old(joinSeq)
      ensures JoinsPlanned() == old(JoinsPlanned()) && JoinsOwn() == old(JoinsOwn())
    {
      hide JoinsPlanned, JoinsOwn;
    }

    twostate lemma StillValid(join: nat)
      requires old(JoinsValid()) && join in joins && joins == old(joins) && joins[join].Valid()
      requires forall j :: j in joins && joins[j] != joins[join] ==> unchanged(joins[j])
      ensures JoinsValid()
    {
      hide JoinSessions.JoinSession.Valid;
      forall j | j in joins
        ensures joins[j].Valid()
      {
        assert old(joins[j].Valid());
      }
    }

    twostate lemma OneStateMoved(join: nat)
      requires join in joins && joins == old(joins)
      requires forall i, j :: i in joins && j in joins && joins[i] == joins[j] ==> i == j
      requires forall j :: j in joins && joins[j] != joins[join] ==> unchanged(joins[j])
      ensures JoinStates() ==
              old(JoinStates())[join := JoinState(joins[join].finished, joins[join].B0, joins[join].probed)]
    {
    }

    lemma JoinKnown(join: nat)
      requires Valid()
      ensures join in joins <==> join in joinSeq
      ensures join in joins ==> IsJoin(nodes, joinSeq[join]) && joins[join].d == DescOf(join)
      ensures join in joins ==> joins[join].Valid()
      ensures join in joins <==> join in JoinStates()
      ensures join in joins ==>
                JoinStates()[join] == JoinState(joins[join].finished, joins[join].B0, joins[join].probed)
    {
      hide JoinSessions.JoinSession.Valid;
    }

    method JoinRelease(join: nat)
      requires Valid()
      modifies `joins, `joinSeq
      ensures Valid() && Step(old(State()), State())
      ensures joins.Values <= old(joins.Values)
      ensures State() == old(State()).(joins := old(State()).joins - {join}, joinSeq := old(joinSeq) - {join})
    {
      hide Step, ValidSnap, JoinsLive, JoinStates;
      WithoutJoinStep(nodes, State(), join);
      joins := joins - {join};
      joinSeq := joinSeq - {join};
      JoinRemoved(join);
      JoinStateRemoved(join);
    }

    method Adopt(t: TableResult) returns (r: Reply<nat>)
      requires Valid()
      modifies `registry, `nextHandle
      ensures Valid() && Step(old(State()), State())
      ensures r == if Shaped(t) then Done(old(nextHandle)) else Failure
      ensures State() == if Shaped(t) then Registered(old(State()), t) else old(State())
    {
      r := RegisterHandle(t);
    }

    // Reading a table changes nothing.
    method TableFor(handle: nat) returns (r: Reply<TableResult>)
      requires Valid()
      ensures r == if handle in registry then Done(registry[handle]) else Failure
      ensures r.Done? ==> Shaped(r.value)
    {
      if handle !in registry {
        return Failure;
      }
      return Done(registry[handle]);
    }

    method Release(handle: nat)
      requires Valid()
      modifies `registry
      ensures Valid() && Step(old(State()), State())
      ensures State() == Dropped(old(State()), handle)
    {
      hide JoinsLive, JoinStates, Step, ValidSnap;
      DroppedStep(nodes, State(), handle);
      registry := registry - {handle};
    }
  }

  // ------------------------------------------------------------ what the calls do, as values

  function Registered(s: Snap, t: TableResult): Snap {
    s.(registry := s.registry[s.nextHandle := t], nextHandle := s.nextHandle + 1)
  }

  function Dropped(s: Snap, h: nat): Snap {
    s.(registry := s.registry - {h})
  }

  function WithJoin(s: Snap, seqNo: nat, rows: seq<Row>): Snap {
    s.(joins := s.joins[s.nextJoin := JoinState(false, rows, [])],
       joinSeq := s.joinSeq[s.nextJoin := seqNo],
       nextJoin := s.nextJoin + 1)
  }

  function MoreProbed(s: Snap, join: nat, rows: seq<Row>): Snap
    requires join in s.joins
  {
    s.(joins := s.joins[join := s.joins[join].(probed := s.joins[join].probed + rows)])
  }

  function NowFinished(s: Snap, join: nat): Snap
    requires join in s.joins
  {
    s.(joins := s.joins[join := s.joins[join].(finished := true)])
  }

  predicate IsJoin(nodes: seq<NodeKind>, seqNo: nat) {
    seqNo < |nodes| && nodes[seqNo].JoinNode?
  }

  function RowsOr(rows: Option<seq<Row>>): seq<Row> {
    if rows.Some? then rows.value else []
  }

  function BuildRows(s: Snap, build: nat): Option<seq<Row>> {
    if build == 0 then None else Some(if build in s.registry then s.registry[build].rows else [])
  }

  // A join opens: its node is a join, its build table is there and as wide as declared, the device
  // does not fail, and the plan is not refused.
  ghost predicate BuildOpens(nodes: seq<NodeKind>, s: Snap, seqNo: nat, build: nat, fails: bool) {
    && IsJoin(nodes, seqNo) && (build == 0 || build in s.registry) && !fails
    && JoinArms.Shaped(RowsOr(BuildRows(s, build)), nodes[seqNo].join.buildWidth)
    && JoinSessions.OpenRefuses(nodes[seqNo].join, BuildRows(s, build)).None?
  }

  // How many columns a join's answers have.
  function OutWidth(d: JoinSpec.Desc): nat {
    if d.projection.Some? then |d.projection.value| else JoinSpec.EmittedWidth(d)
  }

  function AsTable(d: JoinSpec.Desc, rows: seq<Row>): TableResult {
    TableResult(OutWidth(d), seq(OutWidth(d), _ => ""), OutWidth(d), rows)
  }

  // A batch's share of the declarative join, in any order.
  ghost predicate IsShare(d: JoinSpec.Desc, build: seq<Row>, batch: seq<Row>, rows: seq<Row>) {
    multiset(rows) == multiset(Map(JoinSpec.Project(d), JoinSpec.ProbePart(d, JoinSpec.MatchOf(d), build, batch)))
  }

  // What the build rows' fates over every probe row add at the end.
  ghost function LastShare(d: JoinSpec.Desc, build: seq<Row>, probed: seq<Row>): seq<Row> {
    Map(JoinSpec.Project(d), JoinSpec.BuildPart(d, JoinSpec.MatchOf(d), build, probed))
  }

  ghost predicate ProbeRefuses(s: Snap, join: nat, probe: nat) {
    join !in s.joins || (probe in s.registry && s.joins[join].finished)
  }

  // A probe that succeeded: its batch gone and counted in, its answer, if its type has one, new.
  ghost predicate Probed(d: JoinSpec.Desc, s: Snap, s': Snap, join: nat, probe: nat, handle: nat) {
    && join in s.joins && probe in s.registry
    && var batch := s.registry[probe].rows;
       var mid := MoreProbed(Dropped(s, probe), join, batch);
       if JoinSpec.IsBuildSideSemi(d.joinType) then handle == 0 && s' == mid
       else handle == s.nextHandle &&
            exists rows :: s' == Registered(mid, AsTable(d, rows)) && IsShare(d, s.joins[join].build, batch, rows)
  }

  lemma ProbedSilently(d: JoinSpec.Desc, s: Snap, s': Snap, join: nat, probe: nat)
    requires join in s.joins && probe in s.registry && JoinSpec.IsBuildSideSemi(d.joinType)
    requires s' == MoreProbed(Dropped(s, probe), join, s.registry[probe].rows)
    ensures Probed(d, s, s', join, probe, 0)
  {
  }

  lemma ProbedWith(
      d: JoinSpec.Desc, s: Snap, mid: Snap, s': Snap, join: nat, probe: nat, handle: nat, rows: seq<Row>)
    requires join in s.joins && probe in s.registry && !JoinSpec.IsBuildSideSemi(d.joinType)
    requires mid == MoreProbed(Dropped(s, probe), join, s.registry[probe].rows) && handle == s.nextHandle
    requires s' == Registered(mid, AsTable(d, rows)) && IsShare(d, s.joins[join].build, s.registry[probe].rows, rows)
    ensures Probed(d, s, s', join, probe, handle)
  {
  }

  // A finish that succeeded.
  ghost predicate Finished(d: JoinSpec.Desc, s: Snap, s': Snap, join: nat, handle: nat) {
    && join in s.joins
    && var st := s.joins[join];
       if !JoinSessions.Tracks(d.joinType) then handle == 0 && s' == NowFinished(s, join)
       else handle == s.nextHandle &&
            s' == Registered(NowFinished(s, join), AsTable(d, LastShare(d, st.build, st.probed)))
  }

  lemma RegisteredStep(nodes: seq<NodeKind>, s: Snap, t: TableResult)
    requires ValidSnap(nodes, s) && Shaped(t)
    ensures ValidSnap(nodes, Registered(s, t)) && Step(s, Registered(s, t))
  {
  }

  lemma DroppedStep(nodes: seq<NodeKind>, s: Snap, h: nat)
    requires ValidSnap(nodes, s)
    ensures ValidSnap(nodes, Dropped(s, h)) && Step(s, Dropped(s, h))
  {
  }

  lemma NextJoinIsNew(nodes: seq<NodeKind>, s: Snap)
    requires ValidSnap(nodes, s)
    ensures s.nextJoin !in s.joins
  {
  }

  lemma WithJoinStep(nodes: seq<NodeKind>, s: Snap, seqNo: nat, rows: seq<Row>)
    requires ValidSnap(nodes, s) && IsJoin(nodes, seqNo)
    ensures ValidSnap(nodes, WithJoin(s, seqNo, rows)) && Step(s, WithJoin(s, seqNo, rows))
  {
  }

  lemma WithoutJoinStep(nodes: seq<NodeKind>, s: Snap, join: nat)
    requires ValidSnap(nodes, s)
    ensures var s' := s.(joins := s.joins - {join}, joinSeq := s.joinSeq - {join});
            ValidSnap(nodes, s') && Step(s, s')
  {
  }

  lemma MoreProbedStep(nodes: seq<NodeKind>, s: Snap, join: nat, rows: seq<Row>)
    requires ValidSnap(nodes, s) && join in s.joins
    ensures ValidSnap(nodes, MoreProbed(s, join, rows)) && Step(s, MoreProbed(s, join, rows))
  {
  }

  lemma NowFinishedStep(nodes: seq<NodeKind>, s: Snap, join: nat)
    requires ValidSnap(nodes, s) && join in s.joins
    ensures ValidSnap(nodes, NowFinished(s, join)) && Step(s, NowFinished(s, join))
  {
  }

  lemma NothingDropped(s: Snap, h: nat)
    requires h !in s.registry
    ensures Dropped(s, h) == s
  {
    assert s.registry - {h} == s.registry;
  }

  lemma NoHandleZero(nodes: seq<NodeKind>, s: Snap)
    requires ValidSnap(nodes, s)
    ensures 0 !in s.registry && Dropped(s, 0) == s
  {
    NothingDropped(s, 0);
  }

  // Exactly the rows numbered `offset` up to `offset + length`, in order.
  ghost predicate RowRange(kept: seq<Row>, rows: seq<Row>, offset: nat, length: nat) {
    exists begin, end ::
      && 0 <= begin <= end <= |rows|
      && kept == rows[begin..end]
      && forall i :: Within(i, begin, end) <==> Within(i, offset, offset + length) && i < |rows|
  }

  ghost predicate IsRange(t: TableResult, from: TableResult, offset: nat, length: nat) {
    t.columns == from.columns && t.names == from.names && RowRange(t.rows, from.rows, offset, length)
  }

  // ------------------------------------------------------------ outputs and inputs

  // An output is readable after its call, as the operator answered it, exactly when the call did
  // not itself name it among its inputs; an input is readable no more.
  lemma OutputsResident(nodes: seq<NodeKind>, start: Snap, end: Snap, used: seq<nat>, outs: seq<TableResult>, h: nat)
    requires ValidSnap(nodes, start) && Midway(end, start, used, outs)
    ensures start.nextHandle <= h < end.nextHandle ==> (h in end.registry <==> h !in used)
    ensures start.nextHandle <= h && h in end.registry ==>
              h < end.nextHandle && end.registry[h] == outs[h - start.nextHandle]
    ensures h in used ==> h !in end.registry && h < end.nextHandle
  {
  }

  lemma SelfStep(nodes: seq<NodeKind>, s: Snap)
    requires ValidSnap(nodes, s)
    ensures Step(s, s)
  {
  }

  lemma NoTables(start: Snap)
    ensures TablesAt(Everything(start, []), []) == []
  {
  }

  lemma NothingOwned(start: Snap, hs: seq<nat>)
    ensures [] + hs == hs && |TablesAt(Everything(start, []), hs)| == |hs|
  {
  }

  lemma OutsShaped(work: Work, kind: NodeKind, child: seq<seq<nat>>, outCap: nat, start: Snap, outs: seq<TableResult>)
    requires Accepted(kind, child, outCap) && Computed(work, kind, child, outCap, start, outs)
    ensures forall p :: 0 <= p < |outs| ==> Shaped(outs[p])
  {
  }

  lemma {:induction false} LanePrefix(child: seq<seq<nat>>, p: nat, n: nat)
    requires p < n && forall c :: 0 <= c < |child| ==> n <= |child[c]|
    requires NoDup(Lanes(child, n))
    ensures NoDup(Lanes(child, p) + Lane(child, p))
    decreases n
  {
    if p + 1 < n {
      assert Lanes(child, n) == Lanes(child, n - 1) + Lane(child, n - 1);
      var lanes := Lanes(child, n - 1);
      forall i, j | 0 <= i < j < |lanes|
        ensures lanes[i] != lanes[j]
      {
        assert Lanes(child, n)[i] != Lanes(child, n)[j];
      }
      LanePrefix(child, p, n - 1);
    }
  }

  lemma NamedThere(start: Snap, outs: seq<TableResult>, hs: seq<nat>)
    ensures (forall h :: h in hs ==> Named(start, h, |outs|)) <==> forall h :: h in hs ==> h in Everything(start, outs)
  {
    hide Named, Everything;
    forall h
      ensures Named(start, h, |outs|) <==> h in Everything(start, outs)
    {
      NamedIsThere(start, outs, h);
    }
  }

  // A collapse or a scatter that would run finds its inputs there at the start.
  lemma FirstNamed(work: Work, kind: NodeKind, child: seq<seq<nat>>, outCap: nat, start: Snap)
    requires Collapses(kind) || kind.HashRepartition?
    ensures WillRun(work, kind, child, outCap, start) ==>
              && child != [] && child[0] != [] && NoDup(child[0])
              && forall h :: h in child[0] ==> h in Everything(start, [])
  {
    hide NoDup, Everything, Working;
    if WillRun(work, kind, child, outCap, start) {
      assert InputsOf(kind, child, outCap, 0) == child[0];
      assert forall h :: h in child[0] ==> Named(start, h, 0);
      NamedThere(start, [], child[0]);
    }
  }

  lemma ComputedNone(work: Work, kind: NodeKind, child: seq<seq<nat>>, outCap: nat, start: Snap)
    requires Accepted(kind, child, outCap)
    ensures Computed(work, kind, child, outCap, start, [])
  {
  }

  lemma NothingTaken(used: seq<nat>, hs: seq<nat>, all: map<nat, TableResult>)
    ensures used + hs[..0] == used && TablesAt(all, hs[..0]) == []
  {
  }

  lemma NextTaken(used: seq<nat>, hs: seq<nat>, i: nat, all: map<nat, TableResult>)
    requires i < |hs|
    ensures used + hs[..i + 1] == used + hs[..i] + [hs[i]]
    ensures TablesAt(all, hs[..i + 1]) == TablesAt(all, hs[..i]) + [TableAt(all)(hs[i])]
  {
  }
}
