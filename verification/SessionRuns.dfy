/**
  What a session does over many calls: what holds in any two states of a run, a whole join driven
  through handles, and a few calls at actual inputs.
 */
module SessionRuns {
  import opened Basics
  import opened Tables
  import opened JoinResidual
  import opened NodeSessions
  import JoinSpec
  import JoinArms
  import JoinCounts
  import JoinSessions

  // ------------------------------------------------------------ runs

  // The states of a session, call after call.
  ghost predicate IsRun(run: seq<Snap>) {
    forall i :: 0 <= i < |run| - 1 ==> Step(run[i], run[i + 1])
  }

  lemma {:induction false} RunSteps(run: seq<Snap>, i: nat, j: nat)
    requires IsRun(run) && i < j < |run|
    ensures Step(run[i], run[j])
    decreases j
  {
    assert Step(run[j - 1], run[j - 1 + 1]);
    if i < j - 1 {
      RunSteps(run, i, j - 1);
      StepThen(run[i], run[j - 1], run[j]);
    }
  }

  // Whatever the calls, a handle once gone is gone for good, a handle that stays names the table
  // it named, and no id is issued twice.
  lemma GoneForGood(run: seq<Snap>, i: nat, j: nat, h: nat)
    requires IsRun(run) && i < j < |run| && h < run[i].nextHandle
    ensures h !in run[i].registry ==> h !in run[j].registry
    ensures h in run[j].registry ==> h in run[i].registry && run[j].registry[h] == run[i].registry[h]
    ensures h < run[j].nextHandle
  {
    RunSteps(run, i, j);
  }

  // ------------------------------------------------------------ a join driven through handles

  function RowsAt(reg: map<nat, TableResult>): nat -> seq<Row> {
    (h: nat) => TableAt(reg)(h).rows
  }

  // The rows of some resident tables, one table under the other.
  function RowsUnder(reg: map<nat, TableResult>, hs: seq<nat>): seq<Row> {
    Concat(Map(RowsAt(reg), hs))
  }

  lemma RowsUnderSame(reg: map<nat, TableResult>, reg': map<nat, TableResult>, hs: seq<nat>)
    requires forall h :: h in hs ==> h in reg && h in reg' && reg[h] == reg'[h]
    ensures RowsUnder(reg, hs) == RowsUnder(reg', hs)
  {
    forall i | 0 <= i < |hs|
      ensures RowsAt(reg)(hs[i]) == RowsAt(reg')(hs[i])
    {
      var h := hs[i];
      assert h in hs && TableAt(reg)(h) == TableAt(reg')(h);
    }
    assert Map(RowsAt(reg), hs) == Map(RowsAt(reg'), hs);
  }

  lemma RowsUnderThen(reg: map<nat, TableResult>, hs: seq<nat>, h: nat)
    ensures RowsUnder(reg, hs + [h]) == RowsUnder(reg, hs) + TableAt(reg)(h).rows
  {
    MapThen(RowsAt(reg), hs, [h]);
    ConcatThen(Map(RowsAt(reg), hs), [RowsAt(reg)(h)]);
    assert Map(RowsAt(reg), [h]) == [RowsAt(reg)(h)];
    ConcatOne(RowsAt(reg)(h));
  }

  // A join built, with some of its batches probed: what it has taken and answered.
  ghost predicate Going(
      d: JoinSpec.Desc, start: Snap, s: Snap, join: nat, seqNo: nat, B: seq<Row>, taken: seq<nat>, outs: seq<nat>)
  {
    && Step(start, s)
    && join in s.joins && join in s.joinSeq && s.joinSeq[join] == seqNo
    && s.joins[join] == JoinState(false, B, RowsUnder(start.registry, taken))
    && (forall h :: h in taken ==> h < start.nextHandle && h in start.registry && h !in s.registry)
    && (forall h :: h in outs ==> h in s.registry && h >= start.nextHandle)
    && JoinSessions.Answered(d, B, RowsUnder(start.registry, taken), RowsUnder(s.registry, outs))
  }

  lemma GoingStarts(d: JoinSpec.Desc, start: Snap, s: Snap, join: nat, seqNo: nat, B: seq<Row>)
    requires Step(start, s) && join in s.joins && join in s.joinSeq && s.joinSeq[join] == seqNo
    requires s.joins[join] == JoinState(false, B, [])
    ensures Going(d, start, s, join, seqNo, B, [], [])
  {
    JoinSessions.SilentAnswers(d, B, []);
    assert Map(RowsAt(start.registry), []) == [] && Map(RowsAt(s.registry), []) == [];
  }

  // One more batch, one of the tables there at the start.
  lemma GoingNext(
      d: JoinSpec.Desc, nodes: seq<NodeKind>, start: Snap, s: Snap, s': Snap, join: nat, seqNo: nat, B: seq<Row>,
      taken: seq<nat>, outs: seq<nat>, h: nat, handle: nat)
    requires ValidSnap(nodes, s) && Going(d, start, s, join, seqNo, B, taken, outs) && h < start.nextHandle
    requires Step(start, s') && Probed(d, s, s', join, h, handle)
    ensures Going(d, start, s', join, seqNo, B, taken + [h], if handle == 0 then outs else outs + [handle])
  {
    var batch := s.registry[h].rows;
    if JoinSpec.IsBuildSideSemi(d.joinType) {
      hide *;
      GoingSilent(d, start, s, s', join, seqNo, B, taken, outs, h);
    } else {
      var mid := MoreProbed(Dropped(s, h), join, batch);
      var rows :| s' == Registered(mid, AsTable(d, rows)) && IsShare(d, s.joins[join].build, batch, rows);
      hide *;
      GoingAnswers(d, nodes, start, s, s', join, seqNo, B, taken, outs, h, rows);
    }
  }

  lemma GoingSilent(
      d: JoinSpec.Desc, start: Snap, s: Snap, s': Snap, join: nat, seqNo: nat, B: seq<Row>,
      taken: seq<nat>, outs: seq<nat>, h: nat)
    requires Going(d, start, s, join, seqNo, B, taken, outs) && h < start.nextHandle && h in s.registry
    requires JoinSpec.IsBuildSideSemi(d.joinType) && join in s.joins
    requires Step(start, s') && s' == MoreProbed(Dropped(s, h), join, s.registry[h].rows)
    ensures Going(d, start, s', join, seqNo, B, taken + [h], outs)
  {
    hide Step, JoinSessions.Answered, RowsUnder;
    HandleIsOld(start, s, h);
    RowsUnderThen(start.registry, taken, h);
    JoinSessions.SilentAnswers(d, B, s.registry[h].rows);
    RowsUnderSame(s.registry, s'.registry, outs);
    JoinSessions.AnsweredThen(
      d, B, RowsUnder(start.registry, taken), s.registry[h].rows, RowsUnder(s.registry, outs), []);
    assert RowsUnder(s.registry, outs) + [] == RowsUnder(s.registry, outs);
  }

  lemma GoingAnswers(
      d: JoinSpec.Desc, nodes: seq<NodeKind>, start: Snap, s: Snap, s': Snap, join: nat, seqNo: nat, B: seq<Row>,
      taken: seq<nat>, outs: seq<nat>, h: nat, rows: seq<Row>)
    requires Going(d, start, s, join, seqNo, B, taken, outs) && h < start.nextHandle && h in s.registry
    requires join in s.joins && ValidSnap(nodes, s) && IsShare(d, s.joins[join].build, s.registry[h].rows, rows)
    requires Step(start, s')
    requires s' == Registered(MoreProbed(Dropped(s, h), join, s.registry[h].rows), AsTable(d, rows))
    ensures Going(d, start, s', join, seqNo, B, taken + [h], outs + [s.nextHandle])
  {
    hide Step, JoinSessions.Answered, RowsUnder, IsShare, AsTable;
    HandleIsOld(start, s, h);
    HandlesGrow(start, s);
    RowsUnderThen(start.registry, taken, h);
    ShareAnswers(d, B, s.registry[h].rows, rows);
    RowsUnderSame(s.registry, s'.registry, outs);
    RowsUnderThen(s'.registry, outs, s.nextHandle);
    AsTableRows(d, rows);
    JoinSessions.AnsweredThen(
      d, B, RowsUnder(start.registry, taken), s.registry[h].rows, RowsUnder(s.registry, outs), rows);
  }

  lemma HandleIsOld(start: Snap, s: Snap, h: nat)
    requires Step(start, s) && h in s.registry && h < start.nextHandle
    ensures h in start.registry && s.registry[h] == start.registry[h]
  {
  }

  lemma HandlesGrow(start: Snap, s: Snap)
    requires Step(start, s)
    ensures start.nextHandle <= s.nextHandle
  {
  }

  lemma ShareAnswers(d: JoinSpec.Desc, B: seq<Row>, batch: seq<Row>, rows: seq<Row>)
    requires IsShare(d, B, batch, rows)
    ensures JoinSessions.Answered(d, B, batch, rows)
  {
  }

  lemma AsTableRows(d: JoinSpec.Desc, rows: seq<Row>)
    ensures AsTable(d, rows).rows == rows
  {
  }

  // The finish: all the answers together are the declarative join.
  lemma GoingEnds(
      d: JoinSpec.Desc, start: Snap, s: Snap, s': Snap, join: nat, seqNo: nat, B: seq<Row>,
      taken: seq<nat>, outs: seq<nat>, handle: nat)
    requires Going(d, start, s, join, seqNo, B, taken, outs) && s.nextHandle >= 1
    requires forall h :: h in outs ==> h < s.nextHandle
    requires Finished(d, s, s', join, handle)
    ensures var all := if handle == 0 then outs else outs + [handle];
            && (forall h :: h in all ==> h in s'.registry)
            && multiset(RowsUnder(s'.registry, all)) == multiset(JoinSpec.Join(d, B, RowsUnder(start.registry, taken)))
  {
    hide Step, JoinSessions.Answered, RowsUnder, AsTable;
    var probed := RowsUnder(start.registry, taken);
    RowsUnderSame(s.registry, s'.registry, outs);
    JoinSessions.JoinIs(d, B, probed, RowsUnder(s.registry, outs));
    if JoinSessions.Tracks(d.joinType) {
      RowsUnderThen(s'.registry, outs, handle);
      AsTableRows(d, LastShare(d, B, probed));
    }
  }

  // Every column the plan names exists.
  predicate Unbroken(d: JoinSpec.Desc) {
    JoinSessions.ProbeKeysOk(d) && JoinSessions.MapOk(d) && JoinSpec.ProjectionOk(d)
  }

  lemma UnbrokenCalls(d: JoinSpec.Desc, rows: seq<Row>)
    requires Unbroken(d)
    ensures !JoinSessions.BreaksProbe(d, rows) && !JoinSessions.BreaksFinish(d)
  {
  }

  // Nothing stands in a join's way: it opens, every column it names exists, and its batches are
  // different resident tables as wide as declared.
  ghost predicate WillJoin(nodes: seq<NodeKind>, s: Snap, seqNo: nat, build: nat, probes: seq<nat>) {
    && BuildOpens(nodes, s, seqNo, build, false)
    && Unbroken(nodes[seqNo].join) && OutWidth(nodes[seqNo].join) > 0
    && NoDup(probes) && build !in probes
    && forall h :: h in probes ==> h in s.registry && JoinArms.Shaped(s.registry[h].rows, nodes[seqNo].join.probeWidth)
  }

  // The handles a started join leaves for its later probes.
  ghost predicate Left(start: Snap, s: Snap, build: nat, taken: seq<nat>) {
    forall h :: h in start.registry && h != build && h !in taken ==> h in s.registry
  }

  lemma OpensAJoin(nodes: seq<NodeKind>, s: Snap, seqNo: nat, build: nat, fails: bool)
    returns (d: JoinSpec.Desc, B: seq<Row>)
    requires BuildOpens(nodes, s, seqNo, build, fails)
    ensures IsJoin(nodes, seqNo) && d == nodes[seqNo].join && B == RowsOr(BuildRows(s, build))
  {
    d, B := nodes[seqNo].join, RowsOr(BuildRows(s, build));
  }

  lemma LeftStarts(nodes: seq<NodeKind>, start: Snap, s: Snap, seqNo: nat, build: nat)
    requires s == WithJoin(Dropped(start, build), seqNo, RowsOr(BuildRows(start, build)))
    ensures Left(start, s, build, [])
  {
  }

  lemma LeftNext(
      d: JoinSpec.Desc, start: Snap, s: Snap, s': Snap, join: nat, build: nat, taken: seq<nat>, h: nat, handle: nat)
    requires Left(start, s, build, taken) && Probed(d, s, s', join, h, handle)
    ensures Left(start, s', build, taken + [h])
  {
  }

  // The next probe of a join nothing stands in the way of is answered.
  lemma Ready(
      nodes: seq<NodeKind>, start: Snap, s: Snap, d: JoinSpec.Desc, join: nat, seqNo: nat, B: seq<Row>,
      build: nat, probes: seq<nat>, i: nat, outs: seq<nat>)
    requires i < |probes| && Left(start, s, build, probes[..i])
    requires Going(d, start, s, join, seqNo, B, probes[..i], outs) && probes[i] < start.nextHandle
    ensures join in s.joins && join in s.joinSeq && s.joinSeq[join] == seqNo && !s.joins[join].finished
    ensures WillJoin(nodes, start, seqNo, build, probes) && d == nodes[seqNo].join ==> CanProbe(d, s, join, probes[i])
  {
    hide JoinArms.Shaped, RowsUnder, JoinSessions.Answered, BuildOpens;
    if WillJoin(nodes, start, seqNo, build, probes) {
      var h := probes[i];
      assert h in probes && h in start.registry && h != build;
      assert h !in probes[..i];
      assert h in s.registry;
      HandleIsOld(start, s, h);
    }
  }

  lemma AllIssued(
      nodes: seq<NodeKind>, d: JoinSpec.Desc, start: Snap, s: Snap, join: nat, seqNo: nat, B: seq<Row>,
      taken: seq<nat>, outs: seq<nat>)
    requires ValidSnap(nodes, s) && Going(d, start, s, join, seqNo, B, taken, outs)
    ensures s.nextHandle >= 1 && forall h :: h in outs ==> h < s.nextHandle
    ensures join in s.joins && join in s.joinSeq && s.joinSeq[join] == seqNo && !s.joins[join].finished
  {
  }

  // One probe and one finish of a live join, told by the state alone.
  method ProbeOnce(s: Session, join: nat, probe: nat, fails: bool, ghost seqNo: nat) returns (r: Reply<nat>)
    requires s.Valid() && IsJoin(s.nodes, seqNo) && join in s.State().joins && s.State().joinSeq[join] == seqNo
    modifies s`registry, s`nextHandle, s.joins.Values
    ensures s.Valid() && Step(old(s.State()), s.State()) && ValidSnap(s.nodes, s.State())
    ensures var d, st := s.nodes[seqNo].join, old(s.State());
            && (r.Done? ==> Probed(d, st, s.State(), join, probe, r.value))
            && (CanProbe(d, st, join, probe) && !fails ==> r.Done?)
  {
    hide Step, ValidSnap, JoinArms.Shaped, Probed, JoinSessions.JoinSession.Valid, OutWidth, Unbroken,
         JoinSessions.BreaksProbe, JoinSessions.BreaksFinish;
    s.JoinKnown(join);
    if Unbroken(s.nodes[seqNo].join) {
      UnbrokenCalls(s.nodes[seqNo].join, s.joins[join].B0);
    }
    r := s.JoinProbe(join, probe, fails);
  }

  ghost predicate CanProbe(d: JoinSpec.Desc, s: Snap, join: nat, probe: nat) {
    && join in s.joins && !s.joins[join].finished && probe in s.registry
    && JoinArms.Shaped(s.registry[probe].rows, d.probeWidth) && Unbroken(d) && OutWidth(d) > 0
  }

  method FinishOnce(s: Session, join: nat, fails: bool, ghost seqNo: nat) returns (r: Reply<nat>)
    requires s.Valid() && IsJoin(s.nodes, seqNo) && join in s.State().joins && s.State().joinSeq[join] == seqNo
    modifies s`registry, s`nextHandle, s.joins.Values
    ensures s.Valid() && Step(old(s.State()), s.State())
    ensures var d, st := s.nodes[seqNo].join, old(s.State());
            && (r.Done? ==> Finished(d, st, s.State(), join, r.value))
            && (!st.joins[join].finished && Unbroken(d) && OutWidth(d) > 0 && !fails ==> r.Done?)
  {
    hide Step, ValidSnap, JoinArms.Shaped, Finished, JoinSessions.JoinSession.Valid, OutWidth, Unbroken,
         JoinSessions.BreaksProbe, JoinSessions.BreaksFinish;
    s.JoinKnown(join);
    if Unbroken(s.nodes[seqNo].join) {
      UnbrokenCalls(s.nodes[seqNo].join, []);
    }
    r := s.JoinFinish(join, fails);
  }

  // The batches of a join just built, one after the other.
  method ProbeAll(
      s: Session, join: nat, probes: seq<nat>, fails: nat -> bool,
      ghost start: Snap, ghost seqNo: nat, ghost d: JoinSpec.Desc, ghost B: seq<Row>, ghost build: nat)
    returns (ok: bool, outs: seq<nat>)
    requires s.Valid() && IsJoin(s.nodes, seqNo) && d == s.nodes[seqNo].join
    requires forall h :: h in probes ==> h < start.nextHandle
    requires Going(d, start, s.State(), join, seqNo, B, [], [])
    requires Left(start, s.State(), build, [])
    modifies s`registry, s`nextHandle, s.joins.Values
    ensures s.Valid() && Step(start, s.State())
    ensures ok ==> Going(d, start, s.State(), join, seqNo, B, probes, outs)
    ensures WillJoin(s.nodes, start, seqNo, build, probes) && (forall i :: !fails(i)) ==> ok
  {
    hide *;
    outs := [];
    assert probes[..0] == [];
    for i := 0 to |probes|
      invariant s.Valid() && s.joins == old(s.joins)
      invariant Going(d, start, s.State(), join, seqNo, B, probes[..i], outs)
      invariant Left(start, s.State(), build, probes[..i])
    {
      ghost var before := s.State();
      KnownValid(s);
      assert probes[..i + 1] == probes[..i] + [probes[i]];
      assert probes[i] in probes;
      Ready(s.nodes, start, before, d, join, seqNo, B, build, probes, i, outs);
      var r := ProbeOnce(s, join, probes[i], fails(i + 1), seqNo);
      StillGoing(d, start, before, s.State(), join, seqNo, B, probes[..i], outs);
      if !r.Done? {
        return false, outs;
      }
      GoingNext(d, s.nodes, start, before, s.State(), join, seqNo, B, probes[..i], outs, probes[i], r.value);
      LeftNext(d, start, before, s.State(), join, build, probes[..i], probes[i], r.value);
      if r.value != 0 {
        outs := outs + [r.value];
      }
    }
    assert probes[..|probes|] == probes;
    StillGoing(d, start, s.State(), s.State(), join, seqNo, B, probes, outs);
    return true, outs;
  }

  lemma KnownValid(s: Session)
    requires s.Valid()
    ensures ValidSnap(s.nodes, s.State())
  {
  }

  lemma StillGoing(
      d: JoinSpec.Desc, start: Snap, s: Snap, s': Snap, join: nat, seqNo: nat, B: seq<Row>,
      taken: seq<nat>, outs: seq<nat>)
    requires Going(d, start, s, join, seqNo, B, taken, outs) && (s == s' || Step(s, s'))
    ensures Step(start, s')
  {
    hide RowsUnder, JoinSessions.Answered;
    if s != s' {
      StepThen(start, s, s');
    }
  }

  /** A join driven through handles: built from a table (or none), probed with tables there before
      it, finished. The tables it answers, all still there, hold together the declarative join of
      the build table and the batches; and it gets there if nothing stands in its way. */
  method RunJoin(s: Session, seqNo: nat, build: nat, probes: seq<nat>, fails: nat -> bool)
    returns (ok: bool, outs: seq<nat>)
    requires s.Valid() && forall h :: h in probes ==> h < s.nextHandle
    modifies s, s.joins.Values
    ensures s.Valid() && Step(old(s.State()), s.State())
    ensures ok ==> IsJoin(s.nodes, seqNo) && forall h :: h in outs ==> h in s.registry
    ensures ok ==>
              multiset(RowsUnder(s.registry, outs)) ==
              multiset(JoinSpec.Join(s.nodes[seqNo].join, RowsOr(BuildRows(old(s.State()), build)),
                                     RowsUnder(old(s.registry), probes)))
    ensures ok ==>
              JoinCounts.AnswersJoin(s.nodes[seqNo].join, RowsOr(BuildRows(old(s.State()), build)),
                                     RowsUnder(old(s.registry), probes), RowsUnder(s.registry, outs))
    ensures WillJoin(s.nodes, old(s.State()), seqNo, build, probes) && (forall i :: !fails(i)) ==> ok
  {
    hide *;
    ghost var start := s.State();
    outs := [];
    var built := s.JoinBuild(seqNo, build, fails(0));
    if !built.Done? {
      if WillJoin(s.nodes, start, seqNo, build, probes) {
        WillOpen(s.nodes, start, seqNo, build, probes);
      }
      return false, outs;
    }
    var join := built.value;
    ghost var d, B := OpensAJoin(s.nodes, start, seqNo, build, fails(0));
    JoinBegins(s.nodes, d, start, s.State(), join, seqNo, build);
    ok, outs := ProbeAll(s, join, probes, fails, start, seqNo, d, B, build);
    if !ok {
      return false, outs;
    }
    ghost var before := s.State();
    KnownValid(s);
    AllIssued(s.nodes, d, start, before, join, seqNo, B, probes, outs);
    var r := FinishOnce(s, join, fails(|probes| + 1), seqNo);
    StillGoing(d, start, before, s.State(), join, seqNo, B, probes, outs);
    if !r.Done? {
      if WillJoin(s.nodes, start, seqNo, build, probes) {
        WillOpen(s.nodes, start, seqNo, build, probes);
      }
      return false, outs;
    }
    GoingEnds(d, start, before, s.State(), join, seqNo, B, probes, outs, r.value);
    if r.value != 0 {
      outs := outs + [r.value];
    }
    ghost var full := JoinCounts.JoinAnswer(d, B, RowsUnder(start.registry, probes), RowsUnder(s.registry, outs));
    return true, outs;
  }

  lemma WillOpen(nodes: seq<NodeKind>, s: Snap, seqNo: nat, build: nat, probes: seq<nat>)
    requires WillJoin(nodes, s, seqNo, build, probes)
    ensures BuildOpens(nodes, s, seqNo, build, false) && IsJoin(nodes, seqNo)
    ensures Unbroken(nodes[seqNo].join) && OutWidth(nodes[seqNo].join) > 0
  {
  }

  lemma JoinBegins(nodes: seq<NodeKind>, d: JoinSpec.Desc, start: Snap, s: Snap, join: nat, seqNo: nat, build: nat)
    requires Step(start, s) && join == start.nextJoin
    requires s == WithJoin(Dropped(start, build), seqNo, RowsOr(BuildRows(start, build)))
    ensures Going(d, start, s, join, seqNo, RowsOr(BuildRows(start, build)), [], [])
    ensures Left(start, s, build, [])
  {
    hide Step, Going, RowsUnder;
    GoingStarts(d, start, s, join, seqNo, RowsOr(BuildRows(start, build)));
    LeftStarts(nodes, start, s, seqNo, build);
  }

  // ------------------------------------------------------------ at actual inputs

  function OneColumn(rows: seq<Row>): TableResult {
    TableResult(1, ["c"], 1, rows)
  }

  // A mapped node handed a child with no partitions passes every check and reads past the end of
  // it. A second such child, or no room for an output, is refused before.
  lemma EmptyLane()
    ensures ReadsPastEnd(MapNode, [[]], 1)
    ensures !ReadsPastEnd(MapNode, [[], []], 1) && !ReadsPastEnd(MapNode, [[]], 0)
    ensures ReadsPastEnd(CoalescePartitions, [], 1) && !ReadsPastEnd(CoalescePartitions, [], 0)
  {
    var two: seq<seq<nat>> := [[], []];
    assert |two[1]| == 0;
  }

  method CallOnEmptyLane(work: Work) returns (r: Reply<seq<nat>>)
    ensures r == Undefined
  {
    var s := new Session([MapNode]);
    EmptyLane();
    ghost var outs;
    r, outs := s.ExecuteNode(0, [[]], 1, work);
  }

  // A caller that guesses the id its call will issue first, and names it for its second output:
  // the call succeeds, and answers a handle that is gone.
  method GuessedId() returns (handles: seq<nat>, there: bool)
    ensures handles == [2, 3] && !there
  {
    hide Step, ValidSnap, Executed, Lanes, Midway, WillRun, ReadsPastEnd;
    var s := new Session([MapNode]);
    var first := s.Adopt(OneColumn([]));
    var work: Work := (p, ts) => Answer(OneColumn([]));
    ghost var start := s.State();
    KnownValid(s);
    GuessRuns(work, start);
    var r;
    ghost var outs;
    r, outs := s.ExecuteNode(0, [[1, 2]], 2, work);
    handles := r.value;
    GuessDone(work, start, s.State(), handles, outs);
    OutputsResident(s.nodes, start, s.State(), [1, 2], outs, 2);
    there := 2 in s.registry;
  }

  lemma GuessedLanes()
    ensures Lanes([[1, 2]], 2) == [1, 2] && Lane([[1, 2]], 0) == [1] && Lane([[1, 2]], 1) == [2]
    ensures OutCount(MapNode, [[1, 2]]) == 2
  {
    assert Lanes([[1, 2]], 0) == [];
    assert Lanes([[1, 2]], 1) == [1];
  }

  lemma GuessDone(work: Work, start: Snap, end: Snap, handles: seq<nat>, outs: seq<TableResult>)
    requires Executed(work, MapNode, [[1, 2]], 2, start, end, handles, outs)
    ensures handles == [start.nextHandle, start.nextHandle + 1] && end.nextHandle == start.nextHandle + 2
    ensures Midway(end, start, [1, 2], outs)
  {
    GuessedLanes();
  }

  lemma GuessRuns(work: Work, start: Snap)
    requires start.nextHandle == 2 && 1 in start.registry && Working(work)
    ensures WillRun(work, MapNode, [[1, 2]], 2, start)
    ensures !ReadsPastEnd(MapNode, [[1, 2]], 2)
  {
    GuessedLanes();
  }

  // Of one column each side, keyed on it, without a condition.
  function LoneJoin(): JoinSpec.Desc {
    JoinSpec.Desc(JoinSpec.Inner, [(0, 0)], false, None, [], None, 1, 0, 1, 1, NoMeaning(), Never(), Never())
  }

  function NoMeaning(): Meaning {
    (k, vs) => Null
  }

  function Never(): Expr -> bool {
    e => false
  }

  lemma LoneJoinOpens(s: Snap)
    ensures BuildOpens([JoinNode(LoneJoin())], s, 0, 0, false)
    ensures !JoinSessions.BreaksFinish(LoneJoin()) && !JoinSessions.Tracks(LoneJoin().joinType)
  {
  }

  // A batch named to a finished join: refused, and gone.
  method ProbeAfterFinish() returns (r: Reply<nat>, there: bool)
    ensures r == Refusal && !there
  {
    hide Step, ValidSnap, BuildOpens, LoneJoin, JoinSessions.BreaksFinish, JoinSessions.BreaksProbe,
         JoinSessions.Tracks, JoinSessions.JoinSession.Valid, OutWidth, JoinArms.Shaped, Probed,
         Session.JoinsLive, Session.JoinStates, LastShare, AsTable;
    var s := new Session([JoinNode(LoneJoin())]);
    var batch := s.Adopt(OneColumn([[Num(1)]]));
    LoneJoinOpens(s.State());
    var join := s.JoinBuild(0, 0, false);
    s.JoinKnown(join.value);
    var last := s.JoinFinish(join.value, false);
    s.JoinKnown(join.value);
    r := s.JoinProbe(join.value, batch.value, false);
    there := batch.value in s.registry;
  }
}
