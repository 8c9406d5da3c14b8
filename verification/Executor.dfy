/**
  The executor's entry points: which failures end the query and which leave the session standing.
  Anything an executing call throws past its argument checks drops the session with everything
  resident in it; a join refusal, a read, an adoption and a release leave it. `Drive` performs any
  sequence of calls, and the lemmas after it say what holds between any two moments of a run.
 */
module Executors {
  import opened Basics
  import opened JoinResidual
  import opened NodeSessions
  import opened SessionRuns
  import JoinArms

  datatype Error = NoError | NoPlanLoaded | BadPlan | EmptyRowGroups | BadPrecisions | Thrown

  datatype LiveSession = NoSession | Live(nodes: seq<NodeKind>, snap: Snap)

  // An executor as a value: how many plans were begun, and the session of the last if it lives.
  datatype ExecSnap = ExecSnap(plans: nat, live: LiveSession)

  ghost predicate ValidExec(s: ExecSnap) {
    s.live.Live? ==> ValidSnap(s.live.nodes, s.live.snap)
  }

  // What every call keeps: a session is never replaced but by beginning a plan, whose session
  // starts empty and numbers from one again, and a session once gone does not come back.
  ghost predicate ExecStep(a: ExecSnap, b: ExecSnap) {
    if b.plans == a.plans then
      b.live.NoSession? || (a.live.Live? && b.live.nodes == a.live.nodes && Step(a.live.snap, b.live.snap))
    else b.plans == a.plans + 1 && b.live.Live? && b.live.snap == FreshSnap
  }

  datatype PlanBytes = Unreadable | Readable(nodes: seq<NodeKind>)

  datatype Export = NoExport | NothingToShip | Shipped(rows: seq<Row>)

  // How a call ends: with a code, or in a read past the end of its handles.
  datatype Ending = Code(code: nat) | ReadPastEnd

  class Executor {
    var session: Session?
    var lastError: Error
    ghost var plans: nat

    ghost function Repr(): (r: set<object>)
      reads this, session
      ensures this in r && (session != null ==> session in r && session.joins.Values <= r)
    {
      {this} + if session == null then {} else {session} + session.joins.Values
    }

    ghost predicate Valid()
      reads this, session, if session == null then {} else session.joins.Values
    {
      session != null ==> session.Valid()
    }

    ghost function State(): (s: ExecSnap)
      reads this, session, if session == null then {} else session.joins.Values
      ensures s.plans == plans && (s.live.Live? <==> session != null)
      ensures session != null ==> s.live == Live(session.nodes, session.State())
    {
      ExecSnap(plans, if session == null then NoSession else Live(session.nodes, session.State()))
    }

    constructor ()
      ensures Valid() && State() == ExecSnap(0, NoSession)
    {
      session, lastError, plans := null, NoError, 0;
    }

    // A plan that does not parse leaves the earlier session as it was.
    method BeginPlan(plan: PlanBytes) returns (code: nat, count: nat)
      requires Valid()
      modifies this
      ensures Valid() && ExecStep(old(State()), State()) && fresh(Repr() - old(Repr()))
      ensures code == 0 <==> plan.Readable? && plan.nodes != []
      ensures code == 0 ==> fresh(session) && count == |plan.nodes|
      ensures code == 0 ==> State() == ExecSnap(old(plans) + 1, Live(plan.nodes, FreshSnap))
      ensures code != 0 ==> session == old(session) && State() == old(State())
    {
      hide Step, ValidSnap, Session.JoinsLive, Session.JoinStates;
      if plan.Unreadable? || plan.nodes == [] {
        KeptStep(this);
        lastError := BadPlan;
        return 1, 0;
      }
      session := new Session(plan.nodes);
      plans := plans + 1;
      return 0, |plan.nodes|;
    }

    method ExecuteNode(seqNo: nat, child: seq<seq<nat>>, outCap: nat, work: Work)
      returns (r: Ending, handles: seq<nat>, ghost outs: seq<TableResult>)
      requires Valid()
      modifies this, session
      ensures Valid() && ExecStep(old(State()), State()) && fresh(Repr() - old(Repr()))
      ensures r.ReadPastEnd? <==> Undefines(old(State()), seqNo, child, outCap)
      ensures r.ReadPastEnd? ==> State() == old(State())
      ensures r == Code(0) ==> session != null && session == old(session) && seqNo < |session.nodes|
      ensures r == Code(0) ==>
                Executed(work, session.nodes[seqNo], child, outCap,
                         old(State()).live.snap, State().live.snap, handles, outs)
      ensures r == Code(0) ==>
                Ran(work, session.nodes[seqNo], child, old(State()).live.snap, State().live.snap, handles, outs)
      ensures r.Code? && r != Code(0) ==> session == null
      ensures old(State()).live.Live? && seqNo < |old(State()).live.nodes|
                && WillRun(work, old(State()).live.nodes[seqNo], child, outCap, old(State()).live.snap)
              ==> r == Code(0)
    {
      hide Step, ValidSnap, WillRun, Executed, Ran, ReadsPastEnd, Session.JoinsLive, Session.JoinStates;
      r, handles, outs := Code(1), [], [];
      KeptStep(this);
      if session == null {
        lastError := NoPlanLoaded;
        return Code(1), [], outs;
      }
      RunsWithin(old(State()), seqNo, child, outCap, work);
      var s;
      s, outs := session.ExecuteNode(seqNo, child, outCap, work);
      match s {
        case Done(hs) =>
          return Code(0), hs, outs;
        case Undefined =>
          return ReadPastEnd, [], outs;
        case Failure =>
          lastError := Thrown;
          session := null;
          return Code(1), [], outs;
        case Refusal =>
          assert false;
      }
    }

    method ExecuteScanRowgroups(seqNo: nat, rowGroups: seq<nat>, scan: Outcome) returns (code: nat, handle: nat)
      requires Valid()
      modifies this, session
      ensures Valid() && ExecStep(old(State()), State()) && fresh(Repr() - old(Repr()))
      ensures code == 0 <==>
                && old(session) != null && seqNo < |old(session).nodes| && rowGroups != []
                && old(session).nodes[seqNo].Scan? && scan.Answer? && Shaped(scan.table)
      ensures code == 0 ==> session != null && session == old(session) && handle == old(session.nextHandle)
      ensures code == 0 ==> session.State() == Registered(old(State()).live.snap, scan.table)
      ensures code != 0 && rowGroups == [] ==> State() == old(State()) && session == old(session)
      ensures code != 0 && rowGroups != [] ==> session == null
    {
      hide Step, ValidSnap, Session.JoinsLive, Session.JoinStates;
      KeptStep(this);
      if session == null {
        lastError := NoPlanLoaded;
        return 1, 0;
      }
      if |rowGroups| == 0 {
        lastError := EmptyRowGroups;
        return 1, 0;
      }
      var r := session.ExecuteScanRowgroups(seqNo, rowGroups, scan);
      if !r.Done? {
        lastError := Thrown;
        session := null;
        return 1, 0;
      }
      return 0, r.value;
    }

    method SliceHandle(handle: nat, offset: nat, length: nat) returns (code: nat, out: nat)
      requires Valid()
      modifies this, session
      ensures Valid() && ExecStep(old(State()), State()) && fresh(Repr() - old(Repr()))
      ensures code == 0 <==> old(session) != null && handle in old(session.registry)
      ensures code == 0 ==> session != null && session == old(session) && out == old(session.nextHandle)
      ensures code == 0 ==>
                exists t :: IsRange(t, old(session.registry)[handle], offset, length) &&
                  session.State() == Registered(Dropped(old(State()).live.snap, handle), t)
      ensures code != 0 ==> session == null
    {
      hide Step, ValidSnap, Session.JoinsLive, Session.JoinStates, IsRange;
      if session == null {
        lastError := NoPlanLoaded;
        return 1, 0;
      }
      var r := session.SliceHandle(handle, offset, length);
      if !r.Done? {
        lastError := Thrown;
        session := null;
        return 1, 0;
      }
      return 0, r.value;
    }

    method JoinBuild(seqNo: nat, build: nat, fails: bool) returns (code: nat, join: nat)
      requires Valid()
      modifies this, session
      ensures Valid() && ExecStep(old(State()), State()) && fresh(Repr() - old(Repr()))
      ensures code == 0 <==>
                old(session) != null && BuildOpens(old(session).nodes, old(State()).live.snap, seqNo, build, fails)
      ensures code == 0 ==> session != null && session == old(session) && join == old(session.nextJoin)
      ensures code == 0 ==>
                session.State() == WithJoin(Dropped(old(State()).live.snap, build), seqNo,
                                            RowsOr(BuildRows(old(State()).live.snap, build)))
      ensures code != 0 ==> session == null
    {
      hide Step, ValidSnap, Session.JoinsLive, Session.JoinStates, BuildOpens;
      if session == null {
        lastError := NoPlanLoaded;
        return 1, 0;
      }
      var r := session.JoinBuild(seqNo, build, fails);
      if !r.Done? {
        lastError := Thrown;
        session := null;
        return 1, 0;
      }
      return 0, r.value;
    }

    // The session stands after a refusal, but not always as it was: a batch named to a finished
    // join is gone, one named to an unknown join is not.
    method JoinProbe(join: nat, probe: nat, fails: bool) returns (code: nat, handle: nat)
      requires Valid()
      modifies Repr()
      ensures Valid() && ExecStep(old(State()), State()) && fresh(Repr() - old(Repr()))
      ensures code == 0 ==> session != null && session == old(session) && join in old(session.joinSeq)
      ensures code == 0 ==> IsJoin(session.nodes, old(session.joinSeq)[join])
      ensures code == 0 ==>
                Probed(session.nodes[old(session.joinSeq)[join]].join,
                       old(State()).live.snap, session.State(), join, probe, handle)
      ensures code != 0 && old(session) != null ==>
                var before := old(State()).live.snap;
                && (session != null <==> ProbeRefuses(before, join, probe))
                && (session != null ==>
                      && session == old(session)
                      && session.State() == if join in before.joins then Dropped(before, probe) else before)
    {
      hide Step, ValidSnap, Session.JoinsLive, Session.JoinStates, Probed, IsJoin, OutWidth,
           JoinArms.Shaped, ProbeRefuses;
      if session == null {
        lastError := NoPlanLoaded;
        return 1, 0;
      }
      session.JoinKnown(join);
      var r := session.JoinProbe(join, probe, fails);
      if r.Done? {
        return 0, r.value;
      }
      lastError := Thrown;
      if r.Failure? {
        session := null;
      }
      return 1, 0;
    }

    method JoinFinish(join: nat, fails: bool) returns (code: nat, handle: nat)
      requires Valid()
      modifies Repr()
      ensures Valid() && ExecStep(old(State()), State()) && fresh(Repr() - old(Repr()))
      ensures code == 0 ==> session != null && session == old(session) && join in old(session.joinSeq)
      ensures code == 0 ==> IsJoin(session.nodes, old(session.joinSeq)[join])
      ensures code == 0 ==>
                Finished(session.nodes[old(session.joinSeq)[join]].join,
                         old(State()).live.snap, session.State(), join, handle)
      ensures code != 0 && old(session) != null ==>
                var before := old(State()).live.snap;
                && (session != null <==> join !in before.joins || before.joins[join].finished)
                && (session != null ==> session == old(session) && session.State() == before)
    {
      hide Step, ValidSnap, Session.JoinsLive, Session.JoinStates, Finished, IsJoin, OutWidth;
      if session == null {
        lastError := NoPlanLoaded;
        return 1, 0;
      }
      session.JoinKnown(join);
      var r := session.JoinFinish(join, fails);
      if r.Done? {
        return 0, r.value;
      }
      lastError := Thrown;
      if r.Failure? {
        session := null;
      }
      return 1, 0;
    }

    method JoinRelease(join: nat)
      requires Valid()
      modifies session
      ensures Valid() && ExecStep(old(State()), State()) && fresh(Repr() - old(Repr()))
      ensures session != null ==>
                var before := old(State()).live.snap;
                session.State() == before.(joins := before.joins - {join}, joinSeq := before.joinSeq - {join})
    {
      hide Step, ValidSnap, Session.JoinsLive, Session.JoinStates;
      if session != null {
        session.JoinRelease(join);
      }
    }

    // Reading changes nothing, whether it succeeds or not.
    method ResultFromHandle(handle: nat, offset: nat, length: nat, nColumns: nat, exported: bool)
      returns (code: nat, out: Export)
      requires Valid()
      modifies this`lastError
      ensures Valid() && State() == old(State()) && ExecStep(old(State()), State()) && Repr() == old(Repr())
      ensures code == 0 <==> out != NoExport
      ensures !out.NoExport? ==> session != null && handle in session.registry
      ensures out.Shipped? ==> RowRange(out.rows, session.registry[handle].rows, offset, length)
      ensures out.NothingToShip? ==>
                session.registry[handle].rows != [] && RowRange([], session.registry[handle].rows, offset, length)
    {
      hide Step, ValidSnap, Session.JoinsLive, Session.JoinStates, Within;
      KeptStep(this);
      if session == null {
        lastError := NoPlanLoaded;
        return 1, NoExport;
      }
      var t := session.TableFor(handle);
      if !t.Done? {
        lastError := Thrown;
        return 1, NoExport;
      }
      if nColumns != 0 && nColumns != t.value.columns {
        lastError := BadPrecisions;
        return 1, NoExport;
      }
      var rows := t.value.rows;
      var begin, end := ClampRowRange(offset, length, |rows|);
      if begin == end && |rows| > 0 {
        assert rows[begin..end] == [];
        return 0, NothingToShip;
      }
      if !exported {
        lastError := Thrown;
        return 1, NoExport;
      }
      return 0, Shipped(rows[begin..end]);
    }

    // The column names under a handle.
    method HandleSchema(handle: nat, exported: bool) returns (code: nat, names: seq<string>)
      requires Valid()
      modifies this`lastError
      ensures Valid() && State() == old(State()) && ExecStep(old(State()), State()) && Repr() == old(Repr())
      ensures code == 0 <==> session != null && handle in session.registry && exported
      ensures code == 0 ==> names == session.registry[handle].names && |names| > 0
    {
      hide Step, ValidSnap, Session.JoinsLive, Session.JoinStates;
      KeptStep(this);
      if session == null {
        lastError := NoPlanLoaded;
        return 1, [];
      }
      var t := session.TableFor(handle);
      if !t.Done? || !exported {
        lastError := Thrown;
        return 1, [];
      }
      return 0, t.value.names;
    }

    method HandleFromArrow(imported: Outcome) returns (code: nat, handle: nat)
      requires Valid()
      modifies this, session
      ensures Valid() && ExecStep(old(State()), State()) && fresh(Repr() - old(Repr()))
      ensures session == old(session)
      ensures code == 0 <==> session != null && imported.Answer? && Shaped(imported.table)
      ensures code == 0 ==> handle == old(session.nextHandle)
      ensures code == 0 ==> session.State() == Registered(old(State()).live.snap, imported.table)
      ensures code != 0 ==> State() == old(State())
    {
      hide Step, ValidSnap, Session.JoinsLive, Session.JoinStates;
      KeptStep(this);
      if session == null {
        lastError := NoPlanLoaded;
        return 1, 0;
      }
      if imported.Throws? {
        lastError := Thrown;
        return 1, 0;
      }
      var r := session.Adopt(imported.table);
      if !r.Done? {
        lastError := Thrown;
        return 1, 0;
      }
      return 0, r.value;
    }

    method HandleRelease(handle: nat)
      requires Valid()
      modifies session
      ensures Valid() && ExecStep(old(State()), State()) && fresh(Repr() - old(Repr()))
      ensures session != null ==> session.State() == Dropped(old(State()).live.snap, handle)
    {
      hide Step, ValidSnap, Session.JoinsLive, Session.JoinStates;
      if session != null {
        session.Release(handle);
      }
    }

    method EndPlan()
      requires Valid()
      modifies this
      ensures Valid() && ExecStep(old(State()), State()) && fresh(Repr() - old(Repr()))
      ensures State() == ExecSnap(old(plans), NoSession)
    {
      session := null;
    }
  }

  // The calls that read past the end of the handles they are given.
  ghost predicate Undefines(s: ExecSnap, seqNo: nat, child: seq<seq<nat>>, outCap: nat) {
    s.live.Live? && seqNo < |s.live.nodes| && ReadsPastEnd(s.live.nodes[seqNo], child, outCap)
  }

  lemma RunsWithin(s: ExecSnap, seqNo: nat, child: seq<seq<nat>>, outCap: nat, work: Work)
    ensures s.live.Live? && seqNo < |s.live.nodes| && WillRun(work, s.live.nodes[seqNo], child, outCap, s.live.snap) ==>
              !Undefines(s, seqNo, child, outCap)
  {
    hide Accepted, ReadsPastEnd, Working, NoDup;
    if s.live.Live? && seqNo < |s.live.nodes| && WillRun(work, s.live.nodes[seqNo], child, outCap, s.live.snap) {
      AcceptedStaysIn(s.live.nodes[seqNo], child, outCap);
    }
  }

  // A call that leaves the session as it was.
  lemma KeptStep(e: Executor)
    requires e.Valid()
    ensures ExecStep(e.State(), e.State())
  {
    if e.session != null {
      SelfStep(e.session.nodes, e.session.State());
    }
  }

  // ------------------------------------------------------------ any sequence of calls

  datatype Call =
    | BeginPlan(plan: PlanBytes)
    | ExecuteNode(seqNo: nat, child: seq<seq<nat>>, outCap: nat, work: Work)
    | ExecuteScanRowgroups(seqNo: nat, rowGroups: seq<nat>, scan: Outcome)
    | SliceHandle(handle: nat, offset: nat, length: nat)
    | JoinBuild(seqNo: nat, build: nat, fails: bool)
    | JoinProbe(join: nat, probe: nat, fails: bool)
    | JoinFinish(join: nat, fails: bool)
    | JoinRelease(join: nat)
    | ResultFromHandle(handle: nat, offset: nat, length: nat, nColumns: nat, exported: bool)
    | HandleSchema(handle: nat, exported: bool)
    | HandleFromArrow(imported: Outcome)
    | HandleRelease(handle: nat)
    | EndPlan

  // The states of an executor, call after call.
  ghost predicate IsExecRun(run: seq<ExecSnap>) {
    && (forall i :: 0 <= i < |run| - 1 ==> ExecStep(run[i], run[i + 1]))
    && forall i :: 0 <= i < |run| ==> ValidExec(run[i])
  }

  // One call, whichever it is. `undefined` says it read past the end of its handles.
  method Perform(e: Executor, call: Call) returns (undefined: bool)
    requires e.Valid()
    modifies e.Repr()
    ensures e.Valid() && ExecStep(old(e.State()), e.State()) && fresh(e.Repr() - old(e.Repr()))
    ensures undefined <==>
              call.ExecuteNode? && Undefines(old(e.State()), call.seqNo, call.child, call.outCap)
  {
    hide *;
    undefined := false;
    var code, handle;
    match call {
      case BeginPlan(plan) => code, handle := e.BeginPlan(plan);
      case ExecuteNode(seqNo, child, outCap, work) =>
        var r, handles;
        ghost var outs;
        r, handles, outs := e.ExecuteNode(seqNo, child, outCap, work);
        undefined := r.ReadPastEnd?;
      case ExecuteScanRowgroups(seqNo, rowGroups, scan) =>
        code, handle := e.ExecuteScanRowgroups(seqNo, rowGroups, scan);
      case SliceHandle(h, offset, length) => code, handle := e.SliceHandle(h, offset, length);
      case JoinBuild(seqNo, build, fails) => code, handle := e.JoinBuild(seqNo, build, fails);
      case JoinProbe(join, probe, fails) => code, handle := e.JoinProbe(join, probe, fails);
      case JoinFinish(join, fails) => code, handle := e.JoinFinish(join, fails);
      case JoinRelease(join) => e.JoinRelease(join);
      case ResultFromHandle(h, offset, length, nColumns, exported) =>
        var out;
        code, out := e.ResultFromHandle(h, offset, length, nColumns, exported);
      case HandleSchema(h, exported) =>
        var names;
        code, names := e.HandleSchema(h, exported);
      case HandleFromArrow(imported) => code, handle := e.HandleFromArrow(imported);
      case HandleRelease(h) => e.HandleRelease(h);
      case EndPlan => e.EndPlan();
    }
  }

  /** Any calls, in any order, up to the first that reads past the end of its handles: the states
      the executor goes through are a run. */
  method Drive(e: Executor, calls: seq<Call>) returns (done: nat, ghost run: seq<ExecSnap>)
    requires e.Valid()
    modifies e.Repr()
    ensures e.Valid() && fresh(e.Repr() - old(e.Repr()))
    ensures done <= |calls| && |run| == done + 1
    ensures run[0] == old(e.State()) && IsExecRun(run)
    ensures done == |calls| ==> run[done] == e.State()
    ensures done < |calls| ==>
              && calls[done].ExecuteNode?
              && Undefines(run[done], calls[done].seqNo, calls[done].child, calls[done].outCap)
  {
    hide ExecStep, ValidExec, Undefines, Executor.Valid;
    done := 0;
    run := [e.State()];
    ValidNow(e);
    while done < |calls|
      invariant done <= |calls| && |run| == done + 1
      invariant e.Valid() && fresh(e.Repr() - old(e.Repr()))
      invariant run[0] == old(e.State()) && run[done] == e.State() && IsExecRun(run)
    {
      var undefined := Perform(e, calls[done]);
      if undefined {
        return;
      }
      ValidNow(e);
      done := done + 1;
      run := run + [e.State()];
    }
  }

  lemma ValidNow(e: Executor)
    requires e.Valid()
    ensures ValidExec(e.State())
  {
  }

  // ------------------------------------------------------------ runs

  // Between two moments of any sequence of calls with no plan begun in between, a live session
  // was live throughout and everything its calls keep holds; a dropped one stays dropped.
  lemma {:induction false} OneSession(run: seq<ExecSnap>, i: nat, j: nat)
    requires IsExecRun(run) && i < j < |run|
    ensures run[i].plans <= run[j].plans
    ensures run[i].plans == run[j].plans ==>
              || run[j].live.NoSession?
              || (run[i].live.Live? && run[j].live.nodes == run[i].live.nodes &&
                  Step(run[i].live.snap, run[j].live.snap))
    decreases j
  {
    assert ExecStep(run[j - 1], run[j - 1 + 1]);
    if i < j - 1 {
      OneSession(run, i, j - 1);
      if run[i].plans == run[j].plans && run[j].live.Live? {
        StepThen(run[i].live.snap, run[j - 1].live.snap, run[j].live.snap);
      }
    }
  }

  // So within a session no handle is issued twice and none is readable once gone, across every
  // call of the interface; and what is readable is always well shaped.
  lemma HandlesAreSafe(run: seq<ExecSnap>, i: nat, j: nat, h: nat)
    requires IsExecRun(run) && i < j < |run| && run[i].plans == run[j].plans
    requires run[i].live.Live? && h < run[i].live.snap.nextHandle && h !in run[i].live.snap.registry
    ensures run[j].live.NoSession? || (h !in run[j].live.snap.registry && h < run[j].live.snap.nextHandle)
    ensures run[j].live.Live? ==> forall t :: t in run[j].live.snap.registry ==> Shaped(run[j].live.snap.registry[t])
  {
    OneSession(run, i, j);
    assert ValidExec(run[j]);
  }

  // A failed call's session is beyond reach until the next plan, which starts at one again.
  lemma DroppedStaysDropped(run: seq<ExecSnap>, i: nat, j: nat)
    requires IsExecRun(run) && i < j < |run| && run[i].live.NoSession?
    ensures run[j].live.Live? ==> run[j].plans > run[i].plans
  {
    OneSession(run, i, j);
  }
}
