/**
 Pausing, resuming and undoing over the append-only audit log: a state cell per agent and a
 log must agree, while undo eligibility is recomputed from the first 2000 control rows.
*/
module AgentControl {
  import opened Wrappers
  import opened ControlTimeline

  /** How many control rows, oldest first, one undo decision looks at. */
  const WINDOW: nat := 2000

  datatype Control = Control(states: map<string, ControlState>, log: seq<AuditRow>)

  datatype Reply =
    | Applied(actionId: nat)
    | Idempotent
    | UnknownAgent | UnknownAction | NotReversible | MissingAgent | Superseded

  /** DomainRow stands for every other service that writes to the same audit log. */
  datatype Command =
    | Pause(agent: string)
    | Resume(agent: string)
    | Undo(id: nat)
    | DomainRow(owner: Option<string>, agentId: Option<string>, reversible: bool)

  predicate IsAgentId(g: string)
  {
    g == "research_agent" || g == "ai_sdr"
  }

  /** A missing control row means ACTIVE. */
  function StateOf(states: map<string, ControlState>, g: string): ControlState
  {
    if g in states then states[g] else Active
  }

  function Controls(log: seq<AuditRow>): seq<AuditRow>
  {
    if log == [] then []
    else Controls(log[..|log| - 1]) + (if IsControl(log[|log| - 1]) then [log[|log| - 1]] else [])
  }

  function Window(log: seq<AuditRow>): seq<AuditRow>
  {
    var controls := Controls(log);
    if |controls| <= WINDOW then controls else controls[..WINDOW]
  }

  // --------------------------------------------------------------- commands

  function SetState(c: Control, g: string, to: ControlState, action: Action, undoOf: Option<nat>): (Control, Reply)
  {
    var row := AuditRow(|c.log|, action, Some(g), Some(StateOf(c.states, g)), Some(to), undoOf, undoOf.None?);
    (Control(c.states[g := to], c.log + [row]), Applied(|c.log|))
  }

  function Toggle(c: Control, g: string, to: ControlState): (Control, Reply)
  {
    if !IsAgentId(g) then (c, UnknownAgent)
    else if StateOf(c.states, g) == to then (c, Idempotent)
    else SetState(c, g, to, if to == Paused then PauseLogged else ResumeLogged, None)
  }

  /** The state an undo of the row restores. */
  function RestoreOf(row: AuditRow): ControlState
  {
    if row.before.Some? then row.before.value else if row.action == PauseLogged then Active else Paused
  }

  function UndoRow(c: Control, id: nat): (Control, Reply)
  {
    if id >= |c.log| then (c, UnknownAction)
    else
      var row := c.log[id];
      if !IsMutation(row.action) || !row.reversible then (c, NotReversible)
      else if row.agentId.None? || !IsAgentId(row.agentId.value) then (c, MissingAgent)
      else if FirstUndo(Window(c.log), id).Some? then (c, Idempotent)
      else if Eligible(Window(c.log), row.agentId.value) != Some(id) then (c, Superseded)
      else SetState(c, row.agentId.value, RestoreOf(row), UndoLogged, Some(id))
  }

  function Step(c: Control, cmd: Command): (Control, Reply)
  {
    match cmd
    case Pause(g) => Toggle(c, g, Paused)
    case Resume(g) => Toggle(c, g, Active)
    case Undo(id) => UndoRow(c, id)
    case DomainRow(owner, agentId, reversible) =>
      (c.(log := c.log + [AuditRow(|c.log|, Domain(owner), agentId, None, None, None, reversible)]), Applied(|c.log|))
  }

  function Run(cmds: seq<Command>): Control
  {
    if cmds == [] then Control(map[], []) else Step(Run(cmds[..|cmds| - 1]), cmds[|cmds| - 1]).0
  }

  ghost predicate Reachable(c: Control)
  {
    exists cmds :: c == Run(cmds)
  }

  // ------------------------------------------------- one agent's control rows

  function RowsOf(t: seq<AuditRow>, g: string): seq<AuditRow>
  {
    if t == [] then []
    else RowsOf(t[..|t| - 1], g) + (if t[|t| - 1].agentId == Some(g) then [t[|t| - 1]] else [])
  }

  function ControlRows(c: Control, g: string): seq<AuditRow>
  {
    RowsOf(Controls(c.log), g)
  }

  function WindowRows(c: Control, g: string): seq<AuditRow>
  {
    RowsOf(Window(c.log), g)
  }

  /** What a reader of the agent's rows alone takes the state to be. */
  function Replay(rows: seq<AuditRow>): ControlState
  {
    if rows == [] || rows[|rows| - 1].after.None? then Active else rows[|rows| - 1].after.value
  }

  function Parity(n: nat): ControlState
  {
    if n % 2 == 1 then Paused else Active
  }

  /** Row k of an agent turns the state k rows left into the other one, and an undo names the row before it. */
  predicate Link(rows: seq<AuditRow>, k: nat)
    requires k < |rows|
  {
    var row := rows[k];
    && row.before == Some(Parity(k))
    && row.after == Some(Parity(k + 1))
    && (if row.action.UndoLogged?
        then k > 0 && row.undoOf == Some(rows[k - 1].id) && IsMutation(rows[k - 1].action)
        else IsMutation(row.action) && row.undoOf.None? && row.reversible)
  }

  ghost predicate Chain(rows: seq<AuditRow>)
  {
    forall k | 0 <= k < |rows| :: Link(rows, k)
  }

  // --------------------------------------------------------------- invariant

  ghost predicate Numbered(log: seq<AuditRow>)
  {
    forall i | 0 <= i < |log| :: log[i].id == i
  }

  predicate Owned(row: AuditRow)
  {
    row.agentId.Some? && IsAgentId(row.agentId.value)
  }

  ghost predicate OwnedControls(log: seq<AuditRow>)
  {
    forall i | 0 <= i < |log| && IsControl(log[i]) :: Owned(log[i])
  }

  ghost predicate Chained(t: seq<AuditRow>)
  {
    forall g :: Chain(RowsOf(t, g))
  }

  ghost predicate StatesFollow(c: Control)
  {
    forall g :: StateOf(c.states, g) == Parity(|ControlRows(c, g)|)
  }

  ghost predicate Inv(c: Control)
  {
    && Numbered(c.log)
    && OwnedControls(c.log)
    && Chained(Window(c.log))
    && (|Controls(c.log)| <= WINDOW ==> StatesFollow(c))
  }

  // ----------------------------------------------------------- row selections

  predicate Ascending(t: seq<AuditRow>)
  {
    forall i, j | 0 <= i < j < |t| :: t[i].id < t[j].id
  }

  lemma {:induction false} ControlsOfLog(log: seq<AuditRow>)
    requires Numbered(log)
    ensures forall row <- Controls(log) :: IsControl(row) && row.id < |log| && row == log[row.id]
    ensures Ascending(Controls(log))
  {
    if log == [] {
    } else {
      var n := |log| - 1;
      var before := Controls(log[..n]);
      ControlsOfLog(log[..n]);
      if IsControl(log[n]) {
        assert Controls(log) == before + [log[n]];
        forall i, j | 0 <= i < j < |before| + 1 ensures Controls(log)[i].id < Controls(log)[j].id {
          assert before[i] in before;
        }
      } else {
        assert Controls(log) == before;
      }
    }
  }

  lemma {:induction false} ControlsComplete(log: seq<AuditRow>, n: nat)
    requires n < |log| && IsControl(log[n])
    ensures log[n] in Controls(log)
  {
    if n < |log| - 1 { ControlsComplete(log[..|log| - 1], n); }
  }

  lemma {:induction false} RowsOfAgent(t: seq<AuditRow>, g: string)
    ensures forall row <- RowsOf(t, g) :: row in t && row.agentId == Some(g)
    ensures Ascending(t) ==> Ascending(RowsOf(t, g))
  {
    if t == [] {
    } else {
      var n := |t| - 1;
      var before := RowsOf(t[..n], g);
      RowsOfAgent(t[..n], g);
      assert forall row <- t[..n] :: row in t;
      if t[n].agentId == Some(g) && Ascending(t) {
        assert RowsOf(t, g) == before + [t[n]];
        forall i, j | 0 <= i < j < |before| + 1 ensures RowsOf(t, g)[i].id < RowsOf(t, g)[j].id {
          assert before[i] in t[..n];
        }
      }
    }
  }

  lemma {:induction false} RowsOfComplete(t: seq<AuditRow>, row: AuditRow, g: string)
    requires row in t && row.agentId == Some(g)
    ensures row in RowsOf(t, g)
  {
    if row != t[|t| - 1] {
      assert t == t[..|t| - 1] + [t[|t| - 1]];
      RowsOfComplete(t[..|t| - 1], row, g);
    }
  }

  lemma RowsOfNext(t: seq<AuditRow>, row: AuditRow, g: string)
    ensures RowsOf(t + [row], g) == if row.agentId == Some(g) then RowsOf(t, g) + [row] else RowsOf(t, g)
  {
    assert (t + [row])[..|t|] == t;
  }

  lemma ControlsNext(log: seq<AuditRow>, row: AuditRow)
    ensures Controls(log + [row]) == if IsControl(row) then Controls(log) + [row] else Controls(log)
    ensures Window(log + [row])
         == if IsControl(row) && |Controls(log)| < WINDOW then Window(log) + [row] else Window(log)
  {
    assert (log + [row])[..|log|] == log;
  }

  /** The window holds control rows of the log in order, each owned by a known agent. */
  lemma WindowOfLog(log: seq<AuditRow>)
    requires Numbered(log) && OwnedControls(log)
    ensures Ascending(Window(log))
    ensures forall row <- Window(log) :: row.id < |log| && row == log[row.id] && Owned(row)
  {
    ControlsOfLog(log);
  }

  // ------------------------------------------- the fold on a chain of toggles

  lemma {:induction false} EligibleIsPerAgent(t: seq<AuditRow>, g: string)
    ensures Eligible(t, g) == Eligible(RowsOf(t, g), g)
  {
    if t == [] {
    } else {
      var n := |t| - 1;
      EligibleIsPerAgent(t[..n], g);
      assert t == t[..n] + [t[n]];
      RowsOfNext(t[..n], t[n], g);
      EligibleNext(t[..n], t[n], g);
      EligibleNext(RowsOf(t[..n], g), t[n], g);
    }
  }

  predicate EndsInMutation(rows: seq<AuditRow>)
  {
    |rows| > 0 && IsMutation(rows[|rows| - 1].action)
  }

  /** On a chain the fold answers: the last row, unless that is an undo. */
  lemma EligibleIsLast(t: seq<AuditRow>, g: string)
    requires IsAgentId(g) && Chain(RowsOf(t, g))
    ensures Eligible(t, g) == if EndsInMutation(RowsOf(t, g)) then Some(RowsOf(t, g)[|RowsOf(t, g)| - 1].id) else None
  {
    EligibleIsPerAgent(t, g);
    RowsOfAgent(t, g);
    EligibleOfChain(RowsOf(t, g), g);
  }

  lemma EligibleOfChain(rows: seq<AuditRow>, g: string)
    requires g != "" && Chain(rows) && forall row <- rows :: row.agentId == Some(g)
    ensures Eligible(rows, g) == if EndsInMutation(rows) then Some(rows[|rows| - 1].id) else None
  {
    if rows != [] {
      var n := |rows| - 1;
      assert Link(rows, n);
      assert rows == rows[..n] + [rows[n]] && rows[n] in rows;
      EligibleNext(rows[..n], rows[n], g);
      if rows[n].action.UndoLogged? {
        assert rows[..n] == rows[..n - 1] + [rows[n - 1]] && rows[n - 1] in rows;
        EligibleNext(rows[..n - 1], rows[n - 1], g);
      }
    }
  }

  /** On chains a row is undone exactly when the next row of its agent is an undo. */
  lemma UndoneIsNext(t: seq<AuditRow>, g: string, k: nat)
    requires Chained(t) && Ascending(t) && k < |RowsOf(t, g)| && forall row <- t :: Owned(row)
    ensures FirstUndo(t, RowsOf(t, g)[k].id).Some? <==> k + 1 < |RowsOf(t, g)| && RowsOf(t, g)[k + 1].action.UndoLogged?
  {
    var rows := RowsOf(t, g);
    var x := rows[k].id;
    RowsOfAgent(t, g);
    assert rows[k] in rows;
    if k + 1 < |rows| && rows[k + 1].action.UndoLogged? {
      assert Link(rows, k + 1) && rows[k + 1] in rows;
      var j :| 0 <= j < |t| && t[j] == rows[k + 1];
      assert Undoes(t[j], x);
    } else if FirstUndo(t, x).Some? {
      UndoFollows(t, g, k, t[FirstUndo(t, x).value]);
    }
  }

  lemma UndoFollows(t: seq<AuditRow>, g: string, k: nat, u: AuditRow)
    requires Chained(t) && Ascending(t) && k < |RowsOf(t, g)| && u in t && Owned(u)
    requires Undoes(u, RowsOf(t, g)[k].id)
    ensures k + 1 < |RowsOf(t, g)| && RowsOf(t, g)[k + 1] == u
  {
    var rows, h := RowsOf(t, g), u.agentId.value;
    var others := RowsOf(t, h);
    UndoNamesItsPredecessor(t, u, h);
    var p :| 0 < p < |others| && others[p] == u && Some(others[p - 1].id) == u.undoOf;
    RowsOfAgent(t, g);
    RowsOfAgent(t, h);
    assert rows[k] in rows && others[p - 1] in others;
    SameIdSameRow(t, others[p - 1], rows[k]);
    assert h == g;
    SameIdSamePlace(rows, p - 1, k);
  }

  lemma SameIdSamePlace(t: seq<AuditRow>, i: nat, j: nat)
    requires Ascending(t) && i < |t| && j < |t| && t[i].id == t[j].id
    ensures i == j
  {}

  lemma SameIdSameRow(t: seq<AuditRow>, a: AuditRow, b: AuditRow)
    requires Ascending(t) && a in t && b in t && a.id == b.id
    ensures a == b
  {
    var i :| 0 <= i < |t| && t[i] == a;
    var j :| 0 <= j < |t| && t[j] == b;
    SameIdSamePlace(t, i, j);
  }

  lemma UndoNamesItsPredecessor(t: seq<AuditRow>, u: AuditRow, h: string)
    requires Chained(t) && Ascending(t) && u in t && u.action.UndoLogged? && u.agentId == Some(h)
    ensures exists p | 0 < p < |RowsOf(t, h)| :: RowsOf(t, h)[p] == u && Some(RowsOf(t, h)[p - 1].id) == u.undoOf
  {
    RowsOfComplete(t, u, h);
    var rows := RowsOf(t, h);
    var p :| 0 <= p < |rows| && rows[p] == u;
    assert Link(rows, p);
  }

  // -------------------------------------------- every command keeps the invariant

  /** The row an agent's chain continues with. */
  predicate Continues(rows: seq<AuditRow>, row: AuditRow)
  {
    && row.before == Some(Parity(|rows|))
    && row.after == Some(Parity(|rows| + 1))
    && (if row.action.UndoLogged? then EndsInMutation(rows) && row.undoOf == Some(rows[|rows| - 1].id)
        else IsMutation(row.action) && row.undoOf.None? && row.reversible)
  }

  lemma ChainNext(rows: seq<AuditRow>, row: AuditRow)
    requires Chain(rows) && Continues(rows, row)
    ensures Chain(rows + [row])
  {
    forall k | 0 <= k < |rows| + 1 ensures Link(rows + [row], k) {
      if k < |rows| { assert Link(rows, k); }
    }
  }

  lemma ChainedNext(t: seq<AuditRow>, row: AuditRow, g: string)
    requires Chained(t) && row.agentId == Some(g) && Continues(RowsOf(t, g), row)
    ensures Chained(t + [row])
  {
    forall h ensures Chain(RowsOf(t + [row], h)) {
      RowsOfNext(t, row, h);
      if h == g { ChainNext(RowsOf(t, g), row); }
    }
  }

  lemma StatesFollowNext(c: Control, row: AuditRow, g: string, to: ControlState)
    requires StatesFollow(c) && IsControl(row) && row.agentId == Some(g) && to == Parity(|ControlRows(c, g)| + 1)
    ensures StatesFollow(Control(c.states[g := to], c.log + [row]))
  {
    var c' := Control(c.states[g := to], c.log + [row]);
    ControlsNext(c.log, row);
    forall h ensures StateOf(c'.states, h) == Parity(|ControlRows(c', h)|) {
      RowsOfNext(Controls(c.log), row, h);
      assert StateOf(c.states, h) == Parity(|ControlRows(c, h)|);
    }
  }

  /** A new control row of agent g that turns g's state over keeps the invariant. */
  lemma SetStateKeeps(c: Control, g: string, to: ControlState, action: Action, undoOf: Option<nat>)
    requires Inv(c) && IsAgentId(g) && !action.Domain?
    requires |Controls(c.log)| < WINDOW ==> Continues(WindowRows(c, g), SetState(c, g, to, action, undoOf).0.log[|c.log|])
    ensures Inv(SetState(c, g, to, action, undoOf).0)
  {
    var c' := SetState(c, g, to, action, undoOf).0;
    var row := c'.log[|c.log|];
    ControlsNext(c.log, row);
    if |Controls(c.log)| < WINDOW {
      ChainedNext(Window(c.log), row, g);
      StatesFollowNext(c, row, g, to);
    }
  }

  /** Where row `id` stands among its agent's rows in the window. */
  ghost predicate StandsAt(c: Control, id: nat, g: string, k: nat)
  {
    k < |WindowRows(c, g)| && WindowRows(c, g)[k].id == id
  }

  lemma FindPlace(c: Control, id: nat) returns (k: nat)
    requires Inv(c) && id < |c.log| && Owned(c.log[id])
    requires c.log[id] in Window(c.log)
    ensures StandsAt(c, id, c.log[id].agentId.value, k)
    ensures WindowRows(c, c.log[id].agentId.value)[k] == c.log[id]
  {
    var g := c.log[id].agentId.value;
    RowsOfComplete(Window(c.log), c.log[id], g);
    k :| 0 <= k < |WindowRows(c, g)| && WindowRows(c, g)[k] == c.log[id];
  }

  /** The last row of agent g inside the window is the pause or resume `id`. */
  predicate LatestInWindow(c: Control, g: string, id: nat)
  {
    EndsInMutation(WindowRows(c, g)) && WindowRows(c, g)[|WindowRows(c, g)| - 1].id == id
  }

  lemma LatestIsInLog(c: Control, g: string, id: nat)
    requires Inv(c) && LatestInWindow(c, g, id)
    ensures id < |c.log| && c.log[id] == WindowRows(c, g)[|WindowRows(c, g)| - 1]
    ensures IsMutation(c.log[id].action) && c.log[id].reversible && c.log[id].agentId == Some(g) && IsAgentId(g)
  {
    var rows := WindowRows(c, g);
    WindowOfLog(c.log);
    RowsOfAgent(Window(c.log), g);
    assert rows[|rows| - 1] in rows;
    assert Link(rows, |rows| - 1);
  }

  /** An undo applies exactly to the agent's last control row inside the window. */
  lemma UndoAppliesToLatest(c: Control, id: nat)
    requires Inv(c)
    ensures UndoRow(c, id).1.Applied? <==> exists g :: LatestInWindow(c, g, id)
    ensures UndoRow(c, id).1.Applied? ==> LatestInWindow(c, c.log[id].agentId.value, id)
  {
    if UndoRow(c, id).1.Applied? {
      EligibleIsLast(Window(c.log), c.log[id].agentId.value);
      assert LatestInWindow(c, c.log[id].agentId.value, id);
    }
    forall g | LatestInWindow(c, g, id) ensures UndoRow(c, id).1.Applied? {
      LatestCanBeUndone(c, g, id);
    }
  }

  lemma LatestCanBeUndone(c: Control, g: string, id: nat)
    requires Inv(c) && LatestInWindow(c, g, id)
    ensures UndoRow(c, id).1.Applied?
  {
    WindowOfLog(c.log);
    LatestIsInLog(c, g, id);
    EligibleIsLast(Window(c.log), g);
    UndoneIsNext(Window(c.log), g, |WindowRows(c, g)| - 1);
    assert FirstUndo(Window(c.log), id).None?;
  }

  lemma UndoKeeps(c: Control, id: nat)
    requires Inv(c)
    ensures Inv(UndoRow(c, id).0)
  {
    if UndoRow(c, id).1.Applied? {
      UndoAppliesToLatest(c, id);
      var g := c.log[id].agentId.value;
      LatestIsInLog(c, g, id);
      assert Link(WindowRows(c, g), |WindowRows(c, g)| - 1);
      SetStateKeeps(c, g, RestoreOf(c.log[id]), UndoLogged, Some(id));
    }
  }

  lemma ToggleKeeps(c: Control, g: string, to: ControlState)
    requires Inv(c)
    ensures Inv(Toggle(c, g, to).0)
  {
    if Toggle(c, g, to).1.Applied? {
      SetStateKeeps(c, g, to, if to == Paused then PauseLogged else ResumeLogged, None);
    }
  }

  lemma DomainKeeps(c: Control, owner: Option<string>, agentId: Option<string>, reversible: bool)
    requires Inv(c)
    ensures Inv(Step(c, DomainRow(owner, agentId, reversible)).0)
  {
    var c1 := Step(c, DomainRow(owner, agentId, reversible)).0;
    var row := c1.log[|c.log|];
    assert c1 == c.(log := c.log + [row]) && !IsControl(row) && row.id == |c.log|;
    hide Window, Controls, RowsOf, StateOf, Step, Chained, IsControl;
    ControlsNext(c.log, row);
    assert StatesFollow(c) ==> StatesFollow(c1);
  }

  lemma StepKeeps(c: Control, cmd: Command)
    requires Inv(c)
    ensures Inv(Step(c, cmd).0)
  {
    hide Inv;
    match cmd
    case Pause(g) => ToggleKeeps(c, g, Paused);
    case Resume(g) => ToggleKeeps(c, g, Active);
    case Undo(id) => UndoKeeps(c, id);
    case DomainRow(owner, agentId, reversible) => DomainKeeps(c, owner, agentId, reversible);
  }

  lemma {:induction false} RunKeeps(cmds: seq<Command>)
    ensures Inv(Run(cmds))
  {
    if cmds == [] {
      assert forall g :: RowsOf([], g) == [];
    } else {
      RunKeeps(cmds[..|cmds| - 1]);
      StepKeeps(Run(cmds[..|cmds| - 1]), cmds[|cmds| - 1]);
    }
  }

  lemma ReachableInv(c: Control)
    requires Reachable(c)
    ensures Inv(c)
  {
    var cmds :| c == Run(cmds);
    RunKeeps(cmds);
  }
}
