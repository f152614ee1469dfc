/** What undo, the state cell and the history page agree on, over every run of commands. */
module AgentControlTheorems {
  import opened Wrappers
  import opened ControlTimeline
  import opened AgentControl

  // ---------------------------------------------------------- pause and resume

  function Toggling(g: string, paused: bool): Command
  {
    if paused then Pause(g) else Resume(g)
  }

  /** The state is the wanted one already; an agent nobody ever touched is active. */
  predicate IsAlready(c: Control, g: string, paused: bool)
  {
    if paused then g in c.states && c.states[g] == Paused else g !in c.states || c.states[g] == Active
  }

  /** What one applied command writes: the cell of g, and one reversible row saying from what to what. */
  predicate TurnedOver(c: Control, c1: Control, g: string, paused: bool)
  {
    var row := AuditRow(|c.log|, if paused then PauseLogged else ResumeLogged, Some(g), Some(if paused then Active else Paused),
                        Some(if paused then Paused else Active), None, true);
    c1 == Control(c.states[g := if paused then Paused else Active], c.log + [row])
  }

  /**
   Pause and resume know two agents. For one of them the command is idempotent exactly when the
   agent is in the wanted state already; otherwise it turns the state over and logs it.
  */
  lemma TogglesExactlyWhen(c: Control, g: string, paused: bool)
    ensures g !in {"research_agent", "ai_sdr"} ==> Step(c, Toggling(g, paused)) == (c, UnknownAgent)
    ensures g in {"research_agent", "ai_sdr"} && IsAlready(c, g, paused) ==> Step(c, Toggling(g, paused)) == (c, Idempotent)
    ensures g in {"research_agent", "ai_sdr"} && !IsAlready(c, g, paused) ==>
      TurnedOver(c, Step(c, Toggling(g, paused)).0, g, paused) && Step(c, Toggling(g, paused)).1 == Applied(|c.log|)
  {}

  /** So a repeated pause changes nothing, and a resume after it leaves the agent active again. */
  lemma PauseTwiceThenResume(c: Control, g: string)
    requires g in {"research_agent", "ai_sdr"}
    ensures var c1 := Step(c, Pause(g)).0; var c2 := Step(c1, Resume(g)).0;
      && StateOf(c1.states, g) == Paused && Step(c1, Pause(g)) == (c1, Idempotent)
      && StateOf(c2.states, g) == Active && Step(c2, Resume(g)) == (c2, Idempotent)
      && forall h | h != g :: StateOf(c2.states, h) == StateOf(c.states, h)
  {}

  // -------------------------------------------------------- state and log agree

  /** Every row starts where the rows before it ended, and the cell is where all of them end. */
  ghost predicate Replays(c: Control, g: string)
  {
    && StateOf(c.states, g) == Replay(ControlRows(c, g))
    && (forall k | 0 <= k < |ControlRows(c, g)| :: Continuous(ControlRows(c, g), k))
  }

  predicate Continuous(rows: seq<AuditRow>, k: nat)
    requires k < |rows|
  {
    rows[k].before == Some(Replay(rows[..k])) && rows[k].after.Some?
  }

  /** The row says what happened to its agent's cell; a row of another service leaves the cells alone. */
  predicate Records(c: Control, c1: Control, row: AuditRow)
  {
    if IsControl(row) then
      && row.agentId.Some? && row.after.Some?
      && row.before == Some(StateOf(c.states, row.agentId.value))
      && c1.states == c.states[row.agentId.value := row.after.value]
    else c1.states == c.states
  }

  lemma StepRecords(c: Control, cmd: Command)
    ensures var c1 := Step(c, cmd).0;
      c1 == c || (|c1.log| == |c.log| + 1 && c1.log == c.log + [c1.log[|c.log|]] && Records(c, c1, c1.log[|c.log|]))
  {
    hide Controls, FirstUndo, Eligible, Window;
    if cmd.Undo? {
      UndoRecords(c, cmd.id);
    }
  }

  lemma UndoRecords(c: Control, id: nat)
    ensures var c1 := UndoRow(c, id).0;
      c1 == c || (|c1.log| == |c.log| + 1 && c1.log == c.log + [c1.log[|c.log|]] && Records(c, c1, c1.log[|c.log|]))
  {
    hide Controls, FirstUndo, Eligible, Window;
  }

  lemma StepReplays(c: Control, cmd: Command, g: string)
    requires Replays(c, g)
    ensures Replays(Step(c, cmd).0, g)
  {
    hide Step, Controls, RowsOf;
    var c1 := Step(c, cmd).0;
    StepRecords(c, cmd);
    if c1 != c {
      var row := c1.log[|c.log|];
      ControlsNext(c.log, row);
      RowsOfNext(Controls(c.log), row, g);
      RowsReplayNext(c, c1, row, g);
    }
  }

  lemma RowsReplayNext(c: Control, c1: Control, row: AuditRow, g: string)
    requires Replays(c, g)
    requires ControlRows(c1, g)
      == if IsControl(row) && row.agentId == Some(g) then ControlRows(c, g) + [row] else ControlRows(c, g)
    requires Records(c, c1, row)
    ensures Replays(c1, g)
  {
    hide ControlRows, IsControl;
    var rows, rows1 := ControlRows(c, g), ControlRows(c1, g);
    forall k | 0 <= k < |rows1| ensures Continuous(rows1, k) {
      if k < |rows| {
        assert Continuous(rows, k) && rows1[..k] == rows[..k];
      } else {
        assert rows1[..k] == rows;
      }
    }
  }

  lemma {:induction false} RunReplays(cmds: seq<Command>, g: string)
    ensures Replays(Run(cmds), g)
  {
    if cmds == [] {
    } else {
      RunReplays(cmds[..|cmds| - 1], g);
      StepReplays(Run(cmds[..|cmds| - 1]), cmds[|cmds| - 1], g);
    }
  }

  /** In every reachable state, however long the log, an agent's state is the replay of its rows, each starting where the last ended. */
  lemma StateIsReplay(c: Control, g: string)
    requires Reachable(c)
    ensures StateOf(c.states, g) == Replay(ControlRows(c, g))
    ensures forall k | 0 <= k < |ControlRows(c, g)| :: ControlRows(c, g)[k].before == Some(Replay(ControlRows(c, g)[..k]))
  {
    var cmds :| c == Run(cmds);
    RunReplays(cmds, g);
    hide Run, ControlRows;
    forall k | 0 <= k < |ControlRows(c, g)| ensures ControlRows(c, g)[k].before == Some(Replay(ControlRows(c, g)[..k])) {
      assert Continuous(ControlRows(c, g), k);
    }
  }

  /** Within the window an agent is PAUSED exactly after an odd number of rows. */
  lemma PausedAfterOdd(c: Control, g: string)
    requires Reachable(c) && |Controls(c.log)| <= WINDOW
    ensures StateOf(c.states, g) == Paused <==> |ControlRows(c, g)| % 2 == 1
  {
    ReachableInv(c);
    hide Controls, RowsOf, Chained;
    assert StateOf(c.states, g) == Parity(|ControlRows(c, g)|);
  }

  /** Within the window every control row turns its agent's state over, starting where the row before it ended. */
  lemma EveryRowToggles(c: Control, g: string, k: nat)
    requires Reachable(c) && |Controls(c.log)| <= WINDOW && k < |ControlRows(c, g)|
    ensures var rows := ControlRows(c, g);
      && rows[k].before == Some(Replay(rows[..k]))
      && rows[k].after.Some?
      && rows[k].after != rows[k].before
  {
    ReachableInv(c);
    hide Controls, RowsOf;
    var rows := ControlRows(c, g);
    assert Chain(RowsOf(Window(c.log), g));
    assert Link(rows, k);
    if k > 0 { assert Link(rows, k - 1); }
  }

  // ------------------------------------------------------------ undo is exact

  /** The agent's newest control row. */
  ghost predicate Newest(c: Control, g: string, id: nat)
  {
    ControlRows(c, g) != [] && ControlRows(c, g)[|ControlRows(c, g)| - 1].id == id
  }

  /** Within the window an undo that applies names its agent's newest row and restores the state from just before it. */
  lemma UndoInvertsExactly(c: Control, id: nat)
    requires Reachable(c) && |Controls(c.log)| <= WINDOW && UndoRow(c, id).1.Applied?
    ensures var g, rows := c.log[id].agentId.value, ControlRows(c, c.log[id].agentId.value);
      && Newest(c, g, id)
      && StateOf(UndoRow(c, id).0.states, g) == Replay(rows[..|rows| - 1])
      && (forall h | h != g :: StateOf(UndoRow(c, id).0.states, h) == StateOf(c.states, h))
  {
    ReachableInv(c);
    UndoAppliesToLatest(c, id);
    var g := c.log[id].agentId.value;
    LatestIsInLog(c, g, id);
    EveryRowToggles(c, g, |ControlRows(c, g)| - 1);
  }

  /** Pausing and undoing that pause leaves every agent as it was; a second undo changes nothing. */
  lemma PauseThenUndo(c: Control, g: string)
    requires Reachable(c) && |Controls(c.log)| < WINDOW && Step(c, Pause(g)).1.Applied?
    ensures var paused, id := Step(c, Pause(g)).0, |c.log|;
      var (undone, reply) := Step(paused, Undo(id));
      && reply.Applied?
      && (forall h :: StateOf(undone.states, h) == StateOf(c.states, h))
      && (|Controls(c.log)| + 2 <= WINDOW ==> Step(undone, Undo(id)) == (undone, Idempotent))
  {
    ReachableInv(c);
    PauseCanBeUndone(c, g);
    UndoneStates(c, g);
    if |Controls(c.log)| + 2 <= WINDOW { UndoAgain(Step(c, Pause(g)).0, |c.log|); }
  }

  lemma UndoneStates(c: Control, g: string)
    requires Step(c, Pause(g)).1.Applied? && UndoRow(Step(c, Pause(g)).0, |c.log|).1.Applied?
    ensures forall h :: StateOf(UndoRow(Step(c, Pause(g)).0, |c.log|).0.states, h) == StateOf(c.states, h)
  {
    var paused := Step(c, Pause(g)).0;
    assert paused == SetState(c, g, Paused, PauseLogged, None).0;
    assert paused.log[|c.log|].before == Some(StateOf(c.states, g));
    assert UndoRow(paused, |c.log|).0 == SetState(paused, g, StateOf(c.states, g), UndoLogged, Some(|c.log|)).0;
  }

  lemma PauseCanBeUndone(c: Control, g: string)
    requires Inv(c) && |Controls(c.log)| < WINDOW && Step(c, Pause(g)).1.Applied?
    ensures var paused := Step(c, Pause(g)).0;
      |Controls(paused.log)| == |Controls(c.log)| + 1 && UndoRow(paused, |c.log|).1.Applied?
  {
    var paused, id := Step(c, Pause(g)).0, |c.log|;
    StepKeeps(c, Pause(g));
    ControlsNext(c.log, paused.log[id]);
    RowsOfNext(Window(c.log), paused.log[id], g);
    assert LatestInWindow(paused, g, id);
    LatestCanBeUndone(paused, g, id);
  }

  /** An undo can be applied a second time exactly when its own row fell outside the window. */
  lemma UndoRepeatsExactlyWhen(c: Control, id: nat)
    requires UndoRow(c, id).1.Applied?
    ensures UndoRow(UndoRow(c, id).0, id).1.Applied? <==> |Controls(c.log)| >= 2000
  {
    ControlsNext(c.log, UndoRow(c, id).0.log[|c.log|]);
    if |Controls(c.log)| < WINDOW { UndoAgain(c, id); }
  }

  /** An undo that was recorded inside the window is idempotent from then on. */
  lemma UndoAgain(c: Control, id: nat)
    requires UndoRow(c, id).1.Applied? && |Controls(c.log)| < WINDOW
    ensures var undone := UndoRow(c, id).0;
      UndoRow(undone, id) == (undone, Idempotent)
  {
    var undone := UndoRow(c, id).0;
    var row := undone.log[|c.log|];
    ControlsNext(c.log, row);
    assert |Window(c.log)| < WINDOW;
    hide Controls, FirstUndo, Eligible;
    FirstUndoNext(Window(c.log), row, id);
    hide Window;
    assert Window(undone.log) == Window(c.log) + [row];
  }

  /** Within the window no pause or resume is undone by two different rows. */
  lemma NothingIsUndoneTwice(c: Control, i: nat, j: nat)
    requires Reachable(c) && |Controls(c.log)| <= WINDOW && i < j < |c.log|
    requires c.log[i].action.UndoLogged? && c.log[j].action.UndoLogged?
    ensures c.log[i].undoOf.Some? && c.log[i].undoOf != c.log[j].undoOf
  {
    ReachableInv(c);
    WindowOfLog(c.log);
    var t := Window(c.log);
    ControlsComplete(c.log, i);
    ControlsComplete(c.log, j);
    var x := PrecedingRow(c, c.log[i]);
    if c.log[i].undoOf == c.log[j].undoOf {
      var g := c.log[x].agentId.value;
      var k := FindPlace(c, x);
      UndoFollows(t, g, k, c.log[i]);
      UndoFollows(t, g, k, c.log[j]);
      assert false;
    }
  }

  /** An undo row inside the window names a row inside the window. */
  lemma PrecedingRow(c: Control, u: AuditRow) returns (x: nat)
    requires Inv(c) && u in Window(c.log) && u.action.UndoLogged?
    ensures x < |c.log| && u.undoOf == Some(x) && c.log[x] in Window(c.log) && Owned(c.log[x])
  {
    WindowOfLog(c.log);
    var h := u.agentId.value;
    UndoNamesItsPredecessor(Window(c.log), u, h);
    var p :| 0 < p < |WindowRows(c, h)| && WindowRows(c, h)[p] == u && Some(WindowRows(c, h)[p - 1].id) == u.undoOf;
    RowsOfAgent(Window(c.log), h);
    x := WindowRows(c, h)[p - 1].id;
    assert WindowRows(c, h)[p - 1] in WindowRows(c, h);
  }

  // ------------------------------------------------ every answer undo can give

  /** For a pause or resume inside the window: applied if last, idempotent if the next row undid it, superseded otherwise. */
  lemma UndoAnswer(c: Control, id: nat, k: nat)
    requires Reachable(c) && id < |c.log| && c.log[id].agentId.Some? && IsMutation(c.log[id].action)
    requires StandsAt(c, id, c.log[id].agentId.value, k)
    ensures var rows := WindowRows(c, c.log[id].agentId.value);
      UndoRow(c, id).1 == if k + 1 == |rows| then Applied(|c.log|)
                          else if rows[k + 1].action.UndoLogged? then Idempotent
                          else Superseded
  {
    ReachableInv(c);
    WindowOfLog(c.log);
    var g := c.log[id].agentId.value;
    RowsOfAgent(Window(c.log), g);
    hide Controls, Window, RowsOf, FirstUndo, Eligible, StateOf;
    var rows := WindowRows(c, g);
    assert rows[k] in rows;
    assert Link(rows, k);
    UndoneIsNext(Window(c.log), g, k);
    EligibleIsLast(Window(c.log), g);
    LastIsOnly(rows, k);
  }

  lemma LastIsOnly(rows: seq<AuditRow>, k: nat)
    requires Ascending(rows) && k < |rows|
    ensures rows[|rows| - 1].id == rows[k].id <==> k + 1 == |rows|
  {}

  /** A pause or resume the window does not reach can never be undone. */
  lemma BeyondTheWindow(c: Control, id: nat)
    requires Reachable(c) && id < |c.log| && IsMutation(c.log[id].action) && c.log[id] !in Window(c.log)
    ensures c.log[id].reversible ==> UndoRow(c, id).1 == Superseded
  {
    ReachableInv(c);
    WindowOfLog(c.log);
    if c.log[id].reversible {
      ControlsOfLog(c.log);
      if FirstUndo(Window(c.log), id).Some? {
        var x := PrecedingRow(c, Window(c.log)[FirstUndo(Window(c.log), id).value]);
        assert false;
      }
      if UndoRow(c, id).1.Applied? {
        UndoAppliesToLatest(c, id);
        LatestIsInWindow(c, c.log[id].agentId.value, id);
        assert false;
      }
    }
  }

  lemma LatestIsInWindow(c: Control, g: string, id: nat)
    requires Inv(c) && LatestInWindow(c, g, id)
    ensures id < |c.log| && c.log[id] in Window(c.log)
  {
    LatestIsInLog(c, g, id);
    RowsOfAgent(Window(c.log), g);
    assert WindowRows(c, g)[|WindowRows(c, g)| - 1] in WindowRows(c, g);
  }

  // ----------------------------------------------------- where the window ends

  lemma {:induction false} ControlsPrefix(log: seq<AuditRow>, n: nat)
    requires n <= |log|
    ensures Controls(log[..n]) <= Controls(log)
  {
    if n < |log| {
      ControlsPrefix(log[..|log| - 1], n);
      assert log[..|log| - 1][..n] == log[..n];
    } else {
      assert log[..n] == log;
    }
  }

  lemma {:induction false} RowsOfPrefix(t: seq<AuditRow>, n: nat, g: string)
    requires n <= |t|
    ensures RowsOf(t[..n], g) <= RowsOf(t, g)
  {
    if n < |t| {
      RowsOfPrefix(t[..|t| - 1], n, g);
      assert t[..|t| - 1][..n] == t[..n];
    } else {
      assert t[..n] == t;
    }
  }

  lemma WindowRowsPrefix(c: Control, g: string)
    ensures WindowRows(c, g) <= ControlRows(c, g)
  {
    var controls := Controls(c.log);
    if |controls| > WINDOW { RowsOfPrefix(controls, WINDOW, g); }
  }

  lemma PlaceInControls(log: seq<AuditRow>, id: nat)
    requires id < |log| && IsControl(log[id])
    ensures |Controls(log[..id])| < |Controls(log)| && Controls(log)[|Controls(log[..id])|] == log[id]
  {
    ControlsPrefix(log, id + 1);
    assert log[..id + 1] == log[..id] + [log[id]];
    ControlsNext(log[..id], log[id]);
    assert Controls(log[..id + 1])[|Controls(log[..id])|] == log[id];
  }

  /** A control row is inside the window exactly when fewer than 2000 control rows precede it. */
  lemma InsideTheWindow(log: seq<AuditRow>, id: nat)
    requires Numbered(log) && id < |log| && IsControl(log[id])
    ensures log[id] in Window(log) <==> |Controls(log[..id])| < WINDOW
  {
    PlaceInControls(log, id);
    ControlsOfLog(log);
    InTheFirst(Controls(log), |Controls(log[..id])|, WINDOW);
  }

  lemma InTheFirst(t: seq<AuditRow>, n: nat, limit: nat)
    requires Ascending(t) && n < |t|
    ensures t[n] in (if |t| <= limit then t else t[..limit]) <==> n < limit || |t| <= limit
  {
    if n < limit < |t| {
      assert t[..limit][n] == t[n];
    }
  }

  /** The agent's newest row, a pause or resume, can be undone exactly when fewer than 2000 control rows precede it. */
  lemma NewestCanBeUndone(c: Control, g: string, id: nat)
    requires Reachable(c) && EndsInMutation(ControlRows(c, g)) && Newest(c, g, id)
    ensures id < |c.log|
    ensures UndoRow(c, id).1.Applied? <==> |Controls(c.log[..id])| < 2000
  {
    ReachableInv(c);
    var rows := ControlRows(c, g);
    ControlsOfLog(c.log);
    RowsOfAgent(Controls(c.log), g);
    assert rows[|rows| - 1] in rows;
    InsideTheWindow(c.log, id);
    hide Window, Controls, FirstUndo, Eligible, Reachable, Inv;
    if c.log[id] in Window(c.log) {
      WindowOfLog(c.log);
      var k := FindPlace(c, id);
      WindowRowsPrefix(c, g);
      SameIdSamePlace(rows, k, |rows| - 1);
      LatestCanBeUndone(c, g, id);
    } else {
      BeyondTheWindow(c, id);
    }
  }

  /** An undo that applies names the agent's newest row exactly when the window holds all the agent's rows. */
  lemma AppliedUndoIsNewest(c: Control, id: nat)
    requires Reachable(c) && UndoRow(c, id).1.Applied?
    ensures var g := c.log[id].agentId.value;
      Newest(c, g, id) <==> WindowRows(c, g) == ControlRows(c, g)
  {
    ReachableInv(c);
    UndoAppliesToLatest(c, id);
    var g := c.log[id].agentId.value;
    WindowRowsPrefix(c, g);
    ControlsOfLog(c.log);
    RowsOfAgent(Controls(c.log), g);
    if Newest(c, g, id) {
      SameIdSamePlace(ControlRows(c, g), |WindowRows(c, g)| - 1, |ControlRows(c, g)| - 1);
    }
  }

  // ------------------------------------------------------- the failing family

  /** n alternating pauses and resumes of the AI SDR. */
  function Alternate(n: nat): seq<Command>
  {
    if n == 0 then [] else Alternate(n - 1) + [if n % 2 == 1 then Pause("ai_sdr") else Resume("ai_sdr")]
  }

  function AlternateRow(i: nat): AuditRow
  {
    AuditRow(i, if i % 2 == 0 then PauseLogged else ResumeLogged, Some("ai_sdr"), Some(Parity(i)), Some(Parity(i + 1)), None, true)
  }

  ghost predicate Alternated(c: Control, n: nat)
  {
    && |c.log| == n
    && (forall i | 0 <= i < n :: c.log[i] == AlternateRow(i))
    && StateOf(c.states, "ai_sdr") == Parity(n)
  }

  lemma AlternateStep(c: Control, n: nat)
    requires Alternated(c, n)
    ensures Alternated(Step(c, if n % 2 == 0 then Pause("ai_sdr") else Resume("ai_sdr")).0, n + 1)
  {}

  lemma {:induction false} AlternateRun(n: nat)
    ensures Alternated(Run(Alternate(n)), n)
  {
    hide Step, Alternated, Run, Alternate;
    if n == 0 {
      EmptyAlternated();
    } else {
      AlternateRun(n - 1);
      AlternateStep(Run(Alternate(n - 1)), n - 1);
      AlternateNext(n - 1);
      RunNext(Alternate(n - 1), if (n - 1) % 2 == 0 then Pause("ai_sdr") else Resume("ai_sdr"));
    }
  }

  lemma EmptyAlternated()
    ensures Alternated(Run(Alternate(0)), 0)
  {
    hide Step;
  }

  lemma AlternateNext(n: nat)
    ensures Alternate(n + 1) == Alternate(n) + [if n % 2 == 0 then Pause("ai_sdr") else Resume("ai_sdr")]
  {}

  lemma RunNext(cmds: seq<Command>, cmd: Command)
    ensures Run(cmds + [cmd]) == Step(Run(cmds), cmd).0
  {
    hide Step;
    assert (cmds + [cmd])[..|cmds|] == cmds;
  }

  lemma {:induction false} AllControls(log: seq<AuditRow>)
    requires forall row <- log :: IsControl(row)
    ensures Controls(log) == log
  {
    if log == [] {
    } else {
      AllControls(log[..|log| - 1]);
      assert log == log[..|log| - 1] + [log[|log| - 1]];
    }
  }

  lemma {:induction false} AllRowsOf(t: seq<AuditRow>, g: string)
    requires forall row <- t :: row.agentId == Some(g)
    ensures RowsOf(t, g) == t
  {
    if t == [] {
    } else {
      AllRowsOf(t[..|t| - 1], g);
      assert t == t[..|t| - 1] + [t[|t| - 1]];
    }
  }

  /**
   Past the window the promise fails: after 2002 alternating commands the agent is ACTIVE and
   its newest row cannot be undone, while row 1999 can, twice, and pauses the agent again.
  */
  lemma UndoOverwritesNewerIntent()
    ensures var c := Run(Alternate(WINDOW + 2));
      var (once, r1) := UndoRow(c, WINDOW - 1);
      var (_, r2) := UndoRow(once, WINDOW - 1);
      && StateOf(c.states, "ai_sdr") == Active
      && UndoRow(c, WINDOW + 1).1 == Superseded
      && r1.Applied? && r2.Applied?
      && StateOf(once.states, "ai_sdr") == Paused
  {
    var n := WINDOW + 2;
    var c := Run(Alternate(n));
    AlternateRun(n);
    assert Reachable(c);
    ReachableInv(c);
    hide Run, Alternate;
    PastTheWindow(c, n);
    UndoTwice(c, n);
  }

  lemma UndoTwice(c: Control, n: nat)
    requires Reachable(c) && Alternated(c, n) && n == WINDOW + 2
    requires |Controls(c.log)| == n && LatestInWindow(c, "ai_sdr", WINDOW - 1) && c.log[WINDOW + 1] !in Window(c.log)
    requires UndoRow(c, WINDOW - 1).1.Applied?
    ensures var once := UndoRow(c, WINDOW - 1).0;
      && UndoRow(c, WINDOW + 1).1 == Superseded
      && UndoRow(once, WINDOW - 1).1.Applied?
      && StateOf(once.states, "ai_sdr") == Paused
  {
    ReachableInv(c);
    hide Reachable;
    var once := UndoRow(c, WINDOW - 1).0;
    ControlsNext(c.log, once.log[n]);
    UndoKeeps(c, WINDOW - 1);
    assert c.log[WINDOW - 1] == AlternateRow(WINDOW - 1) && c.log[WINDOW + 1] == AlternateRow(WINDOW + 1);
    BeyondTheWindow(c, WINDOW + 1);
    LatestCanBeUndone(once, "ai_sdr", WINDOW - 1);
  }

  lemma PastTheWindow(c: Control, n: nat)
    requires Inv(c) && Alternated(c, n) && n > WINDOW
    ensures |Controls(c.log)| == n
    ensures LatestInWindow(c, "ai_sdr", WINDOW - 1) && UndoRow(c, WINDOW - 1).1.Applied?
    ensures forall id | WINDOW <= id < n :: c.log[id] !in Window(c.log)
  {
    AllControls(c.log);
    AllRowsOf(Window(c.log), "ai_sdr");
    assert WindowRows(c, "ai_sdr")[WINDOW - 1] == c.log[WINDOW - 1] == AlternateRow(WINDOW - 1);
    LatestCanBeUndone(c, "ai_sdr", WINDOW - 1);
  }

  // ------------------------------------------------------------ the history page

  datatype UndoStatus = ShowsNotReversible | ShowsUndone | ShowsAvailable | ShowsSuperseded

  /** The agent a row is shown under. */
  function ShownAgent(row: AuditRow): Option<string>
  {
    if row.action.Domain? then row.action.owner
    else if row.agentId.Some? && IsAgentId(row.agentId.value) then row.agentId
    else None
  }

  /** The undo status the history page gives a row; None when the row is not shown. */
  function HistoryStatus(t: seq<AuditRow>, row: AuditRow): Option<UndoStatus>
  {
    var agent := ShownAgent(row);
    if agent.None? && row.action.Domain? then None
    else if !IsMutation(row.action) || !row.reversible then Some(ShowsNotReversible)
    else if FirstUndo(t, row.id).Some? then Some(ShowsUndone)
    else if agent.Some? && Eligible(t, agent.value) == Some(row.id) then Some(ShowsAvailable)
    else Some(ShowsSuperseded)
  }

  /** The status tells what an undo would answer. */
  ghost predicate HistoryTellsUndo(c: Control, id: nat)
    requires id < |c.log|
  {
    var shown, reply := HistoryStatus(Window(c.log), c.log[id]), UndoRow(c, id).1;
    && (shown == Some(ShowsAvailable) <==> reply.Applied?)
    && (shown == Some(ShowsUndone) <==> reply == Idempotent)
    && (shown == Some(ShowsSuperseded) <==> reply == Superseded)
    && (shown.None? || shown == Some(ShowsNotReversible) <==> reply == NotReversible)
  }

  /** For any log at all, page and undo agree unless a reversible pause or resume names no known agent. */
  lemma HistoryAgreesExactlyWhen(c: Control, id: nat)
    requires id < |c.log| && c.log[id].id == id
    ensures HistoryTellsUndo(c, id) <==> !(IsMutation(c.log[id].action) && c.log[id].reversible && !Owned(c.log[id]))
  {}

  /** For the rows the service writes they always agree. */
  lemma HistoryAgreesWithUndo(c: Control, id: nat)
    requires Reachable(c) && id < |c.log|
    ensures HistoryTellsUndo(c, id)
  {
    ReachableInv(c);
    HistoryAgreesExactlyWhen(c, id);
  }
}
