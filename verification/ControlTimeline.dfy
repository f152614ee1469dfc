/** The audit rows of agent pause, resume and undo, and the one-pass fold over them. */
module ControlTimeline {
  import opened Wrappers

  datatype ControlState = Active | Paused

  /** Domain rows belong to other services; `owner` is the agent the action name maps to, if any. */
  datatype Action = PauseLogged | ResumeLogged | UndoLogged | Domain(owner: Option<string>)

  datatype AuditRow = AuditRow(
    id: nat, action: Action, agentId: Option<string>, before: Option<ControlState>, after: Option<ControlState>,
    undoOf: Option<nat>, reversible: bool)

  predicate IsMutation(action: Action)
  {
    action == PauseLogged || action == ResumeLogged
  }

  predicate IsControl(row: AuditRow)
  {
    !row.action.Domain?
  }

  /** A pause or resume the fold attributes to agent g; an empty agent id counts as none. */
  predicate Mutates(row: AuditRow, g: string)
  {
    IsMutation(row.action) && row.agentId == Some(g) && g != ""
  }

  predicate Undoes(row: AuditRow, x: nat)
  {
    row.action.UndoLogged? && row.undoOf == Some(x)
  }

  // ------------------------------------------------ what the fold must compute

  /** The position of the agent's last pause or resume. */
  function LastMutation(t: seq<AuditRow>, g: string): (r: Option<nat>)
    ensures r.Some? ==> r.value < |t| && Mutates(t[r.value], g)
    ensures r.Some? ==> forall j | r.value < j < |t| :: !Mutates(t[j], g)
    ensures r.None? ==> forall j | 0 <= j < |t| :: !Mutates(t[j], g)
  {
    if t == [] then None
    else if Mutates(t[|t| - 1], g) then Some(|t| - 1)
    else LastMutation(t[..|t| - 1], g)
  }

  /** A later undo row of the same agent names row i. */
  predicate UndoneLater(t: seq<AuditRow>, g: string, i: nat)
    requires i < |t|
  {
    exists j | i < j < |t| :: Undoes(t[j], t[i].id) && t[j].agentId == Some(g)
  }

  /** The one id of agent g that may be undone. */
  function Eligible(t: seq<AuditRow>, g: string): Option<nat>
  {
    match LastMutation(t, g)
    case None => None
    case Some(i) => if UndoneLater(t, g, i) then None else Some(t[i].id)
  }

  /** The position of the first undo row naming x. */
  function FirstUndo(t: seq<AuditRow>, x: nat): (r: Option<nat>)
    ensures r.Some? ==> r.value < |t| && Undoes(t[r.value], x)
    ensures r.Some? ==> forall j | 0 <= j < r.value :: !Undoes(t[j], x)
    ensures r.None? ==> forall j | 0 <= j < |t| :: !Undoes(t[j], x)
  {
    if t == [] then None
    else
      var before := FirstUndo(t[..|t| - 1], x);
      if before.Some? then before else if Undoes(t[|t| - 1], x) then Some(|t| - 1) else None
  }

  // ---------------------------------------------------------------- the fold

  /** One more row: a mutation becomes eligible, an undo of the eligible one clears it. */
  lemma EligibleNext(t: seq<AuditRow>, row: AuditRow, g: string)
    ensures Eligible(t + [row], g)
         == if Mutates(row, g) then Some(row.id)
            else if row.action.UndoLogged? && row.agentId == Some(g) && Eligible(t, g).Some? && row.undoOf == Eligible(t, g) then None
            else Eligible(t, g)
  {
    var t1 := t + [row];
    assert t1[..|t|] == t;
    if !Mutates(row, g) && LastMutation(t, g).Some? {
      var i := LastMutation(t, g).value;
      assert LastMutation(t1, g) == Some(i) && t1[i] == t[i];
      assert UndoneLater(t1, g, i) <==> UndoneLater(t, g, i) || (Undoes(row, t[i].id) && row.agentId == Some(g)) by {
        if UndoneLater(t, g, i) {
          var j :| i < j < |t| && Undoes(t[j], t[i].id) && t[j].agentId == Some(g);
          assert t1[j] == t[j];
        }
        if Undoes(row, t[i].id) && row.agentId == Some(g) {
          assert t1[|t|] == row;
        }
      }
    }
  }

  lemma LastMutationNext(t: seq<AuditRow>, row: AuditRow, g: string)
    ensures LastMutation(t + [row], g) == if Mutates(row, g) then Some(|t|) else LastMutation(t, g)
  {
    assert (t + [row])[..|t|] == t;
  }

  lemma FirstUndoNext(t: seq<AuditRow>, row: AuditRow, x: nat)
    ensures FirstUndo(t + [row], x)
         == if FirstUndo(t, x).Some? then FirstUndo(t, x) else if Undoes(row, x) then Some(|t|) else None
  {
    assert (t + [row])[..|t|] == t;
  }

  /** The map form of Eligible: an agent without pauses and resumes has no entry. */
  ghost predicate TracksEligible(latest: map<string, Option<nat>>, t: seq<AuditRow>)
  {
    && (forall g :: g in latest <==> LastMutation(t, g).Some?)
    && (forall g | g in latest :: latest[g] == Eligible(t, g))
  }

  /** The map form of FirstUndo: an id nobody undid has no entry. */
  ghost predicate TracksUndone(undoneOf: map<nat, nat>, t: seq<AuditRow>)
  {
    && (forall x :: x in undoneOf <==> FirstUndo(t, x).Some?)
    && (forall x | x in undoneOf :: undoneOf[x] == t[FirstUndo(t, x).value].id)
  }

  lemma TracksUndoneNext(undoneOf: map<nat, nat>, t: seq<AuditRow>, row: AuditRow, undoneOf': map<nat, nat>)
    requires TracksUndone(undoneOf, t)
    requires undoneOf' ==
      if row.action.UndoLogged? && row.undoOf.Some? && row.undoOf.value !in undoneOf then undoneOf[row.undoOf.value := row.id]
      else undoneOf
    ensures TracksUndone(undoneOf', t + [row])
  {
    forall x: nat
      ensures FirstUndo(t + [row], x)
           == if FirstUndo(t, x).Some? then FirstUndo(t, x) else if Undoes(row, x) then Some(|t|) else None
    {
      FirstUndoNext(t, row, x);
    }
  }

  lemma TracksEligibleNext(latest: map<string, Option<nat>>, t: seq<AuditRow>, row: AuditRow, latest': map<string, Option<nat>>)
    requires TracksEligible(latest, t)
    requires latest' ==
      if IsMutation(row.action) && row.agentId.Some? && row.agentId.value != "" then latest[row.agentId.value := Some(row.id)]
      else if row.action.UndoLogged? && row.agentId.Some? && row.agentId.value != "" && row.undoOf.Some?
              && row.agentId.value in latest && latest[row.agentId.value] == row.undoOf then latest[row.agentId.value := None]
      else latest
    ensures TracksEligible(latest', t + [row])
  {
    forall g
      ensures g in latest' <==> LastMutation(t + [row], g).Some?
      ensures g in latest' ==> latest'[g] == Eligible(t + [row], g)
    {
      EligibleNext(t, row, g);
      LastMutationNext(t, row, g);
    }
  }

  /** The pass over the timeline, filling both maps. */
  method ComputeLatestEligible(timeline: seq<AuditRow>) returns (undoneOf: map<nat, nat>, latest: map<string, Option<nat>>)
    ensures TracksUndone(undoneOf, timeline)
    ensures TracksEligible(latest, timeline)
  {
    undoneOf, latest := map[], map[];
    assert TracksUndone(undoneOf, timeline[..0]) && TracksEligible(latest, timeline[..0]);
    hide TracksUndone, TracksEligible;
    for i := 0 to |timeline|
      invariant TracksUndone(undoneOf, timeline[..i])
      invariant TracksEligible(latest, timeline[..i])
    {
      var row := timeline[i];
      assert timeline[..i + 1] == timeline[..i] + [row];
      ghost var undoneOf0, latest0 := undoneOf, latest;
      if row.action == UndoLogged {
        if row.undoOf.Some? && row.undoOf.value !in undoneOf {
          undoneOf := undoneOf[row.undoOf.value := row.id];
        }
        if row.agentId.Some? && row.agentId.value != "" && row.undoOf.Some?
          && row.agentId.value in latest && latest[row.agentId.value] == row.undoOf
        {
          latest := latest[row.agentId.value := None];
        }
      } else if (row.action == PauseLogged || row.action == ResumeLogged) && row.agentId.Some? && row.agentId.value != "" {
        latest := latest[row.agentId.value := Some(row.id)];
      }
      TracksUndoneNext(undoneOf0, timeline[..i], row, undoneOf);
      TracksEligibleNext(latest0, timeline[..i], row, latest);
    }
    assert timeline[..|timeline|] == timeline;
  }
}
