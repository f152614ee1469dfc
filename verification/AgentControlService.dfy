/** The service object: one tenant's control cells and audit log, updated in place. */
module AgentControlService {
  import opened Wrappers
  import opened ControlTimeline
  import opened AgentControl

  class AgentControlCenter {
    var control: map<string, ControlState>
    var auditLog: seq<AuditRow>

    function View(): Control
      reads this
    {
      Control(control, auditLog)
    }

    constructor ()
      ensures View() == Run([])
    {
      control, auditLog := map[], [];
    }

    method GetControlState(agent: string) returns (state: ControlState)
      ensures state == StateOf(control, agent)
    {
      state := Active;
      if agent in control {
        state := control[agent];
      }
    }

    method PauseAgent(agent: string) returns (reply: Reply)
      modifies this
      ensures (View(), reply) == Step(old(View()), Pause(agent))
    {
      if agent != "research_agent" && agent != "ai_sdr" {
        return UnknownAgent;
      }
      var before := GetControlState(agent);
      if before == Paused {
        return Idempotent;
      }
      reply := SetControl(agent, Paused, PauseLogged, None);
    }

    method ResumeAgent(agent: string) returns (reply: Reply)
      modifies this
      ensures (View(), reply) == Step(old(View()), Resume(agent))
    {
      if agent != "research_agent" && agent != "ai_sdr" {
        return UnknownAgent;
      }
      var before := GetControlState(agent);
      if before == Active {
        return Idempotent;
      }
      reply := SetControl(agent, Active, ResumeLogged, None);
    }

    method UndoAction(id: nat) returns (reply: Reply)
      modifies this
      ensures (View(), reply) == Step(old(View()), Undo(id))
    {
      if id >= |auditLog| {
        return UnknownAction;
      }
      var row := auditLog[id];
      if !IsMutation(row.action) || !row.reversible {
        return NotReversible;
      }
      if row.agentId.None? || !IsAgentId(row.agentId.value) {
        return MissingAgent;
      }
      var agent := row.agentId.value;
      var undoneOf, latest := ComputeLatestEligible(Window(auditLog));
      if id in undoneOf {
        return Idempotent;
      }
      if agent !in latest || latest[agent] != Some(id) {
        return Superseded;
      }
      var restore := if row.before.Some? then row.before.value else if row.action == PauseLogged then Active else Paused;
      reply := SetControl(agent, restore, UndoLogged, Some(id));
    }

    /** The upsert of the control cell and the audit row that follows it. */
    method SetControl(agent: string, to: ControlState, action: Action, undoOf: Option<nat>) returns (reply: Reply)
      modifies this
      ensures (View(), reply) == SetState(old(View()), agent, to, action, undoOf)
    {
      var current := GetControlState(agent);
      control := control[agent := to];
      var id := |auditLog|;
      auditLog := auditLog + [AuditRow(id, action, Some(agent), Some(current), Some(to), undoOf, undoOf.None?)];
      reply := Applied(id);
    }
  }
}
