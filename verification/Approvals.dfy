/** The server-side store of proposed tool calls and the gate every mutating tool passes. */
module Approvals {
  import opened Prelude
  import opened ToolAssembly

  const SAFE_TOOLS := {
    "search_leads", "get_lead_detail", "get_lead_stats",
    "find_similar_leads", "get_enrichment_gaps", "suggest_outreach",
    "compare_leads", "ambitionbox_search", "ambitionbox_jobs",
    "find_people_at_company", "verify_people_at_company", "draft_plan"
  }

  const DANGEROUS_TOOLS := {
    "start_collection", "update_lead_status", "enrich_lead", "execute_plan",
    "import_ambitionbox_to_workbook", "create_source_workbook", "set_workbook_refresh",
    "add_agent_column", "add_signal_trigger", "track_account_signals",
    "draft_grounded_outreach", "create_people_workbook", "enrich_people_contacts"
  }

  predicate NeedsConfirmation(name: string) {
    name !in SAFE_TOOLS
  }

  const TTL_SECONDS := 3600

  datatype Status = Pending | Approved | Denied

  datatype Approval = Approval(workspace: string, user: string, call: Call, status: Status, createdAt: int)

  type Rows = map<string, Approval>

  function StatusOf(decision: string): Status {
    if decision == "approve" then Approved else Denied
  }

  /** The row a decision may consume: pending, of this tenant, and not expired. */
  predicate Consumable(rows: Rows, id: string, workspace: string, user: string, decision: string, now: int) {
    && decision in {"approve", "deny"} && id != "" && workspace != ""
    && id in rows
    && rows[id].workspace == workspace && rows[id].user == user
    && rows[id].status == Pending
    && now - rows[id].createdAt <= TTL_SECONDS
  }

  function Consumed(rows: Rows, id: string, workspace: string, user: string, decision: string, now: int): Rows {
    if Consumable(rows, id, workspace, user, decision, now)
    then rows[id := rows[id].(status := StatusOf(decision))]
    else rows
  }

  /** The stored call, under the only id the client knows. */
  function StoredCall(rows: Rows, id: string, workspace: string, user: string, decision: string, now: int): Option<Call> {
    if Consumable(rows, id, workspace, user, decision, now)
    then Some(rows[id].call.(id := id))
    else None
  }

  /** A deny is as good as an approve: either, given by the tenant for its pending proposal within the hour,
      is recorded on the row and brings the stored call back under the approval id. Anything else changes
      nothing and brings nothing back. */
  lemma DecisionsTakeEffect(rows: Rows, id: string, workspace: string, user: string, decision: string, now: int)
    ensures var rows', call := Consumed(rows, id, workspace, user, decision, now), StoredCall(rows, id, workspace, user, decision, now);
      if decision in {"approve", "deny"} && id != "" && workspace != "" && id in rows && rows[id].workspace == workspace
         && rows[id].user == user && rows[id].status == Pending && now - rows[id].createdAt <= 3600 then
        && rows'.Keys == rows.Keys
        && (decision == "approve" ==> rows'[id] == rows[id].(status := Approved))
        && (decision == "deny" ==> rows'[id] == rows[id].(status := Denied))
        && (forall i | i in rows && i != id :: rows'[i] == rows[i])
        && call == Some(Call(id, rows[id].call.name, rows[id].call.args))
      else
        rows' == rows && call == None
  {
  }

  /** The approvals table. `uuid` stands for the random id source: never empty, never repeating. */
  class ApprovalStore {
    var rows: Rows
    var issued: nat
    const uuid: nat -> string

    ghost predicate Valid()
      reads this
    {
      && (forall i: nat, j: nat | i < j :: uuid(i) != uuid(j))
      && (forall i: nat :: uuid(i) != "")
      && (forall id | id in rows :: exists k: nat :: k < issued && uuid(k) == id)
    }

    /** Stores a proposal. Without a workspace the source raises and stores nothing. */
    method Create(workspace: string, user: string, call: Call, now: int) returns (id: Option<string>)
      requires Valid()
      modifies this`rows, this`issued
      ensures Valid()
      ensures id.Some? <==> workspace != ""
      ensures id.None? ==> rows == old(rows)
      ensures id.Some? ==> id.value != "" && id.value !in old(rows)
                           && rows == old(rows)[id.value := Approval(workspace, user, call, Pending, now)]
    {
      if workspace == "" {
        return None;
      }
      var newId := uuid(issued);
      rows := rows[newId := Approval(workspace, user, call, Pending, now)];
      issued := issued + 1;
      return Some(newId);
    }

    method Consume(id: string, workspace: string, user: string, decision: string, now: int)
      returns (call: Option<Call>)
      requires Valid()
      modifies this`rows
      ensures Valid()
      ensures rows == Consumed(old(rows), id, workspace, user, decision, now)
      ensures call == StoredCall(old(rows), id, workspace, user, decision, now)
    {
      if decision !in {"approve", "deny"} || id == "" || workspace == "" {
        return None;
      }
      if id !in rows || rows[id].workspace != workspace || rows[id].user != user {
        return None;
      }
      var row := rows[id];
      if row.status != Pending || now - row.createdAt > TTL_SECONDS {
        return None;
      }
      rows := rows[id := row.(status := StatusOf(decision))];
      return Some(row.call.(id := id));
    }
  }
}
