/**
 * The approval engine: one request row per thing awaiting approval, one action
 * row per decision, and an optional role-routed chain of stages per request type.
 */
module Approval {
  import opened Base

  datatype RequestType =
    | LeaveRequest | InventoryAdjustment | StockTransfer | PayrollAdjustment
    | CommissionAdjustment | DisciplinaryAction | PurchaseRequest

  datatype Status = Pending | Approved | Rejected | MoreInfoRequested

  datatype ActionKind = Submitted | Approval | Rejection | Reassignment | MoreInfo

  datatype Request = Request(
    requestType: RequestType,
    branch: Option<Id>,
    submittedBy: Option<Id>,
    approver: Option<Id>,
    stageOrder: Option<int>,
    stageRole: Option<Id>,
    status: Status)
  {
    /** The two statuses a decision can still be recorded on. */
    predicate Open() { status == Pending || status == MoreInfoRequested }
  }

  datatype Action = Action(
    request: Id,
    actor: Option<Id>,
    kind: ActionKind,
    fromApprover: Option<Id>,
    toApprover: Option<Id>,
    comment: string)

  /** Stage order to the role that must act there; (type, order) is unique in the table. */
  type Chain = map<int, Id>

  datatype State = State(requests: seq<Request>, actions: seq<Action>, chains: map<RequestType, Chain>)
  {
    function ChainOf(t: RequestType): Chain {
      if t in chains then chains[t] else map[]
    }
  }

  /** What the engine looks up in other tables: a call sees one such snapshot. */
  datatype Directory = Directory(
    roles: map<Id, set<Id>>,
    managers: map<Id, Id>,
    staff: set<Id>,
    adminStaff: Option<Id>)
  {
    function RolesOf(staffId: Id): set<Id> {
      if staffId in roles then roles[staffId] else {}
    }

    /** Branch manager first, then any staff holding an admin role. */
    function DefaultApprover(branch: Option<Id>): Option<Id> {
      if branch.Some? && branch.value in managers then Some(managers[branch.value]) else adminStaff
    }
  }

  function FirstStage(chain: Chain): (r: Option<int>)
    ensures r.None? <==> chain == map[]
    ensures r.Some? ==> r.value in chain && forall k | k in chain :: r.value <= k
  {
    if chain.Keys == {} then assert chain == map[]; None else Some(Least(chain.Keys))
  }

  function NextStage(chain: Chain, after: int): (r: Option<int>)
    ensures r.None? <==> forall k | k in chain :: k <= after
    ensures r.Some? ==> r.value in chain && after < r.value && forall k | k in chain && after < k :: r.value <= k
  {
    var later := set k | k in chain && after < k;
    if later == {} then
      assert forall k | k in chain :: k <= after by {
        forall k | k in chain ensures k <= after { assert k !in later; }
      }
      None
    else
      var least := Least(later);
      assert forall k | k in chain && after < k :: k in later;
      Some(least)
  }

  /** Who may act: an elevated actor, the approver of record, or a holder of the stage's role. */
  function Actionable(s: State, dir: Directory, id: Id, actor: Option<Id>, elevated: bool): Result<Request> {
    if id >= |s.requests| then Err(NotFound)
    else
      var r := s.requests[id];
      if !r.Open() then Err(BadRequest)
      else if elevated then Ok(r)
      else if r.approver.Some? && r.approver == actor then Ok(r)
      else if r.stageRole.Some? && actor.Some? && r.stageRole.value in dir.RolesOf(actor.value) then Ok(r)
      else Err(Forbidden)
  }

  /** The request row an approval writes: the next stage if one is left, the final status otherwise. */
  function ApprovedRow(r: Request, chain: Chain): Request {
    if r.stageOrder.Some? then
      var next := NextStage(chain, r.stageOrder.value);
      if next.Some? then
        r.(stageOrder := next, stageRole := Some(chain[next.value]))
      else
        r.(status := Approved, stageOrder := None, stageRole := None, approver := None)
    else
      r.(status := Approved)
  }

  function WithRequest(s: State, id: Id, r: Request): State
    requires id < |s.requests|
  {
    s.(requests := s.requests[id := r])
  }

  function Logged(s: State, action: Action): State {
    s.(actions := s.actions + [action])
  }

  /** The row an approval request starts as. */
  function NewRow(s: State, dir: Directory, t: RequestType, branch: Option<Id>, submitter: Option<Id>,
                  initialApprover: Option<Id>): Request
  {
    var chain := s.ChainOf(t);
    var first := FirstStage(chain);
    var approver :=
      if first.Some? then None
      else if initialApprover.Some? then initialApprover
      else dir.DefaultApprover(branch);
    var role := if first.Some? then Some(chain[first.value]) else None;
    Request(t, branch, submitter, approver, first, role, Pending)
  }

  function CreateWrite(s: State, row: Request): State {
    s.(requests := s.requests + [row])
  }

  function CreateSpec(s: State, dir: Directory, t: RequestType, branch: Option<Id>, submitter: Option<Id>,
                      initialApprover: Option<Id>): State
  {
    var row := NewRow(s, dir, t, branch, submitter, initialApprover);
    Logged(CreateWrite(s, row), Action(|s.requests|, submitter, Submitted, None, row.approver, ""))
  }

  /** The row update of an approval, before its action row is written. */
  function ApproveWrite(s: State, id: Id): State
    requires id < |s.requests|
  {
    WithRequest(s, id, ApprovedRow(s.requests[id], s.ChainOf(s.requests[id].requestType)))
  }

  function ApproveSpec(s: State, dir: Directory, id: Id, actor: Option<Id>, elevated: bool, comment: string)
    : Result<State>
  {
    match Actionable(s, dir, id, actor, elevated)
    case Err(e) => Err(e)
    case Ok(_) => Ok(Logged(ApproveWrite(s, id), Action(id, actor, Approval, None, None, comment)))
  }

  function RejectWrite(s: State, id: Id): State
    requires id < |s.requests|
  {
    WithRequest(s, id, s.requests[id].(status := Rejected))
  }

  function RejectSpec(s: State, dir: Directory, id: Id, actor: Option<Id>, elevated: bool, comment: string)
    : Result<State>
  {
    match Actionable(s, dir, id, actor, elevated)
    case Err(e) => Err(e)
    case Ok(_) => Ok(Logged(RejectWrite(s, id), Action(id, actor, Rejection, None, None, comment)))
  }

  function ReassignSpec(s: State, dir: Directory, id: Id, actor: Option<Id>, elevated: bool, to: Id, reason: string)
    : Result<State>
  {
    match Actionable(s, dir, id, actor, elevated)
    case Err(e) => Err(e)
    case Ok(r) =>
      if to !in dir.staff then Err(NotFound)
      else Ok(Logged(WithRequest(s, id, r.(approver := Some(to))),
                     Action(id, actor, Reassignment, r.approver, Some(to), reason)))
  }

  function MoreInfoSpec(s: State, dir: Directory, id: Id, actor: Id, elevated: bool, comment: string): Result<State> {
    match Actionable(s, dir, id, Some(actor), elevated)
    case Err(e) => Err(e)
    case Ok(r) =>
      Ok(Logged(WithRequest(s, id, r.(status := MoreInfoRequested)),
                Action(id, Some(actor), MoreInfo, None, None, comment)))
  }

  /** Stage orders are array positions plus one. */
  function StagesFor(roleIds: seq<Id>): (chain: Chain)
    ensures chain.Keys == OneTo(|roleIds|)
  {
    map k | k in OneTo(|roleIds|) :: roleIds[k - 1]
  }

  function SetChainSpec(s: State, t: RequestType, roleIds: seq<Id>): State {
    s.(chains := s.chains[t := StagesFor(roleIds)])
  }

  /** Deleting a role cascades to its stages and clears it from the requests waiting on it. */
  function DeleteRoleSpec(s: State, role: Id): State {
    var rows := seq(|s.requests|, i requires 0 <= i < |s.requests| =>
      if s.requests[i].stageRole == Some(role) then s.requests[i].(stageRole := None) else s.requests[i]);
    var chains := map t | t in s.chains :: (map k | k in s.chains[t] && s.chains[t][k] != role :: s.chains[t][k]);
    s.(requests := rows, chains := chains)
  }

  /** The rows of one staff member's queue, oldest first (creation order is row order). */
  function PendingFrom(s: State, dir: Directory, staffId: Id, from: Id): (q: seq<Id>)
    requires from <= |s.requests|
    decreases |s.requests| - from
  {
    if from == |s.requests| then []
    else
      var r := s.requests[from];
      var mine := r.approver == Some(staffId)
                  || (dir.RolesOf(staffId) != {} && r.stageRole.Some? && r.stageRole.value in dir.RolesOf(staffId));
      (if r.status == Pending && mine then [from] else []) + PendingFrom(s, dir, staffId, from + 1)
  }

  function PendingFor(s: State, dir: Directory, staffId: Id): seq<Id> {
    PendingFrom(s, dir, staffId, 0)
  }

  /** How a method's result and final tables relate to what was specified for the call. */
  ghost predicate Committed(spec: Result<State>, before: State, after: State, id: Id, r: Result<Request>) {
    match spec
    case Ok(s) => after == s && id < |s.requests| && r == Ok(s.requests[id])
    case Err(e) => after == before && r == Err(e)
  }

  class ApprovalService {
    var requests: seq<Request>
    var actions: seq<Action>
    var chains: map<RequestType, Chain>

    constructor ()
      ensures Tables() == State([], [], map[])
    {
      requests, actions, chains := [], [], map[];
    }

    function Tables(): State
      reads this
    {
      State(requests, actions, chains)
    }

    method Create(dir: Directory, t: RequestType, branch: Option<Id>, submitter: Option<Id>,
                  initialApprover: Option<Id>)
      returns (id: Id)
      modifies this
      ensures Tables() == CreateSpec(old(Tables()), dir, t, branch, submitter, initialApprover)
      ensures id == |old(requests)|
    {
      var chain := Tables().ChainOf(t);
      var first := FirstStage(chain);
      var approver := None;
      if first.None? {
        approver := if initialApprover.Some? then initialApprover else dir.DefaultApprover(branch);
      }
      id := |requests|;
      requests := requests + [Request(t, branch, submitter, approver, first,
                                      if first.Some? then Some(chain[first.value]) else None, Pending)];
      actions := actions + [Action(id, submitter, Submitted, None, approver, "")];
    }

    method Approve(dir: Directory, id: Id, actor: Option<Id>, elevated: bool, comment: string)
      returns (r: Result<Request>)
      modifies this
      ensures Committed(ApproveSpec(old(Tables()), dir, id, actor, elevated, comment), old(Tables()), Tables(), id, r)
    {
      r := Actionable(Tables(), dir, id, actor, elevated);
      if r.Err? {
        return;
      }
      var row := r.value;
      if row.stageOrder.Some? {
        var chain := Tables().ChainOf(row.requestType);
        var next := NextStage(chain, row.stageOrder.value);
        if next.Some? {
          row := row.(stageOrder := next, stageRole := Some(chain[next.value]));
        } else {
          row := row.(status := Approved, stageOrder := None, stageRole := None, approver := None);
        }
      } else {
        row := row.(status := Approved);
      }
      requests := requests[id := row];
      actions := actions + [Action(id, actor, Approval, None, None, comment)];
      r := Ok(row);
    }

    method Reject(dir: Directory, id: Id, actor: Option<Id>, elevated: bool, comment: string)
      returns (r: Result<Request>)
      modifies this
      ensures Committed(RejectSpec(old(Tables()), dir, id, actor, elevated, comment), old(Tables()), Tables(), id, r)
    {
      r := Actionable(Tables(), dir, id, actor, elevated);
      if r.Err? {
        return;
      }
      requests := requests[id := r.value.(status := Rejected)];
      actions := actions + [Action(id, actor, Rejection, None, None, comment)];
      r := Ok(requests[id]);
    }

    method Reassign(dir: Directory, id: Id, actor: Option<Id>, elevated: bool, to: Id, reason: string)
      returns (r: Result<Request>)
      modifies this
      ensures Committed(ReassignSpec(old(Tables()), dir, id, actor, elevated, to, reason), old(Tables()), Tables(),
                        id, r)
    {
      r := Actionable(Tables(), dir, id, actor, elevated);
      if r.Err? {
        return;
      }
      if to !in dir.staff {
        r := Err(NotFound);
        return;
      }
      var from := r.value.approver;
      requests := requests[id := r.value.(approver := Some(to))];
      actions := actions + [Action(id, actor, Reassignment, from, Some(to), reason)];
      r := Ok(requests[id]);
    }

    method RequestMoreInfo(dir: Directory, id: Id, actor: Id, elevated: bool, comment: string)
      returns (r: Result<Request>)
      modifies this
      ensures Committed(MoreInfoSpec(old(Tables()), dir, id, actor, elevated, comment), old(Tables()), Tables(), id, r)
    {
      r := Actionable(Tables(), dir, id, Some(actor), elevated);
      if r.Err? {
        return;
      }
      requests := requests[id := r.value.(status := MoreInfoRequested)];
      actions := actions + [Action(id, Some(actor), MoreInfo, None, None, comment)];
      r := Ok(requests[id]);
    }

    method SetChainStages(t: RequestType, roleIds: seq<Id>)
      modifies this
      ensures Tables() == SetChainSpec(old(Tables()), t, roleIds)
    {
      chains := chains[t := map[]];
      if roleIds == [] {
        return;
      }
      chains := chains[t := StagesFor(roleIds)];
    }
  }
}
