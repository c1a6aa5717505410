/** Low-stock alerts: one open alert per item, escalated one stage at a time. */
module StockAlerts {
  import opened Base

  datatype Stage = Supervisor | Operations | Management

  datatype Alert = Alert(item: Id, stage: Stage, triggeredAt: int, escalatedAt: Option<int>, resolvedAt: Option<int>)
  {
    predicate Open() { resolvedAt.None? }

    /** When the alert reached its current stage. */
    function Since(): int { if escalatedAt.Some? then escalatedAt.value else triggeredAt }
  }

  /** The alerts, and a clock that only advances. */
  datatype State = State(alerts: seq<Alert>, clock: int)

  const ESCALATION_WINDOW: int := 6 * HOUR_MS

  function Rank(stage: Stage): nat {
    match stage case Supervisor => 0 case Operations => 1 case Management => 2
  }

  function Next(stage: Stage): Stage {
    match stage case Supervisor => Operations case Operations => Management case Management => Management
  }

  predicate HasOpen(alerts: seq<Alert>, item: Id) {
    exists i :: 0 <= i < |alerts| && alerts[i].item == item && alerts[i].Open()
  }

  function CheckSpec(s: State, item: Id, total: int, threshold: int): State {
    if total > threshold || HasOpen(s.alerts, item) then s
    else s.(alerts := s.alerts + [Alert(item, Supervisor, s.clock, None, None)])
  }

  function ResolveSpec(s: State, id: Id): Result<State> {
    if id >= |s.alerts| then Err(NotFound)
    else if !s.alerts[id].Open() then Err(BadRequest)
    else Ok(s.(alerts := s.alerts[id := s.alerts[id].(resolvedAt := Some(s.clock))]))
  }

  predicate Overdue(a: Alert, now: int) {
    a.Open() && a.stage != Management && a.Since() <= now - ESCALATION_WINDOW
  }

  function Escalated(a: Alert, now: int): Alert {
    if Overdue(a, now) then a.(stage := Next(a.stage), escalatedAt := Some(now)) else a
  }

  class AlertService {
    var alerts: seq<Alert>
    var clock: int

    constructor (now: int)
      ensures Tables() == State([], now)
    {
      alerts, clock := [], now;
    }

    function Tables(): State
      reads this
    {
      State(alerts, clock)
    }

    method CheckAndTriggerLowStockAlert(item: Id, total: int, threshold: int)
      modifies this`alerts
      ensures Tables() == CheckSpec(old(Tables()), item, total, threshold)
    {
      if total > threshold {
        return;
      }
      for i := 0 to |alerts|
        invariant forall j | 0 <= j < i :: !(alerts[j].item == item && alerts[j].Open())
      {
        if alerts[i].item == item && alerts[i].Open() {
          return;
        }
      }
      alerts := alerts + [Alert(item, Supervisor, clock, None, None)];
    }

    method ResolveAlert(id: Id) returns (error: Option<Error>)
      modifies this`alerts
      ensures match ResolveSpec(old(Tables()), id) {
                case Ok(s) => Tables() == s && error == None
                case Err(e) => Tables() == old(Tables()) && error == Some(e)
              }
    {
      if id >= |alerts| {
        return Some(NotFound);
      }
      if !alerts[id].Open() {
        return Some(BadRequest);
      }
      alerts := alerts[id := alerts[id].(resolvedAt := Some(clock))];
      error := None;
    }

    /** Selects the overdue alerts first, then moves each one stage up. */
    method EscalateOverdueAlerts()
      modifies this`alerts
      ensures |alerts| == |old(alerts)|
      ensures forall i | 0 <= i < |alerts| :: alerts[i] == Escalated(old(alerts)[i], clock)
    {
      var overdue: set<Id> := {};
      for i := 0 to |alerts|
        invariant forall k: Id :: k in overdue <==> k < i && Overdue(alerts[k], clock)
      {
        if Overdue(alerts[i], clock) {
          overdue := overdue + {i};
        }
      }
      for i := 0 to |alerts|
        invariant |alerts| == |old(alerts)|
        invariant forall k | 0 <= k < i :: alerts[k] == Escalated(old(alerts)[k], clock)
        invariant forall k | i <= k < |alerts| :: alerts[k] == old(alerts)[k]
      {
        if i in overdue {
          alerts := alerts[i := alerts[i].(stage := Next(alerts[i].stage), escalatedAt := Some(clock))];
        }
      }
    }
  }

  // ---- Runs ----

  datatype Call = Check(item: Id, total: int, threshold: int) | Resolve(id: Id) | Escalate | Elapse(ms: nat)

  function Step(s: State, c: Call): State {
    match c
    case Check(item, total, threshold) => CheckSpec(s, item, total, threshold)
    case Resolve(id) => (match ResolveSpec(s, id) case Ok(s2) => s2 case Err(_) => s)
    case Escalate => s.(alerts := seq(|s.alerts|, (i: nat) requires i < |s.alerts| => Escalated(s.alerts[i], s.clock)))
    case Elapse(ms) => s.(clock := s.clock + ms)
  }

  function Run(s: State, calls: seq<Call>): State
    decreases |calls|
  {
    if calls == [] then s else Run(Step(s, calls[0]), calls[1..])
  }

  /** At stage k the alert has waited at least k windows since it was raised. */
  predicate AlertOk(a: Alert, clock: int) {
    && a.triggeredAt <= clock && a.Since() <= clock
    && (a.stage == Supervisor <==> a.escalatedAt.None?)
    && a.Since() - a.triggeredAt >= Rank(a.stage) * ESCALATION_WINDOW
  }

  ghost predicate Invariant(s: State) {
    && (forall i | 0 <= i < |s.alerts| :: AlertOk(s.alerts[i], s.clock))
    && (forall i, j | 0 <= i < j < |s.alerts| && s.alerts[i].item == s.alerts[j].item ::
          !(s.alerts[i].Open() && s.alerts[j].Open()))
  }

  lemma EscalationKeepsOk(a: Alert, now: int)
    requires AlertOk(a, now)
    ensures AlertOk(Escalated(a, now), now)
    ensures Rank(a.stage) <= Rank(Escalated(a, now).stage) <= Rank(a.stage) + 1
    ensures !Overdue(Escalated(a, now), now)
  {
  }

  lemma StepKeeps(s: State, c: Call)
    requires Invariant(s)
    ensures Invariant(Step(s, c))
  {
    var s2 := Step(s, c);
    forall i | 0 <= i < |s2.alerts| ensures AlertOk(s2.alerts[i], s2.clock) {
      if i < |s.alerts| {
        assert AlertOk(s.alerts[i], s.clock);
        EscalationKeepsOk(s.alerts[i], s.clock);
      }
    }
  }

  lemma {:induction false} InvariantOverRuns(s: State, calls: seq<Call>)
    requires Invariant(s)
    ensures Invariant(Run(s, calls))
    decreases |calls|
  {
    if calls != [] {
      StepKeeps(s, calls[0]);
      InvariantOverRuns(Step(s, calls[0]), calls[1..]);
    }
  }

  /** In every run: one open alert per item, and stage k no earlier than 6k hours after the alert was raised. */
  lemma OneOpenAlertPerItem(start: int, calls: seq<Call>, i: nat, j: nat)
    requires i < |Run(State([], start), calls).alerts| && j < |Run(State([], start), calls).alerts|
    ensures var s := Run(State([], start), calls);
            && s.clock - s.alerts[i].triggeredAt >= Rank(s.alerts[i].stage) * ESCALATION_WINDOW
            && (i != j && s.alerts[i].item == s.alerts[j].item ==> !(s.alerts[i].Open() && s.alerts[j].Open()))
  {
    InvariantOverRuns(State([], start), calls);
    var s := Run(State([], start), calls);
    assert AlertOk(s.alerts[i], s.clock);
  }

  /** Right after an escalation run nothing is overdue, and no alert has moved by more than one stage. */
  lemma EscalationLeavesNothingOverdue(s: State, i: nat)
    requires Invariant(s) && i < |s.alerts|
    ensures var s2 := Step(s, Escalate);
            && !Overdue(s2.alerts[i], s2.clock)
            && Rank(s.alerts[i].stage) <= Rank(s2.alerts[i].stage) <= Rank(s.alerts[i].stage) + 1
  {
  }

  // ---- When an alert is raised, closed and moved ----

  /** A check leaves the item with an open alert exactly if it had one or holds no more than its threshold. */
  lemma CheckOpensIff(s: State, item: Id, total: int, threshold: int, other: Id)
    ensures var s2 := Step(s, Check(item, total, threshold));
            && (HasOpen(s2.alerts, item) <==> HasOpen(s.alerts, item) || total <= threshold)
            && (other != item ==> (HasOpen(s2.alerts, other) <==> HasOpen(s.alerts, other)))
            && s.alerts <= s2.alerts && |s2.alerts| <= |s.alerts| + 1
            && (|s2.alerts| > |s.alerts| ==>
                  var a := s2.alerts[|s.alerts|];
                  && a.item == item && a.stage == Supervisor && a.triggeredAt == s.clock && a.Open()
                  && a.escalatedAt == None)
  {
    var s2 := Step(s, Check(item, total, threshold));
    if |s2.alerts| > |s.alerts| {
      assert s2.alerts[|s.alerts|].Open();
      assert forall i | 0 <= i < |s.alerts| :: s2.alerts[i] == s.alerts[i];
    }
  }

  /** Closing the one open alert of an item leaves it without any, so the next low check raises a new one. */
  lemma ResolvedIsClosed(s: State, id: Id, total: int, threshold: int)
    requires Invariant(s) && id < |s.alerts| && s.alerts[id].Open() && total <= threshold
    ensures var s2 := Step(s, Resolve(id));
            && |s2.alerts| == |s.alerts| && s2.alerts[id].resolvedAt == Some(s.clock)
            && s2.alerts[id].(resolvedAt := None) == s.alerts[id]
            && (forall i | 0 <= i < |s.alerts| && i != id :: s2.alerts[i] == s.alerts[i])
            && !HasOpen(s2.alerts, s.alerts[id].item)
            && |Step(s2, Check(s.alerts[id].item, total, threshold)).alerts| == |s.alerts| + 1
  {
  }

  /** An unknown or closed alert cannot be resolved. */
  lemma ResolveRefusedIff(s: State, id: Id)
    ensures ResolveSpec(s, id).Err? <==> id >= |s.alerts| || !s.alerts[id].Open()
    ensures ResolveSpec(s, id).Err? ==> Step(s, Resolve(id)) == s
  {
  }

  /** An escalation run moves exactly the open alerts below management that have waited six hours at their stage. */
  lemma EscalatesIff(s: State, i: nat)
    requires i < |s.alerts|
    ensures var a, b := s.alerts[i], Step(s, Escalate).alerts[i];
            var waited := s.clock - (if a.escalatedAt.Some? then a.escalatedAt.value else a.triggeredAt);
            if a.resolvedAt.None? && a.stage != Management && waited >= 6 * 60 * 60000 then
              && b.stage == (if a.stage == Supervisor then Operations else Management) && b.escalatedAt == Some(s.clock)
              && b.(stage := a.stage, escalatedAt := a.escalatedAt) == a
            else b == a
  {
  }
}
