/** Payroll adjustments and the chains their corrections form. */
module PayrollCorrections {
  import opened Base

  datatype PeriodStatus = Draft | AwaitingRelease | Approved | Released

  datatype Kind = Bonus | Deduction

  datatype Status = Active | Superseded

  /** What a correction carries over unchanged. */
  datatype Terms = Terms(period: Id, staff: Id, kind: Kind, category: string, reason: string)

  datatype Row = Row(terms: Terms, amount: real, status: Status, supersedes: Option<Id>,
                     correctionReason: Option<string>)

  /** Identifiers are handed out in order of creation, starting from `next`. */
  datatype State = State(rows: map<Id, Row>, periods: map<Id, PeriodStatus>, staff: set<Id>, next: Id)

  predicate InDraft(s: State, id: Id)
    requires id in s.rows
  {
    s.rows[id].terms.period in s.periods && s.periods[s.rows[id].terms.period] == Draft
  }

  function CreateSpec(s: State, terms: Terms, amount: real): Result<State> {
    if terms.period !in s.periods || terms.staff !in s.staff then Err(NotFound)
    else Ok(s.(rows := s.rows[s.next := Row(terms, amount, Active, None, None)], next := s.next + 1))
  }

  function CorrectSpec(s: State, id: Id, amount: real, reason: string): Result<State> {
    if id !in s.rows then Err(NotFound)
    else
      var original := s.rows[id];
      if original.status != Active || InDraft(s, id) then Err(BadRequest)
      else
        Ok(s.(rows := s.rows[id := original.(status := Superseded)]
                            [s.next := Row(original.terms, amount, Active, Some(id), Some(reason))],
              next := s.next + 1))
  }

  /** Deleting a row clears the link that pointed at it. */
  function Unlinked(rows: map<Id, Row>, id: Id): map<Id, Row> {
    map k | k in rows && k != id :: if rows[k].supersedes == Some(id) then rows[k].(supersedes := None) else rows[k]
  }

  function RemoveSpec(s: State, id: Id): Result<State> {
    if id !in s.rows then Err(NotFound)
    else if !InDraft(s, id) then Err(BadRequest)
    else Ok(s.(rows := Unlinked(s.rows, id)))
  }

  /** The period listing shows the active rows. */
  function ListForPeriod(s: State, period: Id): set<Id> {
    set id | id in s.rows && s.rows[id].terms.period == period && s.rows[id].status == Active
  }

  // ---- Chains ----

  function Successors(rows: map<Id, Row>, id: Id): set<Id> {
    set k | k in rows && rows[k].supersedes == Some(id)
  }

  /** Links point to older rows with the same terms, and no two rows correct the same one. */
  ghost predicate Linked(s: State) {
    && (forall id | id in s.rows :: id < s.next)
    && (forall id | id in s.rows && s.rows[id].supersedes.Some? :: LinkOk(s.rows, id))
    && (forall a, b | a in s.rows && b in s.rows && s.rows[a].supersedes.Some?
                      && s.rows[a].supersedes == s.rows[b].supersedes ::
          a == b)
  }

  predicate LinkOk(rows: map<Id, Row>, id: Id)
    requires id in rows && rows[id].supersedes.Some?
  {
    var p := rows[id].supersedes.value;
    p in rows && p < id && rows[p].terms == rows[id].terms
  }

  /** A row is active exactly when nothing corrects it. */
  ghost predicate OneActiveEnd(s: State) {
    forall id | id in s.rows :: s.rows[id].status == Active <==> Successors(s.rows, id) == {}
  }

  ghost predicate Invariant(s: State) { Linked(s) && OneActiveEnd(s) }

  /** What is left of it once any row may be removed: an active row still has nothing after it. */
  ghost predicate ActiveIsLast(s: State) {
    forall id | id in s.rows && s.rows[id].status == Active :: Successors(s.rows, id) == {}
  }

  ghost predicate Traceable(s: State) { Linked(s) && ActiveIsLast(s) }

  function Root(s: State, id: Id): (r: Id)
    requires Linked(s) && id in s.rows
    ensures r in s.rows && r <= id && s.rows[r].supersedes.None?
    decreases id
  {
    if s.rows[id].supersedes.None? then id else Root(s, s.rows[id].supersedes.value)
  }

  lemma SuccessorFacts(s: State, id: Id, k: Id)
    requires Linked(s) && k in Successors(s.rows, id)
    ensures id in s.rows && id < k < s.next && Successors(s.rows, id) == {k}
  {
  }

  function Successor(s: State, id: Id): (k: Id)
    requires Linked(s) && Successors(s.rows, id) != {}
    ensures Successors(s.rows, id) == {k} && k in s.rows && id < k < s.next && s.rows[k].supersedes == Some(id)
  {
    var k := Least(Successors(s.rows, id));
    SuccessorFacts(s, id, k);
    k
  }

  /** From a row through its corrections to the newest. */
  function Forward(s: State, id: Id): (chain: seq<Id>)
    requires Linked(s) && id in s.rows
    ensures chain != [] && chain[0] == id && forall i | 0 <= i < |chain| :: chain[i] in s.rows
    decreases s.next - id
  {
    if Successors(s.rows, id) == {} then [id] else [id] + Forward(s, Successor(s, id))
  }

  function History(s: State, id: Id): seq<Id>
    requires Linked(s) && id in s.rows
  {
    Forward(s, Root(s, id))
  }

  // ---- The service ----

  ghost predicate Committed(spec: Result<State>, before: State, after: State, r: Result<Id>) {
    match spec
    case Ok(s) => after == s && r.Ok?
    case Err(e) => after == before && r == Err(e)
  }

  class PayrollAdjustmentService {
    var rows: map<Id, Row>
    var periods: map<Id, PeriodStatus>
    var staff: set<Id>
    var next: Id

    constructor (periods: map<Id, PeriodStatus>, staff: set<Id>)
      ensures Tables() == State(map[], periods, staff, 0)
    {
      rows, this.periods, this.staff, next := map[], periods, staff, 0;
    }

    function Tables(): State
      reads this
    {
      State(rows, periods, staff, next)
    }

    method Create(terms: Terms, amount: real) returns (r: Result<Id>)
      modifies this
      ensures Committed(CreateSpec(old(Tables()), terms, amount), old(Tables()), Tables(), r)
      ensures r.Ok? ==> r.value == old(next)
    {
      if terms.period !in periods {
        return Err(NotFound);
      }
      if terms.staff !in staff {
        return Err(NotFound);
      }
      rows := rows[next := Row(terms, amount, Active, None, None)];
      r := Ok(next);
      next := next + 1;
    }

    method Correct(id: Id, amount: real, reason: string) returns (r: Result<Id>)
      modifies this
      ensures Committed(CorrectSpec(old(Tables()), id, amount, reason), old(Tables()), Tables(), r)
      ensures r.Ok? ==> r.value == old(next)
    {
      if id !in rows {
        return Err(NotFound);
      }
      var original := rows[id];
      if original.status != Active {
        return Err(BadRequest);
      }
      if InDraft(Tables(), id) {
        return Err(BadRequest);
      }
      rows := rows[id := original.(status := Superseded)];
      rows := rows[next := Row(original.terms, amount, Active, Some(id), Some(reason))];
      r := Ok(next);
      next := next + 1;
    }

    method Remove(id: Id) returns (r: Result<Id>)
      modifies this
      ensures Committed(RemoveSpec(old(Tables()), id), old(Tables()), Tables(), r)
    {
      if id !in rows {
        return Err(NotFound);
      }
      if !InDraft(Tables(), id) {
        return Err(BadRequest);
      }
      rows := Unlinked(rows, id);
      r := Ok(id);
    }

    /** Back to the root, then forward again, collecting. */
    method GetCorrectionHistory(id: Id) returns (r: Result<seq<Id>>)
      requires Linked(Tables())
      ensures id !in rows ==> r == Err(NotFound)
      ensures id in rows ==> r == Ok(History(Tables(), id))
    {
      if id !in rows {
        return Err(NotFound);
      }
      var rootId := id;
      var cursor := rows[id];
      while cursor.supersedes.Some?
        invariant rootId in rows && cursor == rows[rootId] && Root(Tables(), rootId) == Root(Tables(), id)
        decreases rootId
      {
        var previous := cursor.supersedes.value;
        assert LinkOk(rows, rootId);
        if previous !in rows {
          break;
        }
        cursor := rows[previous];
        rootId := previous;
      }
      var chain := [];
      var nextId := Some(rootId);
      while nextId.Some?
        invariant nextId.Some? ==> nextId.value in rows
        invariant chain + (if nextId.Some? then Forward(Tables(), nextId.value) else []) == History(Tables(), id)
        decreases if nextId.Some? then next - nextId.value + 1 else 0
      {
        var row := nextId.value;
        chain := chain + [row];
        if Successors(rows, row) == {} {
          nextId := None;
        } else {
          nextId := Some(Successor(Tables(), row));
        }
      }
      assert chain + [] == chain;
      r := Ok(chain);
    }
  }

  // ---- Runs ----

  /** Every change of a period's status is left to the environment, reopening to Draft included. */
  datatype Call =
    | Create(terms: Terms, amount: real)
    | Correct(id: Id, amount: real, reason: string)
    | Remove(id: Id)
    | SetPeriod(period: Id, status: PeriodStatus)

  function OrUnchanged(s: State, r: Result<State>): State {
    match r case Ok(after) => after case Err(_) => s
  }

  function Step(s: State, c: Call): State {
    match c
    case Create(terms, amount) => OrUnchanged(s, CreateSpec(s, terms, amount))
    case Correct(id, amount, reason) => OrUnchanged(s, CorrectSpec(s, id, amount, reason))
    case Remove(id) => OrUnchanged(s, RemoveSpec(s, id))
    case SetPeriod(period, status) => s.(periods := s.periods[period := status])
  }

  function Run(s: State, calls: seq<Call>): State
    decreases |calls|
  {
    if calls == [] then s else Run(Step(s, calls[0]), calls[1..])
  }

  lemma CreateKeeps(s: State, terms: Terms, amount: real)
    requires Invariant(s)
    ensures Invariant(OrUnchanged(s, CreateSpec(s, terms, amount)))
  {
    if CreateSpec(s, terms, amount).Ok? {
      var s2 := CreateSpec(s, terms, amount).value;
      forall id | id in s2.rows && s2.rows[id].supersedes.Some? ensures LinkOk(s2.rows, id) {
        assert LinkOk(s.rows, id);
      }
      forall id | id in s2.rows ensures s2.rows[id].status == Active <==> Successors(s2.rows, id) == {} {
        SuccessorsAfterAdding(s, s2, id);
      }
    }
  }

  /** A new row adds a successor to what it links to and to nothing else, and has none itself. */
  lemma SuccessorsAfterAdding(s: State, s2: State, id: Id)
    requires Linked(s) && s2.rows.Keys == s.rows.Keys + {s.next}
    requires forall k | k in s.rows :: s2.rows[k].supersedes == s.rows[k].supersedes
    ensures Successors(s2.rows, id)
         == Successors(s.rows, id) + if s2.rows[s.next].supersedes == Some(id) then {s.next} else {}
    ensures Successors(s.rows, s.next) == {}
  {
  }

  lemma CorrectKeepsLinks(s: State, id: Id, amount: real, reason: string)
    requires Traceable(s) && CorrectSpec(s, id, amount, reason).Ok?
    ensures Linked(CorrectSpec(s, id, amount, reason).value)
  {
    var s2 := CorrectSpec(s, id, amount, reason).value;
    forall k | k in s2.rows && s2.rows[k].supersedes.Some? ensures LinkOk(s2.rows, k) {
      if k != s.next {
        assert LinkOk(s.rows, k);
      }
    }
    forall k | k in s.rows ensures s.rows[k].supersedes != Some(id) {
      assert k !in Successors(s.rows, id);
    }
    OnlyLink(s, s2, id);
  }

  lemma OnlyLink(s: State, s2: State, id: Id)
    requires Linked(s) && s2.rows.Keys == s.rows.Keys + {s.next}
    requires forall k | k in s.rows :: s2.rows[k].supersedes == s.rows[k].supersedes && s.rows[k].supersedes != Some(id)
    requires s2.rows[s.next].supersedes == Some(id)
    ensures forall a, b | a in s2.rows && b in s2.rows && s2.rows[a].supersedes.Some?
              && s2.rows[a].supersedes == s2.rows[b].supersedes :: a == b
  {
  }

  lemma CorrectKeeps(s: State, id: Id, amount: real, reason: string)
    requires Invariant(s)
    ensures Invariant(OrUnchanged(s, CorrectSpec(s, id, amount, reason)))
  {
    if CorrectSpec(s, id, amount, reason).Ok? {
      CorrectKeepsLinks(s, id, amount, reason);
      var s2 := CorrectSpec(s, id, amount, reason).value;
      assert s2.rows.Keys == s.rows.Keys + {s.next};
      forall k | k in s2.rows ensures s2.rows[k].status == Active <==> Successors(s2.rows, k) == {} {
        SuccessorsAfterAdding(s, s2, k);
      }
    }
  }

  lemma SetPeriodKeeps(s: State, period: Id, status: PeriodStatus)
    requires Invariant(s)
    ensures Invariant(s.(periods := s.periods[period := status]))
  {
  }

  lemma SuccessorsAfterRemoving(s: State, id: Id, k: Id)
    requires Linked(s) && id in s.rows && k in s.rows && k != id
    ensures Successors(Unlinked(s.rows, id), k) == Successors(s.rows, k) - {id}
  {
  }

  lemma RemoveKeepsLinks(s: State, id: Id)
    requires Linked(s) && id in s.rows
    ensures Linked(s.(rows := Unlinked(s.rows, id)))
  {
    var rows := Unlinked(s.rows, id);
    forall k | k in rows && rows[k].supersedes.Some? ensures LinkOk(rows, k) {
      assert LinkOk(s.rows, k);
    }
  }

  /**
   * Removing a row keeps every chain ending in its one active row exactly when the row corrects
   * nothing: a removed correction leaves its original superseded by nobody.
   */
  lemma RemoveIsSafeIff(s: State, id: Id)
    requires Invariant(s) && RemoveSpec(s, id).Ok?
    ensures Invariant(RemoveSpec(s, id).value) <==> s.rows[id].supersedes.None?
  {
    var s2 := RemoveSpec(s, id).value;
    RemoveKeepsLinks(s, id);
    if s.rows[id].supersedes.None? {
      forall k | k in s2.rows ensures s2.rows[k].status == Active <==> Successors(s2.rows, k) == {} {
        SuccessorsAfterRemoving(s, id, k);
        assert id !in Successors(s.rows, k);
      }
    } else {
      var p := s.rows[id].supersedes.value;
      assert LinkOk(s.rows, id);
      assert id in Successors(s.rows, p);
      SuccessorFacts(s, p, id);
      SuccessorsAfterRemoving(s, id, p);
      assert s2.rows[p].status == Superseded && Successors(s2.rows, p) == {};
    }
  }

  /** The removals of the run all hit rows that correct nothing. */
  ghost predicate SafeRemovals(s: State, calls: seq<Call>)
    decreases |calls|
  {
    calls == []
    || ((calls[0].Remove? && RemoveSpec(s, calls[0].id).Ok? ==> s.rows[calls[0].id].supersedes.None?)
        && SafeRemovals(Step(s, calls[0]), calls[1..]))
  }

  lemma {:induction false} ChainsOverRuns(s: State, calls: seq<Call>)
    requires Invariant(s) && SafeRemovals(s, calls)
    ensures Invariant(Run(s, calls))
    decreases |calls|
  {
    if calls != [] {
      match calls[0] {
        case Create(terms, amount) => CreateKeeps(s, terms, amount);
        case Correct(id, amount, reason) => CorrectKeeps(s, id, amount, reason);
        case Remove(id) =>
          if RemoveSpec(s, id).Ok? {
            RemoveIsSafeIff(s, id);
          }
        case SetPeriod(period, status) => SetPeriodKeeps(s, period, status);
      }
      ChainsOverRuns(Step(s, calls[0]), calls[1..]);
    }
  }

  // ---- Links survive every removal ----

  lemma CreateKeepsTraceable(s: State, terms: Terms, amount: real)
    requires Traceable(s) && CreateSpec(s, terms, amount).Ok?
    ensures Traceable(CreateSpec(s, terms, amount).value)
  {
    var s2 := CreateSpec(s, terms, amount).value;
    forall id | id in s2.rows && s2.rows[id].supersedes.Some? ensures LinkOk(s2.rows, id) {
      assert LinkOk(s.rows, id);
    }
    forall id | id in s2.rows && s2.rows[id].status == Active ensures Successors(s2.rows, id) == {} {
      SuccessorsAfterAdding(s, s2, id);
    }
  }

  lemma CorrectKeepsTraceable(s: State, id: Id, amount: real, reason: string)
    requires Traceable(s) && CorrectSpec(s, id, amount, reason).Ok?
    ensures Traceable(CorrectSpec(s, id, amount, reason).value)
  {
    CorrectKeepsLinks(s, id, amount, reason);
    var s2 := CorrectSpec(s, id, amount, reason).value;
    assert s2.rows.Keys == s.rows.Keys + {s.next};
    forall k | k in s2.rows && s2.rows[k].status == Active ensures Successors(s2.rows, k) == {} {
      SuccessorsAfterAdding(s, s2, k);
    }
  }

  lemma RemoveKeepsTraceable(s: State, id: Id)
    requires Traceable(s) && id in s.rows
    ensures Traceable(s.(rows := Unlinked(s.rows, id)))
  {
    RemoveKeepsLinks(s, id);
    var rows := Unlinked(s.rows, id);
    forall k | k in rows && rows[k].status == Active ensures Successors(rows, k) == {} {
      SuccessorsAfterRemoving(s, id, k);
    }
  }

  /** Over any run, whatever is removed, links lead to older rows and no row has two corrections: both walks end. */
  lemma {:induction false} LinksOverRuns(s: State, calls: seq<Call>)
    requires Traceable(s)
    ensures Traceable(Run(s, calls)) && Linked(Run(s, calls))
    decreases |calls|
  {
    if calls != [] {
      match calls[0] {
        case Create(terms, amount) =>
          if CreateSpec(s, terms, amount).Ok? {
            CreateKeepsTraceable(s, terms, amount);
          }
        case Correct(id, amount, reason) =>
          if CorrectSpec(s, id, amount, reason).Ok? {
            CorrectKeepsTraceable(s, id, amount, reason);
          }
        case Remove(id) =>
          if RemoveSpec(s, id).Ok? {
            RemoveKeepsTraceable(s, id);
          }
        case SetPeriod(period, status) =>
          assert forall k | k in s.rows && s.rows[k].supersedes.Some? :: LinkOk(s.rows, k);
      }
      LinksOverRuns(Step(s, calls[0]), calls[1..]);
    }
  }

  // ---- One chain, whichever link is asked ----

  lemma {:induction false} RootOfLink(s: State, id: Id, i: nat)
    requires Linked(s) && id in s.rows && i < |Forward(s, id)|
    ensures Root(s, Forward(s, id)[i]) == Root(s, id)
    decreases i
  {
    if i > 0 {
      RootOfLink(s, Successor(s, id), i - 1);
    }
  }

  /** A row lies on the forward walk from its root. */
  lemma {:induction false} OnForward(s: State, id: Id)
    requires Linked(s) && id in s.rows
    ensures id in History(s, id)
    decreases id
  {
    if s.rows[id].supersedes.Some? {
      var p := s.rows[id].supersedes.value;
      assert LinkOk(s.rows, id);
      OnForward(s, p);
      assert id in Successors(s.rows, p);
      SuccessorFacts(s, p, id);
      NextIsOn(s, Root(s, id), p);
    }
  }

  lemma {:induction false} NextIsOn(s: State, start: Id, p: Id)
    requires Linked(s) && start in s.rows && p in Forward(s, start) && Successors(s.rows, p) != {}
    ensures Successor(s, p) in Forward(s, start)
    decreases s.next - start
  {
    if p == start {
      assert Forward(s, start)[1] == Successor(s, p);
    } else {
      NextIsOn(s, Successor(s, start), p);
      assert forall x | x in Forward(s, Successor(s, start)) :: x in Forward(s, start);
    }
  }

  lemma {:induction false} ForwardIsAChain(s: State, id: Id, i: nat)
    requires Linked(s) && id in s.rows && i < |Forward(s, id)|
    ensures var chain := Forward(s, id);
            && s.rows[chain[i]].terms == s.rows[id].terms
            && (i + 1 < |chain| ==> s.rows[chain[i + 1]].supersedes == Some(chain[i]) && chain[i] < chain[i + 1])
            && (Successors(s.rows, chain[i]) == {} <==> i == |chain| - 1)
    decreases i
  {
    var chain := Forward(s, id);
    if Successors(s.rows, id) != {} {
      var k := Successor(s, id);
      assert LinkOk(s.rows, k);
      if i > 0 {
        ForwardIsAChain(s, k, i - 1);
      }
    }
  }

  /**
   * The history is the same from every link, holds the link asked about, runs oldest first with
   * each row correcting the one before it and the terms unchanged, and only its last row is active.
   */
  lemma HistoryIsTheWholeChain(s: State, id: Id, i: nat)
    requires Invariant(s) && id in s.rows && i < |History(s, id)|
    ensures var chain := History(s, id);
            && History(s, chain[i]) == chain && id in chain
            && s.rows[chain[i]].terms == s.rows[id].terms
            && (i == 0 ==> s.rows[chain[i]].supersedes.None?)
            && (i + 1 < |chain| ==> s.rows[chain[i + 1]].supersedes == Some(chain[i]) && chain[i] < chain[i + 1])
            && (s.rows[chain[i]].status == Active <==> i == |chain| - 1)
  {
    var root := Root(s, id);
    RootOfLink(s, root, i);
    OnForward(s, id);
    ForwardIsAChain(s, root, i);
    var j :| 0 <= j < |History(s, id)| && History(s, id)[j] == id;
    ForwardIsAChain(s, root, j);
    RootOfRoot(s, id);
  }

  lemma RootOfRoot(s: State, id: Id)
    requires Linked(s) && id in s.rows
    ensures Root(s, Root(s, id)) == Root(s, id)
  {
  }

  /** The listed row for a row: the end of its chain. */
  function Current(s: State, id: Id): Id
    requires Linked(s) && id in s.rows
  {
    History(s, id)[|History(s, id)| - 1]
  }

  lemma ChainRow(s: State, id: Id, i: nat)
    requires Invariant(s) && id in s.rows && i < |History(s, id)|
    ensures History(s, id)[i] in ListForPeriod(s, s.rows[id].terms.period) <==> i == |History(s, id)| - 1
  {
    HistoryIsTheWholeChain(s, id, i);
  }

  /** The listing of a period holds exactly one row for each of its chains. */
  lemma OneListedRowPerChain(s: State, id: Id, listed: Id)
    requires Invariant(s) && id in s.rows
    ensures listed in ListForPeriod(s, s.rows[id].terms.period) && listed in History(s, id)
       <==> listed == Current(s, id)
  {
    hide Linked, OneActiveEnd, ListForPeriod, Root, Forward;
    ChainRow(s, id, |History(s, id)| - 1);
    if listed in History(s, id) {
      var i :| 0 <= i < |History(s, id)| && History(s, id)[i] == listed;
      ChainRow(s, id, i);
    }
  }

  lemma StillLinkedMeansSuperseded(s: State, id: Id, x: Id, y: Id)
    requires Invariant(s) && id in s.rows && x in s.rows && x != id && y in Successors(Unlinked(s.rows, id), x)
    ensures Unlinked(s.rows, id)[x].status == Superseded
  {
    SuccessorsAfterRemoving(s, id, x);
    assert y in Successors(s.rows, x);
  }

  lemma OriginalStaysSuperseded(s: State, id: Id, p: Id)
    requires Invariant(s) && id in s.rows && s.rows[id].supersedes == Some(p)
    ensures p in s.rows && p != id && Unlinked(s.rows, id)[p].status == Superseded
              && Successors(Unlinked(s.rows, id), p) == {}
  {
    assert LinkOk(s.rows, id);
    assert id in Successors(s.rows, p);
    SuccessorFacts(s, p, id);
    SuccessorsAfterRemoving(s, id, p);
  }

  lemma EarlierRowSuperseded(s: State, id: Id, p: Id, i: nat)
    requires Invariant(s) && id in s.rows && s.rows[id].supersedes == Some(p)
    requires var s2 := s.(rows := Unlinked(s.rows, id)); Linked(s2) && p in s2.rows && i < |History(s2, p)|
    ensures var s2 := s.(rows := Unlinked(s.rows, id)); s2.rows[History(s2, p)[i]].status == Superseded
  {
    hide Linked, OneActiveEnd, Root, Forward, Unlinked, Successors;
    OriginalStaysSuperseded(s, id, p);
    var s2 := s.(rows := Unlinked(s.rows, id));
    var chain := History(s2, p);
    var x := chain[i];
    ForwardIsAChain(s2, Root(s2, p), i);
    if i < |chain| - 1 {
      LinkIsSuccessor(s2, x, chain[i + 1]);
      RowsAfterRemoval(s, id, x);
      StillLinkedMeansSuperseded(s, id, x, chain[i + 1]);
    } else {
      OnForward(s2, p);
      var j :| 0 <= j < |chain| && chain[j] == p;
      ForwardIsAChain(s2, Root(s2, p), j);
    }
  }

  lemma LinkIsSuccessor(s: State, x: Id, y: Id)
    requires y in s.rows && s.rows[y].supersedes == Some(x)
    ensures y in Successors(s.rows, x)
  {
  }

  lemma RowsAfterRemoval(s: State, id: Id, x: Id)
    requires x in Unlinked(s.rows, id)
    ensures x in s.rows && x != id
  {
  }

  /** Removing a correction leaves every earlier row of its chain superseded, so the listing shows none of them. */
  lemma RemovedCorrectionHidesTheChain(s: State, id: Id, p: Id)
    requires Invariant(s) && RemoveSpec(s, id).Ok? && s.rows[id].supersedes == Some(p)
    ensures Linked(RemoveSpec(s, id).value) && p in RemoveSpec(s, id).value.rows
    ensures forall x | x in History(RemoveSpec(s, id).value, p) :: RemoveSpec(s, id).value.rows[x].status == Superseded
  {
    RemoveKeepsLinks(s, id);
    OriginalStaysSuperseded(s, id, p);
    hide Linked, OneActiveEnd, Root, Forward, Unlinked, Successors;
    var s2 := RemoveSpec(s, id).value;
    forall x | x in History(s2, p) ensures s2.rows[x].status == Superseded {
      var i :| 0 <= i < |History(s2, p)| && History(s2, p)[i] == x;
      EarlierRowSuperseded(s, id, p, i);
    }
  }

  // ---- A reachable case ----

  const OPEN_BOOKS := State(map[], map[0 := Draft], {0}, 0)

  const BONUS := Terms(0, 0, Bonus, "Performance", "Target met")

  const ORIGINAL := Row(BONUS, 100.0, Active, None, None)

  /** A bonus is paid out, corrected, and the correction removed once the period is sent back. */
  const REMOVED_CORRECTION: seq<Call> := [
    Create(BONUS, 100.0), SetPeriod(0, AwaitingRelease), Correct(0, 80.0, "Overpaid"), SetPeriod(0, Draft), Remove(1)]

  /** The bonus is then in the books, superseded by nothing, and the listing of its period is empty. */
  lemma RemovedCorrectionReachable()
    ensures var e := Run(OPEN_BOOKS, REMOVED_CORRECTION);
            && e.rows == map[0 := ORIGINAL.(status := Superseded)] && Successors(e.rows, 0) == {}
            && ListForPeriod(e, 0) == {}
  {
    var calls := REMOVED_CORRECTION;
    var s1 := OPEN_BOOKS.(rows := map[0 := ORIGINAL], next := 1);
    var s2 := s1.(periods := map[0 := AwaitingRelease]);
    var corrected := Row(BONUS, 80.0, Active, Some(0), Some("Overpaid"));
    var s3 := s2.(rows := map[0 := ORIGINAL.(status := Superseded), 1 := corrected], next := 2);
    var s4 := s3.(periods := map[0 := Draft]);
    var s5 := s4.(rows := map[0 := ORIGINAL.(status := Superseded)]);
    assert Step(OPEN_BOOKS, calls[0]) == s1 && Step(s1, calls[1]) == s2 && Step(s2, calls[2]) == s3;
    assert Step(s3, calls[3]) == s4 && Step(s4, calls[4]) == s5;
    hide Step;
    assert calls[1..][1..] == calls[2..] && calls[2..][1..] == calls[3..] && calls[3..][1..] == calls[4..]
             && calls[4..][1..] == [];
    assert Run(s4, calls[4..]) == s5;
    assert Run(s2, calls[2..]) == Run(s3, calls[3..]) == s5;
    assert Run(OPEN_BOOKS, calls) == Run(s1, calls[1..]) == Run(s2, calls[2..]);
  }

  // ---- What the period listing shows ----

  /** A new adjustment is listed under its period, with the amount given; nothing else changes. */
  lemma CreatedIsListed(s: State, terms: Terms, amount: real, period: Id)
    requires Linked(s)
    ensures var r := CreateSpec(s, terms, amount);
            if terms.period in s.periods && terms.staff in s.staff then
              && r.Ok? && s.next in r.value.rows && r.value.rows[s.next].amount == amount
              && r.value.rows[s.next].terms == terms
              && (forall k | k in s.rows :: k in r.value.rows && r.value.rows[k] == s.rows[k])
              && ListForPeriod(r.value, period)
                 == ListForPeriod(s, period) + if period == terms.period then {s.next} else {}
            else r == Err(NotFound)
  {
  }

  /**
   * A correction takes the place of what it corrects in the listing, with the new amount and reason and the
   * same terms; what it corrects keeps its own amount. Only an active row outside a draft period can be corrected.
   */
  lemma CorrectionTakesItsPlace(s: State, id: Id, amount: real, reason: string, period: Id)
    requires Linked(s)
    ensures var r := CorrectSpec(s, id, amount, reason);
            && (r.Ok? <==> id in s.rows && s.rows[id].status == Active
                           && !(s.rows[id].terms.period in s.periods && s.periods[s.rows[id].terms.period] == Draft))
            && (r.Ok? ==>
                  var s2, was := r.value, s.rows[id];
                  && s.next in s2.rows && s2.rows[s.next].amount == amount && s2.rows[s.next].terms == was.terms
                  && s2.rows[s.next].correctionReason == Some(reason)
                  && id in s2.rows && s2.rows[id].(status := was.status) == was
                  && (forall k | k in s.rows && k != id :: k in s2.rows && s2.rows[k] == s.rows[k])
                  && ListForPeriod(s2, period)
                     == if period == was.terms.period then ListForPeriod(s, period) - {id} + {s.next}
                        else ListForPeriod(s, period))
  {
  }

  /** Only a row of a draft period can be removed; it leaves the listing, and others lose no more than a link to it. */
  lemma RemovedIsUnlisted(s: State, id: Id, period: Id, k: Id)
    ensures var r := RemoveSpec(s, id);
            && (r.Ok? <==> id in s.rows && s.rows[id].terms.period in s.periods
                           && s.periods[s.rows[id].terms.period] == Draft)
            && (r.Ok? ==>
                  && id !in r.value.rows && ListForPeriod(r.value, period) == ListForPeriod(s, period) - {id}
                  && (k in s.rows && k != id ==>
                        && k in r.value.rows && r.value.rows[k].(supersedes := s.rows[k].supersedes) == s.rows[k]
                        && (s.rows[k].supersedes != Some(id) ==> r.value.rows[k] == s.rows[k])))
  {
  }
}
