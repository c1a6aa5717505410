/** Influencer rewards: any number of calls racing from their reads to one atomic commit each. */
module InfluencerReward {
  import opened Base

  /** A discount use; money is in kobo. */
  datatype Usage = Usage(ofInfluencerCode: bool, influencer: Option<Id>, discount: int)

  datatype RewardType = Fixed | Percentage

  /** Amounts here are naira, as administrators enter them. */
  datatype Settings = Settings(isActive: bool, rewardType: RewardType, rewardValue: real, minPurchase: real)

  datatype Status = Pending | Rewarded

  datatype Reward = Reward(influencer: Id, amount: int, status: Status, transaction: Option<Id>)

  /** The wallet transaction, keyed by its unique reference: the usage it pays for. */
  datatype Payment = Payment(wallet: Id, amount: int)

  /** A wallet increment made by this service, in order: a history variable. */
  datatype Credit = Credit(usage: Id, wallet: Id, amount: int)

  /** Where one call stands between its awaits. */
  datatype Phase =
    | Reading(usage: Id, paid: real, existing: Option<Reward>)
    | Ready(usage: Id, wasPending: bool, amount: int, influencer: Id, wallet: Id)
    | Finished

  /**
   * `usages` and `wallets' owners` do not change; rewards and payments are keyed by usage, which
   * both tables keep unique. `other` is every wallet's balance without this service's credits.
   */
  datatype State = State(
    usages: map<Id, Usage>, walletOf: map<Id, Id>, rewards: map<Id, Reward>, payments: map<Id, Payment>,
    wallets: map<Id, int>, credits: seq<Credit>, other: map<Id, int>, calls: map<Id, Phase>)

  // ---- The amount ----

  function MinReal(x: real, y: real): real { if x <= y then x else y }

  /** In naira: a fixed sum, or a share of the discount that never exceeds it. */
  function FreshAmount(settings: Settings, discount: int): real {
    var naira := discount as real / 100.0;
    if settings.rewardType == Fixed then settings.rewardValue else MinReal(naira * settings.rewardValue / 100.0, naira)
  }

  /** Rounded to two decimals, in kobo. */
  function RoundToKobo(naira: real): int { Round(naira * 100.0) }

  predicate IsPending(existing: Option<Reward>) { existing.Some? && existing.value.status == Pending }

  /** A pending row keeps the amount it was given; otherwise the current settings decide. */
  function AmountFor(existing: Option<Reward>, settings: Settings, discount: int): int {
    var naira := if IsPending(existing) then existing.value.amount as real / 100.0 else FreshAmount(settings, discount);
    RoundToKobo(naira)
  }

  lemma PendingKeepsItsAmount(r: Reward, settings: Settings, discount: int)
    requires r.status == Pending
    ensures AmountFor(Some(r), settings, discount) == r.amount
  {
    WholeKoboStay(r.amount);
  }

  lemma WholeKoboStay(k: int)
    ensures Round(k as real) == k && RoundToKobo(k as real / 100.0) == k
  {
    assert (k as real + 0.5).Floor == k;
    assert k as real / 100.0 * 100.0 == k as real;
  }

  /** A percentage reward never exceeds the discount given, rounding included. */
  lemma PercentageWithinDiscount(settings: Settings, discount: int)
    requires settings.rewardType == Percentage
    ensures RoundToKobo(FreshAmount(settings, discount)) <= discount
  {
    var naira := discount as real / 100.0;
    WholeKoboStay(discount);
    assert FreshAmount(settings, discount) <= naira;
    RoundMonotone(FreshAmount(settings, discount) * 100.0, naira * 100.0);
  }

  // ---- The three steps of a call ----

  /** Reads the usage and any reward row it already has. */
  function FirstPhase(s: State, usage: Id, paid: real): Phase {
    if usage !in s.usages then Finished
    else if !s.usages[usage].ofInfluencerCode || s.usages[usage].influencer.None? then Finished
    else if usage in s.rewards && s.rewards[usage].status == Rewarded then Finished
    else Reading(usage, paid, if usage in s.rewards then Some(s.rewards[usage]) else None)
  }

  /** Settles the amount, the influencer and the wallet. */
  function NextPhase(s: State, p: Phase, settings: Settings): Phase
    requires p.Reading? && p.usage in s.usages && s.usages[p.usage].influencer.Some?
  {
    var u := s.usages[p.usage];
    var pending := IsPending(p.existing);
    var amount := AmountFor(p.existing, settings, u.discount);
    var influencer := u.influencer.value;
    if !pending && (!settings.isActive || p.paid < settings.minPurchase) then Finished
    else if amount <= 0 || influencer !in s.walletOf || s.walletOf[influencer] !in s.wallets then Finished
    else Ready(p.usage, pending, amount, influencer, s.walletOf[influencer])
  }

  /** The transaction goes through unless the reference exists, or the row is not as the call first saw it. */
  predicate Commits(s: State, p: Phase)
    requires p.Ready?
  {
    && p.usage !in s.payments
    && (if p.wasPending then p.usage in s.rewards && s.rewards[p.usage].status == Pending else p.usage !in s.rewards)
    && p.wallet in s.wallets
  }

  /** One database transaction: payment row, reward row, wallet balance. */
  function Pay(s: State, p: Phase): State
    requires p.Ready? && Commits(s, p)
  {
    var reward := if p.wasPending
        then s.rewards[p.usage].(status := Rewarded, amount := p.amount, transaction := Some(p.usage))
                  else Reward(p.influencer, p.amount, Rewarded, Some(p.usage));
    s.(payments := s.payments[p.usage := Payment(p.wallet, p.amount)],
       rewards := s.rewards[p.usage := reward],
       wallets := s.wallets[p.wallet := s.wallets[p.wallet] + p.amount],
       credits := s.credits + [Credit(p.usage, p.wallet, p.amount)])
  }

  /** The transaction, or its complete rollback. */
  function Commit(s: State, p: Phase): State
    requires p.Ready?
  {
    if Commits(s, p) then Pay(s, p) else s
  }

  function WithPhase(s: State, call: Id, p: Phase): State { s.(calls := s.calls[call := p]) }

  // ---- Interleavings ----

  /** Pending rows and all other wallet traffic come from elsewhere. */
  datatype Event =
    | Start(call: Id, usage: Id, paid: real)
    | Settle(call: Id, settings: Settings)
    | Transact(call: Id)
    | SeedPending(usage: Id, influencer: Id, amount: int)
    | OtherMove(wallet: Id, delta: int)

  function Step(s: State, e: Event): State {
    match e
    case Start(call, usage, paid) => if call in s.calls then s else WithPhase(s, call, FirstPhase(s, usage, paid))
    case Settle(call, settings) =>
      if call in s.calls && s.calls[call].Reading? && s.calls[call].usage in s.usages
         && s.usages[s.calls[call].usage].influencer.Some?
      then WithPhase(s, call, NextPhase(s, s.calls[call], settings)) else s
    case Transact(call) =>
      if call in s.calls && s.calls[call].Ready? then WithPhase(Commit(s, s.calls[call]), call, Finished) else s
    case SeedPending(usage, influencer, amount) =>
      if usage in s.rewards then s else s.(rewards := s.rewards[usage := Reward(influencer, amount, Pending, None)])
    case OtherMove(wallet, delta) => if wallet in s.wallets && wallet in s.other then Moved(s, wallet, delta) else s
  }

  function Moved(s: State, wallet: Id, delta: int): State
    requires wallet in s.wallets && wallet in s.other
  {
    s.(wallets := s.wallets[wallet := s.wallets[wallet] + delta], other := s.other[wallet := s.other[wallet] + delta])
  }

  function Run(s: State, events: seq<Event>): State
    decreases |events|
  {
    if events == [] then s else Run(Step(s, events[0]), events[1..])
  }

  function Credited(credits: seq<Credit>, wallet: Id): int {
    if credits == [] then 0
    else
      var last := credits[|credits| - 1];
      Credited(credits[..|credits| - 1], wallet) + if last.wallet == wallet then last.amount else 0
  }

  /** Every credit has its payment and its rewarded row, all of one amount, and the other way round. */
  ghost predicate PaidOnce(s: State) {
    && (forall i | 0 <= i < |s.credits| :: Backed(s, s.credits[i]))
    && (forall i, j | 0 <= i < j < |s.credits| :: s.credits[i].usage != s.credits[j].usage)
    && (forall u | u in s.payments :: exists i :: 0 <= i < |s.credits| && s.credits[i].usage == u)
    && (forall u | u in s.rewards && s.rewards[u].status == Rewarded :: u in s.payments)
  }

  predicate Backed(s: State, c: Credit) {
    && c.amount > 0
    && c.usage in s.payments && s.payments[c.usage] == Payment(c.wallet, c.amount)
    && c.usage in s.rewards && s.rewards[c.usage].status == Rewarded && s.rewards[c.usage].amount == c.amount
    && s.rewards[c.usage].transaction == Some(c.usage)
  }

  ghost predicate Balanced(s: State) {
    s.wallets.Keys == s.other.Keys && forall w | w in s.wallets :: BalancedAt(s, w)
  }

  predicate BalancedAt(s: State, w: Id)
    requires w in s.wallets && w in s.other
  {
    s.wallets[w] == s.other[w] + Credited(s.credits, w)
  }

  ghost predicate PositiveAmounts(s: State) {
    forall c | c in s.calls && s.calls[c].Ready? :: s.calls[c].amount > 0
  }

  ghost predicate Invariant(s: State) { PaidOnce(s) && Balanced(s) && PositiveAmounts(s) }

  /** Nothing paid yet: any usages, wallets and pending rows. */
  ghost predicate Initial(s: State) {
    && s.payments == map[] && s.credits == [] && s.calls == map[] && s.other == s.wallets
    && forall u | u in s.rewards :: s.rewards[u].status == Pending
  }

  lemma PayKeepsPaidOnce(s: State, p: Phase)
    requires PaidOnce(s) && p.Ready? && p.amount > 0 && Commits(s, p)
    ensures PaidOnce(Pay(s, p))
  {
    var s2 := Pay(s, p);
    var n := |s.credits|;
    forall i | 0 <= i < |s2.credits| ensures Backed(s2, s2.credits[i]) {
      if i < n {
        assert Backed(s, s.credits[i]);
      }
    }
    forall i, j | 0 <= i < j < |s2.credits| ensures s2.credits[i].usage != s2.credits[j].usage {
      assert Backed(s, s.credits[i]);
    }
    forall u | u in s2.payments ensures exists i :: 0 <= i < |s2.credits| && s2.credits[i].usage == u {
      if u == p.usage {
        assert s2.credits[n].usage == u;
      } else {
        var i :| 0 <= i < n && s.credits[i].usage == u;
        assert s2.credits[i].usage == u;
      }
    }
  }

  lemma PayKeepsBalance(s: State, p: Phase)
    requires Balanced(s) && p.Ready? && Commits(s, p)
    ensures Balanced(Pay(s, p))
  {
  }

  /** What every step but a successful commit leaves alone. */
  ghost predicate NothingPaid(s: State, s2: State) {
    && s2.credits == s.credits && s2.payments == s.payments
    && (forall u | u in s.rewards :: u in s2.rewards && s2.rewards[u] == s.rewards[u])
    && (forall u | u in s2.rewards && u !in s.rewards :: s2.rewards[u].status == Pending)
  }

  lemma NothingPaidKeeps(s: State, s2: State)
    requires PaidOnce(s) && NothingPaid(s, s2)
    ensures PaidOnce(s2)
  {
  }

  lemma MovedKeepsBalance(s: State, wallet: Id, delta: int)
    requires Balanced(s) && wallet in s.wallets && wallet in s.other
    ensures Balanced(Moved(s, wallet, delta))
  {
  }

  lemma NewPhaseKeeps(s: State, call: Id, p: Phase)
    requires Invariant(s) && (p.Ready? ==> p.amount > 0)
    ensures Invariant(WithPhase(s, call, p))
  {
  }

  lemma CommitKeeps(s: State, p: Phase)
    requires Invariant(s) && p.Ready? && p.amount > 0
    ensures Invariant(Commit(s, p))
  {
    if Commits(s, p) {
      PayKeepsPaidOnce(s, p);
      PayKeepsBalance(s, p);
    }
  }

  lemma SeedKeeps(s: State, usage: Id, row: Reward)
    requires Invariant(s) && usage !in s.rewards && row.status == Pending
    ensures Invariant(s.(rewards := s.rewards[usage := row]))
  {
  }

  lemma MovedKeeps(s: State, wallet: Id, delta: int)
    requires Invariant(s) && wallet in s.wallets && wallet in s.other
    ensures Invariant(Moved(s, wallet, delta))
  {
    NothingPaidKeeps(s, Moved(s, wallet, delta));
    MovedKeepsBalance(s, wallet, delta);
  }

  lemma StepKeeps(s: State, e: Event)
    requires Invariant(s)
    ensures Invariant(Step(s, e))
  {
    hide Commit, WithPhase, PaidOnce, Balanced, AmountFor;
    match e {
      case Start(call, usage, paid) => NewPhaseKeeps(s, call, FirstPhase(s, usage, paid));
      case Settle(call, settings) =>
        if call in s.calls && s.calls[call].Reading? && s.calls[call].usage in s.usages
           && s.usages[s.calls[call].usage].influencer.Some? {
          NewPhaseKeeps(s, call, NextPhase(s, s.calls[call], settings));
        }
      case Transact(call) =>
        if call in s.calls && s.calls[call].Ready? {
          CommitKeeps(s, s.calls[call]);
          NewPhaseKeeps(Commit(s, s.calls[call]), call, Finished);
        }
      case SeedPending(usage, influencer, amount) =>
        if usage !in s.rewards {
          SeedKeeps(s, usage, Reward(influencer, amount, Pending, None));
        }
      case OtherMove(wallet, delta) =>
        if wallet in s.wallets && wallet in s.other {
          MovedKeeps(s, wallet, delta);
        }
    }
  }

  lemma {:induction false} InvariantOverInterleavings(s: State, events: seq<Event>)
    requires Invariant(s)
    ensures Invariant(Run(s, events))
    decreases |events|
  {
    if events != [] {
      StepKeeps(s, events[0]);
      InvariantOverInterleavings(Step(s, events[0]), events[1..]);
    }
  }

  /**
   * Under every interleaving: no two credits are for one usage, each matches one payment and one
   * rewarded row of its amount, and each wallet holds its other traffic plus its credits.
   */
  lemma EachUsageCreditedAtMostOnce(s: State, events: seq<Event>, i: nat, j: nat)
    requires Initial(s) && i < j < |Run(s, events).credits|
    ensures var s2 := Run(s, events); s2.credits[i].usage != s2.credits[j].usage
  {
    InvariantOverInterleavings(s, events);
  }

  lemma CreditsMatchRows(s: State, events: seq<Event>, u: Id)
    requires Initial(s)
    ensures var s2 := Run(s, events);
            && (u in s2.payments <==> u in s2.rewards && s2.rewards[u].status == Rewarded)
            && (u in s2.payments ==>
                  && s2.rewards[u].amount == s2.payments[u].amount > 0
                  && Credit(u, s2.payments[u].wallet, s2.payments[u].amount) in s2.credits)
  {
    InvariantOverInterleavings(s, events);
    var s2 := Run(s, events);
    if u in s2.payments {
      var i :| 0 <= i < |s2.credits| && s2.credits[i].usage == u;
      assert Backed(s2, s2.credits[i]);
    }
  }

  lemma WalletsHoldTheirCredits(s: State, events: seq<Event>, w: Id)
    requires Initial(s) && w in Run(s, events).wallets
    ensures var s2 := Run(s, events); w in s2.other && s2.wallets[w] == s2.other[w] + Credited(s2.credits, w)
  {
    InvariantOverInterleavings(s, events);
    assert BalancedAt(Run(s, events), w);
  }

  // ---- A call on its own ----

  /** The three steps in one go. */
  function Outcome(s: State, usage: Id, paid: real, settings: Settings): State {
    var p := FirstPhase(s, usage, paid);
    if p.Reading? then
      var p2 := NextPhase(s, p, settings);
      if p2.Ready? then Commit(s, p2) else s
    else s
  }

  /** An undisturbed call is the three steps in one go. */
  lemma UndisturbedCall(s: State, call: Id, usage: Id, paid: real, settings: Settings)
    requires call !in s.calls
    ensures Run(s, [Start(call, usage, paid), Settle(call, settings), Transact(call)])
         == WithPhase(Outcome(s, usage, paid, settings), call, Finished)
  {
    RunThree(s, Start(call, usage, paid), Settle(call, settings), Transact(call));
    var p := FirstPhase(s, usage, paid);
    FirstStep(s, call, usage, paid);
    if p.Reading? {
      var p2 := NextPhase(s, p, settings);
      SecondStep(s, call, p, settings);
      LastStep(s, call, p2);
    }
  }

  lemma FirstStep(s: State, call: Id, usage: Id, paid: real)
    requires call !in s.calls
    ensures Step(s, Start(call, usage, paid)) == WithPhase(s, call, FirstPhase(s, usage, paid))
  {
  }

  lemma SecondStep(s: State, call: Id, p: Phase, settings: Settings)
    requires p.Reading? && p.usage in s.usages && s.usages[p.usage].influencer.Some?
    ensures Step(WithPhase(s, call, p), Settle(call, settings)) == WithPhase(s, call, NextPhase(s, p, settings))
  {
    hide AmountFor, Commit, FirstPhase;
    assert s.calls[call := p][call := NextPhase(s, p, settings)] == s.calls[call := NextPhase(s, p, settings)];
  }

  lemma PayIgnoresCalls(s: State, calls: map<Id, Phase>, p: Phase)
    requires p.Ready? && Commits(s, p)
    ensures Commits(s.(calls := calls), p) && Pay(s.(calls := calls), p) == Pay(s, p).(calls := calls)
  {
  }

  lemma LastStep(s: State, call: Id, p: Phase)
    ensures Step(WithPhase(s, call, p), Transact(call))
         == if p.Ready? then WithPhase(Commit(s, p), call, Finished) else WithPhase(s, call, p)
  {
    hide NextPhase, FirstPhase, Pay;
    if p.Ready? && Commits(s, p) {
      PayIgnoresCalls(s, s.calls[call := p], p);
      PayIgnoresCalls(s, s.calls, p);
    }
    assert s.calls[call := p][call := Finished] == s.calls[call := Finished];
  }

  lemma RunThree(s: State, a: Event, b: Event, c: Event)
    ensures Run(s, [a, b, c]) == Step(Step(Step(s, a), b), c)
  {
    hide Step;
    assert [a, b, c][1..] == [b, c] && [b, c][1..] == [c] && [c][1..] == [];
    assert Run(Step(s, a), [b, c]) == Run(Step(Step(s, a), b), [c]);
    assert Run(Step(Step(s, a), b), [c]) == Run(Step(Step(Step(s, a), b), c), []);
  }

  /** What the influencer is due for a usage not yet rewarded. */
  function Due(s: State, usage: Id, settings: Settings): int
    requires usage in s.usages
  {
    if usage in s.rewards then s.rewards[usage].amount else AmountFor(None, settings, s.usages[usage].discount)
  }

  predicate Payable(s: State, usage: Id, paid: real, settings: Settings) {
    && usage in s.usages && s.usages[usage].ofInfluencerCode && s.usages[usage].influencer.Some?
    && s.usages[usage].influencer.value in s.walletOf && s.walletOf[s.usages[usage].influencer.value] in s.wallets
    && (usage in s.rewards ==> s.rewards[usage].status == Pending)
    && (usage !in s.rewards ==> settings.isActive && settings.minPurchase <= paid)
    && Due(s, usage, settings) > 0
  }

  function Payee(s: State, usage: Id): Id
    requires usage in s.usages && s.usages[usage].influencer.Some? && s.usages[usage].influencer.value in s.walletOf
  {
    s.walletOf[s.usages[usage].influencer.value]
  }

  lemma RewardedIsPaid(s: State, usage: Id)
    requires PaidOnce(s)
    ensures usage in s.payments <==> usage in s.rewards && s.rewards[usage].status == Rewarded
  {
  }

  /** An undisturbed call credits exactly the amount due, and does so exactly when the usage is payable. */
  lemma AloneCreditsIff(s: State, usage: Id, paid: real, settings: Settings)
    requires Invariant(s)
    ensures var s2 := Outcome(s, usage, paid, settings);
            if Payable(s, usage, paid, settings) then
              s2.credits == s.credits + [Credit(usage, Payee(s, usage), Due(s, usage, settings))]
            else s2 == s
  {
    hide PaidOnce, Balanced, PositiveAmounts, AmountFor;
    RewardedIsPaid(s, usage);
    if usage in s.rewards && s.rewards[usage].status == Pending && usage in s.usages {
      PendingKeepsItsAmount(s.rewards[usage], settings, s.usages[usage].discount);
    }
  }

  // ---- How much is credited, and to whom ----

  lemma ShareInKobo(discount: int, v: real)
    ensures discount as real / 100.0 * v / 100.0 * 100.0 * 100.0 == discount as real * v
    ensures discount as real / 100.0 * 100.0 == discount as real
  {
    var d := discount as real;
    assert d / 100.0 * v / 100.0 * 100.0 == d / 100.0 * v;
    assert d / 100.0 * v * 100.0 == d * v;
  }

  lemma ShareWithin(discount: int, v: real)
    requires discount >= 0
    ensures v <= 100.0 ==> discount as real * v <= discount as real * 100.0
    ensures v >= 100.0 ==> discount as real * v >= discount as real * 100.0
  {
    var d := discount as real;
    assert d * (100.0 - v) == d * 100.0 - d * v;
    if v <= 100.0 {
      assert d * (100.0 - v) >= 0.0;
    } else {
      assert d * (v - 100.0) >= 0.0;
    }
  }

  /** In kobo and to within half of one: v naira, or v percent of the discount, which it never exceeds. */
  predicate RightAmount(settings: Settings, discount: int, kobo: int) {
    var v := settings.rewardValue;
    match settings.rewardType
    case Fixed => -0.5 <= kobo as real - 100.0 * v <= 0.5
    case Percentage =>
      if v > 100.0 then kobo == discount else -50.0 <= 100.0 * kobo as real - discount as real * v <= 50.0
  }

  lemma FreshAmountIsRight(settings: Settings, discount: int)
    requires settings.rewardType == Percentage ==> discount >= 0
    ensures RightAmount(settings, discount, RoundToKobo(FreshAmount(settings, discount)))
  {
    ShareInKobo(discount, settings.rewardValue);
    if settings.rewardType == Percentage {
      ShareWithin(discount, settings.rewardValue);
      WholeKoboStay(discount);
    }
  }

  /**
   * What a payable usage brings: one credit to its influencer's wallet, of the row's amount if a row was
   * pending and of the settings' amount if there was none, and the row, the payment and the balance say so.
   */
  lemma PayableIsCredited(s: State, usage: Id, paid: real, settings: Settings)
    requires Invariant(s) && Payable(s, usage, paid, settings)
    ensures var s2, n, u := Outcome(s, usage, paid, settings), |s.credits|, s.usages[usage];
            && |s2.credits| == n + 1 && s2.credits[..n] == s.credits && s2.credits[n].usage == usage
            && s2.credits[n].wallet == s.walletOf[u.influencer.value]
            && var amount, wallet := s2.credits[n].amount, s2.credits[n].wallet;
               && amount > 0
               && (if usage in s.rewards then amount == s.rewards[usage].amount
                   else RightAmount(settings, u.discount, amount))
               && usage in s2.rewards && s2.rewards[usage].status == Rewarded && s2.rewards[usage].amount == amount
               && s2.rewards[usage].influencer
                  == (if usage in s.rewards then s.rewards[usage].influencer else u.influencer.value)
               && wallet in s2.wallets && s2.wallets == s.wallets[wallet := s.wallets[wallet] + amount]
               && s2.payments == s.payments[usage := Payment(wallet, amount)]
               && s2.rewards == s.rewards[usage := s2.rewards[usage]]
  {
    AloneCreditsIff(s, usage, paid, settings);
    RewardedIsPaid(s, usage);
    var u := s.usages[usage];
    if usage in s.rewards {
      PendingKeepsItsAmount(s.rewards[usage], settings, u.discount);
    } else {
      if settings.rewardType == Percentage {
        PercentageWithinDiscount(settings, u.discount);
      }
      FreshAmountIsRight(settings, u.discount);
    }
    hide Invariant, RoundToKobo, FreshAmount, RightAmount;
  }

  // ---- The service, one call at a time ----

  class DiscountService {
    var usages: map<Id, Usage>
    var walletOf: map<Id, Id>
    var rewards: map<Id, Reward>
    var payments: map<Id, Payment>
    var wallets: map<Id, int>
    ghost var credits: seq<Credit>

    constructor (usages: map<Id, Usage>, walletOf: map<Id, Id>, rewards: map<Id, Reward>, wallets: map<Id, int>)
      ensures this.usages == usages && this.walletOf == walletOf && this.rewards == rewards && this.wallets == wallets
      ensures payments == map[] && credits == []
    {
      this.usages, this.walletOf, this.rewards, this.wallets := usages, walletOf, rewards, wallets;
      payments, credits := map[], [];
    }

    ghost function Tables(other: map<Id, int>): State
      reads this
    {
      State(usages, walletOf, rewards, payments, wallets, credits, other, map[])
    }

    method ProcessInfluencerReward(usageId: Id, paid: real, settings: Settings, ghost other: map<Id, int>)
      modifies this
      ensures Tables(other) == Outcome(old(Tables(other)), usageId, paid, settings)
    {
      hide AmountFor;
      if usageId !in usages {
        return;
      }
      var usage := usages[usageId];
      if !usage.ofInfluencerCode || usage.influencer.None? {
        return;
      }
      var existing := if usageId in rewards then Some(rewards[usageId]) else None;
      if existing.Some? && existing.value.status == Rewarded {
        return;
      }
      var pending := IsPending(existing);
      if !pending && (!settings.isActive || paid < settings.minPurchase) {
        return;
      }
      var amount := AmountFor(existing, settings, usage.discount);
      if amount <= 0 {
        return;
      }
      var influencer := usage.influencer.value;
      if influencer !in walletOf || walletOf[influencer] !in wallets {
        return;
      }
      var wallet := walletOf[influencer];
      if usageId in payments {
        return;
      }
      payments := payments[usageId := Payment(wallet, amount)];
      if pending {
        rewards := rewards[usageId :=
                           rewards[usageId].(status := Rewarded, amount := amount, transaction := Some(usageId))];
      } else {
        rewards := rewards[usageId := Reward(influencer, amount, Rewarded, Some(usageId))];
      }
      wallets := wallets[wallet := wallets[wallet] + amount];
      credits := credits + [Credit(usageId, wallet, amount)];
    }
  }
}
