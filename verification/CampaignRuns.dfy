/** Runs of the campaign sender: cooldowns, one row per template, steps in order, and when a sequence stops short. */
module CampaignRuns {
  import opened Base
  import opened Campaign

  /** Detect is the other cron's write; Elapse is time between polls; Handle is one transition of one poll. */
  datatype Call = Detect(subject: Subject, lifecycle: Lifecycle) | Elapse(ms: nat) | Handle(t: Id, w: World)

  function Step(cfg: Config, s: State, c: Call): State {
    match c
    case Detect(subject, lifecycle) =>
      s.(transitions := s.transitions + [Transition(subject, lifecycle, s.clock, None)])
    case Elapse(ms) => s.Tick(ms)
    case Handle(t, w) => if Pending(s, t) then HandleSpec(cfg, s, t, w).state else s
  }

  function Run(cfg: Config, s: State, calls: seq<Call>): State
    decreases |calls|
  {
    if calls == [] then s else Run(cfg, Step(cfg, s, calls[0]), calls[1..])
  }

  const EMPTY := State([], [], [], 0)

  // ---- What always holds of the two send tables ----

  predicate SameTemplateRow(a: Send, b: Send) { a.transition == b.transition && a.template == b.template }

  /** Both went out, from one template to one subject. */
  predicate Rival(s: State, a: Send, b: Send) {
    && a.outcome.Sent? && b.outcome.Sent? && a.template == b.template
    && a.transition < |s.transitions| && b.transition < |s.transitions|
    && s.transitions[a.transition].subject == s.transitions[b.transition].subject
  }

  predicate SendOk(cfg: Config, s: State, row: Send) {
    && row.transition < |s.transitions| && row.template < |cfg.templates|
    && (row.outcome.Sent? ==> row.outcome.at <= s.clock && DueBy(cfg, s, row.transition, row.template, row.outcome.at))
  }

  /** The template's delay since detection has passed. */
  predicate DueBy(cfg: Config, s: State, t: Id, k: Id, at: int)
    requires t < |s.transitions| && k < |cfg.templates|
  {
    s.transitions[t].detectedAt + cfg.templates[k].delayDays * DAY_MS <= at
  }

  predicate SendPairOk(cfg: Config, s: State, a: Send, b: Send) {
    && !SameTemplateRow(a, b)
    && (Rival(s, a, b) && a.template < |cfg.templates| ==>
          a.outcome.at + cfg.templates[a.template].cooldownDays * DAY_MS <= b.outcome.at)
  }

  ghost predicate SendsOk(cfg: Config, s: State) {
    && (forall i | 0 <= i < |s.sends| :: SendOk(cfg, s, s.sends[i]))
    && (forall i, j | 0 <= i < j < |s.sends| :: SendPairOk(cfg, s, s.sends[i], s.sends[j]))
  }

  function RowsOf(rows: seq<StepSend>, t: Id): nat {
    if rows == [] then 0 else RowsOf(rows[..|rows| - 1], t) + if rows[|rows| - 1].transition == t then 1 else 0
  }

  /** A row's own facts: it is the next step after the rows before it, and step 1 waits from detection. */
  predicate StepRowOk(cfg: Config, s: State, i: nat)
    requires i < |s.stepSends|
  {
    var row := s.stepSends[i];
    && row.transition < |s.transitions|
    && row.createdAt <= s.clock
    && (row.outcome.Sent? ==> row.outcome.at <= s.clock)
    && var transition := s.transitions[row.transition];
       var steps := cfg.Steps(transition.lifecycle);
       && row.step < |steps|
       && row.step == RowsOf(s.stepSends[..i], row.transition)
       && (row.step == 0 && row.outcome != SkippedCooldown && cfg.StepChannel(steps[0]).Some? ==>
             transition.detectedAt + steps[0].delayMinutes * MINUTE_MS <= row.createdAt)
  }

  /** Later steps wait from earlier rows; a new start of the sequence waits out its cooldown. */
  predicate StepPairOk(cfg: Config, s: State, a: StepSend, b: StepSend) {
    a.transition < |s.transitions| && b.transition < |s.transitions| ==>
      var ta, tb := s.transitions[a.transition], s.transitions[b.transition];
      var steps := cfg.Steps(tb.lifecycle);
      && (a.transition == b.transition && b.step < |steps| && cfg.StepChannel(steps[b.step]).Some? ==>
            a.createdAt + steps[b.step].delayMinutes * MINUTE_MS <= b.createdAt)
      && (a.outcome.Sent? && b.outcome.Sent? && b.step == 0 && ta.subject == tb.subject && ta.lifecycle == tb.lifecycle
          && tb.lifecycle in cfg.sequences ==>
            a.outcome.at + cfg.sequences[tb.lifecycle].cooldownDays * DAY_MS <= b.outcome.at)
  }

  ghost predicate StepsOk(cfg: Config, s: State) {
    && (forall i | 0 <= i < |s.stepSends| :: StepRowOk(cfg, s, i))
    && (forall i, j | 0 <= i < j < |s.stepSends| :: StepPairOk(cfg, s, s.stepSends[i], s.stepSends[j]))
  }

  // ---- The searches find what they look for ----

  lemma {:induction false} LastSentBounds(sends: seq<Send>, transitions: seq<Transition>, k: Id, subject: Subject,
                                          i: nat)
    requires i < |sends| && sends[i].template == k && sends[i].outcome.Sent?
    requires sends[i].transition < |transitions| && transitions[sends[i].transition].subject == subject
    ensures LastSent(sends, transitions, k, subject).Some?
    ensures sends[i].outcome.at <= LastSent(sends, transitions, k, subject).value
    decreases |sends|
  {
    if i < |sends| - 1 {
      LastSentBounds(sends[..|sends| - 1], transitions, k, subject, i);
    }
  }

  lemma {:induction false} LastStepSentBounds(rows: seq<StepSend>, transitions: seq<Transition>, l: Lifecycle,
                                              subject: Subject, i: nat)
    requires i < |rows| && rows[i].outcome.Sent? && rows[i].transition < |transitions|
    requires transitions[rows[i].transition].lifecycle == l && transitions[rows[i].transition].subject == subject
    ensures LastStepSent(rows, transitions, l, subject).Some?
    ensures rows[i].outcome.at <= LastStepSent(rows, transitions, l, subject).value
    decreases |rows|
  {
    if i < |rows| - 1 {
      LastStepSentBounds(rows[..|rows| - 1], transitions, l, subject, i);
    }
  }

  lemma {:induction false} LastProcessedBounds(rows: seq<StepSend>, t: Id, i: nat)
    requires i < |rows| && rows[i].transition == t
    ensures LastProcessed(rows, t).Some? && rows[i].createdAt <= LastProcessed(rows, t).value
    decreases |rows|
  {
    if i < |rows| - 1 {
      LastProcessedBounds(rows[..|rows| - 1], t, i);
    }
  }

  // ---- One template row ----

  lemma RecordKeeps(cfg: Config, s: State, t: Id, k: Id, outcome: Outcome)
    requires SendsOk(cfg, s) && t < |s.transitions| && k < |cfg.templates| && !HasRow(s.sends, t, k)
    requires outcome.Sent? ==> CooledDown(cfg, s, t, k, outcome.at) && DueBy(cfg, s, t, k, outcome.at)
    ensures SendsOk(cfg, Record(s, t, k, outcome))
  {
  }

  ghost predicate CooledDown(cfg: Config, s: State, t: Id, k: Id, at: int)
    requires t < |s.transitions| && k < |cfg.templates|
  {
    forall i | 0 <= i < |s.sends| && s.sends[i].template == k && s.sends[i].outcome.Sent?
      && s.sends[i].transition < |s.transitions|
      && s.transitions[s.sends[i].transition].subject == s.transitions[t].subject ::
      s.sends[i].outcome.at + cfg.templates[k].cooldownDays * DAY_MS <= at
  }

  lemma TickKeeps(cfg: Config, s: State, d: nat)
    requires SendsOk(cfg, s)
    ensures SendsOk(cfg, s.Tick(d))
  {
  }

  lemma AttemptKeeps(cfg: Config, s: State, t: Id, k: Id, a: Attempt)
    requires SendsOk(cfg, s) && t < |s.transitions| && k < |cfg.templates| && !HasRow(s.sends, t, k)
    requires DueBy(cfg, s, t, k, s.clock)
    ensures SendsOk(cfg, AttemptSendSpec(cfg, s, t, k, a).state)
  {
    var template := cfg.templates[k];
    var subject := s.transitions[t].subject;
    TickKeeps(cfg, s, a.reading);
    if a.stopped {
    } else if template.channel == Push && subject.Customer? {
      RecordKeeps(cfg, s, t, k, SkippedNoContact);
    } else {
      var s1 := s.Tick(a.reading);
      var last := LastSent(s.sends, s.transitions, k, subject);
      if last.Some? && s1.clock - last.value < template.cooldownDays * DAY_MS {
        RecordKeeps(cfg, s1, t, k, SkippedCooldown);
      } else {
        var outcome := Deliver(template.channel, a, s1.clock);
        if outcome.Sent? {
          forall i | 0 <= i < |s1.sends| && s1.sends[i].template == k && s1.sends[i].outcome.Sent?
            && s1.sends[i].transition < |s1.transitions| && s1.transitions[s1.sends[i].transition].subject == subject
            ensures s1.sends[i].outcome.at + template.cooldownDays * DAY_MS <= outcome.at
          {
            LastSentBounds(s.sends, s.transitions, k, subject, i);
          }
        }
        RecordKeeps(cfg, s1, t, k, outcome);
      }
    }
  }

  lemma {:induction false} TemplatesKeep(cfg: Config, s: State, t: Id, now: int, w: World, k: nat)
    requires SendsOk(cfg, s) && t < |s.transitions| && k <= |cfg.templates| && now <= s.clock
    ensures SendsOk(cfg, TemplatesSpec(cfg, s, t, now, w, k).state)
    decreases k
  {
    if k > 0 {
      TemplatesKeep(cfg, s, t, now, w, k - 1);
      var p := TemplatesSpec(cfg, s, t, now, w, k - 1);
      if !p.interrupted && !HasRow(p.state.sends, t, k - 1) && DueBy(cfg, p.state, t, k - 1, p.state.clock) {
        AttemptKeeps(cfg, p.state, t, k - 1, w.For(k - 1));
      }
    }
  }

  /** An attempt that is not interrupted writes exactly one row, and never touches the others. */
  lemma AttemptWritesOneRow(cfg: Config, s: State, t: Id, k: Id, a: Attempt)
    requires t < |s.transitions| && k < |cfg.templates|
    ensures var r := AttemptSendSpec(cfg, s, t, k, a);
            if a.stopped then r.interrupted && r.state.sends == s.sends
            else exists outcome :: r.state.sends == s.sends + [Send(t, k, outcome)]
                               && (r.interrupted ==> outcome.Sent?)
  {
    var r := AttemptSendSpec(cfg, s, t, k, a);
    if !a.stopped {
      var outcome := r.state.sends[|s.sends|].outcome;
      assert r.state.sends == s.sends + [Send(t, k, outcome)];
    }
  }

  /** Some template meant for the subject still has no row. */
  ghost predicate Unsent(cfg: Config, s: State, t: Id, tier: Tier, k: nat)
    requires t < |s.transitions| && k <= |cfg.templates|
  {
    exists i :: 0 <= i < k && Applicable(cfg, s.transitions[t], tier, i) && !HasRow(s.sends, t, i)
  }

  /**
   * p follows s by handling templates below k: new rows are theirs, one per attempt, and waiting means some
   * is unsent.
   */
  ghost predicate Settled(cfg: Config, s: State, p: Progress, t: Id, tier: Tier, k: nat)
    requires t < |p.state.transitions| && k <= |cfg.templates|
  {
    && s.sends <= p.state.sends
    && (forall i | |s.sends| <= i < |p.state.sends| ::
          p.state.sends[i].transition == t && p.state.sends[i].template < k)
    && (!p.interrupted ==> (p.waiting <==> Unsent(cfg, p.state, t, tier, k)))
    && (!p.interrupted ==> |p.state.sends| == |s.sends| + p.attempts)
  }

  lemma {:induction false} TemplatesSettle(cfg: Config, s: State, t: Id, now: int, w: World, k: nat)
    requires t < |s.transitions| && k <= |cfg.templates|
    ensures Settled(cfg, s, TemplatesSpec(cfg, s, t, now, w, k), t, w.tier, k)
    decreases k
  {
    if k > 0 {
      TemplatesSettle(cfg, s, t, now, w, k - 1);
      var before := TemplatesSpec(cfg, s, t, now, w, k - 1);
      if !before.interrupted {
        TemplateSettles(cfg, s, before, t, now, w, k - 1);
      }
    }
  }

  lemma TemplateSettles(cfg: Config, s: State, before: Progress, t: Id, now: int, w: World, k: nat)
    requires t < |before.state.transitions| && k < |cfg.templates| && !before.interrupted
    requires Settled(cfg, s, before, t, w.tier, k)
    ensures Settled(cfg, s, TemplateStep(cfg, before, t, now, w, k), t, w.tier, k + 1)
  {
    var p := TemplateStep(cfg, before, t, now, w, k);
    AttemptWritesOneRow(cfg, before.state, t, k, w.For(k));
    var was, after := before.state.sends, p.state.sends;
    assert was <= after && (|after| > |was| ==> after[|was|].transition == t && after[|was|].template == k);
    if !p.interrupted {
      RowsOfOthersKept(was, after, t, k);
    }
  }

  /** Adding at most one row of template k leaves the question of the other templates as it was. */
  lemma RowsOfOthersKept(was: seq<Send>, after: seq<Send>, t: Id, k: Id)
    requires was <= after && |after| <= |was| + 1
    requires |after| > |was| ==> after[|was|].transition == t && after[|was|].template == k
    ensures forall i: Id | i != k :: HasRow(after, t, i) == HasRow(was, t, i)
    ensures HasRow(after, t, k) <==> HasRow(was, t, k) || |after| > |was|
  {
  }

  // ---- One step row ----

  lemma RowsOfAppend(rows: seq<StepSend>, x: StepSend, t: Id)
    ensures RowsOf(rows + [x], t) == RowsOf(rows, t) + if x.transition == t then 1 else 0
  {
  }

  /** With steps in order, a transition has a row exactly for its first steps. */
  lemma {:induction false} StepsAreAPrefix(rows: seq<StepSend>, t: Id, step: nat)
    requires forall i | 0 <= i < |rows| && rows[i].transition == t :: rows[i].step == RowsOf(rows[..i], t)
    ensures HasStepRow(rows, t, step) <==> step < RowsOf(rows, t)
    decreases |rows|
  {
    if rows != [] {
      var n := |rows| - 1;
      var front := rows[..n];
      forall i | 0 <= i < |front| && front[i].transition == t ensures front[i].step == RowsOf(front[..i], t) {
        assert rows[i].step == RowsOf(rows[..i], t) && rows[..i] == front[..i];
      }
      StepsAreAPrefix(front, t, step);
      if HasStepRow(front, t, step) {
        var i :| 0 <= i < |front| && front[i].transition == t && front[i].step == step;
        assert rows[i].step == step;
      }
      if rows[n].transition == t && rows[n].step == step {
        assert HasStepRow(rows, t, step);
      }
      if HasStepRow(rows, t, step) && rows[n].transition == t && rows[n].step != step {
        var i :| 0 <= i < |rows| && rows[i].transition == t && rows[i].step == step;
        assert front[i].step == step;
      }
    }
  }

  /** What must hold for a new row to fit behind the rows already there. */
  ghost predicate Fits(cfg: Config, s: State, row: StepSend) {
    && row.transition < |s.transitions|
    && var transition := s.transitions[row.transition];
       var steps := cfg.Steps(transition.lifecycle);
       && row.step < |steps|
       && row.step == RowsOf(s.stepSends, row.transition)
       && (row.step == 0 && row.outcome != SkippedCooldown && cfg.StepChannel(steps[0]).Some? ==>
             transition.detectedAt + steps[0].delayMinutes * MINUTE_MS <= row.createdAt)
       && forall i | 0 <= i < |s.stepSends| :: StepPairOk(cfg, s, s.stepSends[i], row)
  }

  lemma RecordStepKeeps(cfg: Config, s: State, t: Id, step: nat, outcome: Outcome, creating: nat)
    requires StepsOk(cfg, s)
    requires Fits(cfg, s, RecordStep(s, t, step, outcome, creating).stepSends[|s.stepSends|])
    ensures StepsOk(cfg, RecordStep(s, t, step, outcome, creating))
  {
    var s2 := RecordStep(s, t, step, outcome, creating);
    var n := |s.stepSends|;
    forall i | 0 <= i < |s2.stepSends| ensures StepRowOk(cfg, s2, i) {
      assert s2.stepSends[..i] == s.stepSends[..i];
      if i < n {
        assert StepRowOk(cfg, s, i);
      } else {
        assert s.stepSends[..n] == s.stepSends;
      }
    }
    forall i, j | 0 <= i < j < |s2.stepSends| ensures StepPairOk(cfg, s2, s2.stepSends[i], s2.stepSends[j]) {
      assert StepRowOk(cfg, s, i);
      if j < n {
        assert StepPairOk(cfg, s, s.stepSends[i], s.stepSends[j]);
      } else {
        assert StepPairOk(cfg, s, s.stepSends[i], s2.stepSends[n]);
      }
    }
  }

  lemma NextStepCounts(cfg: Config, s: State, t: Id)
    requires StepsOk(cfg, s) && t < |s.transitions|
    ensures var n := |cfg.Steps(s.transitions[t].lifecycle)|;
            NextStep(s.stepSends, t, n, 0) == if RowsOf(s.stepSends, t) < n then RowsOf(s.stepSends, t) else n
  {
    var n := |cfg.Steps(s.transitions[t].lifecycle)|;
    forall i | 0 <= i < |s.stepSends| && s.stepSends[i].transition == t
      ensures s.stepSends[i].step == RowsOf(s.stepSends[..i], t)
    {
      assert StepRowOk(cfg, s, i);
    }
    var k := NextStep(s.stepSends, t, n, 0);
    var m := RowsOf(s.stepSends, t);
    StepsAreAPrefix(s.stepSends, t, k);
    if m < n {
      StepsAreAPrefix(s.stepSends, t, m);
    }
    if 0 < k {
      StepsAreAPrefix(s.stepSends, t, k - 1);
    }
  }

  /** The new row waits for every earlier row of its transition and, at step 1, for the cooldown. */
  lemma StepFits(cfg: Config, s: State, t: Id, now: int, k: nat, row: StepSend)
    requires StepsOk(cfg, s) && t < |s.transitions| && s.transitions[t].lifecycle in cfg.sequences
    requires now <= row.createdAt && row.transition == t && row.step == k
    requires k == NextStep(s.stepSends, t, |cfg.Steps(s.transitions[t].lifecycle)|, 0)
    requires k < |cfg.Steps(s.transitions[t].lifecycle)|
    requires row.outcome.Sent? ==> now <= row.outcome.at
    requires var transition := s.transitions[t];
             var sequence := cfg.sequences[transition.lifecycle];
             var step := sequence.steps[k];
             var last := LastStepSent(s.stepSends, s.transitions, transition.lifecycle, transition.subject);
             if cfg.StepChannel(step).None? then row.outcome == SkippedNoTemplate
             else if row.outcome == SkippedCooldown then k == 0
             else
               && (k == 0 && last.Some? ==> sequence.cooldownDays * DAY_MS <= now - last.value)
               && var basis := if k == 0 then transition.detectedAt
                               else Basis(LastProcessed(s.stepSends, t), transition.detectedAt);
                  step.delayMinutes * MINUTE_MS <= now - basis
    ensures Fits(cfg, s, row)
  {
    NextStepCounts(cfg, s, t);
    var transition := s.transitions[t];
    forall i | 0 <= i < |s.stepSends| ensures StepPairOk(cfg, s, s.stepSends[i], row) {
      var a := s.stepSends[i];
      assert StepRowOk(cfg, s, i);
      if a.transition == t {
        LastProcessedBounds(s.stepSends, t, i);
        CountsPositive(s.stepSends, t, i);
      }
      if a.outcome.Sent? && s.transitions[a.transition].lifecycle == transition.lifecycle
         && s.transitions[a.transition].subject == transition.subject {
        LastStepSentBounds(s.stepSends, s.transitions, transition.lifecycle, transition.subject, i);
      }
    }
  }

  lemma {:induction false} CountsPositive(rows: seq<StepSend>, t: Id, i: nat)
    requires i < |rows| && rows[i].transition == t
    ensures RowsOf(rows, t) > 0
    decreases |rows|
  {
    if i < |rows| - 1 {
      CountsPositive(rows[..|rows| - 1], t, i);
    }
  }

  lemma StepsTickKeeps(cfg: Config, s: State, s2: State)
    requires StepsOk(cfg, s)
    requires s2.transitions == s.transitions && s2.stepSends == s.stepSends && s.clock <= s2.clock
    ensures StepsOk(cfg, s2)
  {
    forall i | 0 <= i < |s2.stepSends| ensures StepRowOk(cfg, s2, i) {
      assert StepRowOk(cfg, s, i);
    }
    forall i, j | 0 <= i < j < |s2.stepSends| ensures StepPairOk(cfg, s2, s2.stepSends[i], s2.stepSends[j]) {
      assert StepRowOk(cfg, s, i) && StepRowOk(cfg, s, j);
      assert StepPairOk(cfg, s, s.stepSends[i], s.stepSends[j]);
    }
  }

  lemma AttemptStepKeeps(cfg: Config, s: State, t: Id, now: int, k: nat, channel: Channel, a: Attempt)
    requires StepsOk(cfg, s) && t < |s.transitions| && s.transitions[t].lifecycle in cfg.sequences && now <= s.clock
    requires k == NextStep(s.stepSends, t, |cfg.Steps(s.transitions[t].lifecycle)|, 0)
    requires k < |cfg.Steps(s.transitions[t].lifecycle)|
    requires var transition := s.transitions[t];
             var sequence := cfg.sequences[transition.lifecycle];
             var step := sequence.steps[k];
             var last := LastStepSent(s.stepSends, s.transitions, transition.lifecycle, transition.subject);
             && cfg.StepChannel(step).Some?
             && (k == 0 && last.Some? ==> sequence.cooldownDays * DAY_MS <= now - last.value)
             && var basis := if k == 0 then transition.detectedAt
                             else Basis(LastProcessed(s.stepSends, t), transition.detectedAt);
                step.delayMinutes * MINUTE_MS <= now - basis
    ensures StepsOk(cfg, AttemptStepSpec(s, t, k, channel, a).state)
  {
    var s1 := s.Tick(a.reading);
    StepsTickKeeps(cfg, s, s1);
    if a.stopped {
    } else if channel == Push && s.transitions[t].subject.Customer? {
      StepFits(cfg, s, t, now, k, StepSend(t, k, SkippedNoContact, s.clock + a.creating));
      RecordStepKeeps(cfg, s, t, k, SkippedNoContact, a.creating);
    } else {
      var outcome := Deliver(channel, a, s1.clock);
      var row := RecordStep(s1, t, k, outcome, a.creating).stepSends[|s.stepSends|];
      StepFits(cfg, s1, t, now, k, row);
      RecordStepKeeps(cfg, s1, t, k, outcome, a.creating);
    }
  }

  lemma SequenceKeeps(cfg: Config, s: State, t: Id, now: int, w: World)
    requires StepsOk(cfg, s) && t < |s.transitions| && s.transitions[t].lifecycle in cfg.sequences && now <= s.clock
    ensures StepsOk(cfg, HandleSequenceSpec(cfg, s, t, now, w).state)
  {
    var transition := s.transitions[t];
    var sequence := cfg.sequences[transition.lifecycle];
    var k := NextStep(s.stepSends, t, |sequence.steps|, 0);
    if k < |sequence.steps| {
      var step := sequence.steps[k];
      var channel := cfg.StepChannel(step);
      var last := LastStepSent(s.stepSends, s.transitions, transition.lifecycle, transition.subject);
      if channel.None? {
        if !w.step.stopped {
          StepFits(cfg, s, t, now, k, StepSend(t, k, SkippedNoTemplate, s.clock + w.step.creating));
          RecordStepKeeps(cfg, s, t, k, SkippedNoTemplate, w.step.creating);
        }
      } else if k == 0 && last.Some? && now - last.value < sequence.cooldownDays * DAY_MS {
        if !w.step.stopped {
          StepFits(cfg, s, t, now, k, StepSend(t, k, SkippedCooldown, s.clock + w.step.creating));
          RecordStepKeeps(cfg, s, t, k, SkippedCooldown, w.step.creating);
        }
      } else {
        var basis := if k == 0 then transition.detectedAt
                     else Basis(LastProcessed(s.stepSends, t), transition.detectedAt);
        if now - basis < step.delayMinutes * MINUTE_MS
           || !IsPastSendTimeToday(step.sendTime, w.offsetMinutes, now) {
        } else {
          AttemptStepKeeps(cfg, s, t, now, k, channel.value, w.step);
        }
      }
    }
  }

  /** A call adds at most one step row, and only to the transition it handles. */
  lemma SequenceAddsAtMostOne(cfg: Config, s: State, t: Id, now: int, w: World)
    requires t < |s.transitions| && s.transitions[t].lifecycle in cfg.sequences
    ensures var q := HandleSequenceSpec(cfg, s, t, now, w);
            && q.state.transitions == s.transitions && q.state.sends == s.sends && s.clock <= q.state.clock
            && (q.state.stepSends == s.stepSends
                || (|q.state.stepSends| == |s.stepSends| + 1 && s.stepSends <= q.state.stepSends
                    && q.state.stepSends[|s.stepSends|].transition == t
                    && (q.verdict == StepAttempted || q.verdict == Terminal)))
  {
  }

  // ---- One call ----

  /** What one call on a transition can change. */
  ghost predicate CallShape(s: State, t: Id, s2: State)
    requires t < |s.transitions|
  {
    && |s2.transitions| == |s.transitions| && s.clock <= s2.clock
    && (forall i | 0 <= i < |s.transitions| && i != t :: s2.transitions[i] == s.transitions[i])
    && s2.transitions[t].(processedAt := None) == s.transitions[t].(processedAt := None)
    && s.sends <= s2.sends
    && (forall i | |s.sends| <= i < |s2.sends| :: s2.sends[i].transition == t)
    && s.stepSends <= s2.stepSends && |s2.stepSends| <= |s.stepSends| + 1
    && (forall i | |s.stepSends| <= i < |s2.stepSends| :: s2.stepSends[i].transition == t)
  }

  lemma HandleShape(cfg: Config, s: State, t: Id, w: World)
    requires Pending(s, t)
    ensures CallShape(s, t, HandleSpec(cfg, s, t, w).state)
  {
    var l := s.transitions[t].lifecycle;
    if (AnySelected(cfg, l) || l in cfg.sequences) && w.resolved {
      var s1 := s.Tick(w.reading);
      TemplatesSettle(cfg, s1, t, s1.clock, w, |cfg.templates|);
      var p := TemplatesSpec(cfg, s1, t, s1.clock, w, |cfg.templates|);
      if !p.interrupted {
        FinishShape(cfg, s, p, t, s1.clock, w);
      }
    }
  }

  lemma FinishShape(cfg: Config, s: State, p: Progress, t: Id, now: int, w: World)
    requires t < |s.transitions| && p.state.transitions == s.transitions && CallShape(s, t, p.state)
    requires p.state.stepSends == s.stepSends
    ensures CallShape(s, t, FinishSpec(cfg, p, t, now, w).state)
  {
    hide HandleSequenceSpec;
    if s.transitions[t].lifecycle in cfg.sequences {
      SequenceAddsAtMostOne(cfg, p.state, t, now, w);
    }
  }

  /** Same rows, same subjects and lifecycles: only processedAt may differ. */
  lemma CloseKeeps(cfg: Config, s: State, t: Id, attempts: nat, w: World)
    requires SendsOk(cfg, s) && StepsOk(cfg, s) && t < |s.transitions|
    ensures SendsOk(cfg, Close(s, t, attempts, w).state) && StepsOk(cfg, Close(s, t, attempts, w).state)
  {
    var s2 := Close(s, t, attempts, w).state;
    forall i | 0 <= i < |s2.sends| ensures SendOk(cfg, s2, s2.sends[i]) {
      assert SendOk(cfg, s, s.sends[i]);
    }
    forall i, j | 0 <= i < j < |s2.sends| ensures SendPairOk(cfg, s2, s2.sends[i], s2.sends[j]) {
      assert SendPairOk(cfg, s, s.sends[i], s.sends[j]);
    }
    forall i | 0 <= i < |s2.stepSends| ensures StepRowOk(cfg, s2, i) {
      assert StepRowOk(cfg, s, i);
    }
    forall i, j | 0 <= i < j < |s2.stepSends| ensures StepPairOk(cfg, s2, s2.stepSends[i], s2.stepSends[j]) {
      assert StepRowOk(cfg, s, i) && StepRowOk(cfg, s, j);
      assert StepPairOk(cfg, s, s.stepSends[i], s.stepSends[j]);
    }
  }

  lemma SendsIgnoreSteps(cfg: Config, s: State, s2: State)
    requires SendsOk(cfg, s) && s2.sends == s.sends && s2.transitions == s.transitions && s.clock <= s2.clock
    ensures SendsOk(cfg, s2)
  {
  }

  lemma HandleKeepsTables(cfg: Config, s: State, t: Id, w: World)
    requires Pending(s, t) && SendsOk(cfg, s) && StepsOk(cfg, s)
    ensures var s2 := HandleSpec(cfg, s, t, w).state; SendsOk(cfg, s2) && StepsOk(cfg, s2)
  {
    var l := s.transitions[t].lifecycle;
    if !AnySelected(cfg, l) && l !in cfg.sequences {
      CloseKeeps(cfg, s, t, 0, w);
    } else if w.resolved {
      var s1 := s.Tick(w.reading);
      var now := s1.clock;
      TickKeeps(cfg, s, w.reading);
      var p := TemplatesSpec(cfg, s1, t, now, w, |cfg.templates|);
      TemplatesKeep(cfg, s1, t, now, w, |cfg.templates|);
      StepsTickKeeps(cfg, s, p.state);
      if !p.interrupted {
        if l !in cfg.sequences {
          CloseKeeps(cfg, p.state, t, p.attempts, w);
        } else {
          SequenceKeeps(cfg, p.state, t, now, w);
          SequenceAddsAtMostOne(cfg, p.state, t, now, w);
          var q := HandleSequenceSpec(cfg, p.state, t, now, w);
          SendsIgnoreSteps(cfg, p.state, q.state);
          CloseKeeps(cfg, q.state, t, p.attempts + (if q.verdict == StepAttempted then 1 else 0), w);
        }
      }
    }
  }

  // ---- Whole runs ----

  ghost predicate Invariant(cfg: Config, s: State) {
    SendsOk(cfg, s) && StepsOk(cfg, s)
  }

  lemma DetectKeeps(cfg: Config, s: State, c: Call)
    requires Invariant(cfg, s) && !c.Handle?
    ensures Invariant(cfg, Step(cfg, s, c))
  {
    var s2 := Step(cfg, s, c);
    forall i | 0 <= i < |s2.sends| ensures SendOk(cfg, s2, s2.sends[i]) {
      assert SendOk(cfg, s, s.sends[i]);
    }
    forall i, j | 0 <= i < j < |s2.sends| ensures SendPairOk(cfg, s2, s2.sends[i], s2.sends[j]) {
      assert SendOk(cfg, s, s.sends[i]) && SendOk(cfg, s, s.sends[j]);
      assert SendPairOk(cfg, s, s.sends[i], s.sends[j]);
    }
    forall i | 0 <= i < |s2.stepSends| ensures StepRowOk(cfg, s2, i) {
      assert StepRowOk(cfg, s, i);
    }
    forall i, j | 0 <= i < j < |s2.stepSends| ensures StepPairOk(cfg, s2, s2.stepSends[i], s2.stepSends[j]) {
      assert StepRowOk(cfg, s, i) && StepRowOk(cfg, s, j);
      assert StepPairOk(cfg, s, s.stepSends[i], s.stepSends[j]);
    }
  }

  lemma {:induction false} InvariantOverRuns(cfg: Config, s: State, calls: seq<Call>)
    requires Invariant(cfg, s)
    ensures Invariant(cfg, Run(cfg, s, calls))
    decreases |calls|
  {
    if calls != [] {
      if calls[0].Handle? {
        if Pending(s, calls[0].t) {
          HandleKeepsTables(cfg, s, calls[0].t, calls[0].w);
        }
      } else {
        DetectKeeps(cfg, s, calls[0]);
      }
      InvariantOverRuns(cfg, Step(cfg, s, calls[0]), calls[1..]);
    }
  }

  /**
   * In every run: one row per transition and template, two SENT rows of a template to one subject
   * a cooldown apart, and no SENT row before its template's delay.
   */
  lemma CooldownKept(cfg: Config, calls: seq<Call>, i: nat, j: nat)
    requires i < j < |Run(cfg, EMPTY, calls).sends|
    ensures var s := Run(cfg, EMPTY, calls);
            var a, b := s.sends[i], s.sends[j];
            && !(a.transition == b.transition && a.template == b.template)
            && a.transition < |s.transitions| && b.transition < |s.transitions| && a.template < |cfg.templates|
            && (a.outcome.Sent? && b.outcome.Sent? && a.template == b.template
                && s.transitions[a.transition].subject == s.transitions[b.transition].subject ==>
                  b.outcome.at - a.outcome.at >= cfg.templates[a.template].cooldownDays * DAY_MS)
            && (a.outcome.Sent? ==> a.outcome.at - s.transitions[a.transition].detectedAt
                                    >= cfg.templates[a.template].delayDays * DAY_MS)
  {
    InvariantOverRuns(cfg, EMPTY, calls);
    var s := Run(cfg, EMPTY, calls);
    assert SendOk(cfg, s, s.sends[i]) && SendOk(cfg, s, s.sends[j]);
    assert SendPairOk(cfg, s, s.sends[i], s.sends[j]);
  }

  /** In every run, a transition's step rows are steps 1..n in order, each waiting out its own delay. */
  lemma StepsInOrder(cfg: Config, calls: seq<Call>, t: Id, step: nat)
    ensures var s := Run(cfg, EMPTY, calls);
            HasStepRow(s.stepSends, t, step) <==> step < RowsOf(s.stepSends, t)
  {
    InvariantOverRuns(cfg, EMPTY, calls);
    var s := Run(cfg, EMPTY, calls);
    forall i | 0 <= i < |s.stepSends| && s.stepSends[i].transition == t
      ensures s.stepSends[i].step == RowsOf(s.stepSends[..i], t)
    {
      assert StepRowOk(cfg, s, i);
    }
    StepsAreAPrefix(s.stepSends, t, step);
  }

  /** In every run, a step with a template is created at least its delay after each earlier row of its transition. */
  lemma StepDelayKept(cfg: Config, calls: seq<Call>, i: nat, j: nat)
    requires i < j < |Run(cfg, EMPTY, calls).stepSends|
    requires Run(cfg, EMPTY, calls).stepSends[i].transition == Run(cfg, EMPTY, calls).stepSends[j].transition
    ensures var s := Run(cfg, EMPTY, calls);
            var a, b := s.stepSends[i], s.stepSends[j];
            && a.step < b.step && b.transition < |s.transitions|
            && var steps := cfg.Steps(s.transitions[b.transition].lifecycle);
               && b.step < |steps|
               && (cfg.StepChannel(steps[b.step]).Some? ==>
                     b.createdAt - a.createdAt >= steps[b.step].delayMinutes * MINUTE_MS)
  {
    InvariantOverRuns(cfg, EMPTY, calls);
    var s := Run(cfg, EMPTY, calls);
    assert StepRowOk(cfg, s, i) && StepRowOk(cfg, s, j);
    assert StepPairOk(cfg, s, s.stepSends[i], s.stepSends[j]);
    RowsOfGrows(s.stepSends, s.stepSends[i].transition, i, j);
  }

  lemma {:induction false} RowsOfGrows(rows: seq<StepSend>, t: Id, i: nat, j: nat)
    requires i < j <= |rows| && rows[i].transition == t
    ensures RowsOf(rows[..i], t) < RowsOf(rows[..j], t)
    decreases j
  {
    assert rows[..j][..j - 1] == rows[..j - 1];
    if i < j - 1 {
      RowsOfGrows(rows, t, i, j - 1);
    }
  }

  /** In every run, a sequence is not started for a subject within its cooldown of its last message to them. */
  lemma SequenceCooldownKept(cfg: Config, calls: seq<Call>, i: nat, j: nat)
    requires i < j < |Run(cfg, EMPTY, calls).stepSends|
    requires var s := Run(cfg, EMPTY, calls);
             s.stepSends[i].outcome.Sent? && s.stepSends[j].outcome.Sent? && s.stepSends[j].step == 0
    ensures var s := Run(cfg, EMPTY, calls);
            var a, b := s.stepSends[i], s.stepSends[j];
            && a.transition < |s.transitions| && b.transition < |s.transitions|
            && var ta, tb := s.transitions[a.transition], s.transitions[b.transition];
               && tb.lifecycle in cfg.sequences
               && (ta.subject == tb.subject && ta.lifecycle == tb.lifecycle ==>
                     b.outcome.at - a.outcome.at >= cfg.sequences[tb.lifecycle].cooldownDays * DAY_MS)
  {
    InvariantOverRuns(cfg, EMPTY, calls);
    var s := Run(cfg, EMPTY, calls);
    assert StepRowOk(cfg, s, i) && StepRowOk(cfg, s, j);
    assert StepPairOk(cfg, s, s.stepSends[i], s.stepSends[j]);
  }
}
