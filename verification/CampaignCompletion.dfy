/** When a transition is closed, and how much of its sequence has run by then. */
module CampaignCompletion {
  import opened Base
  import opened Campaign
  import opened CampaignRuns

  // ---- When a call closes a transition ----

  ghost predicate AllHandled(cfg: Config, s: State, t: Id, tier: Tier)
    requires t < |s.transitions|
  {
    forall k | 0 <= k < |cfg.templates| && Applicable(cfg, s.transitions[t], tier, k) :: HasRow(s.sends, t, k)
  }

  lemma MoreSendsStillHandled(cfg: Config, s: State, s2: State, t: Id, tier: Tier)
    requires t < |s.transitions| && t < |s2.transitions|
    requires s2.transitions[t].(processedAt := None) == s.transitions[t].(processedAt := None)
    requires s.sends <= s2.sends && AllHandled(cfg, s, t, tier)
    ensures AllHandled(cfg, s2, t, tier)
  {
    forall k | 0 <= k < |cfg.templates| && Applicable(cfg, s2.transitions[t], tier, k) ensures HasRow(s2.sends, t, k) {
      assert Applicable(cfg, s.transitions[t], tier, k);
      var i :| 0 <= i < |s.sends| && s.sends[i].transition == t && s.sends[i].template == k;
      assert s2.sends[i].template == k;
    }
  }

  /**
   * The next step can be recorded now: it has nothing to send, is skipped for the cooldown, or has waited
   * long enough.
   */
  predicate StepDue(cfg: Config, transitions: seq<Transition>, rows: seq<StepSend>, t: Id, now: int, offsetMinutes: int)
    requires t < |transitions| && transitions[t].lifecycle in cfg.sequences
  {
    var transition := transitions[t];
    var sequence := cfg.sequences[transition.lifecycle];
    var k := NextStep(rows, t, |sequence.steps|, 0);
    k < |sequence.steps|
    && var step := sequence.steps[k];
       var last := LastStepSent(rows, transitions, transition.lifecycle, transition.subject);
       var basis := if k == 0 then transition.detectedAt else Basis(LastProcessed(rows, t), transition.detectedAt);
       || cfg.StepChannel(step).None?
       || (k == 0 && last.Some? && now - last.value < sequence.cooldownDays * DAY_MS)
       || (step.delayMinutes * MINUTE_MS <= now - basis && IsPastSendTimeToday(step.sendTime, offsetMinutes, now))
  }

  /** Every step of the transition's sequence already has its row. */
  predicate SequenceDone(cfg: Config, transitions: seq<Transition>, rows: seq<StepSend>, t: Id)
    requires t < |transitions|
  {
    NextStep(rows, t, |cfg.Steps(transitions[t].lifecycle)|, 0) == |cfg.Steps(transitions[t].lifecycle)|
  }

  lemma SequenceOutcome(cfg: Config, s: State, t: Id, now: int, w: World)
    requires t < |s.transitions| && s.transitions[t].lifecycle in cfg.sequences
    ensures var q := HandleSequenceSpec(cfg, s, t, now, w);
            var due := StepDue(cfg, s.transitions, s.stepSends, t, now, w.offsetMinutes);
            && q.state.transitions == s.transitions && q.state.sends == s.sends && s.stepSends <= q.state.stepSends
            && |q.state.stepSends| == |s.stepSends| + (if due && !w.step.stopped then 1 else 0)
            && (|q.state.stepSends| > |s.stepSends| ==> q.state.stepSends[|s.stepSends|].transition == t)
            && (q.verdict == StepWaiting <==> !due && !SequenceDone(cfg, s.transitions, s.stepSends, t))
            && (q.interrupted ==> due)
            && (due && w.step.stopped ==> q.interrupted)
  {
    hide IsPastSendTimeToday, LastStepSent, LastProcessed, Deliver, HasStepRow;
  }

  /** The sequence's next step is not due, so the transition has to wait for it. */
  predicate SequenceWaits(cfg: Config, s: State, t: Id, w: World)
    requires t < |s.transitions|
  {
    && s.transitions[t].lifecycle in cfg.sequences
    && !SequenceDone(cfg, s.transitions, s.stepSends, t)
    && !StepDue(cfg, s.transitions, s.stepSends, t, s.clock + w.reading, w.offsetMinutes)
  }

  /** The template loop is got through, and the sequence's next step is due and gets its row. */
  predicate TakesStep(cfg: Config, s: State, t: Id, w: World)
    requires t < |s.transitions|
  {
    && s.transitions[t].lifecycle in cfg.sequences && w.resolved
    && !TemplatesSpec(cfg, s.Tick(w.reading), t, s.clock + w.reading, w, |cfg.templates|).interrupted
    && StepDue(cfg, s.transitions, s.stepSends, t, s.clock + w.reading, w.offsetMinutes)
    && !w.step.stopped
  }

  lemma UnsentIsUnhandled(cfg: Config, s: State, t: Id, tier: Tier)
    requires t < |s.transitions|
    ensures Unsent(cfg, s, t, tier, |cfg.templates|) <==> !AllHandled(cfg, s, t, tier)
  {
  }

  /** Sends decide whether templates are handled; closing or a step row does not. */
  lemma HandledDependsOnSends(cfg: Config, s: State, s2: State, t: Id, tier: Tier)
    requires t < |s.transitions| && t < |s2.transitions| && s2.sends == s.sends
    requires s2.transitions[t].(processedAt := None) == s.transitions[t].(processedAt := None)
    ensures AllHandled(cfg, s2, t, tier) <==> AllHandled(cfg, s, t, tier)
  {
    if AllHandled(cfg, s, t, tier) {
      MoreSendsStillHandled(cfg, s, s2, t, tier);
    }
    if AllHandled(cfg, s2, t, tier) {
      MoreSendsStillHandled(cfg, s2, s, t, tier);
    }
  }

  /** What follows the template loop, told apart by what is due. */
  lemma FinishOutcome(cfg: Config, p: Progress, t: Id, now: int, w: World)
    requires t < |p.state.transitions| && p.state.transitions[t].processedAt.None?
    ensures var h := FinishSpec(cfg, p, t, now, w);
            var tr := p.state.transitions;
            var sequenced := tr[t].lifecycle in cfg.sequences;
            && h.state.sends == p.state.sends && |h.state.transitions| == |tr|
            && h.state.transitions[t].(processedAt := None) == tr[t]
            && (h.state.transitions[t].processedAt.Some?
                <==> !h.interrupted && !p.waiting
                     && !(sequenced && !SequenceDone(cfg, tr, p.state.stepSends, t)
                          && !StepDue(cfg, tr, p.state.stepSends, t, now, w.offsetMinutes)))
            && (!sequenced ==> h.state.stepSends == p.state.stepSends)
  {
    if p.state.transitions[t].lifecycle in cfg.sequences {
      SequenceOutcome(cfg, p.state, t, now, w);
    }
    hide HandleSequenceSpec, StepDue, SequenceDone;
  }

  /**
   * A call closes the transition exactly when it is not cut short, every template meant for the
   * subject has its row, and the sequence, if there is one, has no step that is not due yet.
   */
  lemma ProcessedIff(cfg: Config, s: State, t: Id, w: World)
    requires Pending(s, t)
    ensures var h := HandleSpec(cfg, s, t, w);
            && t < |h.state.transitions|
            && (h.state.transitions[t].processedAt.Some?
                <==> !h.interrupted && AllHandled(cfg, h.state, t, w.tier) && !SequenceWaits(cfg, s, t, w))
            && (h.state.transitions[t].processedAt.Some? ==> h.state.transitions[t].processedAt == Some(h.state.clock))
  {
    var l := s.transitions[t].lifecycle;
    if (AnySelected(cfg, l) || l in cfg.sequences) && w.resolved {
      var s1 := s.Tick(w.reading);
      var p := TemplatesSpec(cfg, s1, t, s1.clock, w, |cfg.templates|);
      TemplatesSettle(cfg, s1, t, s1.clock, w, |cfg.templates|);
      if !p.interrupted {
        FinishOutcome(cfg, p, t, s1.clock, w);
        UnsentIsUnhandled(cfg, p.state, t, w.tier);
        HandledDependsOnSends(cfg, p.state, FinishSpec(cfg, p, t, s1.clock, w).state, t, w.tier);
        hide FinishSpec, TemplatesSpec, StepDue, SequenceDone, Unsent, AllHandled;
      }
    }
  }

  /** Without a sequence: processed exactly when every template meant for the subject has its row. */
  lemma ProcessedIffAllHandled(cfg: Config, s: State, t: Id, w: World)
    requires Pending(s, t) && s.transitions[t].lifecycle !in cfg.sequences
    requires !HandleSpec(cfg, s, t, w).interrupted
    ensures var s2 := HandleSpec(cfg, s, t, w).state;
            t < |s2.transitions| && (s2.transitions[t].processedAt.Some? <==> AllHandled(cfg, s2, t, w.tier))
  {
    ProcessedIff(cfg, s, t, w);
  }

  // ---- Whole runs ----

  // ---- Told before the call ----

  predicate Processed(s: State, t: Id) { t < |s.transitions| && s.transitions[t].processedAt.Some? }

  /** Template k is meant for the subject, has no row yet, and its delay or its send time lies ahead. */
  predicate Early(cfg: Config, s: State, t: Id, tier: Tier, k: Id, now: int, offsetMinutes: int)
    requires t < |s.transitions| && k < |cfg.templates|
  {
    && Applicable(cfg, s.transitions[t], tier, k) && !HasRow(s.sends, t, k)
    && (now - s.transitions[t].detectedAt < cfg.templates[k].delayDays * DAY_MS
        || !IsPastSendTimeToday(cfg.templates[k].sendTime, offsetMinutes, now))
  }

  predicate SomeEarly(cfg: Config, s: State, t: Id, w: World, now: int, n: nat)
    requires t < |s.transitions| && n <= |cfg.templates|
  {
    exists k :: 0 <= k < n && Early(cfg, s, t, w.tier, k, now, w.offsetMinutes)
  }

  /** The template loop waits exactly for the templates that were early when it began. */
  lemma {:induction false} WaitingIffEarly(cfg: Config, s: State, t: Id, now: int, w: World, n: nat)
    requires t < |s.transitions| && n <= |cfg.templates|
    ensures var p := TemplatesSpec(cfg, s, t, now, w, n);
            !p.interrupted ==> (p.waiting <==> SomeEarly(cfg, s, t, w, now, n))
    decreases n
  {
    if n > 0 {
      WaitingIffEarly(cfg, s, t, now, w, n - 1);
      TemplatesSettle(cfg, s, t, now, w, n - 1);
      var before := TemplatesSpec(cfg, s, t, now, w, n - 1);
      LaterRowsUnchanged(s.sends, before.state.sends, t, n - 1);
      EarlyBelow(cfg, s, t, w, now, n);
      hide SomeEarly, HasRow, IsPastSendTimeToday, AttemptSendSpec;
    }
  }

  lemma EarlyBelow(cfg: Config, s: State, t: Id, w: World, now: int, n: nat)
    requires t < |s.transitions| && 0 < n <= |cfg.templates|
    ensures SomeEarly(cfg, s, t, w, now, n)
       <==> SomeEarly(cfg, s, t, w, now, n - 1) || Early(cfg, s, t, w.tier, n - 1, now, w.offsetMinutes)
  {
    hide Early;
  }

  lemma LaterRowsUnchanged(was: seq<Send>, after: seq<Send>, t: Id, k: nat)
    requires was <= after && forall i | |was| <= i < |after| :: after[i].template < k
    ensures HasRow(after, t, k) == HasRow(was, t, k)
  {
  }

  /** Only an attempt that stops or goes unrecorded cuts the template loop short. */
  lemma {:induction false} CompleteAttemptsRunThrough(cfg: Config, s: State, t: Id, now: int, w: World, n: nat)
    requires t < |s.transitions| && n <= |cfg.templates|
    requires forall k: Id | k < n :: !w.For(k).stopped && w.For(k).recorded
    ensures !TemplatesSpec(cfg, s, t, now, w, n).interrupted
    decreases n
  {
    if n > 0 {
      CompleteAttemptsRunThrough(cfg, s, t, now, w, n - 1);
    }
  }

  /** Step 1 is next, has something to send, and a step went to the subject within the cooldown. */
  predicate CooldownRuns(cfg: Config, s: State, t: Id, now: int)
    requires t < |s.transitions| && s.transitions[t].lifecycle in cfg.sequences
  {
    var transition := s.transitions[t];
    var sequence := cfg.sequences[transition.lifecycle];
    var last := LastStepSent(s.stepSends, s.transitions, transition.lifecycle, transition.subject);
    && sequence.steps != [] && NextStep(s.stepSends, t, |sequence.steps|, 0) == 0
    && cfg.StepChannel(sequence.steps[0]).Some?
    && last.Some? && now - last.value < sequence.cooldownDays * DAY_MS
  }

  /**
   * The environment lets a message through: not a push to a walk-in customer, consent, contact, an
   * accepting provider.
   */
  predicate Sendable(channel: Channel, subject: Subject, a: Attempt) {
    && !(channel == Push && subject.Customer?) && a.consent && (channel == Push || a.contact)
    && a.reply != Raised && !(channel == Sms && a.reply == Refused)
  }

  /** The next step would go out as a message. */
  predicate StepGoesOut(cfg: Config, s: State, t: Id, now: int, a: Attempt)
    requires t < |s.transitions| && s.transitions[t].lifecycle in cfg.sequences
  {
    var steps := cfg.sequences[s.transitions[t].lifecycle].steps;
    var k := NextStep(s.stepSends, t, |steps|, 0);
    && k < |steps| && cfg.StepChannel(steps[k]).Some? && !CooldownRuns(cfg, s, t, now)
    && Sendable(cfg.StepChannel(steps[k]).value, s.transitions[t].subject, a)
  }

  lemma StepRecord(cfg: Config, s: State, t: Id, now: int, w: World)
    requires t < |s.transitions| && s.transitions[t].lifecycle in cfg.sequences && !w.step.stopped
    requires StepDue(cfg, s.transitions, s.stepSends, t, now, w.offsetMinutes)
    ensures var q := HandleSequenceSpec(cfg, s, t, now, w);
            && |q.state.stepSends| == |s.stepSends| + 1
            && (q.state.stepSends[|s.stepSends|].outcome == SkippedCooldown <==> CooldownRuns(cfg, s, t, now))
            && (q.interrupted <==> StepGoesOut(cfg, s, t, now, w.step) && !w.step.recorded)
  {
    hide IsPastSendTimeToday, LastStepSent, LastProcessed, HasStepRow;
  }

  /**
   * What keeps a transition open although the call takes a step, told from the state before it: a
   * template still early, a message that goes out without being recorded, or a lost final write.
   */
  predicate KeptOpen(cfg: Config, s: State, t: Id, w: World)
    requires t < |s.transitions| && s.transitions[t].lifecycle in cfg.sequences
  {
    var now := s.clock + w.reading;
    || SomeEarly(cfg, s, t, w, now, |cfg.templates|)
    || (!w.step.recorded && StepGoesOut(cfg, s, t, now, w.step))
    || !w.closed
  }

  lemma KeptOpenIff(cfg: Config, s: State, t: Id, w: World)
    requires Pending(s, t) && TakesStep(cfg, s, t, w)
    ensures KeptOpen(cfg, s, t, w) <==> !Processed(HandleSpec(cfg, s, t, w).state, t)
    ensures var rows := HandleSpec(cfg, s, t, w).state.stepSends;
            && |rows| == |s.stepSends| + 1
            && (rows[|s.stepSends|].outcome == SkippedCooldown <==> CooldownRuns(cfg, s, t, s.clock + w.reading))
  {
    var s1 := s.Tick(w.reading);
    var p := TemplatesSpec(cfg, s1, t, s1.clock, w, |cfg.templates|);
    WaitingIffEarly(cfg, s1, t, s1.clock, w, |cfg.templates|);
    TickKeepsEarly(cfg, s, t, w);
    SequenceOutcome(cfg, p.state, t, s1.clock, w);
    StepRecord(cfg, p.state, t, s1.clock, w);
    hide HandleSequenceSpec, TemplatesSpec, StepDue, SequenceDone, SomeEarly, StepsOk, Sendable, LastStepSent;
  }

  lemma TickKeepsEarly(cfg: Config, s: State, t: Id, w: World)
    requires t < |s.transitions|
    ensures SomeEarly(cfg, s.Tick(w.reading), t, w, s.clock + w.reading, |cfg.templates|)
       <==> SomeEarly(cfg, s, t, w, s.clock + w.reading, |cfg.templates|)
  {
    hide Applicable, IsPastSendTimeToday;
    var s1, now := s.Tick(w.reading), s.clock + w.reading;
    forall k | 0 <= k < |cfg.templates|
      ensures Early(cfg, s1, t, w.tier, k, now, w.offsetMinutes) == Early(cfg, s, t, w.tier, k, now, w.offsetMinutes)
    {
    }
  }

  lemma {:induction false} RunAppend(cfg: Config, s: State, calls: seq<Call>, c: Call)
    ensures Run(cfg, s, calls + [c]) == Step(cfg, Run(cfg, s, calls), c)
    decreases |calls|
  {
    hide Step;
    if calls == [] {
      assert [c][1..] == [] && [] + [c] == [c];
    } else {
      assert (calls + [c])[1..] == calls[1..] + [c];
      RunAppend(cfg, Step(cfg, s, calls[0]), calls[1..], c);
    }
  }

  /** The i-th call of the run is the one that closed t. */
  ghost predicate ClosesAt(cfg: Config, calls: seq<Call>, t: Id, i: nat)
    requires i < |calls|
  {
    && calls[i].Handle? && calls[i].t == t && Pending(Run(cfg, EMPTY, calls[..i]), t)
    && t < |Run(cfg, EMPTY, calls[..i + 1]).transitions|
    && Run(cfg, EMPTY, calls[..i + 1]).transitions[t].processedAt.Some?
  }

  lemma StepKeepsOthers(cfg: Config, s: State, c: Call, t: Id)
    requires t < |s.transitions| && !(c.Handle? && c.t == t && Pending(s, t))
    ensures var s2 := Step(cfg, s, c);
            t < |s2.transitions| && s2.transitions[t] == s.transitions[t] && s.sends <= s2.sends
  {
    if c.Handle? && Pending(s, c.t) {
      HandleShape(cfg, s, c.t, c.w);
      hide HandleSpec;
    }
  }

  /**
   * In every run, a processed transition was closed by one call of the run, and every template meant
   * for its subject, under the tier that call found for them, has its row.
   */
  lemma {:induction false} ProcessedMeansHandled(cfg: Config, calls: seq<Call>, t: Id)
    requires t < |Run(cfg, EMPTY, calls).transitions|
    requires Run(cfg, EMPTY, calls).transitions[t].processedAt.Some?
    ensures exists i: nat :: i < |calls| && ClosesAt(cfg, calls, t, i)
                          && AllHandled(cfg, Run(cfg, EMPTY, calls), t, calls[i].w.tier)
    decreases |calls|
  {
    assert calls != [];
    var n := |calls| - 1;
    var c := calls[n];
    var m := Run(cfg, EMPTY, calls[..n]);
    assert calls == calls[..n] + [c] && calls[..n + 1] == calls;
    RunAppend(cfg, EMPTY, calls[..n], c);
    hide Step, Run;
    if c.Handle? && c.t == t && Pending(m, t) {
      ClosedByLastCall(cfg, m, c, t);
      assert ClosesAt(cfg, calls, t, n);
    } else {
      AlreadyClosed(cfg, m, c, t);
      ProcessedMeansHandled(cfg, calls[..n], t);
      var i: nat :| i < n && ClosesAt(cfg, calls[..n], t, i) && AllHandled(cfg, m, t, calls[..n][i].w.tier);
      assert calls[..n][..i] == calls[..i] && calls[..n][..i + 1] == calls[..i + 1];
      assert ClosesAt(cfg, calls, t, i);
      MoreSendsStillHandled(cfg, m, Run(cfg, EMPTY, calls), t, calls[i].w.tier);
    }
  }

  lemma ClosedByLastCall(cfg: Config, m: State, c: Call, t: Id)
    requires c.Handle? && c.t == t && Pending(m, t)
    ensures var s2 := Step(cfg, m, c);
            t < |s2.transitions| && (s2.transitions[t].processedAt.Some? ==> AllHandled(cfg, s2, t, c.w.tier))
  {
    ProcessedIff(cfg, m, t, c.w);
    hide HandleSpec, AllHandled;
  }

  lemma AlreadyClosed(cfg: Config, m: State, c: Call, t: Id)
    requires !(c.Handle? && c.t == t && Pending(m, t))
    requires t < |Step(cfg, m, c).transitions| && Step(cfg, m, c).transitions[t].processedAt.Some?
    ensures t < |m.transitions| && m.transitions[t] == Step(cfg, m, c).transitions[t]
              && m.sends <= Step(cfg, m, c).sends
  {
    if t < |m.transitions| {
      StepKeepsOthers(cfg, m, c, t);
    } else if c.Handle? && Pending(m, c.t) {
      HandleShape(cfg, m, c.t, c.w);
      hide HandleSpec;
    }
  }

  // ---- How many steps a sequence gets ----

  lemma {:induction false} RowsOfConcat(rows: seq<StepSend>, more: seq<StepSend>, t: Id)
    requires |more| <= 1
    ensures RowsOf(rows + more, t) == RowsOf(rows, t) + RowsOf(more, t)
  {
    if more == [] {
      assert rows + more == rows;
    } else {
      RowsOfAppend(rows, more[0], t);
      assert rows + [more[0]] == rows + more;
      assert RowsOf(more, t) == if more[0].transition == t then 1 else 0 by { assert more[..0] == []; }
    }
  }

  /** A call adds a step row exactly when it takes a step. */
  lemma HandleRows(cfg: Config, s: State, t: Id, w: World)
    requires Pending(s, t)
    ensures RowsOf(HandleSpec(cfg, s, t, w).state.stepSends, t)
         == RowsOf(s.stepSends, t) + if TakesStep(cfg, s, t, w) then 1 else 0
  {
    var s2 := HandleSpec(cfg, s, t, w).state;
    HandleAddsRows(cfg, s, t, w);
    hide HandleSpec, TakesStep;
    var more := s2.stepSends[|s.stepSends|..];
    assert s2.stepSends == s.stepSends + more;
    RowsOfConcat(s.stepSends, more, t);
    if more != [] {
      assert more[..0] == [];
    }
  }

  lemma HandleAddsRows(cfg: Config, s: State, t: Id, w: World)
    requires Pending(s, t)
    ensures var rows := HandleSpec(cfg, s, t, w).state.stepSends;
            && s.stepSends <= rows && |rows| == |s.stepSends| + (if TakesStep(cfg, s, t, w) then 1 else 0)
            && (|rows| > |s.stepSends| ==> rows[|s.stepSends|].transition == t)
  {
    var l := s.transitions[t].lifecycle;
    if (AnySelected(cfg, l) || l in cfg.sequences) && w.resolved {
      var s1 := s.Tick(w.reading);
      var p := TemplatesSpec(cfg, s1, t, s1.clock, w, |cfg.templates|);
      if !p.interrupted && l in cfg.sequences {
        SequenceOutcome(cfg, p.state, t, s1.clock, w);
        hide HandleSequenceSpec, TemplatesSpec, StepDue, SequenceDone;
      }
    }
  }

  lemma OtherRows(cfg: Config, s: State, c: Call, t: Id)
    requires !(c.Handle? && c.t == t && Pending(s, t))
    ensures RowsOf(Step(cfg, s, c).stepSends, t) == RowsOf(s.stepSends, t)
  {
    if c.Handle? && Pending(s, c.t) {
      var s2 := Step(cfg, s, c);
      HandleShape(cfg, s, c.t, c.w);
      hide HandleSpec;
      var more := s2.stepSends[|s.stepSends|..];
      assert s2.stepSends == s.stepSends + more;
      RowsOfConcat(s.stepSends, more, t);
      if more != [] {
        assert more[..0] == [];
      }
    }
  }

  lemma DoneMeansAllRows(cfg: Config, s: State, t: Id)
    requires StepsOk(cfg, s) && t < |s.transitions|
    ensures RowsOf(s.stepSends, t) <= |cfg.Steps(s.transitions[t].lifecycle)|
    ensures SequenceDone(cfg, s.transitions, s.stepSends, t)
       <==> RowsOf(s.stepSends, t) == |cfg.Steps(s.transitions[t].lifecycle)|
  {
    NextStepCounts(cfg, s, t);
    var n := |cfg.Steps(s.transitions[t].lifecycle)|;
    forall i | 0 <= i < |s.stepSends| && s.stepSends[i].transition == t
      ensures s.stepSends[i].step == RowsOf(s.stepSends[..i], t) && s.stepSends[i].step < n
    {
      assert StepRowOk(cfg, s, i);
    }
    assert !HasStepRow(s.stepSends, t, n);
    StepsAreAPrefix(s.stepSends, t, n);
  }

  /**
   * A closed transition's sequence has run to its end exactly when the closing call found at most
   * one step missing.
   */
  lemma ClosingCompletesIff(cfg: Config, s: State, t: Id, w: World)
    requires StepsOk(cfg, s) && Pending(s, t) && s.transitions[t].lifecycle in cfg.sequences
    requires t < |HandleSpec(cfg, s, t, w).state.transitions|
    requires HandleSpec(cfg, s, t, w).state.transitions[t].processedAt.Some?
    ensures var steps := |cfg.Steps(s.transitions[t].lifecycle)|;
            RowsOf(HandleSpec(cfg, s, t, w).state.stepSends, t) >= steps <==> RowsOf(s.stepSends, t) + 1 >= steps
  {
    HandleRows(cfg, s, t, w);
    ClosingTakesStepIff(cfg, s, t, w);
  }

  lemma ClosingTakesStepIff(cfg: Config, s: State, t: Id, w: World)
    requires StepsOk(cfg, s) && Pending(s, t) && s.transitions[t].lifecycle in cfg.sequences
    requires t < |HandleSpec(cfg, s, t, w).state.transitions|
    requires HandleSpec(cfg, s, t, w).state.transitions[t].processedAt.Some?
    ensures RowsOf(s.stepSends, t) <= |cfg.Steps(s.transitions[t].lifecycle)|
    ensures TakesStep(cfg, s, t, w) <==> RowsOf(s.stepSends, t) < |cfg.Steps(s.transitions[t].lifecycle)|
  {
    hide HandleSpec, TakesStep, StepDue, AllHandled, StepsOk, SequenceDone;
    ProcessedIff(cfg, s, t, w);
    DoneMeansAllRows(cfg, s, t);
    UninterruptedReachesSequence(cfg, s, t, w);
    DueMeansNotDone(cfg, s, t, s.clock + w.reading, w.offsetMinutes);
  }

  lemma DueMeansNotDone(cfg: Config, s: State, t: Id, now: int, offsetMinutes: int)
    requires t < |s.transitions| && s.transitions[t].lifecycle in cfg.sequences
    ensures StepDue(cfg, s.transitions, s.stepSends, t, now, offsetMinutes)
            ==> !SequenceDone(cfg, s.transitions, s.stepSends, t)
  {
  }

  /** A call that is not cut short takes a due step. */
  lemma UninterruptedReachesSequence(cfg: Config, s: State, t: Id, w: World)
    requires Pending(s, t) && s.transitions[t].lifecycle in cfg.sequences
    requires !HandleSpec(cfg, s, t, w).interrupted
    ensures TakesStep(cfg, s, t, w)
       <==> StepDue(cfg, s.transitions, s.stepSends, t, s.clock + w.reading, w.offsetMinutes)
  {
    var s1 := s.Tick(w.reading);
    var p := TemplatesSpec(cfg, s1, t, s1.clock, w, |cfg.templates|);
    if w.resolved && !p.interrupted {
      SequenceOutcome(cfg, p.state, t, s1.clock, w);
      hide HandleSequenceSpec, TemplatesSpec, StepDue, SequenceDone;
    }
  }

  /** The call takes a step and something keeps t open. */
  predicate StepsAndStaysOpen(cfg: Config, s: State, c: Call, t: Id) {
    c.Handle? && c.t == t && Pending(s, t) && TakesStep(cfg, s, t, c.w) && KeptOpen(cfg, s, t, c.w)
  }

  function OpenSteps(cfg: Config, s: State, calls: seq<Call>, t: Id): nat
    decreases |calls|
  {
    if calls == [] then 0
    else
      (if StepsAndStaysOpen(cfg, s, calls[0], t) then 1 else 0)
      + OpenSteps(cfg, Step(cfg, s, calls[0]), calls[1..], t)
  }

  lemma TakingStepStaysOpenIff(cfg: Config, s: State, t: Id, w: World)
    requires Pending(s, t) && TakesStep(cfg, s, t, w)
    ensures StepsAndStaysOpen(cfg, s, Handle(t, w), t) <==> !Processed(HandleSpec(cfg, s, t, w).state, t)
  {
    KeptOpenIff(cfg, s, t, w);
    hide HandleSpec, StepDue, KeptOpen;
  }

  lemma {:induction false} ProcessedStays(cfg: Config, s: State, calls: seq<Call>, t: Id)
    requires Processed(s, t)
    ensures Processed(Run(cfg, s, calls), t)
    ensures RowsOf(Run(cfg, s, calls).stepSends, t) == RowsOf(s.stepSends, t) && OpenSteps(cfg, s, calls, t) == 0
    decreases |calls|
  {
    if calls != [] {
      StepKeepsOthers(cfg, s, calls[0], t);
      OtherRows(cfg, s, calls[0], t);
      hide Step, StepsAndStaysOpen;
      assert !StepsAndStaysOpen(cfg, s, calls[0], t) by { NotOpenWhenProcessed(cfg, s, calls[0], t); }
      ProcessedStays(cfg, Step(cfg, s, calls[0]), calls[1..], t);
    }
  }

  lemma NotOpenWhenProcessed(cfg: Config, s: State, c: Call, t: Id)
    requires Processed(s, t)
    ensures !StepsAndStaysOpen(cfg, s, c, t)
  {
  }

  lemma StepKeepsLifecycle(cfg: Config, s: State, c: Call, t: Id)
    requires t < |s.transitions|
    ensures t < |Step(cfg, s, c).transitions| && Step(cfg, s, c).transitions[t].lifecycle == s.transitions[t].lifecycle
  {
    if c.Handle? && Pending(s, c.t) {
      hide HandleSpec;
      HandleShape(cfg, s, c.t, c.w);
    }
  }

  lemma {:induction false} RunKeepsLifecycle(cfg: Config, s: State, calls: seq<Call>, t: Id)
    requires t < |s.transitions|
    ensures t < |Run(cfg, s, calls).transitions|
    ensures Run(cfg, s, calls).transitions[t].lifecycle == s.transitions[t].lifecycle
    decreases |calls|
  {
    if calls != [] {
      StepKeepsLifecycle(cfg, s, calls[0], t);
      RunKeepsLifecycle(cfg, Step(cfg, s, calls[0]), calls[1..], t);
    }
  }

  /** What the rows of t come to, once its lifecycle's sequence has n steps. */
  function RowsReached(processed: bool, open: nat, n: nat): nat {
    if processed && open < n then open + 1 else open
  }

  lemma {:induction false} RowsFromPending(cfg: Config, s: State, calls: seq<Call>, t: Id)
    requires Invariant(cfg, s) && !Processed(s, t)
    requires t < |Run(cfg, s, calls).transitions| && Run(cfg, s, calls).transitions[t].lifecycle in cfg.sequences
    requires t >= |s.transitions| ==> RowsOf(s.stepSends, t) == 0
    ensures var e := Run(cfg, s, calls);
            RowsOf(e.stepSends, t) == RowsReached(Processed(e, t), RowsOf(s.stepSends, t) + OpenSteps(cfg, s, calls, t),
                                                  |cfg.Steps(e.transitions[t].lifecycle)|)
    decreases |calls|
  {
    hide HandleSpec, StepsAndStaysOpen, SendsOk, StepsOk, RowsOf;
    if calls != [] {
      var c := calls[0];
      var m := Step(cfg, s, c);
      InvariantOverRuns(cfg, s, [c]);
      assert Run(cfg, m, []) == m && [c][1..] == [];
      if c.Handle? && c.t == t && Pending(s, t) {
        HandleRows(cfg, s, t, c.w);
        RunKeepsLifecycle(cfg, s, calls, t);
        HandledRowsFit(cfg, s, t, c.w);
        if Processed(m, t) {
          ProcessedStays(cfg, m, calls[1..], t);
        } else {
          RowsFromPending(cfg, m, calls[1..], t);
        }
      } else {
        OtherRows(cfg, s, c, t);
        NotYetProcessed(cfg, s, c, t);
        RowsFromPending(cfg, m, calls[1..], t);
      }
    }
  }

  lemma NotYetProcessed(cfg: Config, s: State, c: Call, t: Id)
    requires !Processed(s, t) && !(c.Handle? && c.t == t && Pending(s, t))
    ensures !Processed(Step(cfg, s, c), t) && !StepsAndStaysOpen(cfg, s, c, t)
    ensures t >= |Step(cfg, s, c).transitions| ==> t >= |s.transitions|
  {
    if t < |s.transitions| {
      StepKeepsOthers(cfg, s, c, t);
    } else if c.Handle? && Pending(s, c.t) {
      HandleShape(cfg, s, c.t, c.w);
      hide HandleSpec;
    }
  }

  /** One handled call, in the terms of the count. */
  lemma HandledRowsFit(cfg: Config, s: State, t: Id, w: World)
    requires StepsOk(cfg, s) && Pending(s, t) && s.transitions[t].lifecycle in cfg.sequences
    ensures var m := HandleSpec(cfg, s, t, w).state;
            && t < |m.transitions|
            && (Processed(m, t) ==> RowsOf(m.stepSends, t)
                                    == RowsReached(true, RowsOf(s.stepSends, t),
                                                   |cfg.Steps(s.transitions[t].lifecycle)|)
                                    && !StepsAndStaysOpen(cfg, s, Handle(t, w), t))
            && (!Processed(m, t) ==> RowsOf(m.stepSends, t)
                                     == RowsOf(s.stepSends, t) + if StepsAndStaysOpen(cfg, s, Handle(t, w), t) then 1
                                         else 0)
  {
    HandleRows(cfg, s, t, w);
    ProcessedIff(cfg, s, t, w);
    if Processed(HandleSpec(cfg, s, t, w).state, t) {
      ClosingTakesStepIff(cfg, s, t, w);
    }
    if TakesStep(cfg, s, t, w) {
      TakingStepStaysOpenIff(cfg, s, t, w);
    }
    hide HandleSpec, TakesStep, StepDue, AllHandled, StepsOk, SequenceWaits;
  }

  /**
   * In every run, a transition with a sequence has one step row for every call that took a step while
   * something kept it open, and one more if a call closed it with a step still missing.
   */
  lemma SequenceRowsExact(cfg: Config, calls: seq<Call>, t: Id)
    requires t < |Run(cfg, EMPTY, calls).transitions|
               && Run(cfg, EMPTY, calls).transitions[t].lifecycle in cfg.sequences
    ensures var e := Run(cfg, EMPTY, calls);
            RowsOf(e.stepSends, t) == RowsReached(Processed(e, t), OpenSteps(cfg, EMPTY, calls, t),
                                                  |cfg.Steps(e.transitions[t].lifecycle)|)
  {
    RowsFromPending(cfg, EMPTY, calls, t);
  }

  /**
   * So a closed transition's sequence of n steps has run to its end exactly when n - 1 calls of the
   * run took a step and something kept the transition open: a template that was early when the call
   * began, a message sent but not recorded, or a lost final write.
   */
  lemma SequenceCompletesIff(cfg: Config, calls: seq<Call>, t: Id)
    requires Processed(Run(cfg, EMPTY, calls), t) && Run(cfg, EMPTY, calls).transitions[t].lifecycle in cfg.sequences
    ensures var e := Run(cfg, EMPTY, calls);
            var n := |cfg.Steps(e.transitions[t].lifecycle)|;
            RowsOf(e.stepSends, t) >= n <==> OpenSteps(cfg, EMPTY, calls, t) + 1 >= n
  {
    SequenceRowsExact(cfg, calls, t);
  }

  /** No call on t is cut short. */
  ghost predicate Uninterrupted(cfg: Config, s: State, calls: seq<Call>, t: Id)
    decreases |calls|
  {
    calls == []
    || (&& (calls[0].Handle? && calls[0].t == t && Pending(s, t) ==> !HandleSpec(cfg, s, t, calls[0].w).interrupted)
        && Uninterrupted(cfg, Step(cfg, s, calls[0]), calls[1..], t))
  }

  lemma ClosedAtOnce(cfg: Config, s: State, t: Id, w: World)
    requires Pending(s, t) && TakesStep(cfg, s, t, w) && !HandleSpec(cfg, s, t, w).interrupted
    requires !AnySelected(cfg, s.transitions[t].lifecycle)
    ensures !KeptOpen(cfg, s, t, w)
  {
    KeptOpenIff(cfg, s, t, w);
    ProcessedIff(cfg, s, t, w);
    HandleShape(cfg, s, t, w);
    hide HandleSpec, StepDue, SequenceDone, KeptOpen;
  }

  lemma {:induction false} NothingKeepsOpen(cfg: Config, s: State, calls: seq<Call>, t: Id)
    requires Uninterrupted(cfg, s, calls, t) && t < |Run(cfg, s, calls).transitions|
    requires !AnySelected(cfg, Run(cfg, s, calls).transitions[t].lifecycle)
    ensures OpenSteps(cfg, s, calls, t) == 0
    decreases |calls|
  {
    if calls != [] {
      NothingKeepsOpen(cfg, Step(cfg, s, calls[0]), calls[1..], t);
      if t < |s.transitions| {
        StepKeepsLifecycle(cfg, s, calls[0], t);
        RunKeepsLifecycle(cfg, s, calls, t);
        if StepsAndStaysOpen(cfg, s, calls[0], t) {
          ClosedAtOnce(cfg, s, t, calls[0].w);
        }
      }
      hide Step, TakesStep, KeptOpen, HandleSpec;
    }
  }

  /**
   * With no enabled template for its lifecycle and no interruption, a closed transition's sequence has
   * made exactly one step: it is complete only if it has at most that one.
   */
  lemma SequenceStopsAfterOneStep(cfg: Config, calls: seq<Call>, t: Id)
    requires t < |Run(cfg, EMPTY, calls).transitions|
               && Run(cfg, EMPTY, calls).transitions[t].lifecycle in cfg.sequences
    requires !AnySelected(cfg, Run(cfg, EMPTY, calls).transitions[t].lifecycle)
    requires Uninterrupted(cfg, EMPTY, calls, t)
    ensures var e := Run(cfg, EMPTY, calls);
            RowsOf(e.stepSends, t)
            == if Processed(e, t) && cfg.Steps(e.transitions[t].lifecycle) != [] then 1 else 0
  {
    NothingKeepsOpen(cfg, EMPTY, calls, t);
    SequenceRowsExact(cfg, calls, t);
  }

  // ---- The cooldown only guards step 1 ----

  function WithCooldown(cfg: Config, l: Lifecycle, days: int): Config
    requires l in cfg.sequences
  {
    cfg.(sequences := cfg.sequences[l := cfg.sequences[l].(cooldownDays := days)])
  }

  /** Once a transition has a step row, even a cooldown skip, no cooldown can hold its later steps back. */
  lemma LaterStepsIgnoreCooldown(cfg: Config, s: State, t: Id, now: int, w: World, days: int)
    requires StepsOk(cfg, s) && t < |s.transitions| && s.transitions[t].lifecycle in cfg.sequences
    requires RowsOf(s.stepSends, t) > 0
    ensures HandleSequenceSpec(WithCooldown(cfg, s.transitions[t].lifecycle, days), s, t, now, w)
         == HandleSequenceSpec(cfg, s, t, now, w)
  {
    NextStepCounts(cfg, s, t);
    var cfg2 := WithCooldown(cfg, s.transitions[t].lifecycle, days);
    assert cfg2.Steps(s.transitions[t].lifecycle) == cfg.Steps(s.transitions[t].lifecycle);
  }

  const ANYTIME := SendTime(None, None)

  /** A template still ten days off keeps every transition open; the sequence has a thirty-day cooldown. */
  const TWO_STEPS := Config(
    [Template("AT_RISK", Email, true, 10, 0, ANYTIME, None, None)],
    map["AT_RISK" := Sequence(30, [SequenceStep(Some(0), 0, ANYTIME), SequenceStep(Some(0), 0, ANYTIME)])])

  const DELIVERED := Attempt(0, true, true, Accepted, 0, 0, false, true)

  const CALM := World(0, 0, true, "STANDARD", [], DELIVERED, true)

  /** At time 0 the template waits, so the call is the sequence's alone. */
  lemma TemplateWaits(s: State, t: Id)
    requires Pending(s, t) && s.clock == 0 && s.sends == []
    requires s.transitions[t] == Transition(Customer(0), "AT_RISK", 0, None)
    requires !HandleSequenceSpec(TWO_STEPS, s, t, 0, CALM).interrupted
    ensures HandleSpec(TWO_STEPS, s, t, CALM).state == HandleSequenceSpec(TWO_STEPS, s, t, 0, CALM).state
  {
    assert Selected(TWO_STEPS, "AT_RISK", 0);
    assert s.Tick(0) == s;
    assert TemplatesSpec(TWO_STEPS, s, t, 0, CALM, 0) == Progress(s, 0, false, false);
    assert TemplatesSpec(TWO_STEPS, s, t, 0, CALM, 1) == Progress(s, 0, true, false);
  }

  const AT_RISK := Transition(Customer(0), "AT_RISK", 0, None)

  const FIRST := StepSend(0, 0, Sent(0), 0)

  const SKIPPED := StepSend(1, 0, SkippedCooldown, 0)

  const SECOND := StepSend(1, 1, Sent(0), 0)

  /** Detected, handled, detected again, handled twice. */
  const TWICE_AT_RISK: seq<Call> := [
    Detect(Customer(0), "AT_RISK"), Handle(0, CALM), Detect(Customer(0), "AT_RISK"), Handle(1, CALM), Handle(1, CALM)]

  lemma FirstStepSent()
    ensures HandleSpec(TWO_STEPS, State([AT_RISK], [], [], 0), 0, CALM).state == State([AT_RISK], [], [FIRST], 0)
  {
    assert NextStep([], 0, 2, 0) == 0 by { NothingMadeYet(); }
    TemplateWaits(State([AT_RISK], [], [], 0), 0);
    hide HandleSpec, NextStep, HasStepRow;
  }

  lemma SecondSkipped()
    ensures HandleSpec(TWO_STEPS, State([AT_RISK, AT_RISK], [], [FIRST], 0), 1, CALM).state
         == State([AT_RISK, AT_RISK], [], [FIRST, SKIPPED], 0)
  {
    var s := State([AT_RISK, AT_RISK], [], [FIRST], 0);
    assert LastStepSent([FIRST], s.transitions, "AT_RISK", Customer(0)) == Some(0) by {
      LastStepSentBounds([FIRST], s.transitions, "AT_RISK", Customer(0), 0);
      assert [FIRST][..0] == [];
    }
    assert NextStep([FIRST], 1, 2, 0) == 0 by { assert !HasStepRow([FIRST], 1, 0); }
    TemplateWaits(s, 1);
    hide HandleSpec, NextStep, HasStepRow, LastStepSent;
  }

  lemma SecondStepSent()
    ensures HandleSpec(TWO_STEPS, State([AT_RISK, AT_RISK], [], [FIRST, SKIPPED], 0), 1, CALM).state
         == State([AT_RISK, AT_RISK], [], [FIRST, SKIPPED, SECOND], 0)
  {
    var rows := [FIRST, SKIPPED];
    assert NextStep(rows, 1, 2, 0) == 1 by {
      assert rows[1] == SKIPPED && HasStepRow(rows, 1, 0) && !HasStepRow(rows, 1, 1);
    }
    assert LastProcessed(rows, 1) == Some(0) by {
      assert rows[..1] == [FIRST] && [FIRST][..0] == [];
      assert LastProcessed([FIRST], 1) == None;
    }
    TemplateWaits(State([AT_RISK, AT_RISK], [], rows, 0), 1);
    hide HandleSpec, NextStep, HasStepRow, LastProcessed, LastStepSent;
  }

  lemma {:induction false} RunFive(cfg: Config, s0: State, s1: State, s2: State, s3: State, s4: State, s5: State,
                                   calls: seq<Call>)
    requires |calls| == 5 && Step(cfg, s0, calls[0]) == s1 && Step(cfg, s1, calls[1]) == s2
    requires Step(cfg, s2, calls[2]) == s3 && Step(cfg, s3, calls[3]) == s4 && Step(cfg, s4, calls[4]) == s5
    ensures Run(cfg, s0, calls) == s5
  {
    hide Step;
    assert calls[1..][1..] == calls[2..] && calls[2..][1..] == calls[3..];
    assert calls[3..][1..] == calls[4..] && calls[4..][1..] == [];
    assert Run(cfg, s4, calls[4..]) == Run(cfg, s5, []);
    assert Run(cfg, s3, calls[3..]) == Run(cfg, s4, calls[4..]);
    assert Run(cfg, s2, calls[2..]) == Run(cfg, s3, calls[3..]);
    assert Run(cfg, s1, calls[1..]) == Run(cfg, s2, calls[2..]);
  }

  /** A second transition's step 1 is skipped for the cooldown; one poll later its step 2 goes out all the same. */
  lemma CooldownSkipDoesNotStopTheSequence()
    ensures Run(TWO_STEPS, EMPTY, TWICE_AT_RISK).stepSends == [FIRST, SKIPPED, SECOND]
  {
    FirstStepSent();
    SecondSkipped();
    SecondStepSent();
    hide HandleSpec, TWO_STEPS;
    RunFive(TWO_STEPS, EMPTY, State([AT_RISK], [], [], 0), State([AT_RISK], [], [FIRST], 0),
            State([AT_RISK, AT_RISK], [], [FIRST], 0), State([AT_RISK, AT_RISK], [], [FIRST, SKIPPED], 0),
            State([AT_RISK, AT_RISK], [], [FIRST, SKIPPED, SECOND], 0), TWICE_AT_RISK);
  }

  /** Two steps and no template. */
  const ONLY_STEPS :=
    Config([], map["AT_RISK" := Sequence(30, [SequenceStep(None, 0, ANYTIME), SequenceStep(None, 0, ANYTIME)])])

  /** Detected and handled once: processed, with one of two steps made. */
  lemma ProcessedWithAStepLeft()
    ensures var e := Run(ONLY_STEPS, EMPTY, [Detect(Customer(0), "AT_RISK"), Handle(0, CALM)]);
            && e == State([Transition(Customer(0), "AT_RISK", 0, Some(0))], [],
                          [StepSend(0, 0, SkippedNoTemplate, 0)], 0)
            && |ONLY_STEPS.Steps("AT_RISK")| == 2
  {
    var calls := [Detect(Customer(0), "AT_RISK"), Handle(0, CALM)];
    var s1 := State([Transition(Customer(0), "AT_RISK", 0, None)], [], [], 0);
    OneStepMade(s1);
    hide HandleSpec;
    assert Step(ONLY_STEPS, EMPTY, calls[0]) == s1;
    assert calls[1..] == [calls[1]] && calls[1..][1..] == [];
    assert Run(ONLY_STEPS, s1, calls[1..]) == Run(ONLY_STEPS, Step(ONLY_STEPS, s1, calls[1]), []);
  }

  lemma OneStepMade(s: State)
    requires s == State([Transition(Customer(0), "AT_RISK", 0, None)], [], [], 0)
    ensures HandleSpec(ONLY_STEPS, s, 0, CALM).state
         == State([Transition(Customer(0), "AT_RISK", 0, Some(0))], [], [StepSend(0, 0, SkippedNoTemplate, 0)], 0)
  {
    hide LastStepSent, LastProcessed, IsPastSendTimeToday, HasStepRow;
    assert s.Tick(0) == s && NextStep([], 0, 2, 0) == 0 by { NothingMadeYet(); }
    assert TemplatesSpec(ONLY_STEPS, s, 0, 0, CALM, 0) == Progress(s, 0, false, false);
  }

  lemma NothingMadeYet()
    ensures NextStep([], 0, 2, 0) == 0
  {
    assert !HasStepRow([], 0, 0);
  }

  // ---- A missing step can still come exactly while the transition is open ----

  /** The last minute of some day after both instants. */
  function LateEnough(a: int, b: int): (now: int)
    ensures a <= now && b <= now
  {
    var later := if a <= b then b else a;
    (later / DAY_MS + 1) * DAY_MS + 1439 * MINUTE_MS
  }

  lemma LastMinuteIsPast(at: SendTime, a: int, b: int)
    ensures IsPastSendTimeToday(at, 0, LateEnough(a, b))
  {
    var day := (if a <= b then b else a) / DAY_MS + 1;
    assert (day * DAY_MS + 1439 * MINUTE_MS) % DAY_MS == 1439 * MINUTE_MS;
  }

  /** Waiting long enough and polling once more takes the next step. */
  lemma WaitingTakesTheStep(cfg: Config, s: State, t: Id, now: int)
    requires Pending(s, t) && s.transitions[t].lifecycle in cfg.sequences && s.clock <= now
    requires !SequenceDone(cfg, s.transitions, s.stepSends, t)
    requires var transition := s.transitions[t];
             var steps := cfg.Steps(transition.lifecycle);
             var k := NextStep(s.stepSends, t, |steps|, 0);
             var basis := if k == 0 then transition.detectedAt
                          else Basis(LastProcessed(s.stepSends, t), transition.detectedAt);
             steps[k].delayMinutes * MINUTE_MS <= now - basis && IsPastSendTimeToday(steps[k].sendTime, 0, now)
    ensures var calls := [Elapse(now - s.clock), Handle(t, CALM)];
            RowsOf(Run(cfg, s, calls).stepSends, t) == RowsOf(s.stepSends, t) + 1
  {
    var calls := [Elapse(now - s.clock), Handle(t, CALM)];
    var s1 := s.Tick(now - s.clock);
    assert s1.Tick(0) == s1;
    CompleteAttemptsRunThrough(cfg, s1, t, now, CALM, |cfg.templates|);
    assert TakesStep(cfg, s1, t, CALM);
    HandleRows(cfg, s1, t, CALM);
    hide HandleSpec, TakesStep;
    assert calls[1..] == [calls[1]] && calls[1..][1..] == [];
    assert Run(cfg, s1, calls[1..]) == Run(cfg, Step(cfg, s1, calls[1]), []);
  }

  /**
   * From any reachable state with steps of t missing, some continuation makes the next one exactly
   * while t is open.
   */
  lemma NextStepCanComeIff(cfg: Config, before: seq<Call>, t: Id)
    requires var s := Run(cfg, EMPTY, before);
             && t < |s.transitions| && s.transitions[t].lifecycle in cfg.sequences
             && RowsOf(s.stepSends, t) < |cfg.Steps(s.transitions[t].lifecycle)|
    ensures var s := Run(cfg, EMPTY, before);
            (exists later :: MakesStep(cfg, s, later, t)) <==> Pending(s, t)
  {
    InvariantOverRuns(cfg, EMPTY, before);
    var s := Run(cfg, EMPTY, before);
    hide Run;
    MissingStepCanComeIff(cfg, s, t);
  }

  ghost predicate MakesStep(cfg: Config, s: State, later: seq<Call>, t: Id) {
    RowsOf(Run(cfg, s, later).stepSends, t) > RowsOf(s.stepSends, t)
  }

  lemma MissingStepCanComeIff(cfg: Config, s: State, t: Id)
    requires Invariant(cfg, s) && t < |s.transitions| && s.transitions[t].lifecycle in cfg.sequences
    requires RowsOf(s.stepSends, t) < |cfg.Steps(s.transitions[t].lifecycle)|
    ensures (exists later :: MakesStep(cfg, s, later, t)) <==> Pending(s, t)
  {
    DoneMeansAllRows(cfg, s, t);
    if Pending(s, t) {
      var transition := s.transitions[t];
      var steps := cfg.Steps(transition.lifecycle);
      var k := NextStep(s.stepSends, t, |steps|, 0);
      var basis := if k == 0 then transition.detectedAt
                   else Basis(LastProcessed(s.stepSends, t), transition.detectedAt);
      var now := LateEnough(s.clock, basis + steps[k].delayMinutes * MINUTE_MS);
      LastMinuteIsPast(steps[k].sendTime, s.clock, basis + steps[k].delayMinutes * MINUTE_MS);
      hide LateEnough, IsPastSendTimeToday, StepsOk;
      WaitingTakesTheStep(cfg, s, t, now);
      assert MakesStep(cfg, s, [Elapse(now - s.clock), Handle(t, CALM)], t);
    } else {
      forall later ensures !MakesStep(cfg, s, later, t) {
        ProcessedStays(cfg, s, later, t);
      }
    }
  }

  /** The call skips step 1 for the cooldown; only then does it write a SKIPPED_COOLDOWN row. */
  predicate SkipsForCooldown(cfg: Config, s: State, t: Id, w: World)
    requires t < |s.transitions|
  {
    TakesStep(cfg, s, t, w) && CooldownRuns(cfg, s, t, s.clock + w.reading)
  }

  lemma SkipsForCooldownIff(cfg: Config, s: State, t: Id, w: World)
    requires Pending(s, t)
    ensures var rows := HandleSpec(cfg, s, t, w).state.stepSends;
            SkipsForCooldown(cfg, s, t, w)
            <==> |rows| == |s.stepSends| + 1 && rows[|s.stepSends|].outcome == SkippedCooldown
  {
    HandleAddsRows(cfg, s, t, w);
    if TakesStep(cfg, s, t, w) {
      KeptOpenIff(cfg, s, t, w);
    }
    hide HandleSpec, TakesStep, CooldownRuns, KeptOpen;
  }

  /**
   * After a cooldown skip of step 1, step 2 can still go out exactly when, before the skipping call,
   * some template meant for the subject had no row and was not due yet, or the call's final write is lost.
   */
  lemma CooldownSkipEndsSequenceIff(cfg: Config, before: seq<Call>, t: Id, w: World)
    requires var s := Run(cfg, EMPTY, before);
             && Pending(s, t) && SkipsForCooldown(cfg, s, t, w) && |cfg.Steps(s.transitions[t].lifecycle)| >= 2
    ensures var s := Run(cfg, EMPTY, before);
            var after := HandleSpec(cfg, s, t, w).state;
            && RowsOf(after.stepSends, t) == 1
            && ((exists later :: MakesStep(cfg, after, later, t))
                <==> SomeEarly(cfg, s, t, w, s.clock + w.reading, |cfg.templates|) || !w.closed)
  {
    hide Run, SkipsForCooldown, HandleSpec, SomeEarly, Invariant, MakesStep;
    InvariantOverRuns(cfg, EMPTY, before);
    var s := Run(cfg, EMPTY, before);
    AfterTheSkip(cfg, s, t, w);
    MissingStepCanComeIff(cfg, HandleSpec(cfg, s, t, w).state, t);
  }

  lemma AfterTheSkip(cfg: Config, s: State, t: Id, w: World)
    requires Invariant(cfg, s) && Pending(s, t) && SkipsForCooldown(cfg, s, t, w)
    ensures var after := HandleSpec(cfg, s, t, w).state;
            && Invariant(cfg, after) && RowsOf(after.stepSends, t) == 1
            && t < |after.transitions| && after.transitions[t].lifecycle == s.transitions[t].lifecycle
            && (Pending(after, t) <==> SomeEarly(cfg, s, t, w, s.clock + w.reading, |cfg.templates|) || !w.closed)
  {
    HandleKeepsTables(cfg, s, t, w);
    HandleShape(cfg, s, t, w);
    HandleRows(cfg, s, t, w);
    NextStepCounts(cfg, s, t);
    KeptOpenIff(cfg, s, t, w);
    hide HandleSpec, StepsOk, SendsOk, TakesStep, SomeEarly, LastStepSent;
  }
}
