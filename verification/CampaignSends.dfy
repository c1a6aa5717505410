/** Why a row of the two send tables is there and says what it says. */
module CampaignSends {
  import opened Base
  import opened Campaign
  import opened CampaignRuns
  import opened CampaignCompletion

  // ---- One template attempt ----

  /** The template went out to the same subject, on any transition, less than its cooldown before this instant. */
  predicate CoolingDown(cfg: Config, s: State, t: Id, k: Id, at: int)
    requires t < |s.transitions| && k < |cfg.templates|
  {
    exists i :: 0 <= i < |s.sends| && SentTo(s, s.sends[i], k, s.transitions[t].subject)
      && at - s.sends[i].outcome.at < cfg.templates[k].cooldownDays * 24 * 3600000
  }

  predicate SentTo(s: State, row: Send, k: Id, subject: Subject) {
    && row.template == k && row.outcome.Sent? && row.transition < |s.transitions|
    && s.transitions[row.transition].subject == subject
  }

  lemma {:induction false} LastSentIsARow(sends: seq<Send>, transitions: seq<Transition>, k: Id, subject: Subject)
    ensures var last := LastSent(sends, transitions, k, subject);
            last.Some? ==>
              exists i :: 0 <= i < |sends| && sends[i].template == k && sends[i].outcome == Sent(last.value)
                && sends[i].transition < |transitions| && transitions[sends[i].transition].subject == subject
    decreases |sends|
  {
    if sends != [] {
      var n := |sends| - 1;
      LastSentIsARow(sends[..n], transitions, k, subject);
      var earlier := LastSent(sends[..n], transitions, k, subject);
      if earlier.Some? {
        var i :| 0 <= i < n && sends[..n][i].template == k && sends[..n][i].outcome == Sent(earlier.value)
          && sends[..n][i].transition < |transitions| && transitions[sends[..n][i].transition].subject == subject;
        assert sends[i].outcome == Sent(earlier.value);
      }
      assert sends[n] == sends[|sends| - 1];
    }
  }

  lemma CoolingDownIff(cfg: Config, s: State, t: Id, k: Id, at: int)
    requires t < |s.transitions| && k < |cfg.templates|
    ensures var last := LastSent(s.sends, s.transitions, k, s.transitions[t].subject);
            CoolingDown(cfg, s, t, k, at)
            <==> last.Some? && at - last.value < cfg.templates[k].cooldownDays * DAY_MS
  {
    var subject := s.transitions[t].subject;
    LastSentIsARow(s.sends, s.transitions, k, subject);
    if CoolingDown(cfg, s, t, k, at) {
      var i :| 0 <= i < |s.sends| && SentTo(s, s.sends[i], k, subject)
        && at - s.sends[i].outcome.at < cfg.templates[k].cooldownDays * 24 * 3600000;
      LastSentBounds(s.sends, s.transitions, k, subject, i);
    }
    var last := LastSent(s.sends, s.transitions, k, subject);
    if last.Some? && at - last.value < cfg.templates[k].cooldownDays * DAY_MS {
      var i :| 0 <= i < |s.sends| && s.sends[i].template == k && s.sends[i].outcome == Sent(last.value)
        && s.sends[i].transition < |s.transitions| && s.transitions[s.sends[i].transition].subject == subject;
      assert SentTo(s, s.sends[i], k, subject);
    }
    hide LastSent;
  }

  predicate WalkInPush(channel: Channel, subject: Subject) { channel == Push && subject.Customer? }

  /** Consent was given and there is no address to write to; a push needs none. */
  predicate NoContact(channel: Channel, a: Attempt) { a.consent && channel != Push && !a.contact }

  /** Everything was there and the provider raised, or refused a text message. */
  predicate Rejected(channel: Channel, a: Attempt) {
    && a.consent && (channel == Push || a.contact)
    && (a.reply == Raised || (channel == Sms && a.reply == Refused))
  }

  /**
   * The one row an attempt writes, case by case: SENT if and only if no message of this template to this
   * subject is within the cooldown and consent, contact and provider allow it; every other outcome has
   * its own condition.
   */
  lemma AttemptOutcome(cfg: Config, s: State, t: Id, k: Id, a: Attempt)
    requires t < |s.transitions| && k < |cfg.templates| && !a.stopped
    ensures var r := AttemptSendSpec(cfg, s, t, k, a);
            var channel, subject := cfg.templates[k].channel, s.transitions[t].subject;
            var at := s.clock + a.reading;
            var cooling := CoolingDown(cfg, s, t, k, at);
            && |r.state.sends| == |s.sends| + 1 && r.state.sends[..|s.sends|] == s.sends
            && var row := r.state.sends[|s.sends|];
               && row.transition == t && row.template == k
               && (row.outcome.Sent? <==> !cooling && Sendable(channel, subject, a))
               && (row.outcome.Sent? ==> row.outcome.at == at + a.sending)
               && (row.outcome.SkippedCooldown? <==> cooling && !WalkInPush(channel, subject))
               && (row.outcome.SkippedNoConsent? <==> !cooling && !WalkInPush(channel, subject) && !a.consent)
               && (row.outcome.SkippedNoContact?
                   <==> WalkInPush(channel, subject) || (!cooling && NoContact(channel, a)))
               && (row.outcome.Failed? <==> !cooling && !WalkInPush(channel, subject) && Rejected(channel, a))
               && (r.interrupted <==> row.outcome.Sent? && !a.recorded)
  {
    CoolingDownIff(cfg, s, t, k, s.clock + a.reading);
    hide LastSent, CoolingDown;
  }

  // ---- One sequence step ----

  /** The step's template is there and sends on this channel. */
  predicate SendsOn(cfg: Config, step: SequenceStep, channel: Channel) {
    && step.template.Some? && step.template.value < |cfg.templates|
    && cfg.templates[step.template.value].channel == channel
  }

  predicate TemplateGone(cfg: Config, step: SequenceStep) {
    step.template.None? || step.template.value >= |cfg.templates|
  }

  /** A step of this lifecycle's sequence went out to the same subject less than the sequence's cooldown before. */
  predicate StepCoolingDown(cfg: Config, s: State, t: Id, at: int)
    requires t < |s.transitions| && s.transitions[t].lifecycle in cfg.sequences
  {
    exists i :: 0 <= i < |s.stepSends| && StepSentTo(s, s.stepSends[i], s.transitions[t])
      && at - s.stepSends[i].outcome.at < cfg.sequences[s.transitions[t].lifecycle].cooldownDays * 24 * 3600000
  }

  predicate StepSentTo(s: State, row: StepSend, transition: Transition) {
    && row.outcome.Sent? && row.transition < |s.transitions|
    && s.transitions[row.transition].lifecycle == transition.lifecycle
    && s.transitions[row.transition].subject == transition.subject
  }

  lemma {:induction false} LastStepSentIsARow(rows: seq<StepSend>, transitions: seq<Transition>, l: Lifecycle,
                                              subject: Subject)
    ensures var last := LastStepSent(rows, transitions, l, subject);
            last.Some? ==>
              exists i :: 0 <= i < |rows| && rows[i].outcome == Sent(last.value) && rows[i].transition < |transitions|
                && transitions[rows[i].transition].lifecycle == l && transitions[rows[i].transition].subject == subject
    decreases |rows|
  {
    if rows != [] {
      var n := |rows| - 1;
      LastStepSentIsARow(rows[..n], transitions, l, subject);
      var earlier := LastStepSent(rows[..n], transitions, l, subject);
      if earlier.Some? {
        var i :| 0 <= i < n && rows[..n][i].outcome == Sent(earlier.value) && rows[..n][i].transition < |transitions|
          && transitions[rows[..n][i].transition].lifecycle == l
          && transitions[rows[..n][i].transition].subject == subject;
        assert rows[i].outcome == Sent(earlier.value);
      }
      assert rows[n] == rows[|rows| - 1];
    }
  }

  /** The cooldown holds step 1 back exactly when a step went out within it, whichever transition it was for. */
  lemma CooldownRunsIff(cfg: Config, s: State, t: Id, now: int)
    requires t < |s.transitions| && s.transitions[t].lifecycle in cfg.sequences
    ensures var steps := cfg.sequences[s.transitions[t].lifecycle].steps;
            CooldownRuns(cfg, s, t, now)
            <==> steps != [] && !HasStepRow(s.stepSends, t, 0) && !TemplateGone(cfg, steps[0])
                 && StepCoolingDown(cfg, s, t, now)
  {
    var tr := s.transitions[t];
    LastStepSentIsARow(s.stepSends, s.transitions, tr.lifecycle, tr.subject);
    if StepCoolingDown(cfg, s, t, now) {
      var i :| 0 <= i < |s.stepSends| && StepSentTo(s, s.stepSends[i], tr)
        && now - s.stepSends[i].outcome.at < cfg.sequences[tr.lifecycle].cooldownDays * 24 * 3600000;
      LastStepSentBounds(s.stepSends, s.transitions, tr.lifecycle, tr.subject, i);
    }
    var last := LastStepSent(s.stepSends, s.transitions, tr.lifecycle, tr.subject);
    if last.Some? && now - last.value < cfg.sequences[tr.lifecycle].cooldownDays * DAY_MS {
      var i :| 0 <= i < |s.stepSends| && s.stepSends[i].outcome == Sent(last.value)
        && s.stepSends[i].transition < |s.transitions|
        && s.transitions[s.stepSends[i].transition].lifecycle == tr.lifecycle
        && s.transitions[s.stepSends[i].transition].subject == tr.subject;
      assert StepSentTo(s, s.stepSends[i], tr);
    }
    hide LastStepSent, HasStepRow;
  }

  /** The row a due step writes, case by case. */
  lemma StepOutcome(cfg: Config, s: State, t: Id, now: int, w: World)
    requires t < |s.transitions| && s.transitions[t].lifecycle in cfg.sequences && !w.step.stopped
    requires StepDue(cfg, s.transitions, s.stepSends, t, now, w.offsetMinutes)
    ensures var q := HandleSequenceSpec(cfg, s, t, now, w);
            var steps := cfg.sequences[s.transitions[t].lifecycle].steps;
            var k := NextStep(s.stepSends, t, |steps|, 0);
            && |q.state.stepSends| == |s.stepSends| + 1 && q.state.stepSends[..|s.stepSends|] == s.stepSends
            && var row := q.state.stepSends[|s.stepSends|];
               var subject := s.transitions[t].subject;
               && row.transition == t && row.step == k
               && (row.outcome.SkippedNoTemplate? <==> TemplateGone(cfg, steps[k]))
               && (row.outcome.SkippedCooldown? <==> CooldownRuns(cfg, s, t, now))
               && (forall channel | SendsOn(cfg, steps[k], channel) && !CooldownRuns(cfg, s, t, now) ::
                     && (row.outcome.Sent? <==> Sendable(channel, subject, w.step))
                     && (row.outcome.Sent? ==> row.outcome.at == s.clock + w.step.reading + w.step.sending)
                     && (row.outcome.SkippedNoConsent? <==> !WalkInPush(channel, subject) && !w.step.consent)
                     && (row.outcome.SkippedNoContact?
                         <==> WalkInPush(channel, subject) || NoContact(channel, w.step))
                     && (row.outcome.Failed? <==> !WalkInPush(channel, subject) && Rejected(channel, w.step)))
  {
    hide IsPastSendTimeToday, LastStepSent, LastProcessed, HasStepRow;
  }

  // ---- Every row of a run has its call ----

  /** The time of day at the server reaches the send time, if one is set; a missing minute is the full hour. */
  predicate TimeOfDayReached(at: SendTime, offsetMinutes: int, now: int) {
    at.hour.Some? ==>
      (now / 60000 + offsetMinutes) % 1440 >= at.hour.value * 60 + (if at.minute.Some? then at.minute.value else 0)
  }

  lemma TimeOfDay(at: SendTime, offsetMinutes: int, now: int)
    ensures IsPastSendTimeToday(at, offsetMinutes, now) <==> TimeOfDayReached(at, offsetMinutes, now)
  {
    var x := now + offsetMinutes * 60000;
    assert x / 60000 == now / 60000 + offsetMinutes;
    assert x == 86400000 * (x / 86400000) + x % 86400000;
    assert (x % 86400000) / 60000 == (x / 60000) % 1440 by {
      var q, r := x / 86400000, x % 86400000;
      assert x / 60000 == 1440 * q + r / 60000;
    }
  }

  /** What must have held when template k was attempted for the transition: it is meant for the subject and due. */
  predicate Called(cfg: Config, transition: Transition, k: Id, tier: Tier, offsetMinutes: int, now: int) {
    && k < |cfg.templates|
    && var template := cfg.templates[k];
       && template.enabled && template.lifecycle == transition.lifecycle
       && (template.audience == Some(Customers) ==> transition.subject.Customer?)
       && (template.audience == Some(Users) ==> transition.subject.User?)
       && (template.tier.Some? ==> template.tier.value == tier)
       && transition.detectedAt + template.delayDays * 24 * 3600000 <= now
       && TimeOfDayReached(template.sendTime, offsetMinutes, now)
  }

  /** Row r of the template table is one that this call may have written, for this reason. */
  predicate Explained(cfg: Config, transition: Transition, r: Send, w: World, now: int) {
    && Called(cfg, transition, r.template, w.tier, w.offsetMinutes, now)
    && !w.For(r.template).stopped
    && (r.outcome.Sent? ==> Sendable(cfg.templates[r.template].channel, transition.subject, w.For(r.template)))
    && (r.outcome.SkippedNoConsent? ==> !w.For(r.template).consent)
  }

  ghost predicate NewRowsExplained(cfg: Config, s: State, sends: seq<Send>, t: Id, w: World, now: int)
    requires t < |s.transitions|
  {
    && s.sends <= sends
    && forall i | |s.sends| <= i < |sends| ::
         sends[i].transition == t && Explained(cfg, s.transitions[t], sends[i], w, now)
  }

  lemma {:induction false} LoopRowsExplained(cfg: Config, s: State, t: Id, now: int, w: World, n: nat)
    requires t < |s.transitions| && n <= |cfg.templates|
    ensures NewRowsExplained(cfg, s, TemplatesSpec(cfg, s, t, now, w, n).state.sends, t, w, now)
    decreases n
  {
    hide Explained, NewRowsExplained, TemplateStep;
    if n > 0 {
      LoopRowsExplained(cfg, s, t, now, w, n - 1);
      var p := TemplatesSpec(cfg, s, t, now, w, n - 1);
      if !p.interrupted {
        OneRowExplained(cfg, p, t, now, w, n - 1);
        MoreRowsExplained(cfg, s, p.state, TemplateStep(cfg, p, t, now, w, n - 1).state.sends, t, w, now);
      }
    } else {
      assert NewRowsExplained(cfg, s, s.sends, t, w, now) by { NoRowsToExplain(cfg, s, t, w, now); }
    }
  }

  lemma NoRowsToExplain(cfg: Config, s: State, t: Id, w: World, now: int)
    requires t < |s.transitions|
    ensures NewRowsExplained(cfg, s, s.sends, t, w, now)
  {
  }

  lemma MoreRowsExplained(cfg: Config, s: State, m: State, sends: seq<Send>, t: Id, w: World, now: int)
    requires t < |s.transitions| && m.transitions == s.transitions
    requires NewRowsExplained(cfg, s, m.sends, t, w, now) && NewRowsExplained(cfg, m, sends, t, w, now)
    ensures NewRowsExplained(cfg, s, sends, t, w, now)
  {
    hide Explained;
  }

  lemma OneRowExplained(cfg: Config, p: Progress, t: Id, now: int, w: World, k: nat)
    requires t < |p.state.transitions| && k < |cfg.templates|
    ensures NewRowsExplained(cfg, p.state, TemplateStep(cfg, p, t, now, w, k).state.sends, t, w, now)
  {
    TimeOfDay(cfg.templates[k].sendTime, w.offsetMinutes, now);
    if w.For(k).stopped {
      AttemptWritesOneRow(cfg, p.state, t, k, w.For(k));
    } else {
      AttemptOutcome(cfg, p.state, t, k, w.For(k));
    }
    hide AttemptSendSpec, HasRow, IsPastSendTimeToday, TimeOfDayReached, CoolingDown, Sendable;
  }

  /** The same for a step row: the step stands in the sequence, and a message went out only if the world let it. */
  predicate StepExplained(cfg: Config, transition: Transition, r: StepSend, w: World, now: int) {
    && transition.lifecycle in cfg.sequences && r.step < |cfg.sequences[transition.lifecycle].steps|
    && !w.step.stopped
    && var step := cfg.sequences[transition.lifecycle].steps[r.step];
       && (r.outcome.SkippedNoTemplate? <==> TemplateGone(cfg, step))
       && (r.outcome.Sent? ==>
             && (exists channel :: SendsOn(cfg, step, channel) && Sendable(channel, transition.subject, w.step))
             && TimeOfDayReached(step.sendTime, w.offsetMinutes, now))
       && (r.outcome.SkippedNoConsent? ==> !w.step.consent)
  }

  ghost predicate NewStepsExplained(cfg: Config, s: State, rows: seq<StepSend>, t: Id, w: World, now: int)
    requires t < |s.transitions|
  {
    && s.stepSends <= rows
    && forall i | |s.stepSends| <= i < |rows| ::
         rows[i].transition == t && StepExplained(cfg, s.transitions[t], rows[i], w, now)
  }

  lemma SequenceRowExplained(cfg: Config, s: State, t: Id, now: int, w: World)
    requires t < |s.transitions| && s.transitions[t].lifecycle in cfg.sequences
    ensures NewStepsExplained(cfg, s, HandleSequenceSpec(cfg, s, t, now, w).state.stepSends, t, w, now)
  {
    SequenceOutcome(cfg, s, t, now, w);
    if !w.step.stopped && StepDue(cfg, s.transitions, s.stepSends, t, now, w.offsetMinutes) {
      StepOutcome(cfg, s, t, now, w);
      var steps := cfg.sequences[s.transitions[t].lifecycle].steps;
      var k := NextStep(s.stepSends, t, |steps|, 0);
      TimeOfDay(steps[k].sendTime, w.offsetMinutes, now);
      if !TemplateGone(cfg, steps[k]) {
        assert SendsOn(cfg, steps[k], cfg.StepChannel(steps[k]).value);
      }
    }
    hide HandleSequenceSpec, IsPastSendTimeToday, TimeOfDayReached, LastStepSent, LastProcessed, Sendable, HasStepRow;
  }

  lemma HandleRowsExplained(cfg: Config, s: State, t: Id, w: World)
    requires Pending(s, t)
    ensures var s2, now := HandleSpec(cfg, s, t, w).state, s.clock + w.reading;
            NewRowsExplained(cfg, s, s2.sends, t, w, now) && NewStepsExplained(cfg, s, s2.stepSends, t, w, now)
  {
    hide TemplatesSpec, HandleSequenceSpec, Explained, StepExplained, StepDue, SequenceDone, AnySelected;
    var l := s.transitions[t].lifecycle;
    if (AnySelected(cfg, l) || l in cfg.sequences) && w.resolved {
      var s1 := s.Tick(w.reading);
      var p := TemplatesSpec(cfg, s1, t, s1.clock, w, |cfg.templates|);
      LoopRowsExplained(cfg, s1, t, s1.clock, w, |cfg.templates|);
      if !p.interrupted && l in cfg.sequences {
        SequenceRowExplained(cfg, p.state, t, s1.clock, w);
        SequenceOutcome(cfg, p.state, t, s1.clock, w);
      }
    }
  }

  /** The i-th call of the run from empty tables handles the row's transition, and explains the row. */
  ghost predicate SendExplainedBy(cfg: Config, calls: seq<Call>, i: nat, r: Send)
    requires i < |calls|
  {
    var s := Run(cfg, EMPTY, calls[..i]);
    && calls[i].Handle? && calls[i].t == r.transition && Pending(s, r.transition)
    && Explained(cfg, s.transitions[r.transition], r, calls[i].w, s.clock + calls[i].w.reading)
  }

  ghost predicate StepSendExplainedBy(cfg: Config, calls: seq<Call>, i: nat, r: StepSend)
    requires i < |calls|
  {
    var s := Run(cfg, EMPTY, calls[..i]);
    && calls[i].Handle? && calls[i].t == r.transition && Pending(s, r.transition)
    && StepExplained(cfg, s.transitions[r.transition], r, calls[i].w, s.clock + calls[i].w.reading)
  }

  /**
   * In every run, each template row comes from a call that handled its transition, with the template
   * enabled, meant for the subject and due; and it is SENT only if that call's attempt had consent, a
   * contact where one is needed and an accepting provider. The same goes for sequence steps.
   */
  lemma {:induction false} RowsExplained(cfg: Config, calls: seq<Call>, j: nat)
    ensures var s := Run(cfg, EMPTY, calls);
            && (j < |s.sends| ==> exists i | 0 <= i < |calls| :: SendExplainedBy(cfg, calls, i, s.sends[j]))
            && (j < |s.stepSends| ==> exists i | 0 <= i < |calls| :: StepSendExplainedBy(cfg, calls, i, s.stepSends[j]))
    decreases |calls|
  {
    if calls != [] {
      var n := |calls| - 1;
      var before, c := calls[..n], calls[n];
      var m := Run(cfg, EMPTY, before);
      RowsExplained(cfg, before, j);
      assert calls == before + [c];
      RunAppend(cfg, EMPTY, before, c);
      LastCallExplains(cfg, calls, j);
      hide Run, Step, Explained, StepExplained, SendExplainedBy, StepSendExplainedBy;
      if j < |m.sends| {
        var i :| 0 <= i < n && SendExplainedBy(cfg, before, i, m.sends[j]);
        SamePrefix(cfg, calls, n, i, m.sends[j]);
      }
      if j < |m.stepSends| {
        var i :| 0 <= i < n && StepSendExplainedBy(cfg, before, i, m.stepSends[j]);
        SameStepPrefix(cfg, calls, n, i, m.stepSends[j]);
      }
    }
  }

  lemma SamePrefix(cfg: Config, calls: seq<Call>, n: nat, i: nat, r: Send)
    requires i < n <= |calls| && SendExplainedBy(cfg, calls[..n], i, r)
    ensures SendExplainedBy(cfg, calls, i, r)
  {
    assert calls[..n][..i] == calls[..i];
  }

  lemma SameStepPrefix(cfg: Config, calls: seq<Call>, n: nat, i: nat, r: StepSend)
    requires i < n <= |calls| && StepSendExplainedBy(cfg, calls[..n], i, r)
    ensures StepSendExplainedBy(cfg, calls, i, r)
  {
    assert calls[..n][..i] == calls[..i];
  }

  /** What the last call adds is its own; the rows before stay. */
  lemma LastCallExplains(cfg: Config, calls: seq<Call>, j: nat)
    requires calls != []
    ensures var n := |calls| - 1;
            var m := Run(cfg, EMPTY, calls[..n]);
            var s := Step(cfg, m, calls[n]);
            && m.sends <= s.sends && m.stepSends <= s.stepSends
            && (|m.sends| <= j < |s.sends| ==> SendExplainedBy(cfg, calls, n, s.sends[j]))
            && (|m.stepSends| <= j < |s.stepSends| ==> StepSendExplainedBy(cfg, calls, n, s.stepSends[j]))
  {
    hide HandleSpec, Run, Explained, StepExplained, NewRowsExplained, NewStepsExplained;
    var n := |calls| - 1;
    var m, c := Run(cfg, EMPTY, calls[..n]), calls[n];
    if c.Handle? && Pending(m, c.t) {
      HandleRowsExplained(cfg, m, c.t, c.w);
      var s2, now := HandleSpec(cfg, m, c.t, c.w).state, m.clock + c.w.reading;
      RowAt(cfg, m, s2.sends, c.t, c.w, now, j);
      StepRowAt(cfg, m, s2.stepSends, c.t, c.w, now, j);
    }
  }

  lemma RowAt(cfg: Config, s: State, sends: seq<Send>, t: Id, w: World, now: int, j: nat)
    requires t < |s.transitions| && NewRowsExplained(cfg, s, sends, t, w, now)
    ensures s.sends <= sends
    ensures |s.sends| <= j < |sends| ==> sends[j].transition == t && Explained(cfg, s.transitions[t], sends[j], w, now)
  {
  }

  lemma StepRowAt(cfg: Config, s: State, rows: seq<StepSend>, t: Id, w: World, now: int, j: nat)
    requires t < |s.transitions| && NewStepsExplained(cfg, s, rows, t, w, now)
    ensures s.stepSends <= rows
    ensures |s.stepSends| <= j < |rows| ==>
              rows[j].transition == t && StepExplained(cfg, s.transitions[t], rows[j], w, now)
  {
  }
}
