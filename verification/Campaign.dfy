/**
 * The campaign sender: a polled machine that works through lifecycle transitions, sending
 * each enabled template once and walking each sequence at most one step per call.
 */
module Campaign {
  import opened Base

  type Lifecycle = string

  /** A subject's spending class. */
  type Tier = string

  datatype Channel = Email | Sms | Push

  datatype Audience = Customers | Users

  datatype Subject = Customer(id: Id) | User(id: Id)
  {
    function Audience(): Audience {
      if Customer? then Customers else Users
    }
  }

  type Hour = h: nat | h < 24
  type Minute = m: nat | m < 60

  datatype SendTime = SendTime(hour: Option<Hour>, minute: Option<Minute>)

  datatype Template = Template(
    lifecycle: Lifecycle, channel: Channel, enabled: bool, delayDays: int, cooldownDays: int, sendTime: SendTime,
    tier: Option<Tier>, audience: Option<Audience>)

  /** Position in the step list plus one is the source's stepOrder. */
  datatype SequenceStep = SequenceStep(template: Option<Id>, delayMinutes: int, sendTime: SendTime)

  datatype Sequence = Sequence(cooldownDays: int, steps: seq<SequenceStep>)

  /** What administrators set up; a run keeps it fixed. At most one enabled sequence serves a lifecycle. */
  datatype Config = Config(templates: seq<Template>, sequences: map<Lifecycle, Sequence>)
  {
    function Steps(l: Lifecycle): seq<SequenceStep> {
      if l in sequences then sequences[l].steps else []
    }

    /** The channel a step sends on, unless its template is gone. */
    function StepChannel(step: SequenceStep): Option<Channel> {
      if step.template.Some? && step.template.value < |templates| then Some(templates[step.template.value].channel)
      else None
    }
  }

  datatype Transition = Transition(subject: Subject, lifecycle: Lifecycle, detectedAt: int, processedAt: Option<int>)

  /** The status column; sentAt is set exactly on SENT rows, so it rides on that case. */
  datatype Outcome =
    | Sent(at: int) | SkippedNoConsent | SkippedNoContact | SkippedNoTemplate | SkippedCooldown | Failed

  datatype Send = Send(transition: Id, template: Id, outcome: Outcome)

  datatype StepSend = StepSend(transition: Id, step: nat, outcome: Outcome, createdAt: int)

  /** The tables and the clock, which every reading can only advance. */
  datatype State = State(transitions: seq<Transition>, sends: seq<Send>, stepSends: seq<StepSend>, clock: int)
  {
    function Tick(d: nat): State { this.(clock := clock + d) }
  }

  datatype Reply = Accepted | Refused | Raised

  /**
   * The outside world during one attempt: the time its reads and writes take, the consent and
   * contact lookups, the provider's reply, whether the attempt stops before its row is written
   * (an exception in a lookup or a dead process), and whether the delivery status is recorded.
   */
  datatype Attempt = Attempt(
    reading: nat, consent: bool, contact: bool, reply: Reply, sending: nat, creating: nat, stopped: bool,
    recorded: bool)

  /** The outside world during one call: `closed` says the final write of processedAt went through. */
  datatype World = World(
    offsetMinutes: int, reading: nat, resolved: bool, tier: Tier, attempts: seq<Attempt>, step: Attempt, closed: bool)
  {
    function For(template: Id): Attempt {
      if template < |attempts| then attempts[template] else step
    }
  }

  // ---- When something is due ----

  /** Once today's send time has passed in the server's zone, the rest of the day qualifies. */
  function IsPastSendTimeToday(at: SendTime, offsetMinutes: int, now: int): bool {
    at.hour.None?
    || ((now + offsetMinutes * MINUTE_MS) % DAY_MS) / MINUTE_MS
       >= at.hour.value * 60 + (if at.minute.Some? then at.minute.value else 0)
  }

  predicate Selected(cfg: Config, l: Lifecycle, k: Id)
    requires k < |cfg.templates|
  {
    cfg.templates[k].enabled && cfg.templates[k].lifecycle == l
  }

  /** A template meant for this subject: lifecycle, audience and spending class all match. */
  predicate Applicable(cfg: Config, transition: Transition, tier: Tier, k: Id)
    requires k < |cfg.templates|
  {
    var template := cfg.templates[k];
    && Selected(cfg, transition.lifecycle, k)
    && (template.audience.Some? ==> template.audience.value == transition.subject.Audience())
    && (template.tier.Some? ==> template.tier.value == tier)
  }

  predicate HasRow(sends: seq<Send>, t: Id, k: Id) {
    exists i :: 0 <= i < |sends| && sends[i].transition == t && sends[i].template == k
  }

  predicate HasStepRow(rows: seq<StepSend>, t: Id, step: nat) {
    exists i :: 0 <= i < |rows| && rows[i].transition == t && rows[i].step == step
  }

  function Later(a: Option<int>, b: int): int {
    if a.Some? && b <= a.value then a.value else b
  }

  /** When this template was last sent to this subject, whatever the transition. */
  function LastSent(sends: seq<Send>, transitions: seq<Transition>, template: Id, subject: Subject): Option<int> {
    if sends == [] then None
    else
      var row := sends[|sends| - 1];
      var earlier := LastSent(sends[..|sends| - 1], transitions, template, subject);
      if row.template == template && row.outcome.Sent? && row.transition < |transitions|
         && transitions[row.transition].subject == subject
      then Some(Later(earlier, row.outcome.at))
      else earlier
  }

  /** When any step of the lifecycle's sequence was last sent to this subject. */
  function LastStepSent(rows: seq<StepSend>, transitions: seq<Transition>, l: Lifecycle,
                        subject: Subject): Option<int>
  {
    if rows == [] then None
    else
      var row := rows[|rows| - 1];
      var earlier := LastStepSent(rows[..|rows| - 1], transitions, l, subject);
      if row.outcome.Sent? && row.transition < |transitions|
         && transitions[row.transition].lifecycle == l && transitions[row.transition].subject == subject
      then Some(Later(earlier, row.outcome.at))
      else earlier
  }

  /** When the transition's most recent step row was created. */
  function LastProcessed(rows: seq<StepSend>, t: Id): Option<int> {
    if rows == [] then None
    else
      var row := rows[|rows| - 1];
      var earlier := LastProcessed(rows[..|rows| - 1], t);
      if row.transition == t then Some(Later(earlier, row.createdAt)) else earlier
  }

  /** The first step without a row, or n. */
  function NextStep(rows: seq<StepSend>, t: Id, n: nat, from: nat): (k: nat)
    requires from <= n
    ensures from <= k <= n
    ensures k < n ==> !HasStepRow(rows, t, k)
    ensures forall j :: from <= j < k ==> HasStepRow(rows, t, j)
    decreases n - from
  {
    if from == n || !HasStepRow(rows, t, from) then from else NextStep(rows, t, n, from + 1)
  }

  /** One message: consent, then contact, then the provider. A push has no address and no refusal. */
  function Deliver(channel: Channel, a: Attempt, clock: int): Outcome {
    if !a.consent then SkippedNoConsent
    else if channel != Push && !a.contact then SkippedNoContact
    else if a.reply == Raised || (channel == Sms && a.reply == Refused) then Failed
    else Sent(clock + a.sending)
  }

  // ---- One template ----

  datatype Attempted = Attempted(state: State, interrupted: bool)

  function Record(s: State, t: Id, k: Id, outcome: Outcome): State {
    s.(sends := s.sends + [Send(t, k, outcome)], clock := if outcome.Sent? then Max(s.clock, outcome.at) else s.clock)
  }

  function Max(a: int, b: int): int { if a <= b then b else a }

  function AttemptSendSpec(cfg: Config, s: State, t: Id, k: Id, a: Attempt): Attempted
    requires t < |s.transitions| && k < |cfg.templates|
  {
    var template := cfg.templates[k];
    var subject := s.transitions[t].subject;
    if a.stopped then Attempted(s.Tick(a.reading), true)
    else if template.channel == Push && subject.Customer? then Attempted(Record(s, t, k, SkippedNoContact), false)
    else
      var s1 := s.Tick(a.reading);
      var last := LastSent(s.sends, s.transitions, k, subject);
      if last.Some? && s1.clock - last.value < template.cooldownDays * DAY_MS then
        Attempted(Record(s1, t, k, SkippedCooldown), false)
      else
        var outcome := Deliver(template.channel, a, s1.clock);
        Attempted(Record(s1, t, k, outcome), outcome.Sent? && !a.recorded)
  }

  /** The template loop after k templates. */
  datatype Progress = Progress(state: State, attempts: nat, waiting: bool, interrupted: bool)

  function TemplatesSpec(cfg: Config, s: State, t: Id, now: int, w: World, k: nat): (p: Progress)
    requires t < |s.transitions| && k <= |cfg.templates|
    ensures p.state.transitions == s.transitions && p.state.stepSends == s.stepSends && s.clock <= p.state.clock
  {
    if k == 0 then Progress(s, 0, false, false)
    else
      var p := TemplatesSpec(cfg, s, t, now, w, k - 1);
      if p.interrupted then p else TemplateStep(cfg, p, t, now, w, k - 1)
  }

  function TemplateStep(cfg: Config, p: Progress, t: Id, now: int, w: World, k: nat): (p2: Progress)
    requires t < |p.state.transitions| && k < |cfg.templates|
    ensures p2.state.transitions == p.state.transitions && p2.state.stepSends == p.state.stepSends
    ensures p.state.clock <= p2.state.clock
  {
    var transition := p.state.transitions[t];
    var template := cfg.templates[k];
    if !Applicable(cfg, transition, w.tier, k) || HasRow(p.state.sends, t, k) then p
    else if now - transition.detectedAt < template.delayDays * DAY_MS
            || !IsPastSendTimeToday(template.sendTime, w.offsetMinutes, now) then p.(waiting := true)
    else
      var r := AttemptSendSpec(cfg, p.state, t, k, w.For(k));
      Progress(r.state, p.attempts + 1, p.waiting, r.interrupted)
  }

  // ---- One sequence ----

  datatype Verdict = StepAttempted | StepWaiting | Complete | Terminal

  datatype Advance = Advance(state: State, verdict: Verdict, interrupted: bool)

  function RecordStep(s: State, t: Id, step: nat, outcome: Outcome, creating: nat): State {
    var clock := (if outcome.Sent? then Max(s.clock, outcome.at) else s.clock) + creating;
    s.(stepSends := s.stepSends + [StepSend(t, step, outcome, clock)], clock := clock)
  }

  function AttemptStepSpec(s: State, t: Id, step: nat, channel: Channel, a: Attempt): Attempted
    requires t < |s.transitions|
  {
    if a.stopped then Attempted(s.Tick(a.reading), true)
    else if channel == Push && s.transitions[t].subject.Customer? then
      Attempted(RecordStep(s, t, step, SkippedNoContact, a.creating), false)
    else
      var s1 := s.Tick(a.reading);
      var outcome := Deliver(channel, a, s1.clock);
      Attempted(RecordStep(s1, t, step, outcome, a.creating), outcome.Sent? && !a.recorded)
  }

  function HandleSequenceSpec(cfg: Config, s: State, t: Id, now: int, w: World): Advance
    requires t < |s.transitions| && s.transitions[t].lifecycle in cfg.sequences
  {
    var transition := s.transitions[t];
    var sequence := cfg.sequences[transition.lifecycle];
    var k := NextStep(s.stepSends, t, |sequence.steps|, 0);
    if k == |sequence.steps| then Advance(s, Complete, false)
    else
      var step := sequence.steps[k];
      var channel := cfg.StepChannel(step);
      if channel.None? then
        if w.step.stopped then Advance(s, StepAttempted, true)
        else Advance(RecordStep(s, t, k, SkippedNoTemplate, w.step.creating), StepAttempted, false)
      else
        var last := LastStepSent(s.stepSends, s.transitions, transition.lifecycle, transition.subject);
        if k == 0 && last.Some? && now - last.value < sequence.cooldownDays * DAY_MS then
          if w.step.stopped then Advance(s, Terminal, true)
          else Advance(RecordStep(s, t, k, SkippedCooldown, w.step.creating), Terminal, false)
        else
          var basis := if k == 0 then transition.detectedAt
                       else Basis(LastProcessed(s.stepSends, t), transition.detectedAt);
          if now - basis < step.delayMinutes * MINUTE_MS
             || !IsPastSendTimeToday(step.sendTime, w.offsetMinutes, now) then Advance(s, StepWaiting, false)
          else
            var r := AttemptStepSpec(s, t, k, channel.value, w.step);
            Advance(r.state, StepAttempted, r.interrupted)
  }

  function Basis(last: Option<int>, detectedAt: int): int {
    if last.Some? then last.value else detectedAt
  }

  // ---- One transition ----

  datatype Handled = Handled(state: State, attempts: nat, waiting: bool, interrupted: bool)

  predicate AnySelected(cfg: Config, l: Lifecycle) {
    exists k :: 0 <= k < |cfg.templates| && Selected(cfg, l, k)
  }

  function Close(s: State, t: Id, attempts: nat, w: World): Handled
    requires t < |s.transitions|
  {
    if !w.closed then Handled(s, attempts, false, true)
    else Handled(s.(transitions := s.transitions[t := s.transitions[t].(processedAt := Some(s.clock))]), attempts,
                 false, false)
  }

  /** The poll only returns transitions that are not processed yet. */
  predicate Pending(s: State, t: Id) {
    t < |s.transitions| && s.transitions[t].processedAt.None?
  }

  function HandleSpec(cfg: Config, s: State, t: Id, w: World): Handled
    requires Pending(s, t)
  {
    var l := s.transitions[t].lifecycle;
    if !AnySelected(cfg, l) && l !in cfg.sequences then Close(s, t, 0, w)
    else if !w.resolved then Handled(s, 0, false, true)
    else
      var s1 := s.Tick(w.reading);
      var now := s1.clock;
      var p := TemplatesSpec(cfg, s1, t, now, w, |cfg.templates|);
      if p.interrupted then Handled(p.state, p.attempts, p.waiting, true) else FinishSpec(cfg, p, t, now, w)
  }

  /** After the template loop: one step of the sequence, then processedAt unless something still waits. */
  function FinishSpec(cfg: Config, p: Progress, t: Id, now: int, w: World): Handled
    requires t < |p.state.transitions|
  {
    if p.state.transitions[t].lifecycle !in cfg.sequences then
      if p.waiting then Handled(p.state, p.attempts, true, false) else Close(p.state, t, p.attempts, w)
    else
      var q := HandleSequenceSpec(cfg, p.state, t, now, w);
      var attempts := p.attempts + (if q.verdict == StepAttempted then 1 else 0);
      var waiting := p.waiting || q.verdict == StepWaiting;
      if q.interrupted then Handled(q.state, attempts, waiting, true)
      else if waiting then Handled(q.state, attempts, true, false)
      else Close(q.state, t, attempts, w)
  }

  // ---- The service ----

  class CampaignSender {
    const cfg: Config
    var transitions: seq<Transition>
    var sends: seq<Send>
    var stepSends: seq<StepSend>
    var clock: int

    constructor (cfg: Config)
      ensures this.cfg == cfg && Tables() == State([], [], [], 0)
    {
      this.cfg := cfg;
      transitions, sends, stepSends, clock := [], [], [], 0;
    }

    ghost function Tables(): State
      reads this
    {
      State(transitions, sends, stepSends, clock)
    }

    method FindLastSent(template: Id, subject: Subject) returns (last: Option<int>)
      ensures last == LastSent(sends, transitions, template, subject)
    {
      last := None;
      for i := 0 to |sends|
        invariant last == LastSent(sends[..i], transitions, template, subject)
      {
        assert sends[..i + 1][..i] == sends[..i];
        var row := sends[i];
        if row.template == template && row.outcome.Sent? && row.transition < |transitions| {
          if transitions[row.transition].subject == subject {
            last := Some(Later(last, row.outcome.at));
          }
        }
      }
      assert sends[..|sends|] == sends;
    }

    method AttemptSend(t: Id, k: Id, a: Attempt) returns (interrupted: bool)
      requires t < |transitions| && k < |cfg.templates|
      modifies this
      ensures Attempted(Tables(), interrupted) == AttemptSendSpec(cfg, old(Tables()), t, k, a)
    {
      var template := cfg.templates[k];
      var subject := transitions[t].subject;
      if a.stopped {
        clock := clock + a.reading;
        return true;
      }
      if template.channel == Push && subject.Customer? {
        sends := sends + [Send(t, k, SkippedNoContact)];
        return false;
      }
      var last := FindLastSent(k, subject);
      clock := clock + a.reading;
      if last.Some? && clock - last.value < template.cooldownDays * DAY_MS {
        sends := sends + [Send(t, k, SkippedCooldown)];
        return false;
      }
      if !a.consent {
        sends := sends + [Send(t, k, SkippedNoConsent)];
        return false;
      }
      if template.channel != Push && !a.contact {
        sends := sends + [Send(t, k, SkippedNoContact)];
        return false;
      }
      if a.reply == Raised || (template.channel == Sms && a.reply == Refused) {
        sends := sends + [Send(t, k, Failed)];
        return false;
      }
      clock := clock + a.sending;
      sends := sends + [Send(t, k, Sent(clock))];
      interrupted := !a.recorded;
    }

    method AttemptSequenceStep(t: Id, step: nat, channel: Channel, a: Attempt) returns (interrupted: bool)
      requires t < |transitions|
      modifies this
      ensures Attempted(Tables(), interrupted) == AttemptStepSpec(old(Tables()), t, step, channel, a)
    {
      if a.stopped {
        clock := clock + a.reading;
        return true;
      }
      if channel == Push && transitions[t].subject.Customer? {
        clock := clock + a.creating;
        stepSends := stepSends + [StepSend(t, step, SkippedNoContact, clock)];
        return false;
      }
      clock := clock + a.reading;
      var outcome := Deliver(channel, a, clock);
      if outcome.Sent? {
        clock := outcome.at;
      }
      clock := clock + a.creating;
      stepSends := stepSends + [StepSend(t, step, outcome, clock)];
      interrupted := outcome.Sent? && !a.recorded;
    }

    method HandleSequence(t: Id, now: int, w: World) returns (verdict: Verdict, interrupted: bool)
      requires t < |transitions| && transitions[t].lifecycle in cfg.sequences
      modifies this
      ensures Advance(Tables(), verdict, interrupted) == HandleSequenceSpec(cfg, old(Tables()), t, now, w)
    {
      var transition := transitions[t];
      var sequence := cfg.sequences[transition.lifecycle];
      var k := NextStep(stepSends, t, |sequence.steps|, 0);
      if k == |sequence.steps| {
        return Complete, false;
      }
      var step := sequence.steps[k];
      var channel := cfg.StepChannel(step);
      if channel.None? {
        if !w.step.stopped {
          clock := clock + w.step.creating;
          stepSends := stepSends + [StepSend(t, k, SkippedNoTemplate, clock)];
        }
        return StepAttempted, w.step.stopped;
      }
      if k == 0 {
        var last := LastStepSent(stepSends, transitions, transition.lifecycle, transition.subject);
        if last.Some? && now - last.value < sequence.cooldownDays * DAY_MS {
          if !w.step.stopped {
            clock := clock + w.step.creating;
            stepSends := stepSends + [StepSend(t, k, SkippedCooldown, clock)];
          }
          return Terminal, w.step.stopped;
        }
      }
      var basis := transition.detectedAt;
      if k != 0 {
        basis := Basis(LastProcessed(stepSends, t), transition.detectedAt);
      }
      if now - basis < step.delayMinutes * MINUTE_MS || !IsPastSendTimeToday(step.sendTime, w.offsetMinutes, now) {
        return StepWaiting, false;
      }
      interrupted := AttemptSequenceStep(t, k, channel.value, w.step);
      verdict := StepAttempted;
    }

    method HandleTransition(t: Id, w: World) returns (attempts: nat, anyStillWaiting: bool, interrupted: bool)
      requires Pending(Tables(), t)
      modifies this
      ensures Handled(Tables(), attempts, anyStillWaiting, interrupted) == HandleSpec(cfg, old(Tables()), t, w)
    {
      hide TemplateStep, FinishSpec, Selected;
      attempts, anyStillWaiting, interrupted := 0, false, false;
      var l := transitions[t].lifecycle;
      if !AnySelected(cfg, l) && l !in cfg.sequences {
        interrupted := MarkProcessed(t, 0, w);
        return;
      }
      if !w.resolved {
        interrupted := true;
        return;
      }
      clock := clock + w.reading;
      var now := clock;
      ghost var start := Tables();
      for k := 0 to |cfg.templates|
        invariant t < |transitions| && !interrupted
        invariant Progress(Tables(), attempts, anyStillWaiting, interrupted) == TemplatesSpec(cfg, start, t, now, w, k)
      {
        attempts, anyStillWaiting, interrupted := HandleTemplate(t, k, now, w, attempts, anyStillWaiting);
        if interrupted {
          InterruptedStays(cfg, start, t, now, w, k + 1, |cfg.templates|);
          return;
        }
      }
      attempts, anyStillWaiting, interrupted := Finish(t, now, w, attempts, anyStillWaiting);
    }

    /** The body of the template loop. */
    method HandleTemplate(t: Id, k: Id, now: int, w: World, tried: nat, waiting: bool)
      returns (attempts: nat, anyStillWaiting: bool, interrupted: bool)
      requires t < |transitions| && k < |cfg.templates|
      modifies this
      ensures Progress(Tables(), attempts, anyStillWaiting, interrupted)
           == TemplateStep(cfg, Progress(old(Tables()), tried, waiting, false), t, now, w, k)
    {
      attempts, anyStillWaiting, interrupted := tried, waiting, false;
      var transition := transitions[t];
      var template := cfg.templates[k];
      if Applicable(cfg, transition, w.tier, k) && !HasRow(sends, t, k) {
        if now - transition.detectedAt < template.delayDays * DAY_MS
           || !IsPastSendTimeToday(template.sendTime, w.offsetMinutes, now) {
          anyStillWaiting := true;
        } else {
          attempts := attempts + 1;
          interrupted := AttemptSend(t, k, w.For(k));
        }
      }
    }

    /** What follows the template loop. */
    method Finish(t: Id, now: int, w: World, tried: nat, waiting: bool)
      returns (attempts: nat, anyStillWaiting: bool, interrupted: bool)
      requires t < |transitions|
      modifies this
      ensures Handled(Tables(), attempts, anyStillWaiting, interrupted)
           == FinishSpec(cfg, Progress(old(Tables()), tried, waiting, false), t, now, w)
    {
      attempts, anyStillWaiting, interrupted := tried, waiting, false;
      if transitions[t].lifecycle in cfg.sequences {
        var verdict;
        verdict, interrupted := HandleSequence(t, now, w);
        if verdict == StepAttempted {
          attempts := attempts + 1;
        }
        if verdict == StepWaiting {
          anyStillWaiting := true;
        }
        if interrupted {
          return;
        }
      }
      if !anyStillWaiting {
        interrupted := MarkProcessed(t, attempts, w);
      }
    }

    method MarkProcessed(t: Id, attempts: nat, w: World) returns (interrupted: bool)
      requires t < |transitions|
      modifies this
      ensures Handled(Tables(), attempts, false, interrupted) == Close(old(Tables()), t, attempts, w)
    {
      if w.closed {
        transitions := transitions[t := transitions[t].(processedAt := Some(clock))];
      }
      interrupted := !w.closed;
    }
  }

  lemma {:induction false} InterruptedStays(cfg: Config, s: State, t: Id, now: int, w: World, k: nat, n: nat)
    requires t < |s.transitions| && k <= n <= |cfg.templates|
    requires TemplatesSpec(cfg, s, t, now, w, k).interrupted
    ensures TemplatesSpec(cfg, s, t, now, w, n) == TemplatesSpec(cfg, s, t, now, w, k)
    decreases n
  {
    if k < n {
      InterruptedStays(cfg, s, t, now, w, k, n - 1);
    }
  }
}
