/**
 Host power save and the wake-up handshake (slave/main/host_power_save.c:154-226, 267-334, 356-501 and
 slave/main/esp_hosted_coprocessor.c:860-913), with deep sleep allowed. The binary semaphore wakeup_sem is
 the token. Every alert runs in a short-lived task of its own, wake-ups in others, so an alert is cut
 between the flag and the token, a wake-up between its take and its give, and initialisation between
 creating the semaphore and giving it; any number of each may overlap.
 */
module PowerSave {
  import opened Runs
  import opened Wrappers

  datatype Token = NoSem | Taken | Available

  /**
   `saving` is power_save_on. `sleeping` and `waking` count the alerts half-way through, `holders` the
   wake-ups that have taken the token and not yet given it back, `creating` the initialisations that have
   created the semaphore and not yet given it.
   */
  datatype State = State(enabled: bool, saving: bool, sem: Token, sleeping: nat, waking: nat, holders: nat, creating: nat) {
    predicate Quiet() {
      sleeping == 0 && waking == 0 && holders == 0 && creating == 0
    }
  }

  datatype Step =
    | Init(enable: bool, gpioOk: bool) | InitGive | Delete
    | SleepTake | SleepSet | WakeClear | WakeGive
    | Take | Give

  function Given(t: Token): Token {
    if t.NoSem? then NoSem else Available
  }

  function Drained(t: Token): Token {
    if t.NoSem? then NoSem else Taken
  }

  predicate Creates(s: State, e: Step) {
    e.Init? && e.enable && e.gpioOk && s.sem.NoSem?
  }

  predicate Enabled(s: State, e: Step) {
    match e
    case InitGive => s.creating > 0
    case SleepTake | WakeClear => s.enabled
    case SleepSet => s.sleeping > 0
    case WakeGive => s.waking > 0
    case Take => s.sem.Available?
    case Give => s.holders > 0
    case _ => true
  }

  /** Deinitialising is a Take, a Give and a Delete; it leaves alerts enabled. */
  function Apply(s: State, e: Step): State
    requires Enabled(s, e)
  {
    match e
    case Init(enable, _) =>
      if Creates(s, e) then s.(enabled := true, sem := Taken, creating := s.creating + 1) else s.(enabled := enable)
    case InitGive => s.(sem := Given(s.sem), creating := s.creating - 1)
    case Delete => s.(sem := NoSem)
    case SleepTake => s.(sem := Drained(s.sem), sleeping := s.sleeping + 1)
    case SleepSet => s.(saving := true, sleeping := s.sleeping - 1)
    case WakeClear => s.(saving := false, waking := s.waking + 1)
    case WakeGive => s.(sem := Given(s.sem), waking := s.waking - 1)
    case Take => s.(sem := Taken, holders := s.holders + 1)
    case Give => s.(sem := Given(s.sem), holders := s.holders - 1)
  }

  predicate Next(s: State, e: Step, s': State) {
    Enabled(s, e) && s' == Apply(s, e)
  }

  const BOOT := State(false, false, NoSem, 0, 0, 0, 0)

  // ------------------------------------------------------------------ the token tells whether the host is awake

  predicate FallingAsleep(s: State) {
    s.saving || s.sleeping > 0
  }

  /** A token, or someone on the way to give one, means a host that is awake; no token means one that is not, or someone. */
  predicate TokenTellsAwake(s: State) {
    && (s.sem.Available? || s.waking > 0 || s.holders > 0 || s.creating > 0 ==> !FallingAsleep(s))
    && (s.sem.Taken? ==> FallingAsleep(s) || s.waking > 0 || s.holders > 0 || s.creating > 0)
  }

  /**
   The steps that break this: creating the semaphore for a host that sleeps or is about to; a sleep alert
   that begins inside a wake-up, an initialisation or a wake alert; a wake alert inside a sleep alert.
   */
  predicate Misplaced(s: State, e: Step) {
    || (Creates(s, e) && FallingAsleep(s))
    || (e.SleepTake? && (s.holders > 0 || s.creating > 0 || s.waking > 0))
    || (e.WakeClear? && s.sleeping > 0)
  }

  lemma TokenStepIff(s: State, e: Step)
    requires TokenTellsAwake(s) && Enabled(s, e)
    ensures TokenTellsAwake(Apply(s, e)) <==> !Misplaced(s, e)
  {
  }

  ghost function PlacedNext(): (State, Step, State) -> bool {
    (s, e, s') => Next(s, e, s') && !Misplaced(s, e)
  }

  /**
   In every run without a misplaced step, whenever nothing is half-way, the token is there exactly while the
   host is awake; and a wake-up takes it only from a host that is awake and not about to sleep.
   */
  lemma TokenInEveryRun(states: seq<State>, steps: seq<Step>)
    requires IsRun(PlacedNext(), states, steps)
    requires states[0] == BOOT
    ensures forall i :: 0 <= i < |states| && !states[i].sem.NoSem? && states[i].Quiet() ==>
              (states[i].sem.Available? <==> !states[i].saving)
    ensures forall i :: 0 <= i < |steps| && steps[i].Take? ==> !FallingAsleep(states[i])
  {
    forall s, e, s' | TokenTellsAwake(s) && PlacedNext()(s, e, s')
      ensures TokenTellsAwake(s')
    {
      TokenStepIff(s, e);
    }
    Invariance(PlacedNext(), s => TokenTellsAwake(s), states, steps);
    forall i | 0 <= i < |steps| && steps[i].Take?
      ensures !FallingAsleep(states[i])
    {
      assert PlacedNext()(states[i], steps[i], states[i + 1]);
    }
  }

  /** Initialising sets the flag as asked, and makes a semaphore exactly if there is none and the wake-up pin can be set up. */
  lemma InitMeans(s: State, enable: bool, gpioOk: bool)
    ensures var t := Apply(s, Init(enable, gpioOk));
            var creates := enable && gpioOk && s.sem.NoSem?;
            && t.enabled == enable
            && t == s.(enabled := enable, sem := if creates then Taken else s.sem,
                       creating := if creates then s.creating + 1 else s.creating)
            && (creates ==> Apply(t, InitGive) == s.(enabled := true, sem := Available))
  {
  }

  predicate Gives(e: Step) {
    e.Give? || e.WakeGive? || e.InitGive?
  }

  lemma {:induction false} NoTokenUntilGiven(states: seq<State>, steps: seq<Step>, i: nat, j: nat)
    requires IsRun(Next, states, steps) && i < j < |states|
    requires steps[i].Take? && forall k :: i < k < j ==> !Gives(steps[k])
    ensures !states[j].sem.Available?
    decreases j
  {
    assert Next(states[j - 1], steps[j - 1], states[j]);
    if i + 1 < j {
      NoTokenUntilGiven(states, steps, i, j - 1);
    }
  }

  /** In every run, between two wake-ups that take the token someone gives one. */
  lemma TakesAreApart(states: seq<State>, steps: seq<Step>, i: nat, j: nat)
    requires IsRun(Next, states, steps) && i < j < |steps| && steps[i].Take? && steps[j].Take?
    ensures exists k :: i < k < j && Gives(steps[k])
  {
    assert Next(states[j], steps[j], states[j + 1]);
    if forall k :: i < k < j ==> !Gives(steps[k]) {
      NoTokenUntilGiven(states, steps, i, j);
    }
  }

  function LastPower(s: State, e: Step, asleep: bool): bool {
    if e.SleepSet? then true else if e.WakeClear? then false else asleep
  }

  /** In every run, power_save_on is set exactly when the last alert to write it was a sleep. */
  lemma SavingIffLastWasSleep(states: seq<State>, steps: seq<Step>, i: nat)
    requires IsRun(Next, states, steps) && states[0] == BOOT && i < |states|
    ensures states[i].saving == History(LastPower, false, states, steps, i)
  {
    HistoryInvariance(Next, LastPower, (s: State, asleep) => s.saving == asleep, false, states, steps, i);
  }

  // ------------------------------------------------------------------ four ways to give a token to a sleeping host

  ghost predicate Reached(s: State) {
    Reachable(Next, BOOT, s)
  }

  lemma Go(s: State, e: Step) returns (s': State)
    requires Reached(s) && Enabled(s, e)
    ensures Reached(s') && s' == Apply(s, e)
  {
    s' := Apply(s, e);
    Extend(Next, BOOT, s, e, s');
  }

  /** A token for a host that sleeps, with nothing half-way: the next wake-up succeeds at once and is wrong. */
  ghost predicate Stale(s: State) {
    Reached(s) && s.enabled && s.saving && s.sem.Available? && s.Quiet()
  }

  lemma Initialised() returns (s: State)
    ensures Reached(s) && s == BOOT.(enabled := true, sem := Available)
  {
    Here(Next, BOOT);
    s := Go(BOOT, Init(true, true));
    s := Go(s, InitGive);
  }

  lemma FallAsleep(s: State) returns (t: State)
    requires Reached(s) && s.enabled
    ensures Reached(t) && t == s.(sem := Drained(s.sem), saving := true)
  {
    t := Go(s, SleepTake);
    t := Go(t, SleepSet);
  }

  /** Deinitialising leaves alerts enabled: a sleep alert then a new initialisation. */
  lemma InitAfterSleepGivesToken() returns (s: State)
    ensures Stale(s)
  {
    s := Initialised();
    s := Go(s, Take);
    s := Go(s, Give);
    s := Go(s, Delete);
    s := FallAsleep(s);
    s := Go(s, Init(true, true));
    s := Go(s, InitGive);
  }

  /** A sleep alert between an initialisation's create and give. */
  lemma SleepInsideInitGivesToken() returns (s: State)
    ensures Stale(s)
  {
    Here(Next, BOOT);
    s := Go(BOOT, Init(true, true));
    s := FallAsleep(s);
    s := Go(s, InitGive);
  }

  /** A sleep alert between a wake-up's take and give. */
  lemma SleepInsideWakeupGivesToken() returns (s: State)
    ensures Stale(s)
  {
    s := Initialised();
    s := Go(s, Take);
    s := FallAsleep(s);
    s := Go(s, Give);
  }

  /** A wake alert between a sleep alert's take and its flag. */
  lemma OverlappingAlertsGiveToken() returns (s: State)
    ensures Stale(s)
  {
    s := Initialised();
    s := Go(s, SleepTake);
    s := Go(s, WakeClear);
    s := Go(s, WakeGive);
    s := Go(s, SleepSet);
  }

  // ------------------------------------------------------------------ alerts

  datatype Event = PowerOn | PowerOff | OpenDataPath | OtherEvent(code: int)

  /** `host_power_save_alert` when no other alert overlaps it. */
  function Alerted(s: State, event: Event): State {
    if !s.enabled then s
    else if event.PowerOn? then s.(sem := Drained(s.sem), saving := true)
    else if event.PowerOff? || event.OpenDataPath? then s.(saving := false, sem := Given(s.sem))
    else s
  }

  lemma AlertIsItsSteps(s: State, event: Event)
    requires s.enabled
    ensures event.PowerOn? ==> Alerted(s, event) == Apply(Apply(s, SleepTake), SleepSet)
    ensures event.PowerOff? || event.OpenDataPath? ==> Alerted(s, event) == Apply(Apply(s, WakeClear), WakeGive)
  {
  }

  function AlertedAll(s: State, events: seq<Event>): (r: State)
    ensures r == s.(saving := r.saving, sem := r.sem) && (r.sem.NoSem? <==> s.sem.NoSem?)
  {
    if events == [] then s else Alerted(AlertedAll(s, events[..|events| - 1]), events[|events| - 1])
  }

  /** Whether the last power event of a list is a sleep, if there is one. */
  function LastOf(events: seq<Event>): Option<bool> {
    if events == [] then None
    else
      match events[|events| - 1]
      case PowerOn => Some(true)
      case PowerOff | OpenDataPath => Some(false)
      case OtherEvent(_) => LastOf(events[..|events| - 1])
  }

  /** Any list of alerts leaves what its last power event alone would leave, however often it repeats. */
  lemma {:induction false} AlertsEndAsLast(s: State, events: seq<Event>)
    requires s.enabled
    ensures AlertedAll(s, events) ==
            if LastOf(events).None? then s
            else if LastOf(events).value then s.(sem := Drained(s.sem), saving := true)
            else s.(sem := Given(s.sem), saving := false)
  {
    if events != [] {
      AlertsEndAsLast(s, events[..|events| - 1]);
    }
  }

  lemma {:induction false} AlertsKeepToken(s: State, events: seq<Event>)
    requires TokenTellsAwake(s) && s.Quiet()
    ensures TokenTellsAwake(AlertedAll(s, events))
  {
    if events != [] {
      AlertsKeepToken(s, events[..|events| - 1]);
    }
  }

  // ------------------------------------------------------------------ a wake-up

  /**
   One pass of the retry loop of `trigger_host_wakeup`: its timer, the alerts before its take succeeds or
   gives up, those between take and give, and whether time is up.
   */
  datatype Pass = Pass(timerOk: bool, before: seq<Event>, inside: seq<Event>, timeUp: bool)

  /** The state the loop leaves and whether it reports success. */
  function Triggered(s: State, passes: seq<Pass>): (State, bool)
    decreases |passes|
  {
    if passes == [] || !passes[0].timerOk then (s, false)
    else
      var now := AlertedAll(s, passes[0].before);
      if now.sem.Available? then
        var held := AlertedAll(now.(sem := Taken), passes[0].inside);
        (held.(sem := Given(held.sem)), true)
      else if passes[0].timeUp then (now, false)
      else Triggered(now, passes[1..])
  }

  /** The pass that gets the token sees the host fall asleep before it gives it back. */
  predicate SleptInside(s: State, passes: seq<Pass>)
    decreases |passes|
  {
    && passes != [] && passes[0].timerOk
    && var now := AlertedAll(s, passes[0].before);
       if now.sem.Available? then s.enabled && LastOf(passes[0].inside) == Some(true)
       else !passes[0].timeUp && SleptInside(now, passes[1..])
  }

  lemma PassThatTakes(now: State, inside: seq<Event>)
    requires TokenTellsAwake(now) && now.Quiet() && now.sem.Available?
    ensures var held := AlertedAll(now.(sem := Taken), inside);
            var t := held.(sem := Given(held.sem));
            t.Quiet() && t.sem.Available? && (t.saving <==> now.enabled && LastOf(inside) == Some(true))
  {
    if now.enabled {
      AlertsEndAsLast(now.(sem := Taken), inside);
    } else {
      DisabledIgnores(now.(sem := Taken), inside);
    }
  }

  lemma {:induction false} DisabledIgnores(s: State, events: seq<Event>)
    requires !s.enabled
    ensures AlertedAll(s, events) == s
  {
    if events != [] {
      DisabledIgnores(s, events[..|events| - 1]);
    }
  }

  /**
   However alerts fall around its passes: a wake-up that reports success ends with the host asleep exactly
   if the host fell asleep inside the take and give that succeeded, and only then does it leave a wrong
   token; one that reports failure leaves the token right and, if there is one at all, the host asleep.
   */
  lemma {:induction false} WakeupOutcome(s: State, passes: seq<Pass>)
    requires TokenTellsAwake(s) && s.Quiet()
    ensures var (t, success) := Triggered(s, passes);
            && t.Quiet() && (SleptInside(s, passes) ==> success)
            && (success ==> (t.saving <==> SleptInside(s, passes)) && (TokenTellsAwake(t) <==> !t.saving))
            && (!success ==> TokenTellsAwake(t) && (s.saving && !s.sem.NoSem? ==> t.saving))
    decreases |passes|
  {
    if passes != [] && passes[0].timerOk {
      var now := AlertedAll(s, passes[0].before);
      AlertsKeepToken(s, passes[0].before);
      if now.sem.Available? {
        PassThatTakes(now, passes[0].inside);
      } else {
        WakeupOutcome(now, passes[1..]);
      }
    }
  }

  const ESP_FAIL := -1

  /**
   `wakeup_host`: the state it leaves and its answer. `meanwhile` are the alerts between its two looks at the
   power state, when it may bring the transport (`deinited`) back up.
   */
  function Woken(s: State, haveHandle: bool, deinited: bool, initOk: bool, meanwhile: seq<Event>, passes: seq<Pass>): (State, int) {
    if !s.saving || !s.enabled then (s, 1)
    else if !haveHandle then (s, 0)
    else if deinited && !initOk then (s, ESP_FAIL)
    else
      var now := AlertedAll(s, meanwhile);
      if now.saving then
        var (t, success) := Triggered(now, passes);
        (t, if success then 1 else 0)
      else (now, if deinited then 1 else 0)
  }

  /**
   A host that sleeps when `wakeup_host` returns is taken for awake exactly when power save was disabled
   while it slept, its transport could not be brought back up, or it fell asleep again inside the take and
   give of the pass that found it awake.
   */
  lemma TakenForAwakeIff(s: State, haveHandle: bool, deinited: bool, initOk: bool, meanwhile: seq<Event>, passes: seq<Pass>)
    requires TokenTellsAwake(s) && s.Quiet()
    ensures var answer := Woken(s, haveHandle, deinited, initOk, meanwhile, passes).1;
            answer in {-1, 0, 1} && (answer == -1 <==> s.saving && s.enabled && haveHandle && deinited && !initOk)
    ensures var (t, answer) := Woken(s, haveHandle, deinited, initOk, meanwhile, passes);
            var now := AlertedAll(s, meanwhile);
            answer != 0 && t.saving <==>
              && s.saving
              && (!s.enabled ||
                  (haveHandle && if deinited && !initOk then true else now.saving && SleptInside(now, passes)))
  {
    AlertsKeepToken(s, meanwhile);
    WakeupOutcome(AlertedAll(s, meanwhile), passes);
  }

  /**
   A host that is awake when it returns is taken for asleep, and its packet dropped, exactly when it woke up
   between the two looks while its transport had stayed up, or woke up when there was no semaphore to tell.
   */
  lemma TakenForAsleepIff(s: State, haveHandle: bool, deinited: bool, initOk: bool, meanwhile: seq<Event>, passes: seq<Pass>)
    requires TokenTellsAwake(s) && s.Quiet()
    ensures var (t, answer) := Woken(s, haveHandle, deinited, initOk, meanwhile, passes);
            var now := AlertedAll(s, meanwhile);
            answer == 0 && !t.saving <==>
              && s.saving && s.enabled && haveHandle && (deinited ==> initOk)
              && if now.saving then s.sem.NoSem? && !t.saving else !deinited
  {
    var now := AlertedAll(s, meanwhile);
    AlertsKeepToken(s, meanwhile);
    WakeupOutcome(now, passes);
    if s.sem.NoSem? {
      NeverWithoutSem(now, passes);
    }
  }

  lemma {:induction false} NeverWithoutSem(s: State, passes: seq<Pass>)
    requires s.sem.NoSem?
    ensures !Triggered(s, passes).1
    decreases |passes|
  {
    if passes != [] && passes[0].timerOk {
      NeverWithoutSem(AlertedAll(s, passes[0].before), passes[1..]);
    }
  }

  /** After a misplaced step the next wake-up says that a sleeping host is awake. */
  lemma StaleTokenLies(s: State, pass: Pass)
    requires Stale(s) && pass.timerOk && pass.before == [] == pass.inside
    ensures var (t, answer) := Woken(s, true, false, true, [], [pass]); answer == 1 && t.saving
  {
  }

  // ------------------------------------------------------------------ in place

  class HostPower {
    var enabled: bool
    var powerSaveOn: bool
    var wakeupSem: Token

    ghost function View(): State
      reads this
    {
      State(enabled, powerSaveOn, wakeupSem, 0, 0, 0, 0)
    }

    constructor ()
      ensures View() == BOOT
    {
      enabled, powerSaveOn, wakeupSem := false, false, NoSem;
    }

    /** `host_power_save_init`; without a configuration, power save is enabled. */
    method Init(haveConfig: bool, configEnable: bool, gpioOk: bool)
      modifies this
      ensures var e := Step.Init(!haveConfig || configEnable, gpioOk);
              var created := Apply(old(View()), e);
              View() == if Creates(old(View()), e) then Apply(created, InitGive) else created
    {
      enabled := if haveConfig then configEnable else true;
      if !enabled || !gpioOk {
        return;
      }
      if wakeupSem.NoSem? {
        wakeupSem := Taken;
        wakeupSem := Available;
      }
    }

    /** `host_power_save_deinit`, once its take has succeeded. */
    method Deinit()
      requires !wakeupSem.Taken?
      modifies this
      ensures View() == if old(wakeupSem).NoSem? then old(View())
                        else Apply(Apply(Apply(old(View()), Take), Give), Delete)
    {
      if !wakeupSem.NoSem? {
        wakeupSem := Taken;
        wakeupSem := Available;
        wakeupSem := NoSem;
      }
    }

    /** `host_power_save_alert` */
    method Alert(event: Event)
      modifies this
      ensures View() == Alerted(old(View()), event)
    {
      if !enabled {
        return;
      }
      if event.PowerOn? {
        if wakeupSem.Available? {
          wakeupSem := Taken;
        }
        powerSaveOn := true;
      } else if event.PowerOff? || event.OpenDataPath? {
        powerSaveOn := false;
        if !wakeupSem.NoSem? {
          wakeupSem := Available;
        }
      }
    }

    method HandleAlerts(events: seq<Event>)
      modifies this
      ensures View() == AlertedAll(old(View()), events)
    {
      assert events[..0] == [];
      for i := 0 to |events|
        invariant View() == AlertedAll(old(View()), events[..i])
      {
        assert events[..i + 1][..i] == events[..i];
        Alert(events[i]);
      }
      assert events[..|events|] == events;
    }

    /** The retry loop of `trigger_host_wakeup` over the passes it makes. */
    method TriggerHostWakeup(passes: seq<Pass>) returns (success: bool)
      requires passes != [] && (passes[|passes| - 1].timeUp || !passes[|passes| - 1].timerOk)
      modifies this
      ensures (View(), success) == Triggered(old(View()), passes)
    {
      success := false;
      var i := 0;
      ghost var result := Triggered(View(), passes);
      while i < |passes|
        invariant 0 <= i <= |passes| && !success
        invariant Triggered(View(), passes[i..]) == result
      {
        assert passes[i..][0] == passes[i] && passes[i..][1..] == passes[i + 1..];
        if !passes[i].timerOk {
          return;
        }
        HandleAlerts(passes[i].before);
        if wakeupSem.Available? {
          wakeupSem := Taken;
          HandleAlerts(passes[i].inside);
          wakeupSem := if wakeupSem.NoSem? then NoSem else Available;
          return true;
        }
        if passes[i].timeUp {
          return;
        }
        i := i + 1;
      }
    }

    /** `wakeup_host` */
    method WakeupHost(haveHandle: bool, deinited: bool, initOk: bool, meanwhile: seq<Event>, passes: seq<Pass>)
      returns (ret: int)
      requires passes != [] && (passes[|passes| - 1].timeUp || !passes[|passes| - 1].timerOk)
      modifies this
      ensures (View(), ret) == Woken(old(View()), haveHandle, deinited, initOk, meanwhile, passes)
    {
      if !powerSaveOn || !enabled {
        return 1;
      }
      if !haveHandle {
        return 0;
      }
      var success := 0;
      if deinited {
        success := 1;
        if !initOk {
          return ESP_FAIL;
        }
      }
      HandleAlerts(meanwhile);
      if powerSaveOn {
        var triggered := TriggerHostWakeup(passes);
        success := if triggered then 1 else 0;
      }
      ret := success;
    }
  }
}
