/** Initialising the Wi-Fi driver at most once per configuration (slave/main/slave_wifi_std.c:212-388, 480-494). */
module WifiInit {
  import opened Runs
  import opened Wrappers

  /** `compared` are the fields that wifi_init_config_changed looks at, `other` the rest. */
  datatype Config = Config(compared: seq<int>, other: seq<int>)

  /** The driver is down, or up with the configuration (possibly NULL) it accepted. */
  datatype Driver = Down | Up(config: Option<Config>)

  datatype State = State(initialized: bool, hasCached: bool, cached: Config, driver: Driver)

  datatype Step = Init(config: Option<Config>, deinitOk: bool, realOk: bool) | Deinit(ok: bool)

  predicate Changed(config: Option<Config>, cached: Config) {
    config.None? || config.value.compared != cached.compared
  }

  /** Whether `__wrap_esp_wifi_init` returns without calling the driver. */
  predicate Skips(s: State, config: Option<Config>) {
    s.initialized && !(s.hasCached && Changed(config, s.cached))
  }

  function Apply(s: State, e: Step): State {
    match e
    case Init(config, deinitOk, realOk) =>
      if Skips(s, config) then s
      else
        State(realOk, s.hasCached || config.Some?, if config.Some? then config.value else s.cached,
              if realOk then Up(config) else if s.initialized && deinitOk then Down else s.driver)
    case Deinit(ok) => s.(initialized := false, driver := if ok then Down else s.driver)
  }

  predicate AnswersOk(s: State, e: Step) {
    e.Init? && (Skips(s, e.config) || e.realOk)
  }

  predicate Next(s: State, e: Step, s': State) {
    s' == Apply(s, e)
  }

  /** While the module believes the driver initialised, the driver runs with the cached values of the compared fields. */
  predicate Agrees(s: State) {
    s.initialized ==>
      s.hasCached && s.driver.Up? && s.driver.config.Some? && s.driver.config.value.compared == s.cached.compared
  }

  /** Only a driver that accepts a NULL configuration can break this. */
  lemma AgreesIff(s: State, e: Step)
    requires Agrees(s)
    ensures Agrees(Apply(s, e)) <==> !(e.Init? && e.config.None? && e.realOk && !Skips(s, None))
  {
  }

  ghost function RefusingNull(): (State, Step, State) -> bool {
    (s, e, s') => Next(s, e, s') && (e.Init? && e.realOk ==> e.config.Some?)
  }

  /** Every call that answers OK leaves the driver running with the compared fields it asked for, called into or not. */
  lemma OkMeansRunningAsAsked(states: seq<State>, steps: seq<Step>, cached: Config)
    requires IsRun(RefusingNull(), states, steps)
    requires states[0] == State(false, false, cached, Down)
    ensures forall i :: 0 <= i < |steps| && AnswersOk(states[i], steps[i]) && steps[i].config.Some? ==>
              && states[i + 1].driver.Up? && states[i + 1].driver.config.Some?
              && states[i + 1].driver.config.value.compared == steps[i].config.value.compared
  {
    forall s, e, s' | Agrees(s) && RefusingNull()(s, e, s')
      ensures Agrees(s')
    {
      AgreesIff(s, e);
    }
    Invariance(RefusingNull(), s => Agrees(s), states, steps);
    forall i | 0 <= i < |steps| && AnswersOk(states[i], steps[i]) && steps[i].config.Some?
      ensures states[i + 1].driver.Up? && states[i + 1].driver.config.Some?
      ensures states[i + 1].driver.config.value.compared == steps[i].config.value.compared
    {
      assert RefusingNull()(states[i], steps[i], states[i + 1]) && Agrees(states[i]);
    }
  }

  /**
   In every run, a call with a configuration: with the compared fields that the driver, initialised by this
   module, runs with, it answers ESP_OK and touches nothing; with others, or with the driver not initialised by
   it, the driver is asked, its answer is the caller's, and what it accepts is what it runs with.
   */
  lemma UnchangedLeavesDriverAlone(states: seq<State>, steps: seq<Step>, cached: Config, i: nat)
    requires IsRun(RefusingNull(), states, steps) && states[0] == State(false, false, cached, Down)
    requires i < |steps| && steps[i].Init? && steps[i].config.Some?
    ensures states[i].initialized ==> states[i].driver.Up? && states[i].driver.config.Some?
    ensures var s, t, config := states[i], states[i + 1], steps[i].config.value;
            if s.initialized && s.driver.config.value.compared == config.compared then t == s && AnswersOk(s, steps[i])
            else
              && (AnswersOk(s, steps[i]) <==> steps[i].realOk) && t.initialized == steps[i].realOk
              && (steps[i].realOk ==> t.driver == Up(Some(config)))
              && (!steps[i].realOk ==> t.driver == if s.initialized && steps[i].deinitOk then Down else s.driver)
  {
    forall s, e, s' | Agrees(s) && RefusingNull()(s, e, s')
      ensures Agrees(s')
    {
      AgreesIff(s, e);
    }
    Invariance(RefusingNull(), s => Agrees(s), states, steps);
    assert RefusingNull()(states[i], steps[i], states[i + 1]) && Agrees(states[i]);
  }

  /** After a deinitialisation, whatever the driver answers to it, every call asks the driver again. */
  lemma DeinitForgets(s: State, ok: bool, config: Option<Config>, deinitOk: bool, realOk: bool)
    ensures var t := Apply(s, Deinit(ok));
            var u := Apply(t, Init(config, deinitOk, realOk));
            && t.driver == (if ok then Down else s.driver)
            && (AnswersOk(t, Init(config, deinitOk, realOk)) <==> realOk)
            && u.driver == if realOk then Up(config) else t.driver
  {
  }

  class WifiDriver {
    var wifiInitialized: bool
    var hasCachedConfig: bool
    var cachedConfig: Config
    ghost var driver: Driver

    ghost function View(): State
      reads this
    {
      State(wifiInitialized, hasCachedConfig, cachedConfig, driver)
    }

    constructor (zero: Config)
      ensures View() == State(false, false, zero, Down)
    {
      wifiInitialized, hasCachedConfig, cachedConfig, driver := false, false, zero, Down;
    }

    /** `__wrap_esp_wifi_init` */
    method Init(config: Option<Config>, ghost deinitOk: bool, realOk: bool) returns (ok: bool)
      modifies this
      ensures View() == Apply(old(View()), Step.Init(config, deinitOk, realOk))
      ensures ok == AnswersOk(old(View()), Step.Init(config, deinitOk, realOk))
    {
      if wifiInitialized {
        if hasCachedConfig && Changed(config, cachedConfig) {
          driver := if deinitOk then Down else driver;
          wifiInitialized := false;
        } else {
          return true;
        }
      }
      if config.Some? {
        cachedConfig := config.value;
        hasCachedConfig := true;
      }
      if realOk {
        driver := Up(config);
        wifiInitialized := true;
      }
      ok := realOk;
    }

    /** `req_wifi_deinit`: the flag is cleared whatever the driver answers. */
    method Deinit(ok: bool)
      modifies this
      ensures View() == Apply(old(View()), Step.Deinit(ok))
    {
      wifiInitialized := false;
      if ok {
        driver := Down;
      }
    }
  }
}
