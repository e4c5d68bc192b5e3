/**
 The station configuration state machine (slave/main/slave_wifi_std.c:656-752, 2204-2273, 2327-2342 and
 slave/main/slave_network_split.c:134-137): a cached configuration, forced disconnects, reconnects and
 what the host is told. RPC handlers and driver events run in different tasks without a lock, so both a
 set-configuration request and the two event handlers are cut where they test or clear the flag and where
 they call the driver, and re-sending an event is cut between its test and its send.
 */
module StaConfig {
  import opened Runs
  import opened Wrappers

  datatype Config = Config(ssid: seq<int>, password: seq<int>) {
    /** `strlen(ssid) == 0` */
    predicate NoSsid() {
      ssid == [] || ssid[0] == 0
    }
  }

  /** What `esp_wifi_connect` returns and what the connect request answers. */
  datatype Code = Ok | NotInit | BadSsid | ConnErr | Other(code: int)

  /**
   Where a set-configuration request stands: before its driver call, after the driver took it, on its way to
   the cache (station_connecting was set, or the driver refused it), and in the cache with the flag to raise.
   */
  datatype Work = Idle | Setting(cfg: Config) | Accepted(cfg: Config) | ToCache(cfg: Config) | Raising(cfg: Config)

  /**
   Where the event handler stands: past the test of the flag for a CONNECTED or a DISCONNECTED, past the
   driver's answer to the cached configuration, before its own connect, before it tells the host.
   */
  datatype Handler =
    | Quiet | ConnRead(pending: bool) | DiscRead(pending: bool) | DiscSet(ok: bool) | DiscGo(reconnect: bool) | DiscReport

  /** The options AUTO_CONNECT_ON_STA_START and AUTO_RECONNECT_MAX_RETRY (0 when auto-reconnect is off). */
  datatype Options = Options(autoStart: bool, maxRetry: nat)

  /**
   `driver` is the configuration the driver holds, `cache` is new_wifi_config, `pending` new_config_recvd,
   `told` whether the last of Connected and Disconnected told to the host was Connected, `latest` the
   host's most recent configuration, `attempt` the configuration of a connection attempt under way, `link`
   that of the link which is up, `connects` counts esp_wifi_connect calls, `resends` re-sent Connected
   events decided but not yet sent.
   */
  datatype State = State(
    driver: Config, cache: Config, pending: bool, suppress: bool, connecting: bool, connected: bool,
    retries: nat, connects: nat, told: bool, linkUp: bool, latest: Config, attempt: Option<Config>,
    link: Option<Config>, resends: nat, work: Work, handler: Handler)

  datatype Step =
    | SetBegin(cfg: Config) | SetDriver(ok: bool) | SetCache | SetEnd
    | Connect(haveConfig: bool, ret: Code) | ResendTest | ResendSend
    | ConnStart | ConnApply(ok: bool) | ConnTell
    | DiscStart | DiscApply(ok: bool) | DiscClear | DiscConnect | DiscTell
    | StaStart | StaStop

  predicate Enabled(s: State, e: Step) {
    match e
    case SetBegin(_) => s.work.Idle?
    case SetDriver(_) => s.work.Setting?
    case SetEnd => s.work.Accepted? || s.work.Raising?
    case SetCache => s.work.ToCache?
    case Connect(_, _) => s.work.Idle?
    case ResendTest => true
    case ResendSend => s.resends > 0
    case ConnStart | DiscStart | StaStart | StaStop => s.handler.Quiet?
    case ConnApply(_) => s.handler == ConnRead(true)
    case ConnTell => s.handler == ConnRead(false)
    case DiscApply(_) => s.handler == DiscRead(true)
    case DiscClear => s.handler == DiscRead(false) || s.handler.DiscSet?
    case DiscConnect => s.handler.DiscGo?
    case DiscTell => s.handler.DiscReport?
  }

  function Began(s: State, cfg: Config): State {
    s.(latest := cfg, work := if s.connecting then ToCache(cfg) else Setting(cfg))
  }

  function Ended(s: State): State
    requires s.work.Accepted? || s.work.Raising?
  {
    s.(pending := s.work.Raising?, work := Idle)
  }

  function Requested(s: State, haveConfig: bool, ret: Code): State {
    if !haveConfig || s.driver.NoSsid() then s
    else if s.connected then s.(resends := s.resends + 1)
    else
      s.(connects := s.connects + 1, connecting := ret.Ok? || ret.ConnErr?,
         attempt := if ret.Ok? then Some(s.driver) else s.attempt)
  }

  /** The answer of the connect request; ESP_ERR_WIFI_CONN is reported as success. */
  function Answer(s: State, haveConfig: bool, ret: Code): Code {
    if !haveConfig then NotInit
    else if s.driver.NoSsid() then BadSsid
    else if s.connected || ret.ConnErr? then Ok else ret
  }

  /** The driver takes the cached configuration, or refuses it. */
  function Took(s: State, ok: bool): State {
    s.(driver := if ok then s.cache else s.driver)
  }

  function Told(s: State): State {
    s.(connecting := false, retries := 0, told := true, connected := true)
  }

  /** The flag is cleared if the driver took the cached configuration; the link counts as lost. */
  function Cleared(s: State, ok: bool): State {
    s.(pending := s.pending && !ok, connected := false)
  }

  function Reconnected(s: State, reconnect: bool): State {
    if reconnect then s.(connecting := true, connects := s.connects + 1, attempt := Some(s.driver))
    else s.(connecting := false)
  }

  /** The end of the DISCONNECTED handler: it tells the host, or does not, and retries on its own. */
  function Reported(o: Options, s: State): State {
    if s.suppress then s.(suppress := false)
    else if s.retries < o.maxRetry then
      s.(told := false, connects := s.connects + 1, retries := s.retries + 1, attempt := Some(s.driver))
    else s.(told := false, retries := 0)
  }

  function Started(o: Options, s: State): State {
    if !s.connecting && o.autoStart then s.(connecting := true, connects := s.connects + 1, attempt := Some(s.driver))
    else s
  }

  function Apply(o: Options, s: State, e: Step): State
    requires Enabled(s, e)
  {
    match e
    case SetBegin(cfg) => Began(s, cfg)
    case SetDriver(ok) =>
      if ok then s.(driver := s.work.cfg, work := Accepted(s.work.cfg)) else s.(work := ToCache(s.work.cfg))
    case SetCache => s.(cache := s.work.cfg, work := Raising(s.work.cfg))
    case SetEnd => Ended(s)
    case Connect(haveConfig, ret) => Requested(s, haveConfig, ret)
    case ResendTest => if s.connected then s.(resends := s.resends + 1) else s
    case ResendSend => s.(resends := s.resends - 1, told := true)
    case ConnStart => s.(linkUp := true, link := s.attempt, attempt := None, handler := ConnRead(s.pending))
    case ConnApply(ok) => Took(s, ok).(suppress := true, handler := Quiet)
    case ConnTell => Told(s).(handler := Quiet)
    case DiscStart => s.(linkUp := false, link := None, attempt := None, handler := DiscRead(s.pending))
    case DiscApply(ok) => Took(s, ok).(handler := DiscSet(ok))
    case DiscClear =>
      var ok := s.handler.DiscSet? && s.handler.ok;
      Cleared(s, ok).(handler := DiscGo(ok))
    case DiscConnect => Reconnected(s, s.handler.reconnect).(handler := DiscReport)
    case DiscTell => Reported(o, s).(handler := Quiet)
    case StaStart => Started(o, s)
    case StaStop => s.(connecting := false, attempt := None)
  }

  predicate Next(o: Options, s: State, e: Step, s': State) {
    Enabled(s, e) && s' == Apply(o, s, e)
  }

  function Boot(cfg: Config): State {
    State(cfg, cfg, false, false, false, false, 0, 0, false, false, cfg, None, None, 0, Idle, Quiet)
  }

  // ------------------------------------------------------------------ handlers that nothing disturbs

  function OnConnected(s: State, ok: bool): State {
    var s := s.(linkUp := true, link := s.attempt, attempt := None);
    if s.pending then Took(s, ok).(suppress := true) else Told(s)
  }

  function OnDisconnected(o: Options, s: State, ok: bool): State {
    Reported(o, Applied(s, ok))
  }

  /** Its first half: a cached configuration is applied and reconnected to. */
  function Applied(s: State, ok: bool): State {
    var s := s.(linkUp := false, link := None, attempt := None);
    var t := if s.pending then Took(s, ok) else s;
    Reconnected(Cleared(t, s.pending && ok), s.pending && ok)
  }

  lemma ConnectedIsItsSteps(o: Options, s: State, ok: bool)
    requires s.handler.Quiet?
    ensures var a := Apply(o, s, ConnStart);
            OnConnected(s, ok) == if s.pending then Apply(o, a, ConnApply(ok)) else Apply(o, a, ConnTell)
  {
  }

  lemma AppliedIsItsSteps(o: Options, s: State, ok: bool)
    requires s.handler.Quiet?
    ensures var a := Apply(o, s, DiscStart);
            var b := if s.pending then Apply(o, a, DiscApply(ok)) else a;
            Apply(o, Apply(o, b, DiscClear), DiscConnect) == Applied(s, ok).(handler := DiscReport)
  {
  }

  lemma DisconnectedIsItsSteps(o: Options, s: State, ok: bool)
    requires s.handler.Quiet?
    ensures var a := Apply(o, s, DiscStart);
            var b := if s.pending then Apply(o, a, DiscApply(ok)) else a;
            OnDisconnected(o, s, ok) == Apply(o, Apply(o, Apply(o, b, DiscClear), DiscConnect), DiscTell)
  {
    AppliedIsItsSteps(o, s, ok);
    var t := Applied(s, ok);
    assert Apply(o, t.(handler := DiscReport), DiscTell) == Reported(o, t.(handler := DiscReport)).(handler := Quiet);
    assert t.handler == Quiet;
  }

  // ------------------------------------------------------------------ automatic reconnects

  /** k DISCONNECTED events in a row, each handled undisturbed. */
  function Losses(o: Options, s: State, k: nat): State {
    if k == 0 then s else OnDisconnected(o, Losses(o, s, k - 1), true)
  }

  lemma Beyond(p: nat, q: nat, n: nat)
    requires p < q
    ensures p * n + n <= q * n
    decreases q
  {
    assert q * n == (q - 1) * n + n;
    if p < q - 1 {
      Beyond(p, q - 1, n);
    }
  }

  lemma Divided(q: nat, r: nat, n: nat)
    requires r < n
    ensures (q * n + r) / n == q && (q * n + r) % n == r
  {
    var x := q * n + r;
    var p, t := x / n, x % n;
    assert x == p * n + t;
    if p < q {
      Beyond(p, q, n);
    } else if p > q {
      Beyond(q, p, n);
    }
  }

  /** Counting on from a remainder. */
  lemma CountOn(k: nat, n: nat)
    requires n > 0
    ensures (k + 1) % n == (if k % n + 1 < n then k % n + 1 else 0)
    ensures (k + 1) / n == k / n + (if k % n + 1 < n then 0 else 1)
  {
    var q, r := k / n, k % n;
    assert k == q * n + r;
    if r + 1 < n {
      Divided(q, r + 1, n);
    } else {
      assert (q + 1) * n == q * n + n;
      Divided(q + 1, 0, n);
    }
  }

  /**
   With nothing cached and nothing suppressed, the k-th loss in a row connects again exactly if k is not a
   multiple of maxRetry + 1: maxRetry attempts, one loss given up, and the count starts again. Every loss is told.
   */
  lemma {:induction false} RetriesThenGivesUp(o: Options, s: State, k: nat)
    requires !s.pending && !s.suppress && s.retries == 0
    ensures var t := Losses(o, s, k);
            && !t.pending && !t.suppress && t.retries == k % (o.maxRetry + 1)
            && t.connects == s.connects + k - k / (o.maxRetry + 1)
            && (k > 0 ==> !t.told && !t.connected && !t.connecting)
            && (k > 0 ==> t.connects == Losses(o, s, k - 1).connects + if k % (o.maxRetry + 1) != 0 then 1 else 0)
  {
    if k > 0 {
      RetriesThenGivesUp(o, s, k - 1);
      CountOn(k - 1, o.maxRetry + 1);
    }
  }

  /**
   STA_START connects exactly with auto-connect and nothing under way, and a second one adds nothing; STA_STOP ends
   whatever is under way, so the next configuration goes to the driver and the next STA_START connects again.
   */
  lemma StartAndStop(o: Options, s: State, cfg: Config)
    requires s.handler.Quiet?
    ensures var connects := o.autoStart && !s.connecting;
            var t, u := Apply(o, s, StaStart), Apply(o, s, StaStop);
            && t == (if connects then s.(connecting := true, connects := s.connects + 1, attempt := Some(s.driver)) else s)
            && Apply(o, t, StaStart) == t
            && u == s.(connecting := false, attempt := None)
            && (s.work.Idle? ==> Apply(o, u, SetBegin(cfg)).work == Setting(cfg))
            && Apply(o, u, StaStart).connects == s.connects + if o.autoStart then 1 else 0
  {
  }

  ghost function AnyNext(o: Options): (State, Step, State) -> bool {
    (s, e, s') => Next(o, s, e, s')
  }

  /** Losses that were told and answered with a connect, since the last that was not or the last announcement. */
  function Retried(o: Options): (State, Step, nat) -> nat {
    (s: State, e: Step, n: nat) =>
      if e.ConnTell? then 0
      else if e.DiscTell? && Enabled(s, e) && !s.suppress then
        if Apply(o, s, e).connects > s.connects then n + 1 else 0
      else n
  }

  lemma SetsLeaveRetries(o: Options, s: State, e: Step)
    requires Enabled(s, e) && (e.SetBegin? || e.SetDriver? || e.SetCache? || e.SetEnd?)
    ensures Apply(o, s, e).retries == s.retries
  {
  }

  lemma ConnectsLeaveRetries(o: Options, s: State, e: Step)
    requires Enabled(s, e) && (e.Connect? || e.ResendTest? || e.ResendSend? || e.StaStart? || e.StaStop?)
    ensures Apply(o, s, e).retries == s.retries
  {
  }

  lemma HandlersLeaveRetries(o: Options, s: State, e: Step)
    requires Enabled(s, e) && (e.ConnStart? || e.ConnApply? || e.DiscStart? || e.DiscApply?)
    ensures Apply(o, s, e).retries == s.retries
  {
  }

  lemma HalvesLeaveRetries(o: Options, s: State, e: Step)
    requires Enabled(s, e) && (e.DiscClear? || e.DiscConnect?)
    ensures Apply(o, s, e).retries == s.retries
  {
  }

  lemma LossRetried(o: Options, s: State, n: nat)
    requires Enabled(s, DiscTell) && s.retries == n <= o.maxRetry
    ensures Apply(o, s, DiscTell).retries == Retried(o)(s, DiscTell, n) <= o.maxRetry
    ensures !s.suppress ==>
              !Apply(o, s, DiscTell).told && Apply(o, s, DiscTell).connects == s.connects + if n < o.maxRetry then 1 else 0
  {
  }

  lemma RetriedStep(o: Options, s: State, e: Step, n: nat)
    requires Enabled(s, e) && s.retries == n <= o.maxRetry
    ensures Apply(o, s, e).retries == Retried(o)(s, e, n) <= o.maxRetry
  {
    match e
    case DiscTell => LossRetried(o, s, n);
    case SetBegin(_) | SetDriver(_) | SetCache | SetEnd => SetsLeaveRetries(o, s, e);
    case Connect(_, _) | ResendTest | ResendSend | StaStart | StaStop => ConnectsLeaveRetries(o, s, e);
    case ConnStart | ConnApply(_) | DiscStart | DiscApply(_) => HandlersLeaveRetries(o, s, e);
    case DiscClear | DiscConnect => HalvesLeaveRetries(o, s, e);
    case ConnTell =>
  }

  /**
   In every interleaved run, never more than maxRetry connects in a row follow told losses without an
   announcement between them; and as long as there have been fewer, a told loss is followed by one.
   */
  lemma RetriesInEveryRun(o: Options, cfg: Config, states: seq<State>, steps: seq<Step>, i: nat)
    requires IsRun(AnyNext(o), states, steps) && states[0] == Boot(cfg) && i < |states|
    ensures var n := History(Retried(o), 0, states, steps, i);
            && n <= o.maxRetry
            && (i < |steps| && steps[i].DiscTell? && !states[i].suppress ==>
                  && !states[i + 1].told
                  && states[i + 1].connects == states[i].connects + if n < o.maxRetry then 1 else 0)
  {
    forall s: State, e, s', n: nat | s.retries == n <= o.maxRetry && AnyNext(o)(s, e, s')
      ensures s'.retries == Retried(o)(s, e, n) <= o.maxRetry
    {
      RetriedStep(o, s, e, n);
    }
    HistoryInvariance(AnyNext(o), Retried(o), (s: State, n: nat) => s.retries == n <= o.maxRetry, 0, states, steps, i);
    if i < |steps| {
      assert AnyNext(o)(states[i], steps[i], states[i + 1]);
      if steps[i].DiscTell? {
        LossRetried(o, states[i], states[i].retries);
      }
    }
  }

  /**
   What the host may conclude from the connect request's answer: ESP_OK means a link that is announced again or
   an attempt under way, any other answer that nothing was started; and which of the errors it is.
   */
  lemma AnswerMeans(o: Options, s: State, haveConfig: bool, ret: Code)
    requires s.work.Idle?
    ensures var t, answer := Apply(o, s, Connect(haveConfig, ret)), Answer(s, haveConfig, ret);
            var noSsid := |s.driver.ssid| == 0 || s.driver.ssid[0] == 0;
            && (!haveConfig ==> answer == NotInit && t == s)
            && (haveConfig && noSsid ==> answer == BadSsid && t == s)
            && (haveConfig && !noSsid ==>
                  && (answer == Ok <==> if s.connected then t.resends == s.resends + 1 else t.connecting)
                  && (s.connected ==> t == s.(resends := s.resends + 1))
                  && (!s.connected ==> t.connects == s.connects + 1 && (answer == Ok <==> ret == Ok || ret == ConnErr))
                  && (!s.connected && answer != Ok ==> answer == ret && t.attempt == s.attempt)
                  && (!s.connected && ret == Ok ==> t.attempt == Some(s.driver)))
  {
  }

  // ------------------------------------------------------------------ the latest configuration

  /** Either the flag is clear and the driver holds the host's latest configuration, or the cache holds it. */
  predicate Kept(s: State) {
    match s.work
    case Idle => if s.pending then s.cache == s.latest else s.driver == s.latest
    case Accepted(cfg) => cfg == s.latest && s.driver == s.latest
    case Raising(cfg) => cfg == s.latest && s.cache == s.latest
    case _ => s.work.cfg == s.latest
  }

  /**
   The steps that lose it, told from what the driver, the cache and the flag hold alone. A handler that has
   tested the flag sets the cached configuration over another one that a request has since had the driver
   take; or it clears the flag that a request has raised, since the handler's set, for another one.
   */
  predicate Overwrites(s: State, e: Step) {
    || (((e.ConnApply? && e.ok) || (e.DiscApply? && e.ok))
        && (s.work.Accepted? || (s.work.Idle? && !s.pending)) && s.cache != s.driver)
    || (e.DiscClear? && s.handler == DiscSet(true) && s.work.Idle? && s.pending && s.cache != s.driver)
  }

  predicate ByRequest(e: Step) {
    e.SetBegin? || e.SetDriver? || e.SetCache? || e.SetEnd? || e.Connect? || e.ResendTest? || e.ResendSend?
  }

  lemma RequestsKeep(o: Options, s: State, e: Step)
    requires Kept(s) && Enabled(s, e) && ByRequest(e)
    ensures Kept(Apply(o, s, e))
  {
  }

  predicate IsApply(e: Step) {
    e.ConnApply? || e.DiscApply?
  }

  lemma ApplyKeepsIff(o: Options, s: State, e: Step)
    requires Kept(s) && Enabled(s, e) && IsApply(e)
    ensures Kept(Apply(o, s, e)) <==> !Overwrites(s, e)
  {
  }

  lemma ClearKeepsIff(o: Options, s: State)
    requires Kept(s) && Enabled(s, DiscClear)
    ensures Kept(Apply(o, s, DiscClear)) <==> !Overwrites(s, DiscClear)
  {
  }

  /** The configuration part of the state, which the other event steps leave alone. */
  predicate SameConfig(s: State, t: State) {
    && t.work == s.work && t.driver == s.driver && t.cache == s.cache
    && t.pending == s.pending && t.latest == s.latest
  }

  lemma StartsLeaveConfig(o: Options, s: State, e: Step)
    requires Enabled(s, e) && (e.ConnStart? || e.ConnTell? || e.DiscStart? || e.StaStop?)
    ensures SameConfig(s, Apply(o, s, e))
  {
  }

  lemma ConnectLeavesConfig(o: Options, s: State, e: Step)
    requires Enabled(s, e) && (e.DiscConnect? || e.StaStart?)
    ensures SameConfig(s, Apply(o, s, e))
  {
  }

  lemma TellLeavesConfig(o: Options, s: State)
    requires Enabled(s, DiscTell)
    ensures SameConfig(s, Apply(o, s, DiscTell))
  {
  }

  lemma OthersKeep(o: Options, s: State, e: Step)
    requires Kept(s) && Enabled(s, e) && !ByRequest(e) && !IsApply(e) && !e.DiscClear?
    ensures Kept(Apply(o, s, e))
  {
    if e.DiscConnect? || e.StaStart? {
      ConnectLeavesConfig(o, s, e);
    } else if e.DiscTell? {
      TellLeavesConfig(o, s);
    } else {
      StartsLeaveConfig(o, s, e);
    }
  }

  /** One step loses the latest configuration exactly when it is one of those. */
  lemma KeptIff(o: Options, s: State, e: Step)
    requires Kept(s) && Enabled(s, e)
    ensures Kept(Apply(o, s, e)) <==> !Overwrites(s, e)
  {
    if ByRequest(e) {
      RequestsKeep(o, s, e);
    } else if IsApply(e) {
      ApplyKeepsIff(o, s, e);
    } else if e.DiscClear? {
      ClearKeepsIff(o, s);
    } else {
      OthersKeep(o, s, e);
    }
  }

  /** And then it is lost for good: at the latest when the request ends, the flag is clear and the driver has another. */
  lemma OverwrittenIsLost(o: Options, s: State, e: Step)
    requires Kept(s) && Enabled(s, e) && Overwrites(s, e)
    ensures var t := Apply(o, s, e);
            var lost := if t.work.Accepted? then Apply(o, t, SetEnd) else t;
            lost.work.Idle? && !lost.pending && lost.driver != lost.latest == s.latest
  {
  }

  ghost function QuietNext(o: Options): (State, Step, State) -> bool {
    (s, e, s') => Next(o, s, e, s') && !Overwrites(s, e)
  }

  /** In every interleaved run without such a step the latest configuration is never lost. */
  lemma LatestNeverLost(o: Options, cfg: Config, states: seq<State>, steps: seq<Step>)
    requires IsRun(QuietNext(o), states, steps)
    requires states[0] == Boot(cfg)
    ensures forall i :: 0 <= i < |states| ==> Kept(states[i])
  {
    forall s, e, s' | Kept(s) && QuietNext(o)(s, e, s')
      ensures Kept(s')
    {
      KeptIff(o, s, e);
    }
    Invariance(QuietNext(o), s => Kept(s), states, steps);
  }

  /**
   What the driver delivers: CONNECTED for an attempt under way while the link is down, DISCONNECTED for a link
   or an attempt.
   */
  predicate Delivers(s: State, e: Step) {
    && (e.ConnStart? ==> s.attempt.Some? && !s.linkUp)
    && (e.DiscStart? ==> s.attempt.Some? || s.linkUp)
  }

  ghost function RealNext(o: Options): (State, Step, State) -> bool {
    (s, e, s') => Next(o, s, e, s') && Delivers(s, e)
  }

  ghost predicate Reached(o: Options, cfg: Config, s: State) {
    Reachable(RealNext(o), Boot(cfg), s)
  }

  lemma Go(o: Options, cfg: Config, s: State, e: Step) returns (s': State)
    requires Reached(o, cfg, s) && Enabled(s, e) && Delivers(s, e)
    ensures Reached(o, cfg, s') && s' == Apply(o, s, e)
  {
    s' := Apply(o, s, e);
    Extend(RealNext(o), Boot(cfg), s, e, s');
  }

  /** The state of a station that has connected with configuration a and told the host. */
  function Linked(a: Config): State {
    Boot(a).(connects := 1, told := true, connected := true, linkUp := true, link := Some(a))
  }

  lemma LinkedReached(o: Options, a: Config)
    requires !a.NoSsid()
    ensures Reached(o, a, Linked(a))
  {
    Here(RealNext(o), Boot(a));
    var s := Go(o, a, Boot(a), Connect(true, Ok));
    s := Go(o, a, s, ConnStart);
    s := Go(o, a, s, ConnTell);
    assert s == Linked(a);
  }

  /** A request that the driver refuses, in a state that is not connecting. */
  lemma RefusedRequest(o: Options, a: Config, s: State, b: Config) returns (t: State)
    requires Reached(o, a, s) && s.work.Idle? && !s.connecting
    ensures Reached(o, a, t) && t == s.(latest := b, cache := b, pending := true)
  {
    t := Go(o, a, s, SetBegin(b));
    t := Go(o, a, t, SetDriver(false));
    t := Go(o, a, t, SetCache);
    t := Go(o, a, t, SetEnd);
  }

  lemma AcceptedRequest(o: Options, a: Config, s: State, c: Config) returns (t: State)
    requires Reached(o, a, s) && s.work.Idle? && !s.connecting
    ensures Reached(o, a, t) && t == s.(latest := c, driver := c, pending := false)
  {
    t := Go(o, a, s, SetBegin(c));
    t := Go(o, a, t, SetDriver(true));
    t := Go(o, a, t, SetEnd);
  }

  lemma CachedRequest(o: Options, a: Config, s: State, c: Config) returns (t: State)
    requires Reached(o, a, s) && s.work.Idle? && s.connecting
    ensures Reached(o, a, t) && t == s.(latest := c, cache := c, pending := true)
  {
    t := Go(o, a, s, SetBegin(c));
    t := Go(o, a, t, SetCache);
    t := Go(o, a, t, SetEnd);
  }

  /**
   Reachable with events the driver delivers: b is refused while the link is up, the link breaks and its
   handler tests the flag, c is accepted, and the handler's next step puts b over it.
   */
  lemma HandlerOverwritesReachable(o: Options, a: Config, b: Config, c: Config) returns (s: State)
    requires !a.NoSsid() && b != c
    ensures Reached(o, a, s) && Kept(s) && Enabled(s, DiscApply(true)) && Overwrites(s, DiscApply(true))
    ensures s.work.Idle? && s.driver == c == s.latest && s.cache == b
  {
    LinkedReached(o, a);
    s := RefusedRequest(o, a, Linked(a), b);
    s := Go(o, a, s, DiscStart);
    s := AcceptedRequest(o, a, s, c);
  }

  /**
   Reachable with events the driver delivers: b is cached while connecting, the attempt fails and its handler
   has the driver take b, c is cached, and the handler's next step clears the flag for it.
   */
  lemma HandlerClearsReachable(o: Options, a: Config, b: Config, c: Config) returns (s: State)
    requires !a.NoSsid() && b != c
    ensures Reached(o, a, s) && Kept(s) && Enabled(s, DiscClear) && Overwrites(s, DiscClear)
    ensures s.cache == c == s.latest && s.driver == b
  {
    Here(RealNext(o), Boot(a));
    s := Go(o, a, Boot(a), Connect(true, Ok));
    s := CachedRequest(o, a, s, b);
    s := Go(o, a, s, DiscStart);
    s := Go(o, a, s, DiscApply(true));
    s := CachedRequest(o, a, s, c);
  }

  /**
   Reachable with events the driver delivers, whatever the options: a re-sent Connected, decided before the
   link breaks and sent after the host has been told so, leaves the host believing in a link that is gone.
   */
  lemma ResentAfterLossReachable(o: Options, a: Config) returns (s: State)
    requires !a.NoSsid()
    ensures Reached(o, a, s) && s.handler.Quiet? && s.told && !s.connected && !s.linkUp && s.resends == 0
  {
    LinkedReached(o, a);
    s := Go(o, a, Linked(a), ResendTest);
    s := Go(o, a, s, DiscStart);
    s := Go(o, a, s, DiscClear);
    s := Go(o, a, s, DiscConnect);
    s := Go(o, a, s, DiscTell);
    s := Go(o, a, s, ResendSend);
  }

  /** What a lock around each request and each event would give: neither starts inside the other. */
  predicate Exclusive(s: State, e: Step) {
    (e.SetBegin? ==> s.handler.Quiet?) && (e.ConnStart? || e.DiscStart? ==> s.work.Idle?)
  }

  predicate Locked(s: State) {
    && Kept(s)
    && (!s.work.Idle? ==> s.handler.Quiet?)
    && (s.handler == ConnRead(true) || s.handler == DiscRead(true) ==> s.pending)
    && (s.handler == DiscSet(true) ==> s.driver == s.latest)
  }

  lemma LockedStep(o: Options, s: State, e: Step)
    requires Locked(s) && Enabled(s, e) && Exclusive(s, e)
    ensures Locked(Apply(o, s, e)) && !Overwrites(s, e)
  {
    KeptIff(o, s, e);
    if ByRequest(e) {
      assert Apply(o, s, e).handler == s.handler;
    } else {
      LockedEvent(o, s, e);
    }
  }

  lemma LockedEvent(o: Options, s: State, e: Step)
    requires Locked(s) && Enabled(s, e) && Exclusive(s, e) && !ByRequest(e)
    requires !Overwrites(s, e) ==> Kept(Apply(o, s, e))
    ensures Locked(Apply(o, s, e)) && !Overwrites(s, e)
  {
  }

  ghost function LockedNext(o: Options): (State, Step, State) -> bool {
    (s, e, s') => Next(o, s, e, s') && Exclusive(s, e)
  }

  /** With that lock, in every run, the latest configuration is never lost. */
  lemma LockKeepsLatest(o: Options, cfg: Config, states: seq<State>, steps: seq<Step>)
    requires IsRun(LockedNext(o), states, steps)
    requires states[0] == Boot(cfg)
    ensures forall i :: 0 <= i < |states| ==> Kept(states[i])
  {
    forall s, e, s' | Locked(s) && LockedNext(o)(s, e, s')
      ensures Locked(s')
    {
      LockedStep(o, s, e);
    }
    Invariance(LockedNext(o), s => Locked(s), states, steps);
  }

  /**
   A configuration cached while connecting takes effect: when the link comes up and its forced disconnect
   arrives, the driver ends with the latest configuration and a connect issued, and the host hears nothing.
   */
  lemma CachedConfigTakesEffect(o: Options, s: State, first: bool)
    requires Kept(s) && s.work.Idle? && s.pending
    ensures var t := OnDisconnected(o, OnConnected(s, first), true);
            && !t.pending && t.driver == s.latest == t.latest && t.connecting && t.attempt == Some(s.latest)
            && t.connects == s.connects + 1 && t.told == s.told && !t.suppress
  {
  }

  /** A DISCONNECTED whose set succeeds always ends with the driver on the latest configuration, connecting to it. */
  lemma DisconnectApplies(o: Options, s: State)
    requires Kept(s) && s.work.Idle? && s.pending
    ensures var t := OnDisconnected(o, s, true);
            !t.pending && t.driver == t.latest == s.latest && t.connecting && t.connects > s.connects &&
            t.attempt == Some(t.latest)
  {
  }

  // ------------------------------------------------------------------ what the host is told

  /**
   The last event told to the host agrees with station_connected, except while a DISCONNECTED handler is on
   its way from clearing the one to telling the other; a forced disconnect is never of a told link.
   */
  predicate HostAgrees(s: State) {
    match s.handler
    case Quiet | ConnRead(_) =>
      && s.told == s.connected && (s.suppress ==> !s.connected && s.linkUp)
      && (s.connected ==> s.linkUp) && (s.resends > 0 ==> s.connected)
      && (s.handler.ConnRead? ==> s.linkUp && !s.connected && !s.suppress)
    case DiscRead(_) | DiscSet(_) =>
      && s.told == s.connected && !s.linkUp && (s.suppress ==> !s.connected) && (s.resends > 0 ==> s.connected)
    case DiscGo(_) | DiscReport =>
      && !s.connected && !s.linkUp && (s.suppress ==> !s.told && s.resends == 0)
  }

  /** The driver reports CONNECTED only when the link is down, and no re-sent event is overtaken by a told DISCONNECTED. */
  predicate LinkOrder(s: State, e: Step) {
    && (e.ConnStart? ==> !s.linkUp)
    && (e.DiscTell? ==> s.resends == 0)
  }

  lemma RequestsAgree(o: Options, s: State, e: Step)
    requires HostAgrees(s) && Enabled(s, e) && ByRequest(e)
    ensures HostAgrees(Apply(o, s, e))
  {
  }

  lemma EventsAgree(o: Options, s: State, e: Step)
    requires HostAgrees(s) && Enabled(s, e) && LinkOrder(s, e) && !ByRequest(e)
    ensures HostAgrees(Apply(o, s, e))
  {
  }

  lemma HostAgreesStep(o: Options, s: State, e: Step, s': State)
    requires HostAgrees(s) && Next(o, s, e, s') && LinkOrder(s, e)
    ensures HostAgrees(s')
  {
    if ByRequest(e) {
      RequestsAgree(o, s, e);
    } else {
      EventsAgree(o, s, e);
    }
  }

  ghost function OrderedNext(o: Options): (State, Step, State) -> bool {
    (s, e, s') => Next(o, s, e, s') && LinkOrder(s, e)
  }

  /** In every such interleaved run, whenever no event is being handled, the host's view of the link is station_connected. */
  lemma HostViewInEveryRun(o: Options, cfg: Config, states: seq<State>, steps: seq<Step>)
    requires IsRun(OrderedNext(o), states, steps)
    requires states[0] == Boot(cfg)
    ensures forall i :: 0 <= i < |states| && states[i].handler.Quiet? ==> states[i].told == states[i].connected
  {
    forall s, e, s' | HostAgrees(s) && OrderedNext(o)(s, e, s')
      ensures HostAgrees(s')
    {
      HostAgreesStep(o, s, e, s');
    }
    Invariance(OrderedNext(o), s => HostAgrees(s), states, steps);
  }

  /** From agreement, it is broken exactly by suppressing the loss of a told link or by re-sending after the loss. */
  lemma ViewBreaksIff(o: Options, s: State, ok: bool)
    requires s.told == s.connected
    ensures OnConnected(s, ok).told == OnConnected(s, ok).connected
    ensures OnDisconnected(o, s, ok).told != OnDisconnected(o, s, ok).connected <==> s.suppress && s.connected
    ensures s.resends > 0 ==> (Apply(o, s, ResendSend).told != Apply(o, s, ResendSend).connected <==> !s.connected)
  {
  }

  /**
   Without the order: a configuration the driver refuses while the link is up, then a second CONNECTED
   and its forced disconnect, leave the host believing in a link that is gone.
   */
  lemma SecondConnectedMisleadsHost(o: Options, s: State, cfg: Config)
    requires s.work.Idle? && s.connected && s.told && s.linkUp && !s.connecting
    ensures var a := Apply(o, s, SetBegin(cfg));
            var b := Apply(o, a, SetDriver(false));
            var c := Apply(o, Apply(o, b, SetCache), SetEnd);
            var t := OnDisconnected(o, OnConnected(c, true), true);
            t.told && !t.connected && !t.linkUp
  {
    var b := Apply(o, Apply(o, Apply(o, s, SetBegin(cfg)), SetDriver(false)), SetCache);
    assert b.work == Raising(cfg) && b.told;
    var c := Apply(o, b, SetEnd);
    assert c.pending && c.told;
    var d := OnConnected(c, true);
    assert d.suppress && d.told;
  }

  // ------------------------------------------------------------------ which configuration a link was made with

  /**
   An attempt under way is flagged as connecting and, unless a newer configuration is cached, uses the
   latest; so does a link about to be told.
   */
  predicate Fresh(s: State) {
    && Locked(s)
    && (s.attempt.Some? ==> s.connecting && !s.work.Setting? && !s.work.Accepted? && (s.handler.Quiet? || s.handler.DiscReport?))
    && (s.attempt.Some? && !s.pending && s.work.Idle? ==> s.attempt.value == s.latest)
    && (s.handler.ConnRead? ==> s.handler.pending == s.pending && (!s.pending ==> s.link == Some(s.latest)))
    && (s.handler == DiscGo(true) ==> !s.pending)
  }

  /**
   Requests and events exclude one another; CONNECTED ends an attempt; while an attempt is under way
   esp_wifi_connect fails only with ESP_ERR_WIFI_CONN.
   */
  predicate Orderly(s: State, e: Step) {
    && Exclusive(s, e)
    && (e.Connect? ==> s.handler.Quiet?)
    && (e.StaStart? || e.StaStop? ==> s.work.Idle?)
    && (e.ConnStart? ==> s.attempt.Some?)
    && (e.Connect? && s.attempt.Some? ==> e.ret.Ok? || e.ret.ConnErr?)
  }

  lemma FreshSet(o: Options, s: State, e: Step)
    requires Fresh(s) && Enabled(s, e) && Orderly(s, e) && (e.SetBegin? || e.SetDriver? || e.SetCache? || e.SetEnd?)
    ensures Fresh(Apply(o, s, e))
  {
    LockedStep(o, s, e);
  }

  lemma FreshRequest(o: Options, s: State, e: Step)
    requires Fresh(s) && Enabled(s, e) && Orderly(s, e) && (e.Connect? || e.ResendTest? || e.ResendSend?)
    ensures Fresh(Apply(o, s, e))
  {
    LockedStep(o, s, e);
  }

  lemma FreshConnected(o: Options, s: State, e: Step)
    requires Fresh(s) && Enabled(s, e) && Orderly(s, e) && (e.ConnStart? || e.ConnApply? || e.ConnTell?)
    ensures Fresh(Apply(o, s, e))
  {
    LockedStep(o, s, e);
  }

  lemma FreshLost(o: Options, s: State, e: Step)
    requires Fresh(s) && Enabled(s, e) && Orderly(s, e) && (e.DiscStart? || e.DiscApply? || e.DiscClear? || e.DiscConnect?)
    ensures Fresh(Apply(o, s, e))
  {
    LockedStep(o, s, e);
  }

  lemma FreshRest(o: Options, s: State, e: Step)
    requires o.maxRetry == 0
    requires Fresh(s) && Enabled(s, e) && Orderly(s, e) && (e.DiscTell? || e.StaStart? || e.StaStop?)
    ensures Fresh(Apply(o, s, e))
  {
    LockedStep(o, s, e);
  }

  lemma FreshStep(o: Options, s: State, e: Step, s': State)
    requires o.maxRetry == 0
    requires Fresh(s) && Next(o, s, e, s') && Orderly(s, e)
    ensures Fresh(s')
  {
    match e
    case ConnStart | ConnApply(_) | ConnTell => FreshConnected(o, s, e);
    case DiscStart | DiscApply(_) | DiscClear | DiscConnect => FreshLost(o, s, e);
    case DiscTell | StaStart | StaStop => FreshRest(o, s, e);
    case SetBegin(_) | SetDriver(_) | SetCache | SetEnd => FreshSet(o, s, e);
    case _ => FreshRequest(o, s, e);
  }

  ghost function OrderlyNext(o: Options): (State, Step, State) -> bool {
    (s, e, s') => Next(o, s, e, s') && Orderly(s, e)
  }

  lemma FreshInEveryRun(o: Options, cfg: Config, states: seq<State>, steps: seq<Step>)
    requires o.maxRetry == 0
    requires IsRun(OrderlyNext(o), states, steps)
    requires states[0] == Boot(cfg)
    ensures forall i :: 0 <= i < |states| ==> Fresh(states[i])
  {
    forall s, e, s' | Fresh(s) && OrderlyNext(o)(s, e, s')
      ensures Fresh(s')
    {
      FreshStep(o, s, e, s');
    }
    Invariance(OrderlyNext(o), s => Fresh(s), states, steps);
  }

  /** Without auto-reconnect, a link announced to the host was always made with the host's latest configuration. */
  lemma AnnouncedLinksAreLatest(o: Options, cfg: Config, states: seq<State>, steps: seq<Step>)
    requires o.maxRetry == 0
    requires IsRun(OrderlyNext(o), states, steps)
    requires states[0] == Boot(cfg)
    ensures forall i :: 0 <= i < |steps| && steps[i].ConnTell? ==> states[i].link == Some(states[i].latest)
  {
    FreshInEveryRun(o, cfg, states, steps);
    forall i | 0 <= i < |steps| && steps[i].ConnTell?
      ensures states[i].link == Some(states[i].latest)
    {
      assert OrderlyNext(o)(states[i], steps[i], states[i + 1]) && Fresh(states[i]);
    }
  }

  /** A link about to be told to the host. */
  predicate Announcing(s: State) {
    s.handler == ConnRead(false)
  }

  ghost predicate OrderlyReached(o: Options, cfg: Config, s: State) {
    Reachable(OrderlyNext(o), Boot(cfg), s)
  }

  lemma GoOrderly(o: Options, cfg: Config, s: State, e: Step) returns (s': State)
    requires OrderlyReached(o, cfg, s) && Enabled(s, e) && Orderly(s, e)
    ensures OrderlyReached(o, cfg, s') && s' == Apply(o, s, e)
  {
    s' := Apply(o, s, e);
    Extend(OrderlyNext(o), Boot(cfg), s, e, s');
  }

  lemma SetOrderly(o: Options, cfg: Config, s: State, c: Config) returns (t: State)
    requires OrderlyReached(o, cfg, s) && s.work.Idle? && s.handler.Quiet? && !s.connecting
    ensures OrderlyReached(o, cfg, t) && t == s.(latest := c, driver := c, pending := false)
  {
    t := GoOrderly(o, cfg, s, SetBegin(c));
    t := GoOrderly(o, cfg, t, SetDriver(true));
    t := GoOrderly(o, cfg, t, SetEnd);
  }

  const A := Config([1], [])
  const B := Config([2], [])

  /**
   With auto-reconnect: an attempt fails, the retry for it does not set station_connecting, a new configuration
   goes straight to the driver, and the link announced next was made with the old one.
   */
  lemma StaleAnnouncement(o: Options, cfg: Config) returns (s: State)
    requires o.maxRetry > 0
    ensures OrderlyReached(o, cfg, s) && Announcing(s) && s.link == Some(A) && s.latest == B
  {
    Here(OrderlyNext(o), Boot(cfg));
    s := SetOrderly(o, cfg, Boot(cfg), A);
    s := GoOrderly(o, cfg, s, Connect(true, Ok));
    assert s == Boot(cfg).(latest := A, driver := A, connects := 1, connecting := true, attempt := Some(A));
    s := GoOrderly(o, cfg, s, DiscStart);
    s := GoOrderly(o, cfg, s, DiscClear);
    s := GoOrderly(o, cfg, s, DiscConnect);
    s := GoOrderly(o, cfg, s, DiscTell);
    assert !s.connecting && s.attempt == Some(A) && s.work.Idle? && s.handler.Quiet? && !s.pending;
    s := SetOrderly(o, cfg, s, B);
    s := GoOrderly(o, cfg, s, ConnStart);
  }

  /** Every link announced in every orderly run was made with the latest configuration if and only if there is no auto-reconnect. */
  lemma AnnouncedLatestIff(o: Options, cfg: Config)
    ensures (forall s :: OrderlyReached(o, cfg, s) && Announcing(s) ==> s.link == Some(s.latest)) <==> o.maxRetry == 0
  {
    if o.maxRetry == 0 {
      forall s | OrderlyReached(o, cfg, s) && Announcing(s) ensures s.link == Some(s.latest) {
        var states, steps: seq<Step> :| IsRun(OrderlyNext(o), states, steps) && states[0] == Boot(cfg) && states[|steps|] == s;
        FreshInEveryRun(o, cfg, states, steps);
        assert Fresh(states[|steps|]);
      }
    } else {
      var s := StaleAnnouncement(o, cfg);
      assert OrderlyReached(o, cfg, s) && Announcing(s) && s.link != Some(s.latest);
    }
  }

  /**
   With auto-reconnect that fails from every such state: the retry does not set station_connecting, so a
   new configuration goes straight to the driver and the link announced next was made with the old one.
   */
  lemma AutoReconnectAnnouncesStale(o: Options, s: State, cfg: Config)
    requires s.retries < o.maxRetry
    requires s.work.Idle? && s.handler.Quiet? && !s.pending && !s.suppress && s.driver == s.latest != cfg
    ensures var a := OnDisconnected(o, s, true);
            var b := Apply(o, a, SetBegin(cfg));
            var c := Apply(o, b, SetDriver(true));
            var d := Apply(o, c, SetEnd);
            && Orderly(a, SetBegin(cfg)) && Orderly(d, ConnStart)
            && !d.pending && d.latest == cfg && OnConnected(d, true).told && OnConnected(d, true).link == Some(s.driver)
  {
    var a := OnDisconnected(o, s, true);
    assert !a.connecting && a.attempt == Some(s.driver) && a.handler == s.handler;
    var b := Apply(o, a, SetBegin(cfg));
    assert b.work == Setting(cfg);
  }

  // ------------------------------------------------------------------ in place

  /** The handlers' static variables, the driver's configuration and, as ghosts, what only the proofs speak of. */
  class Station {
    var driver: Config
    var newWifiConfig: Config
    var newConfigRecvd: bool
    var suppressDisconnect: bool
    var stationConnecting: bool
    var stationConnected: bool
    var retries: nat
    var connects: nat
    var told: bool
    ghost var linkUp: bool
    ghost var latest: Config
    ghost var attempt: Option<Config>
    ghost var link: Option<Config>
    ghost var resends: nat
    const options: Options

    ghost function View(): State
      reads this
    {
      State(driver, newWifiConfig, newConfigRecvd, suppressDisconnect, stationConnecting, stationConnected,
            retries, connects, told, linkUp, latest, attempt, link, resends, Idle, Quiet)
    }

    constructor (cfg: Config, options: Options)
      ensures View() == Boot(cfg) && this.options == options
    {
      driver, newWifiConfig, newConfigRecvd, suppressDisconnect := cfg, cfg, false, false;
      stationConnecting, stationConnected, retries, connects, told := false, false, 0, 0, false;
      linkUp, latest, attempt, link, resends, this.options := false, cfg, None, None, 0, options;
    }

    /** `esp_hosted_set_sta_config` undisturbed: its parts in order, the driver's skipped while connecting. */
    method SetStaConfig(cfg: Config, driverOk: bool)
      modifies this
      ensures var begun := Apply(options, old(View()), SetBegin(cfg));
              var tried := if begun.work.Setting? then Apply(options, begun, SetDriver(driverOk)) else begun;
              View() == Apply(options, if tried.work.ToCache? then Apply(options, tried, SetCache) else tried, SetEnd)
    {
      latest := cfg;
      if stationConnecting {
        newWifiConfig := cfg;
        newConfigRecvd := true;
      } else if !driverOk {
        newWifiConfig := cfg;
        newConfigRecvd := true;
      } else {
        driver := cfg;
        newConfigRecvd := false;
      }
    }

    /** `req_wifi_connect` up to the moment it would re-send the Connected event. */
    method ReqWifiConnect(haveConfig: bool, ret: Code) returns (resp: Code)
      modifies this
      ensures View() == Apply(options, old(View()), Connect(haveConfig, ret))
      ensures resp == Answer(old(View()), haveConfig, ret)
    {
      if !haveConfig {
        return NotInit;
      }
      if driver.NoSsid() {
        return BadSsid;
      }
      var r := Ok;
      if !stationConnected {
        stationConnecting := true;
        r := ret;
        connects := connects + 1;
        if r.Ok? {
          attempt := Some(driver);
        } else if !r.ConnErr? {
          stationConnecting := false;
        }
      } else {
        resends := resends + 1;
      }
      resp := if r.ConnErr? then Ok else r;
    }

    method OnStaConnected(setOk: bool)
      modifies this
      ensures View() == OnConnected(old(View()), setOk)
    {
      linkUp, link, attempt := true, attempt, None;
      if newConfigRecvd {
        if setOk {
          driver := newWifiConfig;
        }
        suppressDisconnect := true;
        return;
      }
      stationConnecting := false;
      retries := 0;
      told := true;
      stationConnected := true;
    }

    method OnStaDisconnected(setOk: bool)
      modifies this
      ensures View() == OnDisconnected(options, old(View()), setOk)
    {
      linkUp, link, attempt := false, None, None;
      var reconnectPending := ApplyCached(setOk);
      Reconnect(reconnectPending);
      ReportDisconnect();
    }

    /** A cached configuration is applied, and its flag cleared if the driver took it. */
    method ApplyCached(setOk: bool) returns (reconnectPending: bool)
      modifies this`driver, this`newConfigRecvd, this`stationConnected
      ensures reconnectPending == (old(newConfigRecvd) && setOk)
      ensures View() == Cleared(if old(newConfigRecvd) then Took(old(View()), setOk) else old(View()), reconnectPending)
    {
      reconnectPending := false;
      if newConfigRecvd {
        if setOk {
          driver := newWifiConfig;
          newConfigRecvd := false;
          reconnectPending := true;
        }
      }
      stationConnected := false;
    }

    method Reconnect(reconnectPending: bool)
      modifies this
      ensures View() == Reconnected(old(View()), reconnectPending)
    {
      if reconnectPending {
        stationConnecting := true;
        connects := connects + 1;
        attempt := Some(driver);
      } else {
        stationConnecting := false;
      }
    }

    /** The host is told, unless the disconnect was forced. */
    method ReportDisconnect()
      modifies this
      ensures View() == Reported(options, old(View()))
    {
      if suppressDisconnect {
        suppressDisconnect := false;
        return;
      }
      told := false;
      if retries < options.maxRetry {
        connects := connects + 1;
        attempt := Some(driver);
        retries := retries + 1;
      } else {
        retries := 0;
      }
    }

    method OnStaStart()
      modifies this
      ensures View() == Apply(options, old(View()), StaStart)
    {
      if !stationConnecting && options.autoStart {
        stationConnecting := true;
        connects := connects + 1;
        attempt := Some(driver);
      }
    }

    method OnStaStop()
      modifies this
      ensures View() == Apply(options, old(View()), StaStop)
    {
      stationConnecting := false;
      attempt := None;
    }
  }
}
