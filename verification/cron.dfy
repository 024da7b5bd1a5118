/**
 * The administrator's side of the monitoring job: the two-step dialog of
 * `handle_cronjob_configuration_input` (bot.py:2536-2622), the on/off switch
 * of `toggle_cronjob` (bot.py:2624-2665), and the flag and launches of the
 * monitoring thread (bot.py:2835-2852).
 */
module CronDialog {
  import opened Text
  import opened Store
  import opened Monitor

  const ConfiguringCronjob := "configuring_cronjob"
  const CheckIntervalStep := "check_interval"
  const ProductDelayStep := "product_delay"

  /** An entry of `user_states`: the dialog the user is in, its step, and the interval entered at the first step. */
  datatype UserState = UserState(action: string, step: string, checkInterval: Option<int>)

  /**
   * What the user is told. Both accepting replies concatenate an integer to a
   * string and raise before anything is sent, so an accepted value gets no reply.
   */
  datatype Reply = NotAnInteger | IntervalTooShort | DelayTooShort | NoReply

  /** `start_cronjob_configuration`: the user enters the dialog at its first step. */
  function StartDialog(states: map<nat, UserState>, userId: nat): (r: map<nat, UserState>)
    ensures userId in r && r[userId].action == ConfiguringCronjob && r[userId].step == CheckIntervalStep
    ensures forall u :: u in states && u != userId ==> u in r && r[u] == states[u]
  {
    states[userId := UserState(ConfiguringCronjob, CheckIntervalStep, None)]
  }

  /** The cancel button: the user leaves whatever dialog they were in. */
  function CancelDialog(states: map<nat, UserState>, userId: nat): (r: map<nat, UserState>)
    ensures userId !in r
    ensures forall u :: u in states && u != userId ==> u in r && r[u] == states[u]
  {
    states - {userId}
  }

  /** `update_cronjob_config`: the service replaces the settings and keeps the time of the last run. */
  function UpdateCronConfig(s: Store, checkInterval: int, productDelay: int, isActive: bool, createdBy: nat): (r: Store)
    ensures r.cron.Some? && r.cron.value.checkInterval == checkInterval && r.cron.value.productDelay == productDelay
    ensures r.cron.value.isActive == isActive && r.cron.value.createdBy == createdBy
    ensures r.cron.value.lastRun == if s.cron.Some? then s.cron.value.lastRun else None
    ensures r.(cron := s.cron) == s
  {
    s.(cron := Some(CronConfig(checkInterval, productDelay, isActive,
                               if s.cron.Some? then s.cron.value.lastRun else None, createdBy)))
  }

  /** One message of a user who is in the dialog. */
  function CronInput(states: map<nat, UserState>, s: Store, userId: nat, text: string): (map<nat, UserState>, Store, Reply)
    requires userId in states
  {
    var st := states[userId];
    match PyInt(Strip(text))
    case None => (states, s, NotAnInteger)
    case Some(v) =>
      if st.step == CheckIntervalStep then
        if v < 5 then (states, s, IntervalTooShort)
        else (states[userId := st.(checkInterval := Some(v), step := ProductDelayStep)], s, NoReply)
      else if st.step == ProductDelayStep then
        if v < 1 then (states, s, DelayTooShort)
        // the interval is read from the state; without one the lookup raises
        else if st.checkInterval.None? then (states, s, NoReply)
        // the confirmation raises before the state is removed: the user stays at this step
        else (states, UpdateCronConfig(s, st.checkInterval.value, v, false, userId), NoReply)
      else (states, s, NoReply)
  }

  /** A message that is not an integer changes nothing. */
  lemma NonIntegerRejected(states: map<nat, UserState>, s: Store, userId: nat, text: string)
    requires userId in states && PyInt(Strip(text)).None?
    ensures CronInput(states, s, userId, text) == (states, s, NotAnInteger)
  {
  }

  /**
   * The first step accepts an interval of at least five minutes: the state
   * moves to the second step holding it, and nothing is saved yet; a shorter
   * one is refused and changes nothing.
   */
  lemma IntervalStep(states: map<nat, UserState>, s: Store, userId: nat, text: string, v: int)
    requires userId in states && states[userId].step == CheckIntervalStep
    requires PyInt(Strip(text)) == Some(v)
    ensures var (states', s', reply) := CronInput(states, s, userId, text);
      s' == s
      && (v < 5 ==> states' == states && reply == IntervalTooShort)
      && (v >= 5 ==> userId in states' && states'[userId].step == ProductDelayStep
                     && states'[userId].checkInterval == Some(v)
                     && states'[userId].action == states[userId].action && reply == NoReply)
  {
  }

  /**
   * The second step accepts a pause of at least one minute and saves both
   * values as an inactive configuration created by the user; the user is left
   * in the dialog at the same step. A shorter pause changes nothing.
   */
  lemma DelayStep(states: map<nat, UserState>, s: Store, userId: nat, text: string, v: int)
    requires userId in states && states[userId].step == ProductDelayStep
    requires states[userId].checkInterval.Some?
    requires PyInt(Strip(text)) == Some(v)
    ensures var (states', s', reply) := CronInput(states, s, userId, text);
      states' == states
      && (v < 1 ==> s' == s && reply == DelayTooShort)
      && (v >= 1 ==> s'.cron.Some? && s'.cron.value.checkInterval == states[userId].checkInterval.value
                     && s'.cron.value.productDelay == v && !s'.cron.value.isActive
                     && s'.cron.value.createdBy == userId && s'.(cron := s.cron) == s)
  {
  }

  /**
   * The whole dialog: starting it and answering two valid numbers saves them as
   * an inactive configuration, and the monitoring loop then leaves at once.
   */
  lemma DialogSavesInactive(states: map<nat, UserState>, s: Store, sent: seq<Post>, userId: nat,
                            first: string, second: string, a: int, b: int, env: Env, stop: Option<nat>, fault: Option<nat>)
    requires PyInt(Strip(first)) == Some(a) && a >= 5
    requires PyInt(Strip(second)) == Some(b) && b >= 1
    ensures var st1 := StartDialog(states, userId);
      var (st2, s2, _) := CronInput(st1, s, userId, first);
      userId in st2
      && var (st3, s3, _) := CronInput(st2, s2, userId, second);
      s3.cron.Some? && s3.cron.value.checkInterval == a && s3.cron.value.productDelay == b
      && !s3.cron.value.isActive
      && Pass(World(s3, sent), env, true, stop, fault) == (World(s3, sent), false, Disabled)
  {
    var st1 := StartDialog(states, userId);
    IntervalStep(st1, s, userId, first, a);
    var (st2, s2, _) := CronInput(st1, s, userId, first);
    DelayStep(st2, s2, userId, second, b);
    var (st3, s3, _) := CronInput(st2, s2, userId, second);
    PassDisabled(World(s3, sent), env, stop, fault);
  }

  // ---------------------------------------------------------------------------
  // The monitoring thread and the switch

  /** The flag `cronjob_running` and the number of monitoring threads launched so far. */
  datatype Runner = Runner(running: bool, launches: nat)

  /** `start_price_monitoring_thread`: a thread is launched only when none runs. */
  function StartThread(r: Runner): (r': Runner)
    ensures r'.running
    ensures r'.launches == if r.running then r.launches else r.launches + 1
  {
    if r.running then r else Runner(true, r.launches + 1)
  }

  /** `stop_price_monitoring_thread`: the flag is cleared; the thread notices it at its next check. */
  function StopThread(r: Runner): (r': Runner)
    ensures !r'.running && r'.launches == r.launches
  {
    r.(running := false)
  }

  /** Starting twice launches one thread. */
  lemma StartIdempotent(r: Runner)
    ensures StartThread(StartThread(r)) == StartThread(r)
  {
  }

  /** `toggle_cronjob`: the saved switch is flipped and the thread follows it. */
  function Toggle(s: Store, r: Runner): (Store, Runner) {
    match s.cron
    case None => (s, r)
    case Some(c) =>
      var s' := UpdateCronConfig(s, c.checkInterval, c.productDelay, !c.isActive, c.createdBy);
      (s', if !c.isActive then StartThread(r) else StopThread(r))
  }

  /** Without a configuration the switch does nothing. */
  lemma ToggleUnconfigured(s: Store, r: Runner)
    requires s.cron.None?
    ensures Toggle(s, r) == (s, r)
  {
  }

  /**
   * The switch flips only `isActive`, keeps every other setting and the rest
   * of the service, and leaves the thread running exactly when the job is now active.
   */
  lemma ToggleFlips(s: Store, r: Runner)
    requires s.cron.Some?
    ensures var (s', r') := Toggle(s, r);
      s'.cron == Some(s.cron.value.(isActive := !s.cron.value.isActive))
      && s'.(cron := s.cron) == s
      && (r'.running <==> s'.cron.value.isActive)
      && r.launches <= r'.launches <= r.launches + 1
  {
  }

  /** Switching twice restores the configuration, and the thread runs exactly when the job was active before. */
  lemma ToggleTwice(s: Store, r: Runner)
    requires s.cron.Some?
    ensures var (s1, r1) := Toggle(s, r);
      var (s2, r2) := Toggle(s1, r1);
      s2 == s && (r2.running <==> s.cron.value.isActive)
  {
    ToggleFlips(s, r);
    var (s1, r1) := Toggle(s, r);
    ToggleFlips(s1, r1);
  }
}
