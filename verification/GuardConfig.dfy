/** Carrying an ownership guard in a run's configuration, past whatever a client put there. */
module GuardConfig {
  import opened Common

  /** A Python value by what the guard helpers distinguish. */
  datatype Value = Guard(guard: nat) | Mapping(entries: map<string, Value>) | Plain(code: nat)

  type Config = map<string, Value>

  const GUARD_KEY := "__pregel_azfunc_ownership_guard"
  const CONFIGURABLE := "configurable"

  lemma KeysDiffer()
    ensures GUARD_KEY != CONFIGURABLE
  {
    assert "__pregel_azfunc_ownership_guard"[0] != "configurable"[0];
  }

  /** `configurable`, where it is a mapping. */
  function Configurable(config: Option<Config>): Option<map<string, Value>> {
    if config.Some? && CONFIGURABLE in config.value && config.value[CONFIGURABLE].Mapping?
    then Some(config.value[CONFIGURABLE].entries) else None
  }

  predicate HasStrayKey(config: Option<Config>) {
    config.Some? && (GUARD_KEY in config.value || (Configurable(config).Some? && GUARD_KEY in Configurable(config).value))
  }

  /** `config_with_ownership_guard`. */
  function ConfigWithOwnershipGuard(config: Option<Config>, guard: Option<nat>): Option<Config> {
    if guard.None? && !HasStrayKey(config) then config
    else
      var result := if config.None? then map[] else config.value - {GUARD_KEY};
      var cleaned := if Configurable(config).None? then map[] else Configurable(config).value - {GUARD_KEY};
      Some(if guard.Some? then result[CONFIGURABLE := Mapping(cleaned[GUARD_KEY := Guard(guard.value)])]
           else if Configurable(config).Some? then result[CONFIGURABLE := Mapping(cleaned)]
           else result)
  }

  /** `resolve_ownership_guard` with the context's bound guard. */
  function ResolveOwnershipGuard(scoped: Option<nat>, config: Option<Config>): Option<nat> {
    if scoped.Some? then scoped
    else if Configurable(config).None? || GUARD_KEY !in Configurable(config).value then None
    else match Configurable(config).value[GUARD_KEY]
      case Guard(guard) => Some(guard)
      case _ => None
  }

  /** A checkpoint write finds the guard the run was given, never a client's value; a bound guard wins over it. */
  lemma InjectedGuardIsResolved(config: Option<Config>, guard: Option<nat>, scoped: Option<nat>)
    ensures ResolveOwnershipGuard(None, ConfigWithOwnershipGuard(config, guard)) == guard
    ensures ResolveOwnershipGuard(scoped, ConfigWithOwnershipGuard(config, guard)) == if scoped.Some? then scoped else guard
  {
    KeysDiffer();
  }

  function Entry(m: Option<map<string, Value>>, key: string): Option<Value> {
    if m.Some? && key in m.value then Some(m.value[key]) else None
  }

  /** Nothing but the guard's key and `configurable` changes at the top, nothing but the guard's key inside it. */
  lemma OnlyGuardKeyTouched(config: Option<Config>, guard: Option<nat>, key: string)
    requires key != GUARD_KEY
    ensures var after := ConfigWithOwnershipGuard(config, guard);
            && (key != CONFIGURABLE ==> Entry(after, key) == Entry(config, key))
            && Entry(Configurable(after), key) == Entry(Configurable(config), key)
            && Entry(after, GUARD_KEY) == None
            && Entry(Configurable(after), GUARD_KEY) == (if guard.Some? then Some(Guard(guard.value)) else None)
  {
    KeysDiffer();
  }

  /** Cleaning is done once: repeating it, with the same guard or with none to inject, changes nothing more. */
  lemma InjectionIsIdempotent(config: Option<Config>, guard: Option<nat>)
    ensures var once := ConfigWithOwnershipGuard(config, guard);
            ConfigWithOwnershipGuard(once, guard) == once
    ensures guard.None? && !HasStrayKey(config) ==> ConfigWithOwnershipGuard(config, guard) == config
  {
    KeysDiffer();
    var once := ConfigWithOwnershipGuard(config, guard);
    if guard.Some? {
      var entries := Configurable(once).value;
      assert (entries - {GUARD_KEY})[GUARD_KEY := Guard(guard.value)] == entries;
      assert (once.value - {GUARD_KEY})[CONFIGURABLE := Mapping(entries)] == once.value;
    }
  }

  /** A thread lock: without guards, or answering a request for one, `None` when guarding is off. */
  datatype Lock = Unguarded | Provider(answer: Option<Value>)

  datatype Guarded = NotAGuard | Run(config: Option<Config>, guard: Option<nat>)

  /** `guard_run_config`, with `ownership_guard_for`; an empty token is no token. */
  function GuardRunConfig(lock: Lock, thread: Option<string>, token: Option<string>, config: Option<Config>): Guarded {
    if token.GetOr("") == "" || thread.None? || lock.Unguarded? || lock.answer.None?
    then Run(ConfigWithOwnershipGuard(config, None), None)
    else match lock.answer.value
      case Guard(guard) => Run(ConfigWithOwnershipGuard(config, Some(guard)), Some(guard))
      case _ => NotAGuard
  }

  /**
   The run's writes are checked by the very guard the run's end is checked by, which is the lock's for this token;
   a run without one has no guard at all, whatever the client sent.
   */
  lemma RunIsGuardedByItsLock(lock: Lock, thread: Option<string>, token: Option<string>, config: Option<Config>)
    ensures var run := GuardRunConfig(lock, thread, token, config);
            && (run.Run? ==> ResolveOwnershipGuard(None, run.config) == run.guard)
            && (run.Run? && run.guard.Some? ==> lock.Provider? && lock.answer == Some(Guard(run.guard.value)))
            && (run.Run? && run.guard.Some? <==>
                  thread.Some? && token.Some? && token.value != "" && lock.Provider?
                  && lock.answer.Some? && lock.answer.value.Guard?)
            && (run.NotAGuard? <==>
                  thread.Some? && token.Some? && token.value != "" && lock.Provider?
                  && lock.answer.Some? && !lock.answer.value.Guard?)
  {
    InjectedGuardIsResolved(config, None, None);
    if lock.Provider? && lock.answer.Some? && lock.answer.value.Guard? {
      InjectedGuardIsResolved(config, Some(lock.answer.value.guard), None);
    }
  }
}
