/** What becomes of the protected settings, and whether the agent can still read them. */
module SecureContent {
  import opened SsamTypes
  import opened SecureMode

  // ----- what is sealed or lies in plaintext -----

  /** Plaintext and encrypted copy, where both exist, agree. */
  predicate Consistent(d: Disk) {
    d.plain.Some? && d.enc.Some? ==> d.plain.value == d.enc.value.content
  }

  function Content(d: Disk): Option<string> {
    if d.plain.Some? then d.plain else if d.enc.Some? then Some(d.enc.value.content) else None
  }

  lemma CommandKeepsContent(s: State, cmd: Command, env: CommandEnv)
    requires Consistent(s.disk)
    ensures Consistent(Executed(s, cmd, env).disk) && Content(Executed(s, cmd, env).disk) == Content(s.disk)
  {
    hide MaybeBootstrapped, IndexOf, Bootstrap, TrimNewlines, FreshContent;
    if cmd.Enter? { BootstrapKeepsContent(s, env); }
  }

  lemma {:induction false} CommandsKeepContent(s: State, cmds: seq<Command>, env: nat -> CommandEnv, n: nat)
    requires Consistent(s.disk) && n <= |cmds|
    ensures Consistent(ExecutedAll(s, cmds, env, n).disk)
    ensures Content(ExecutedAll(s, cmds, env, n).disk) == Content(s.disk)
  {
    if n > 0 {
      CommandsKeepContent(s, cmds, env, n - 1);
      CommandKeepsContent(ExecutedAll(s, cmds, env, n - 1), cmds[n - 1], env(n - 1));
    }
    hide Executed, Content, Consistent;
  }

  lemma HandledKeepsContent(s: State, resp: Response, env: CommandEnv)
    requires Consistent(s.disk)
    requires !Recovers(s, resp)
    ensures Handled(s, resp, env).disk == s.disk
  {
    hide SelfRecovered;
  }

  lemma AcceptedKeepsContent(s: State, report: Report, resp: Response, env: CommandEnv)
    requires Consistent(s.disk)
    requires !Recovers(s, resp)
    ensures AfterAccepted(s, report, resp, env).disk == s.disk
  {
    var received := if report.PasswordReport?
                    then s.(accepted := s.accepted + {Receipt(report.password, s.tlsEnabled, !s.tlsSkipVerify)}) else s;
    HandledKeepsContent(received, resp, env);
    hide Handled;
  }

  lemma BootstrapKeepsContent(s: State, env: CommandEnv)
    requires Consistent(s.disk)
    ensures var r := MaybeBootstrapped(s, env).s; Consistent(r.disk) && Content(r.disk) == Content(s.disk)
  {
  }

  /** Whatever faults the vault shows, the settings a cycle leaves in plaintext or under some password are the
      ones it found, unless it attempts a self-recovery. Whether anybody holds that password is the next section. */
  lemma CycleKeepsContent(s: State, env: CycleEnv)
    requires Consistent(s.disk) && !AttemptsRecovery(s, env)
    ensures Consistent(Cycled(s, env).disk) && Content(Cycled(s, env).disk) == Content(s.disk)
  {
    CommandsKeepContent(s, s.pending, env.commands, |s.pending|);
    var done := ExecutedAll(s, s.pending, env.commands, |s.pending|).(pending := []);
    hide ExecutedAll, Content, Consistent;
    BootstrapKeepsContent(done, env.boot);
    hide MaybeBootstrapped;
    var ready := ReadyToSend(s, env);
    if ready.ok && env.transport.Accepted? {
      AcceptedKeepsContent(ready.s, ReportOf(ready.s), env.transport.resp, env.recovery);
    }
    hide AfterAccepted, ReportOf;
  }

  ghost predicate NoRecovery(s: State, events: seq<Event>) {
    forall i :: 0 <= i < |events| ==> events[i].Cycle? && !AttemptsRecovery(Run(s, events[..i]), events[i].env)
  }

  /** Over a whole run without restarts: the settings on disk, readable or not, are the ones it began with,
      unless a self-recovery was attempted. */
  lemma {:induction false} RunKeepsContent(s: State, events: seq<Event>)
    requires Consistent(s.disk) && NoRecovery(s, events)
    ensures Consistent(Run(s, events).disk) && Content(Run(s, events).disk) == Content(s.disk)
  {
    if events != [] {
      var n := |events| - 1;
      hide AttemptsRecovery, Cycled, Consistent, Content;
      forall i | 0 <= i < n
        ensures events[..n][i].Cycle? && !AttemptsRecovery(Run(s, events[..n][..i]), events[..n][i].env)
      {
        assert events[..n][..i] == events[..i];
      }
      RunKeepsContent(s, events[..n]);
      CycleKeepsContent(Run(s, events[..n]), events[n].env);
    }
  }

  // ----- the key is in memory -----

  /** An unlocked agent whose configuration is encrypted only holds its password. */
  predicate KeyInMemory(s: State) {
    && s.active && !s.locked && s.disk.plain.None? && s.disk.enc.Some?
    ==> s.password != "" && Opens(s.disk, s.password)
  }

  /** A bootstrap throws its password away: the encryption completes, but its last directory sync fails and
      the caller returns before storing the password (or the password stored is empty). */
  predicate BootstrapLosesKey(s: State, env: CommandEnv) {
    && s.active && !s.locked && s.password == "" && s.disk.plain.Some? && s.disk.enc.None? && env.gen.Some?
    && (env.fault.Late? || (env.fault.NoFault? && env.gen.value == ""))
  }

  lemma BootstrapKeepsKeyIff(s: State, env: CommandEnv)
    requires KeyInMemory(s)
    ensures KeyInMemory(MaybeBootstrapped(s, env).s) <==> !BootstrapLosesKey(s, env)
  {
  }

  /** A rotation of an unlocked agent fails after re-keying to a password not in memory (or succeeds with an
      empty one). */
  predicate RotationLosesKey(s: State, cmd: Command, env: CommandEnv) {
    && s.active && !s.locked && s.disk.plain.None?
    && cmd.Rotate? && cmd.pw != "" && Opens(s.disk, cmd.pw) && env.gen.Some?
    && match env.fault
       case Clean => false
       case NoFault => env.gen.value == ""
       case _ => env.gen.value != s.password
  }

  predicate CommandLosesKey(s: State, cmd: Command, env: CommandEnv) {
    (cmd.Enter? && BootstrapLosesKey(s, env)) || RotationLosesKey(s, cmd, env)
  }

  lemma CommandKeepsKeyIff(s: State, cmd: Command, env: CommandEnv)
    requires KeyInMemory(s)
    ensures KeyInMemory(Executed(s, cmd, env)) <==> !CommandLosesKey(s, cmd, env)
  {
    hide MaybeBootstrapped;
    if cmd.Enter? { BootstrapKeepsKeyIff(s, env); }
  }

  /** A self-recovery succeeds with an empty password. */
  predicate RecoveryLosesKey(s: State, env: CommandEnv) {
    && s.active && s.locked && s.disk.plain.None? && s.disk.enc.Some?
    && env.gen == Some("") && env.readOk && env.fault.NoFault?
  }

  lemma RecoveryKeepsKeyIff(s: State, env: CommandEnv)
    requires KeyInMemory(s)
    ensures KeyInMemory(SelfRecovered(s, env).s) <==> !RecoveryLosesKey(s, env)
  {
    hide FreshContent;
  }

  /** No step of the cycle loses the key, each by its exact condition. */
  ghost predicate KeyedCycle(s: State, env: CycleEnv) {
    && (forall i: nat :: i < |s.pending| && env.commands(i).verified ==>
          !CommandLosesKey(ExecutedAll(s, s.pending, env.commands, i), s.pending[i], env.commands(i)))
    && !BootstrapLosesKey(ExecutedAll(s, s.pending, env.commands, |s.pending|), env.boot)
    && !(AttemptsRecovery(s, env) && RecoveryLosesKey(ReadyToSend(s, env).s, env.recovery))
  }

  lemma {:induction false} CommandsKeepKey(s: State, env: CycleEnv, n: nat)
    requires KeyInMemory(s) && n <= |s.pending| && KeyedCycle(s, env)
    ensures KeyInMemory(ExecutedAll(s, s.pending, env.commands, n))
  {
    hide Executed, KeyInMemory, CommandLosesKey, BootstrapLosesKey, RecoveryLosesKey, AttemptsRecovery, ReadyToSend;
    if n > 0 {
      CommandsKeepKey(s, env, n - 1);
      CommandKeepsKeyIff(ExecutedAll(s, s.pending, env.commands, n - 1), s.pending[n - 1], env.commands(n - 1));
    }
  }

  lemma HandledKeepsKey(s: State, resp: Response, env: CommandEnv)
    requires KeyInMemory(s) && !(Recovers(s, resp) && RecoveryLosesKey(s, env))
    ensures KeyInMemory(Handled(s, resp, env))
  {
    hide SelfRecovered;
    if Recovers(s, resp) { RecoveryKeepsKeyIff(MissCounted(s, resp), env); }
  }

  lemma AcceptedKeepsKey(s: State, report: Report, resp: Response, env: CommandEnv)
    requires KeyInMemory(s) && !(Recovers(s, resp) && RecoveryLosesKey(s, env))
    ensures KeyInMemory(AfterAccepted(s, report, resp, env))
  {
    var received := if report.PasswordReport?
                    then s.(accepted := s.accepted + {Receipt(report.password, s.tlsEnabled, !s.tlsSkipVerify)}) else s;
    HandledKeepsKey(received, resp, env);
    hide Handled;
  }

  lemma CycleKeepsKey(s: State, env: CycleEnv)
    requires KeyInMemory(s) && KeyedCycle(s, env)
    ensures KeyInMemory(Cycled(s, env))
  {
    CommandsKeepKey(s, env, |s.pending|);
    var executed := ExecutedAll(s, s.pending, env.commands, |s.pending|);
    hide ExecutedAll, RecoveryLosesKey, CommandLosesKey, Recovers;
    var done := executed.(pending := []);
    assert BootstrapLosesKey(done, env.boot) == BootstrapLosesKey(executed, env.boot);
    BootstrapKeepsKeyIff(done, env.boot);
    hide MaybeBootstrapped, BootstrapLosesKey;
    var ready := ReadyToSend(s, env);
    if ready.ok && env.transport.Accepted? {
      AcceptedKeepsKey(ready.s, ReportOf(ready.s), env.transport.resp, env.recovery);
    }
    hide AfterAccepted, ReportOf, KeyInMemory;
  }

  ghost predicate KeyedRun(s: State, events: seq<Event>) {
    forall i :: 0 <= i < |events| && events[i].Cycle? ==> KeyedCycle(Run(s, events[..i]), events[i].env)
  }

  /** In every run, restarts onto any disk included: as long as no step loses the key, an unlocked agent
      without plaintext has the password of its encrypted file in memory. */
  lemma {:induction false} RunKeepsKey(s: State, events: seq<Event>)
    requires KeyInMemory(s) && KeyedRun(s, events)
    ensures KeyInMemory(Run(s, events))
  {
    if events != [] {
      var n := |events| - 1;
      hide Cycled, KeyedCycle;
      forall i | 0 <= i < n && events[..n][i].Cycle? ensures KeyedCycle(Run(s, events[..n][..i]), events[..n][i].env) {
        assert events[..n][..i] == events[..i];
      }
      RunKeepsKey(s, events[..n]);
      if events[n].Cycle? { CycleKeepsKey(Run(s, events[..n]), events[n].env); }
    }
  }

  /** What the agent can read: the plaintext, or what the password in memory opens. */
  function Readable(s: State): Option<string> {
    if s.disk.plain.Some? then s.disk.plain
    else if s.password != "" && Opens(s.disk, s.password) then Some(s.disk.enc.value.content)
    else None
  }

  /** Holding the key is being able to read the settings. */
  lemma KeyMeansReadable(s: State)
    requires s.active && !s.locked
    ensures KeyInMemory(s) <==> Readable(s) == Content(s.disk)
  {
  }

  lemma {:induction false} NoRecoveryKeepsActive(s: State, events: seq<Event>)
    requires NoRecovery(s, events)
    ensures Run(s, events).active == s.active && (Run(s, events).locked ==> s.locked)
  {
    if events != [] {
      var n := |events| - 1;
      hide AttemptsRecovery, Cycled;
      forall i | 0 <= i < n
        ensures events[..n][i].Cycle? && !AttemptsRecovery(Run(s, events[..n][..i]), events[..n][i].env)
      {
        assert events[..n][..i] == events[..i];
      }
      NoRecoveryKeepsActive(s, events[..n]);
      CycleKeepsActive(Run(s, events[..n]), events[n].env);
    }
  }

  lemma CycleKeepsActive(s: State, env: CycleEnv)
    ensures Cycled(s, env).active == s.active && (Cycled(s, env).locked ==> s.locked)
  {
    ReadyKeepsConfig(s, env);
    hide ReadyToSend, FreshContent;
  }

  /** The settings survive and stay readable: in a run that attempts no self-recovery and loses no key, an
      agent that is unlocked, or was at the start, reads at the end the settings that were on disk at the start. */
  lemma RunKeepsSettingsReadable(s: State, events: seq<Event>)
    requires Consistent(s.disk) && KeyInMemory(s) && NoRecovery(s, events) && KeyedRun(s, events)
    requires s.active && (!s.locked || !Run(s, events).locked)
    ensures Readable(Run(s, events)) == Content(s.disk)
  {
    RunKeepsContent(s, events);
    RunKeepsKey(s, events);
    NoRecoveryKeepsActive(s, events);
    KeyMeansReadable(Run(s, events));
    hide Run, NoRecovery, KeyedRun, Readable, Content;
  }

  // ----- settings nobody can read -----

  /** Unlocked, the settings sealed under `key`, no password in memory. */
  predicate Stranded(s: State, key: string) {
    s.active && !s.locked && s.password == "" && s.disk.plain.None? && s.disk.enc.Some? && s.disk.enc.value.key == key
  }

  /** A first heartbeat whose encryption fails in the last directory sync: no rule above is broken, and the
      settings end sealed under a password that nobody holds. */
  lemma LateBootstrapStrands(s: State, env: CycleEnv, settings: string, key: string)
    requires Invariant(s) && s.active && !s.locked && s.password == "" && s.pending == []
    requires s.disk == Disk(Some(settings), None) && env.boot.gen == Some(key) && env.boot.fault.Late?
    ensures TiedCycle(s, env) && Consistent(s.disk) && !AttemptsRecovery(s, env)
    ensures var r := Cycled(s, env);
            && Invariant(r) && Stranded(r, key) && r.accepted == s.accepted && r.pending == []
            && Content(r.disk) == Some(settings) && Readable(r) == None
  {
  }

  /** The kernel does not know the key: no verified exit or rotation among the pending commands carries it. */
  ghost predicate KeyUnknown(s: State, env: CycleEnv, key: string) {
    forall i: nat :: i < |s.pending| && env.commands(i).verified && (s.pending[i].Exit? || s.pending[i].Rotate?) ==>
      s.pending[i].pw != key
  }

  lemma {:induction false} StrandedCommandsDoNothing(s: State, env: CycleEnv, key: string, n: nat)
    requires Stranded(s, key) && KeyUnknown(s, env, key) && n <= |s.pending|
    ensures ExecutedAll(s, s.pending, env.commands, n) == s
  {
    if n > 0 { StrandedCommandsDoNothing(s, env, key, n - 1); }
  }

  /** ... and there it stays: no bootstrap, no response and no command without the key changes anything but the
      queue, and nothing is ever reported. */
  lemma StrandedCycle(s: State, env: CycleEnv, key: string)
    requires Stranded(s, key) && KeyUnknown(s, env, key)
    ensures Cycled(s, env) == s.(pending := Cycled(s, env).pending, reported := Cycled(s, env).reported)
    ensures Cycled(s, env).reported ==> s.reported
    ensures ReportOf(ReadyToSend(s, env).s) == NoReport
  {
    StrandedCommandsDoNothing(s, env, key, |s.pending|);
    hide ExecutedAll;
  }

  lemma {:induction false} StrandedForGood(s: State, events: seq<Event>, key: string)
    requires Stranded(s, key)
    requires forall i :: 0 <= i < |events| ==> events[i].Cycle? && KeyUnknown(Run(s, events[..i]), events[i].env, key)
    ensures Stranded(Run(s, events), key) && Run(s, events).disk == s.disk && Run(s, events).accepted == s.accepted
  {
    if events != [] {
      var n := |events| - 1;
      hide KeyUnknown, Cycled;
      forall i | 0 <= i < n
        ensures events[..n][i].Cycle? && KeyUnknown(Run(s, events[..n][..i]), events[..n][i].env, key)
      {
        assert events[..n][..i] == events[..i];
      }
      StrandedForGood(s, events[..n], key);
      StrandedCycle(Run(s, events[..n]), events[n].env, key);
    }
  }
}
