/** The agent's secure mode: an encrypted configuration whose password lives in memory only, is
    reported to the kernel, handed back after a restart, and replaced when the kernel has lost it. */
module SecureMode {
  import opened SsamTypes

  // ----- the vault: one protected file, in plaintext, encrypted, both or neither -----

  datatype Sealed = Sealed(key: string, content: string)

  datatype Disk = Disk(plain: Option<string>, enc: Option<Sealed>)

  /** How a vault operation that got past its checks ends: it succeeds; fails with the disk untouched;
      fails with the new file in place beside the old one; or fails, in the final directory sync, with
      the conversion complete. */
  datatype Fault = NoFault | Clean | Residue | Late

  datatype DiskResult = DiskResult(disk: Disk, ok: bool)

  function Encrypted(d: Disk, pw: string, fault: Fault): DiskResult {
    if d.plain.None? || fault.Clean? then DiskResult(d, false)
    else
      var sealed := Some(Sealed(pw, d.plain.value));
      DiskResult(Disk(if fault.Residue? then d.plain else None, sealed), fault.NoFault?)
  }

  function Opens(d: Disk, pw: string): bool {
    d.enc.Some? && d.enc.value.key == pw
  }

  function Decrypted(d: Disk, pw: string, fault: Fault): DiskResult {
    if !Opens(d, pw) || fault.Clean? then DiskResult(d, false)
    else DiskResult(Disk(Some(d.enc.value.content), if fault.Residue? then d.enc else None), fault.NoFault?)
  }

  function Rotated(d: Disk, oldPw: string, newPw: string, fault: Fault): DiskResult {
    if !Opens(d, oldPw) || fault.Clean? then DiskResult(d, false)
    else DiskResult(d.(enc := Some(Sealed(newPw, d.enc.value.content))), fault.NoFault?)
  }

  function Overwritten(d: Disk, pw: string, content: string, fault: Fault): DiskResult {
    if fault.Clean? then DiskResult(d, false)
    else DiskResult(d.(enc := Some(Sealed(pw, content))), fault.NoFault?)
  }

  const HEADER := "[bootstrap]"

  function IndexOf(s: string, sub: string): Option<nat> {
    if sub <= s then Some(0)
    else if s == [] then None
    else
      var i := IndexOf(s[1..], sub);
      if i.Some? then Some(i.value + 1) else None
  }

  /** The section that stays readable without the password: from its header to the first blank line. */
  function Bootstrap(content: string): string {
    var i := IndexOf(content, HEADER);
    if i.None? || i.value > |content| then ""
    else
      var rest := content[i.value..];
      var blank := IndexOf(rest, "\n\n");
      if blank.Some? && blank.value <= |rest| then rest[..blank.value] else rest
  }

  function TrimNewlines(s: string): string {
    if s != [] && s[|s| - 1] == '\n' then TrimNewlines(s[..|s| - 1]) else s
  }

  /** What self-recovery writes: the readable section and an empty protected one. */
  function FreshContent(content: string): string {
    TrimNewlines(Bootstrap(content)) + "\n\n[agent]\n"
  }

  class Vault {
    var disk: Disk

    constructor (disk: Disk)
      ensures this.disk == disk
    {
      this.disk := disk;
    }

    method EncryptFile(pw: string, fault: Fault) returns (ok: bool)
      modifies this
      ensures DiskResult(disk, ok) == Encrypted(old(disk), pw, fault)
    {
      if disk.plain.None? || fault.Clean? {
        return false;
      }
      disk := disk.(enc := Some(Sealed(pw, disk.plain.value)));
      if fault.Residue? {
        return false;
      }
      disk := disk.(plain := None);
      return fault.NoFault?;
    }

    method DecryptFile(pw: string, fault: Fault) returns (ok: bool)
      modifies this
      ensures DiskResult(disk, ok) == Decrypted(old(disk), pw, fault)
    {
      if disk.enc.None? || disk.enc.value.key != pw || fault.Clean? {
        return false;
      }
      disk := disk.(plain := Some(disk.enc.value.content));
      if fault.Residue? {
        return false;
      }
      disk := disk.(enc := None);
      return fault.NoFault?;
    }

    method RotatePassword(oldPw: string, newPw: string, fault: Fault) returns (ok: bool)
      modifies this
      ensures DiskResult(disk, ok) == Rotated(old(disk), oldPw, newPw, fault)
    {
      if disk.enc.None? || disk.enc.value.key != oldPw || fault.Clean? {
        return false;
      }
      disk := disk.(enc := Some(Sealed(newPw, disk.enc.value.content)));
      return fault.NoFault?;
    }

    method ReencryptOverwrite(pw: string, content: string, fault: Fault) returns (ok: bool)
      modifies this
      ensures DiskResult(disk, ok) == Overwritten(old(disk), pw, content, fault)
    {
      if fault.Clean? {
        return false;
      }
      disk := disk.(enc := Some(Sealed(pw, content)));
      return fault.NoFault?;
    }
  }

  // ----- agent state -----

  datatype Command = Enter | Exit(pw: string) | Rotate(pw: string) | Unlock(pw: string) | Other

  /** What the environment decides about one pending command: whether its signature verifies, the
      generated password if the generator works, and how the vault and a read of it behave. */
  datatype CommandEnv = CommandEnv(verified: bool, gen: Option<string>, fault: Fault, readOk: bool)

  datatype Response = Response(unlock: Option<string>, noSecret: bool, pending: seq<Command>)

  datatype Transport = Lost | NotOk | Accepted(resp: Response)

  datatype CycleEnv = CycleEnv(
    commands: nat -> CommandEnv, boot: CommandEnv, transport: Transport, recovery: CommandEnv)

  /** The secret a heartbeat carried and the channel it went over. */
  datatype Receipt = Receipt(password: string, tls: bool, verified: bool)

  datatype Report = NoReport | LockedReport | PasswordReport(password: string)

  /** `active` is false without a vault or after a refused start. `accepted` records every secret an
      accepted heartbeat has carried; it is history, never read by the agent. */
  datatype State = State(
    active: bool, password: string, reported: bool, locked: bool, noUnlockCount: nat, disk: Disk,
    tlsEnabled: bool, tlsSkipVerify: bool, maxNoUnlock: int, pending: seq<Command>, accepted: set<Receipt>)

  const DEFAULT_MAX_NO_UNLOCK := 3

  function MaxMisses(s: State): (m: nat)
    ensures m > 0
  {
    if s.maxNoUnlock > 0 then s.maxNoUnlock else DEFAULT_MAX_NO_UNLOCK
  }

  datatype StateResult = StateResult(s: State, ok: bool)

  // ----- steps as functions -----

  /** Start-up values that come from outside: the disk as found, the command line, the .enc's readable section. */
  datatype StartEnv = StartEnv(hasVault: bool, disk: Disk, tls: bool, skip: bool, bootTls: Option<bool>,
                               bootSkip: Option<bool>)

  function Started(s: State, e: StartEnv): StateResult {
    var down := State(false, "", false, false, 0, e.disk, e.tls, e.skip, s.maxNoUnlock, [], s.accepted);
    if !e.hasVault then StateResult(down, true)
    else if e.skip then StateResult(down, false)
    else if e.disk.plain.Some? && e.disk.enc.Some? then StateResult(down, false)
    else if e.disk.plain.Some? then StateResult(down.(active := true), true)
    else if e.disk.enc.Some? then
      StateResult(down.(active := true, locked := true,
                        tlsEnabled := if e.bootTls.Some? then e.bootTls.value else e.tls,
                        tlsSkipVerify := if e.bootSkip.Some? then e.bootSkip.value else e.skip), true)
    else StateResult(down.(active := true), true)
  }

  function MaybeBootstrapped(s: State, env: CommandEnv): StateResult {
    if !s.active || s.locked || s.password != "" || s.disk.plain.None? then StateResult(s, true)
    else if s.disk.enc.Some? || env.gen.None? then StateResult(s, false)
    else
      var r := Encrypted(s.disk, env.gen.value, env.fault);
      if r.ok then StateResult(s.(disk := r.disk, password := env.gen.value, reported := false), true)
      else StateResult(s.(disk := r.disk), false)
  }

  function ReportOf(s: State): Report {
    if !s.active || !s.tlsEnabled then NoReport
    else if s.locked then LockedReport
    else if s.password == "" || s.reported || s.tlsSkipVerify then NoReport
    else PasswordReport(s.password)
  }

  function Unlocked(s: State, pw: string, readOk: bool): StateResult {
    if !s.active || !s.locked then StateResult(s, true)
    else if !readOk || !Opens(s.disk, pw) then StateResult(s, false)
    else StateResult(s.(password := pw, locked := false, reported := false), true)
  }

  function Executed(s: State, cmd: Command, env: CommandEnv): State {
    if !s.active then s
    else match cmd
      case Other => s
      case Enter => MaybeBootstrapped(s, env).s
      case Exit(pw) =>
        if pw == "" then s
        else
          var r := Decrypted(s.disk, pw, env.fault);
          if r.ok then s.(disk := r.disk, password := "", reported := false, locked := false) else s.(disk := r.disk)
      case Rotate(pw) =>
        if pw == "" || env.gen.None? then s
        else
          var r := Rotated(s.disk, pw, env.gen.value, env.fault);
          if r.ok then s.(disk := r.disk, password := env.gen.value, reported := false) else s.(disk := r.disk)
      case Unlock(pw) =>
        if pw == "" then s else Unlocked(s, pw, env.readOk).s
  }

  /** The first `n` pending commands; those whose signature fails are skipped. */
  function ExecutedAll(s: State, cmds: seq<Command>, env: nat -> CommandEnv, n: nat): State
    requires n <= |cmds|
  {
    if n == 0 then s
    else
      var before := ExecutedAll(s, cmds, env, n - 1);
      if env(n - 1).verified then Executed(before, cmds[n - 1], env(n - 1)) else before
  }

  function SelfRecovered(s: State, env: CommandEnv): StateResult {
    if !s.active || !s.locked then StateResult(s, true)
    else if env.gen.None? || s.disk.enc.None? || !env.readOk then StateResult(s, false)
    else
      var r := Overwritten(s.disk, env.gen.value, FreshContent(s.disk.enc.value.content), env.fault);
      if r.ok then StateResult(s.(disk := r.disk, password := env.gen.value, locked := false, reported := false,
                                  noUnlockCount := 0), true)
      else StateResult(s.(disk := r.disk), false)
  }

  /** The response brings no unlock password. */
  predicate Missed(resp: Response) {
    resp.unlock.None? || resp.unlock.value == ""
  }

  function MissCounted(s: State, resp: Response): State {
    s.(noUnlockCount := if resp.noSecret then MaxMisses(s) else s.noUnlockCount + 1)
  }

  function Handled(s: State, resp: Response, env: CommandEnv): State {
    if !s.active || !s.locked then s
    else if !Missed(resp) then
      var r := Unlocked(s, resp.unlock.value, env.readOk);
      r.s.(noUnlockCount := if r.ok then 0 else s.noUnlockCount + 1)
    else
      var counted := MissCounted(s, resp);
      if counted.noUnlockCount >= MaxMisses(s) then SelfRecovered(counted, env).s else counted
  }

  function ReArmed(s: State, resp: Response): State {
    if s.active && !s.locked && s.password != "" && resp.noSecret then s.(reported := false) else s
  }

  function AfterAccepted(s: State, report: Report, resp: Response, env: CommandEnv): State {
    var received := if report.PasswordReport?
                    then s.(accepted := s.accepted + {Receipt(report.password, s.tlsEnabled, !s.tlsSkipVerify)}) else s;
    var handled := Handled(received, resp, env);
    var marked := if handled.active && handled.password != "" && !handled.locked && report.PasswordReport?
                  then handled.(reported := true) else handled;
    ReArmed(marked, resp).(pending := resp.pending)
  }

  /** The state in which a cycle, its pending commands and bootstrap done, builds its heartbeat. */
  function ReadyToSend(s: State, env: CycleEnv): StateResult {
    MaybeBootstrapped(ExecutedAll(s, s.pending, env.commands, |s.pending|).(pending := []), env.boot)
  }

  function Cycled(s: State, env: CycleEnv): State {
    var ready := ReadyToSend(s, env);
    if !ready.ok || !env.transport.Accepted? then ready.s
    else AfterAccepted(ready.s, ReportOf(ready.s), env.transport.resp, env.recovery)
  }

  // ----- the agent -----

  class Agent {
    const vault: Vault
    const maxNoUnlock: int
    var active: bool
    var password: string
    var reported: bool
    var locked: bool
    var noUnlockCount: nat
    var tlsEnabled: bool
    var tlsSkipVerify: bool
    var pendingCmd: seq<Command>
    ghost var accepted: set<Receipt>

    ghost function Now(): State
      reads this, vault
    {
      State(active, password, reported, locked, noUnlockCount, vault.disk, tlsEnabled, tlsSkipVerify, maxNoUnlock,
            pendingCmd, accepted)
    }

    constructor (vault: Vault, maxNoUnlock: int, tls: bool, skip: bool)
      ensures this.vault == vault && this.maxNoUnlock == maxNoUnlock
      ensures Now() == State(false, "", false, false, 0, vault.disk, tls, skip, maxNoUnlock, [], {})
    {
      this.vault := vault;
      this.maxNoUnlock := maxNoUnlock;
      active, password, reported, locked, noUnlockCount := false, "", false, false, 0;
      tlsEnabled, tlsSkipVerify, pendingCmd, accepted := tls, skip, [], {};
    }

    /** Classifies the disk; the values of the .enc's readable section apply to a locked start only. */
    method InitSecureMode(hasVault: bool, bootTls: Option<bool>, bootSkip: Option<bool>) returns (ok: bool)
      requires Now()
               == State(false, "", false, false, 0, vault.disk, tlsEnabled, tlsSkipVerify, maxNoUnlock, [], accepted)
      modifies this
      ensures StateResult(Now(), ok)
              == Started(old(Now()), StartEnv(hasVault, vault.disk, old(tlsEnabled), old(tlsSkipVerify), bootTls,
                                              bootSkip))
    {
      if !hasVault {
        return true;
      }
      if tlsSkipVerify {
        return false;
      }
      if vault.disk.plain.Some? && vault.disk.enc.Some? {
        return false;
      } else if vault.disk.plain.Some? {
        active := true;
      } else if vault.disk.enc.Some? {
        active, locked := true, true;
        if bootTls.Some? { tlsEnabled := bootTls.value; }
        if bootSkip.Some? { tlsSkipVerify := bootSkip.value; }
      } else {
        active := true;
      }
      return true;
    }

    method SecureMaybeBootstrap(env: CommandEnv) returns (ok: bool)
      modifies this, vault
      ensures StateResult(Now(), ok) == MaybeBootstrapped(old(Now()), env)
    {
      if !active || locked || password != "" {
        return true;
      }
      if vault.disk.plain.None? {
        return true;
      }
      if vault.disk.enc.Some? {
        return false;
      }
      if env.gen.None? {
        return false;
      }
      var done := vault.EncryptFile(env.gen.value, env.fault);
      if !done {
        return false;
      }
      password := env.gen.value;
      reported := false;
      return true;
    }

    method AttachSecureModeReport() returns (report: Report)
      ensures report == ReportOf(Now())
    {
      if !active || !tlsEnabled {
        return NoReport;
      }
      if locked {
        return LockedReport;
      }
      if password == "" || reported {
        return NoReport;
      }
      if tlsSkipVerify {
        return NoReport;
      }
      return PasswordReport(password);
    }

    method UnlockWithPassword(pw: string, readOk: bool) returns (ok: bool)
      modifies this
      ensures StateResult(Now(), ok) == Unlocked(old(Now()), pw, readOk)
    {
      if !active || !locked {
        return true;
      }
      if !readOk || vault.disk.enc.None? || vault.disk.enc.value.key != pw {
        return false;
      }
      password := pw;
      locked := false;
      reported := false;
      return true;
    }

    method ExecuteSecureModeCommand(cmd: Command, env: CommandEnv)
      modifies this, vault
      ensures Now() == Executed(old(Now()), cmd, env)
    {
      if !active {
        return;
      }
      match cmd {
        case Other =>
        case Enter =>
          var _ := SecureMaybeBootstrap(env);
        case Exit(pw) =>
          if pw != "" {
            var done := vault.DecryptFile(pw, env.fault);
            if done {
              password, reported, locked := "", false, false;
            }
          }
        case Rotate(pw) =>
          if pw != "" && env.gen.Some? {
            var done := vault.RotatePassword(pw, env.gen.value, env.fault);
            if done {
              password, reported := env.gen.value, false;
            }
          }
        case Unlock(pw) =>
          if pw != "" {
            var _ := UnlockWithPassword(pw, env.readOk);
          }
      }
    }

    method ExecutePendingCommands(env: nat -> CommandEnv)
      modifies this, vault
      ensures Now() == ExecutedAll(old(Now()), old(pendingCmd), env, |old(pendingCmd)|).(pending := [])
    {
      ghost var start := Now();
      var cmds := pendingCmd;
      for i := 0 to |cmds|
        invariant Now() == ExecutedAll(start, cmds, env, i) && pendingCmd == cmds
      {
        ExecutedKeepsPending(Now(), cmds[i], env(i));
        if env(i).verified {
          ExecuteSecureModeCommand(cmds[i], env(i));
        }
      }
      pendingCmd := [];
    }

    method SecureSelfRecover(env: CommandEnv) returns (ok: bool)
      modifies this, vault
      ensures StateResult(Now(), ok) == SelfRecovered(old(Now()), env)
    {
      if !active || !locked {
        return true;
      }
      if env.gen.None? {
        return false;
      }
      if vault.disk.enc.None? || !env.readOk {
        return false;
      }
      var done := vault.ReencryptOverwrite(env.gen.value, FreshContent(vault.disk.enc.value.content), env.fault);
      if !done {
        return false;
      }
      password := env.gen.value;
      locked, reported, noUnlockCount := false, false, 0;
      return true;
    }

    method HandleSecureModeResponse(resp: Response, env: CommandEnv)
      modifies this, vault
      ensures Now() == Handled(old(Now()), resp, env)
    {
      hide SelfRecovered;
      if !active || !locked {
        return;
      }
      if resp.unlock.Some? && resp.unlock.value != "" {
        var ok := UnlockWithPassword(resp.unlock.value, env.readOk);
        if !ok {
          noUnlockCount := noUnlockCount + 1;
          return;
        }
        noUnlockCount := 0;
        return;
      }
      var maxMisses := if maxNoUnlock > 0 then maxNoUnlock else DEFAULT_MAX_NO_UNLOCK;
      if resp.noSecret {
        noUnlockCount := maxMisses;
      } else {
        noUnlockCount := noUnlockCount + 1;
      }
      if noUnlockCount >= maxMisses {
        var _ := SecureSelfRecover(env);
      }
    }

    method SecureReArmReport(resp: Response)
      modifies this
      ensures Now() == ReArmed(old(Now()), resp)
    {
      if !active || locked || password == "" {
        return;
      }
      if resp.noSecret {
        reported := false;
      }
    }

    /** The secure-mode steps of one heartbeat cycle, in their order. */
    method HeartbeatCycle(env: CycleEnv) returns (ok: bool)
      modifies this, vault
      ensures Now() == Cycled(old(Now()), env)
      ensures ok <==> ReadyToSend(old(Now()), env).ok && env.transport.Accepted?
    {
      hide ExecutedAll, MaybeBootstrapped, Handled, ReArmed;
      ExecutePendingCommands(env.commands);
      var ready := SecureMaybeBootstrap(env.boot);
      if !ready {
        return false;
      }
      ghost var sent := Now();
      var report := AttachSecureModeReport();
      var secureReported := report.PasswordReport? && report.password != "";
      if !env.transport.Accepted? {
        return false;
      }
      var resp := env.transport.resp;
      if report.PasswordReport? {
        accepted := accepted + {Receipt(report.password, tlsEnabled, !tlsSkipVerify)};
      }
      NoResponseHandled(Now(), resp, env.recovery);
      if active && locked {
        HandleSecureModeResponse(resp, env.recovery);
      }
      if active && password != "" && !locked && secureReported {
        reported := true;
      }
      NothingReArmed(Now(), resp);
      if active {
        SecureReArmReport(resp);
      }
      pendingCmd := resp.pending;
      return true;
    }
  }

  lemma NoResponseHandled(s: State, resp: Response, env: CommandEnv)
    ensures !(s.active && s.locked) ==> Handled(s, resp, env) == s
  {
  }

  lemma NothingReArmed(s: State, resp: Response)
    ensures !s.active ==> ReArmed(s, resp) == s
  {
  }

  lemma ExecutedKeepsPending(s: State, cmd: Command, env: CommandEnv)
    ensures Executed(s, cmd, env).pending == s.pending
  {
  }

  // ----- runs -----

  datatype Event = Restart(start: StartEnv) | Cycle(env: CycleEnv)

  function Next(s: State, e: Event): State {
    match e
    case Restart(start) => Started(s, start).s
    case Cycle(env) => Cycled(s, env)
  }

  function Run(s: State, events: seq<Event>): State {
    if events == [] then s else Next(Run(s, events[..|events| - 1]), events[|events| - 1])
  }

  // ----- what every run keeps -----

  /** A password in memory opens the file on disk. */
  predicate PasswordOpensDisk(s: State) {
    s.password != "" ==> Opens(s.disk, s.password)
  }

  /** A reported password went out, verbatim, over TLS with verification on, in an accepted heartbeat. */
  predicate ReportedWasAccepted(s: State) {
    s.reported ==> s.password != "" && Receipt(s.password, true, true) in s.accepted
  }

  predicate LockedState(s: State) {
    && (s.locked ==> s.active && !s.reported && s.disk.enc.Some?)
    && (!s.active ==> s.password == "" && !s.reported)
  }

  predicate Invariant(s: State) {
    PasswordOpensDisk(s) && ReportedWasAccepted(s) && LockedState(s)
  }

  /** A command breaks the tie between memory and disk exactly when the vault, holding the agent's
      current password, reports failure although it has already re-keyed or removed the encrypted file. */
  predicate LateFailure(s: State, cmd: Command, env: CommandEnv) {
    && s.active && s.password != ""
    && ((cmd.Exit? && cmd.pw == s.password && env.fault.Late?)
        || (cmd.Rotate? && cmd.pw == s.password && env.gen.Some? && env.gen.value != s.password
            && (env.fault.Late? || env.fault.Residue?)))
  }

  lemma ExitKeepsTieIff(s: State, pw: string, env: CommandEnv)
    requires PasswordOpensDisk(s)
    ensures PasswordOpensDisk(Executed(s, Exit(pw), env)) <==> !LateFailure(s, Exit(pw), env)
  {
  }

  lemma RotateKeepsTieIff(s: State, pw: string, env: CommandEnv)
    requires PasswordOpensDisk(s)
    ensures PasswordOpensDisk(Executed(s, Rotate(pw), env)) <==> !LateFailure(s, Rotate(pw), env)
  {
  }

  lemma OtherCommandsKeepTie(s: State, cmd: Command, env: CommandEnv)
    requires PasswordOpensDisk(s) && !cmd.Exit? && !cmd.Rotate?
    ensures PasswordOpensDisk(Executed(s, cmd, env))
  {
  }

  lemma CommandKeepsTieIff(s: State, cmd: Command, env: CommandEnv)
    requires PasswordOpensDisk(s)
    ensures PasswordOpensDisk(Executed(s, cmd, env)) <==> !LateFailure(s, cmd, env)
  {
    hide Executed, PasswordOpensDisk;
    match cmd {
      case Exit(pw) => ExitKeepsTieIff(s, pw, env);
      case Rotate(pw) => RotateKeepsTieIff(s, pw, env);
      case _ => OtherCommandsKeepTie(s, cmd, env);
    }
  }

  /** An exit fails in its last directory sync and leaves a locked agent without the file it is locked out of. */
  predicate LosesLockedFile(s: State, cmd: Command, env: CommandEnv) {
    s.active && s.locked && cmd.Exit? && cmd.pw != "" && Opens(s.disk, cmd.pw) && env.fault.Late?
  }

  lemma CommandKeepsInvariantIff(s: State, cmd: Command, env: CommandEnv)
    requires Invariant(s)
    ensures Invariant(Executed(s, cmd, env)) <==> !LateFailure(s, cmd, env) && !LosesLockedFile(s, cmd, env)
  {
    CommandKeepsTieIff(s, cmd, env);
    hide PasswordOpensDisk, LateFailure;
  }

  /** Self-recovery breaks the tie when it fails after overwriting the file while a password is in memory,
      which a locked agent has only after a rotation. */
  predicate LateRecovery(s: State, env: CommandEnv) {
    && s.active && s.locked && s.password != "" && env.gen.Some? && env.gen.value != s.password
    && env.readOk && (env.fault.Late? || env.fault.Residue?)
  }

  lemma RecoveryKeepsTieIff(s: State, env: CommandEnv)
    requires PasswordOpensDisk(s)
    ensures PasswordOpensDisk(SelfRecovered(s, env).s) <==> !LateRecovery(s, env)
  {
    hide FreshContent;
  }

  lemma RecoveryKeepsInvariantIff(s: State, env: CommandEnv)
    requires Invariant(s)
    ensures Invariant(SelfRecovered(s, env).s) <==> !LateRecovery(s, env)
  {
    hide FreshContent;
  }

  /** This response starts a self-recovery: still locked, no password issued, threshold reached. */
  predicate Recovers(s: State, resp: Response) {
    s.active && s.locked && Missed(resp) && MissCounted(s, resp).noUnlockCount >= MaxMisses(s)
  }

  predicate AttemptsRecovery(s: State, env: CycleEnv) {
    var r := ReadyToSend(s, env);
    r.ok && env.transport.Accepted? && Recovers(r.s, env.transport.resp)
  }

  /** No step of the cycle breaks the invariant, each by its exact condition. */
  ghost predicate TiedCycle(s: State, env: CycleEnv) {
    && (forall i: nat :: i < |s.pending| && env.commands(i).verified ==>
          var before := ExecutedAll(s, s.pending, env.commands, i);
          !LateFailure(before, s.pending[i], env.commands(i))
          && !LosesLockedFile(before, s.pending[i], env.commands(i)))
    && !(AttemptsRecovery(s, env) && LateRecovery(ReadyToSend(s, env).s, env.recovery))
  }

  ghost predicate TiedRun(s: State, events: seq<Event>)
  {
    forall i :: 0 <= i < |events| && events[i].Cycle? ==> TiedCycle(Run(s, events[..i]), events[i].env)
  }

  lemma {:induction false} ExecutedAllKeepsInvariant(s: State, env: CycleEnv, n: nat)
    requires Invariant(s) && n <= |s.pending| && TiedCycle(s, env)
    ensures Invariant(ExecutedAll(s, s.pending, env.commands, n))
  {
    hide Executed, Invariant, LateFailure, LosesLockedFile, AttemptsRecovery, LateRecovery, ReadyToSend;
    if n > 0 {
      ExecutedAllKeepsInvariant(s, env, n - 1);
      CommandKeepsInvariantIff(ExecutedAll(s, s.pending, env.commands, n - 1), s.pending[n - 1], env.commands(n - 1));
    }
  }

  lemma HandledKeepsInvariant(s: State, resp: Response, env: CommandEnv)
    requires Invariant(s) && !(Recovers(s, resp) && LateRecovery(s, env))
    ensures Invariant(Handled(s, resp, env))
    ensures !s.locked ==> Handled(s, resp, env) == s
  {
    hide SelfRecovered;
    if Recovers(s, resp) {
      RecoveryKeepsInvariantIff(MissCounted(s, resp), env);
    }
  }

  lemma AcceptedKeepsInvariant(s: State, resp: Response, env: CommandEnv)
    requires Invariant(s) && !(Recovers(s, resp) && LateRecovery(s, env))
    ensures Invariant(AfterAccepted(s, ReportOf(s), resp, env))
  {
    var report := ReportOf(s);
    var received := if report.PasswordReport?
                    then s.(accepted := s.accepted + {Receipt(report.password, s.tlsEnabled, !s.tlsSkipVerify)}) else s;
    assert Invariant(received);
    HandledKeepsInvariant(received, resp, env);
    hide Handled;
  }

  lemma CycleKeepsInvariant(s: State, env: CycleEnv)
    requires Invariant(s) && TiedCycle(s, env)
    ensures Invariant(Cycled(s, env)) && Invariant(ReadyToSend(s, env).s)
  {
    ExecutedAllKeepsInvariant(s, env, |s.pending|);
    var done := ExecutedAll(s, s.pending, env.commands, |s.pending|).(pending := []);
    hide ExecutedAll, LateRecovery, LateFailure, LosesLockedFile, Recovers;
    assert Invariant(done);
    var ready := MaybeBootstrapped(done, env.boot);
    assert Invariant(ready.s);
    hide MaybeBootstrapped;
    if ready.ok && env.transport.Accepted? {
      AcceptedKeepsInvariant(ready.s, env.transport.resp, env.recovery);
      hide AfterAccepted;
    }
  }

  lemma TiedPrefix(s: State, events: seq<Event>)
    requires events != [] && TiedRun(s, events)
    ensures TiedRun(s, events[..|events| - 1])
    ensures events[|events| - 1].Cycle? ==> TiedCycle(Run(s, events[..|events| - 1]), events[|events| - 1].env)
  {
    hide TiedCycle, Run;
    var init := events[..|events| - 1];
    forall i | 0 <= i < |init| && init[i].Cycle? ensures TiedCycle(Run(s, init[..i]), init[i].env) {
      assert init[..i] == events[..i];
    }
  }

  lemma StartKeepsInvariant(s: State, start: StartEnv)
    ensures Invariant(Started(s, start).s)
  {
  }

  /** In every run whose steps avoid exactly those failures, restarts onto any disk included: the password in memory
      is the one the disk is encrypted under, and a password marked reported was accepted by the kernel over a verified
      channel. */
  lemma {:induction false} RunKeepsInvariant(s: State, events: seq<Event>)
    requires Invariant(s) && TiedRun(s, events)
    ensures Invariant(Run(s, events))
  {
    if events != [] {
      var n := |events| - 1;
      hide Cycled, TiedCycle, Started, Invariant, TiedRun;
      TiedPrefix(s, events);
      RunKeepsInvariant(s, events[..n]);
      match events[n] {
        case Cycle(env) => CycleKeepsInvariant(Run(s, events[..n]), env);
        case Restart(start) => StartKeepsInvariant(Run(s, events[..n]), start);
      }
    }
  }

  /** Concretely: a rotation whose last directory sync fails leaves the agent holding the old password. */
  lemma LateRotationStrandsPassword()
    ensures exists s, env :: PasswordOpensDisk(s) && !PasswordOpensDisk(Executed(s, Rotate("old"), env))
  {
    var s := State(true, "old", true, false, 0, Disk(None, Some(Sealed("old", "cfg"))), true, false, 3, [], {});
    var env := CommandEnv(true, Some("new"), Late, true);
    assert PasswordOpensDisk(s) && !PasswordOpensDisk(Executed(s, Rotate("old"), env));
  }

  // ----- leaving secure mode -----

  /** When an active, unlocked agent sends a heartbeat its configuration is not lying in plaintext alone:
      whatever the pending commands did, the bootstrap of the same cycle has encrypted it again. */
  lemma NoLonePlaintextWhenSending(s: State, env: CycleEnv)
    requires Invariant(s) && TiedCycle(s, env) && ReadyToSend(s, env).ok
    ensures var r := ReadyToSend(s, env).s;
            r.active && !r.locked && r.disk.plain.Some? ==> r.disk.enc.Some?
  {
    CycleKeepsInvariant(s, env);
    hide ExecutedAll;
  }

  /** An exit command that works is undone by the cycle that executes it, under a new password. */
  lemma ExitUndoneInSameCycle(s: State, env: CycleEnv, p: string, q: string, content: string)
    requires s.active && !s.locked && s.password == p != "" && q != "" && s.disk == Disk(None, Some(Sealed(p, content)))
    requires s.pending == [Exit(p)] && env.commands(0).verified && env.commands(0).fault.NoFault?
    requires env.boot.gen == Some(q) && env.boot.fault.NoFault?
    ensures var r := ReadyToSend(s, env);
            r.ok && r.s.disk == Disk(None, Some(Sealed(q, content))) && r.s.password == q && !r.s.reported
  {
    assert ExecutedAll(s, s.pending, env.commands, 0) == s;
    assert ExecutedAll(s, s.pending, env.commands, 1) == Executed(s, Exit(p), env.commands(0));
  }

  // ----- recovery of a locked agent -----

  /** The environment lets self-recovery work. */
  predicate RecoveryWorks(env: CommandEnv) {
    env.gen.Some? && env.gen.value != "" && env.readOk && env.fault.NoFault?
  }

  /** Self-recovery: unlocked, under the generated password alone, with the report re-armed for the next cycle. */
  lemma RecoveryIsFresh(s: State, env: CycleEnv)
    requires Invariant(s) && TiedCycle(s, env) && RecoveryWorks(env.recovery)
    requires ReadyToSend(s, env).ok && ReadyToSend(s, env).s.locked
    requires env.transport.Accepted? && Missed(env.transport.resp)
    requires MissCounted(ReadyToSend(s, env).s, env.transport.resp).noUnlockCount >= MaxMisses(s)
    ensures var r := Cycled(s, env);
            && !r.locked && r.password == env.recovery.gen.value && !r.reported && r.noUnlockCount == 0
            && Opens(r.disk, r.password)
            && (r.tlsEnabled && !r.tlsSkipVerify ==> ReportOf(r) == PasswordReport(r.password))
  {
    CycleKeepsInvariant(s, env);
    ReadyKeepsConfig(s, env);
    hide ReadyToSend, FreshContent, Cycled;
    var ready := ReadyToSend(s, env);
    assert Cycled(s, env) == AfterAccepted(ready.s, ReportOf(ready.s), env.transport.resp, env.recovery) by {
      CycledWhenAccepted(s, env);
    }
  }

  lemma CycledWhenAccepted(s: State, env: CycleEnv)
    requires ReadyToSend(s, env).ok && env.transport.Accepted?
    ensures Cycled(s, env)
            == AfterAccepted(ReadyToSend(s, env).s, ReportOf(ReadyToSend(s, env).s), env.transport.resp, env.recovery)
  {
    hide ReadyToSend, AfterAccepted;
  }

  lemma {:induction false} ExecutedAllKeepsConfig(s: State, cmds: seq<Command>, env: nat -> CommandEnv, n: nat)
    requires n <= |cmds|
    ensures var r := ExecutedAll(s, cmds, env, n);
            r.maxNoUnlock == s.maxNoUnlock && r.active == s.active
            && (r.locked ==> s.locked && r.noUnlockCount == s.noUnlockCount)
  {
    if n > 0 { ExecutedAllKeepsConfig(s, cmds, env, n - 1); }
  }

  /** Nothing before the response changes the miss counter of an agent that stays locked, and nothing locks one. */
  lemma ReadyKeepsConfig(s: State, env: CycleEnv)
    ensures var r := ReadyToSend(s, env).s;
            r.maxNoUnlock == s.maxNoUnlock && r.active == s.active
            && (r.locked ==> s.locked && r.noUnlockCount == s.noUnlockCount)
    ensures ReadyToSend(s, env).s.locked ==> ReadyToSend(s, env).ok
  {
    ExecutedAllKeepsConfig(s, s.pending, env.commands, |s.pending|);
    hide ExecutedAll;
  }

  /** An accepted response without an unlock password. */
  predicate IsMiss(e: Event) {
    e.Cycle? && e.env.transport.Accepted? && Missed(e.env.transport.resp)
  }

  function Misses(events: seq<Event>): nat {
    if events == [] then 0 else Misses(events[..|events| - 1]) + if IsMiss(events[|events| - 1]) then 1 else 0
  }

  /** One cycle of a locked agent that stays locked: a miss counts and stays under the threshold, nothing
      lowers the counter. */
  lemma LockedCycle(s: State, env: CycleEnv)
    requires Invariant(s) && TiedCycle(s, env) && RecoveryWorks(env.recovery) && Cycled(s, env).locked
    ensures s.locked && Cycled(s, env).noUnlockCount >= s.noUnlockCount + (if IsMiss(Cycle(env)) then 1 else 0)
    ensures IsMiss(Cycle(env)) ==> Cycled(s, env).noUnlockCount < MaxMisses(s) && !env.transport.resp.noSecret
    ensures Cycled(s, env).maxNoUnlock == s.maxNoUnlock
  {
    CycleKeepsInvariant(s, env);
    ReadyKeepsConfig(s, env);
    if ReadyToSend(s, env).ok && env.transport.Accepted? { CycledWhenAccepted(s, env); }
    hide ReadyToSend, FreshContent, TiedCycle;
    var ready := ReadyToSend(s, env);
    if ready.ok && env.transport.Accepted? {
      hide Cycled;
      assert ready.s.locked;
    }
  }

  /** Liveness of an issued password: the cycle unlocks a locked agent exactly when the password the kernel sends
      is the one the file is encrypted under and the file can be read; otherwise it counts a miss, and recovers
      nothing however many there have been. */
  lemma IssuedPasswordUnlocksIff(s: State, env: CycleEnv, p: string)
    requires ReadyToSend(s, env).ok && ReadyToSend(s, env).s.active && ReadyToSend(s, env).s.locked
    requires env.transport.Accepted? && env.transport.resp.unlock == Some(p) && p != ""
    ensures var sent, r := ReadyToSend(s, env).s, Cycled(s, env);
            && (!r.locked <==> sent.disk.enc.Some? && sent.disk.enc.value.key == p && env.recovery.readOk)
            && (!r.locked ==> r.password == p && r.noUnlockCount == 0)
            && (r.locked ==> r.password == sent.password && r.noUnlockCount == sent.noUnlockCount + 1)
            && r.disk == sent.disk && (!r.locked ==> !r.reported) && (r.locked ==> r.reported == sent.reported)
            && r.pending == env.transport.resp.pending
  {
    CycledWhenAccepted(s, env);
    hide ReadyToSend, Cycled, SelfRecovered;
  }

  /** The same for an unlock that comes as a pending command, which counts no miss. */
  lemma UnlockCommandIff(s: State, p: string, env: CommandEnv)
    requires s.active && s.locked && p != ""
    ensures var r := Executed(s, Unlock(p), env);
            && (!r.locked <==> s.disk.enc.Some? && s.disk.enc.value.key == p && env.readOk)
            && (!r.locked ==> r == s.(password := p, locked := false, reported := false))
            && (r.locked ==> r == s)
  {
  }

  lemma UnlockedStaysUnlocked(s: State, env: CycleEnv)
    requires !s.locked
    ensures !Cycled(s, env).locked
  {
    ReadyKeepsConfig(s, env);
    hide ReadyToSend;
  }

  /** A miss flagged NoSecret: the kernel says it has no password for this agent. */
  predicate IsFlaggedMiss(e: Event) {
    IsMiss(e) && e.env.transport.resp.noSecret
  }

  function FlaggedMisses(events: seq<Event>): nat {
    if events == [] then 0
    else FlaggedMisses(events[..|events| - 1]) + if IsFlaggedMiss(events[|events| - 1]) then 1 else 0
  }

  ghost predicate RecoverableRun(s: State, events: seq<Event>) {
    && Invariant(s) && TiedRun(s, events)
    && forall i :: 0 <= i < |events| ==> events[i].Cycle? && RecoveryWorks(events[i].env.recovery)
  }

  lemma RecoverablePrefix(s: State, events: seq<Event>)
    requires events != [] && RecoverableRun(s, events)
    ensures RecoverableRun(s, events[..|events| - 1])
    ensures var before, last := Run(s, events[..|events| - 1]), events[|events| - 1];
            && last.Cycle? && Invariant(before) && TiedCycle(before, last.env) && RecoveryWorks(last.env.recovery)
            && Run(s, events) == Cycled(before, last.env)
  {
    var n := |events| - 1;
    TiedPrefix(s, events);
    RunKeepsInvariant(s, events[..n]);
    assert Run(s, events) == Cycled(Run(s, events[..n]), events[n].env);
    hide Cycled, TiedCycle, Run, TiedRun, Invariant, RecoveryWorks;
  }

  /** A locked agent tolerates fewer than `MaxMisses` accepted responses without an unlock password: in
      any run of cycles that leaves it locked the misses stay below the threshold, by a counter that
      failed unlocks in between never reset. */
  lemma {:induction false} LockedMeansFewMisses(s: State, events: seq<Event>)
    requires RecoverableRun(s, events) && Run(s, events).locked
    ensures s.locked && Run(s, events).maxNoUnlock == s.maxNoUnlock
    ensures Run(s, events).noUnlockCount >= s.noUnlockCount + Misses(events)
    ensures Misses(events) > 0 ==> s.noUnlockCount + Misses(events) < MaxMisses(s)
  {
    if events != [] {
      var n := |events| - 1;
      var before, last := Run(s, events[..n]), events[n];
      RecoverablePrefix(s, events);
      hide Cycled, TiedCycle, Run, RecoverableRun, Invariant, RecoveryWorks, IsMiss;
      LockedCycle(before, last.env);
      assert Cycle(last.env) == last;
      LockedMeansFewMisses(s, events[..n]);
    }
  }

  lemma NotFlagged(env: CycleEnv)
    requires IsMiss(Cycle(env)) ==> !env.transport.resp.noSecret
    ensures !IsFlaggedMiss(Cycle(env))
  {
  }

  /** ... and none of them was flagged NoSecret. */
  lemma {:induction false} LockedSawNoFlag(s: State, events: seq<Event>)
    requires RecoverableRun(s, events) && Run(s, events).locked
    ensures FlaggedMisses(events) == 0
  {
    if events != [] {
      var n := |events| - 1;
      var before, last := Run(s, events[..n]), events[n];
      RecoverablePrefix(s, events);
      hide Cycled, TiedCycle, Run, RecoverableRun, Invariant, RecoveryWorks, IsFlaggedMiss;
      LockedCycle(before, last.env);
      NotFlagged(last.env);
      assert Cycle(last.env) == last;
      LockedSawNoFlag(s, events[..n]);
    }
  }

  /** Put the other way round: enough misses, or one flagged NoSecret, and the agent is unlocked. */
  lemma EnoughMissesUnlock(s: State, events: seq<Event>)
    requires RecoverableRun(s, events)
    requires (Misses(events) > 0 && s.noUnlockCount + Misses(events) >= MaxMisses(s))
             || FlaggedMisses(events) > 0
    ensures !Run(s, events).locked
  {
    if Run(s, events).locked {
      LockedMeansFewMisses(s, events);
      LockedSawNoFlag(s, events);
    }
    hide Run, RecoverableRun;
  }

  /** Rotating a locked agent (possible when commands verify without the protected key) is a trap: it stays
      locked under a password only it knows, so no unlock the kernel can send will open the file. */
  lemma RotationWhileLockedStrands(s: State, oldPw: string, newPw: string, env: CommandEnv, issued: string,
                                   readOk: bool)
    requires s.active && s.locked && oldPw != "" && Opens(s.disk, oldPw) && env.gen == Some(newPw) && env.fault.NoFault?
    ensures var r := Executed(s, Rotate(oldPw), env);
            && r.locked && ReportOf(r) == (if r.tlsEnabled then LockedReport else NoReport)
            && (issued != newPw ==> !Unlocked(r, issued, readOk).ok)
  {
  }
}
