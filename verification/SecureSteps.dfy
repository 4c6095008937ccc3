/** What each secure-mode step comes to, case by case: when it works, what it changes and what it leaves alone. */
module SecureSteps {
  import opened SsamTypes
  import opened SecureMode

  // ----- start, bootstrap, report -----

  /** A start is refused when certificate checks are off or plaintext and encrypted file lie side by side; it locks
      the agent exactly when the encrypted file is all there is, and then takes the channel settings from its
      readable part. */
  lemma StartOutcome(s: State, e: StartEnv)
    ensures var r := Started(s, e);
            && (r.ok <==> !e.hasVault || (!e.skip && !(e.disk.plain.Some? && e.disk.enc.Some?)))
            && (r.s.active <==> e.hasVault && r.ok)
            && (r.s.locked <==> r.s.active && e.disk.enc.Some?)
            && (r.s.tlsEnabled <==> if r.s.locked && e.bootTls.Some? then e.bootTls.value else e.tls)
            && (r.s.tlsSkipVerify <==> if r.s.locked && e.bootSkip.Some? then e.bootSkip.value else e.skip)
            && r.s.password == "" && !r.s.reported && r.s.noUnlockCount == 0 && r.s.disk == e.disk
            && r.s.pending == [] && r.s.maxNoUnlock == s.maxNoUnlock && r.s.accepted == s.accepted
  {
  }

  /** There is plaintext to encrypt and no password yet. */
  predicate BootstrapDue(s: State) {
    s.active && !s.locked && s.password == "" && s.disk.plain.Some?
  }

  lemma BootstrapOutcome(s: State, env: CommandEnv)
    ensures var r := MaybeBootstrapped(s, env);
            && (r.ok <==> BootstrapDue(s) ==> s.disk.enc.None? && env.gen.Some? && env.fault.NoFault?)
            && (BootstrapDue(s) && r.ok ==>
                  r.s == s.(password := env.gen.value, reported := false,
                            disk := Disk(None, Some(Sealed(env.gen.value, s.disk.plain.value)))))
            && (!BootstrapDue(s) || s.disk.enc.Some? || env.gen.None? || env.fault.Clean? ==> r.s == s)
            && (!r.ok ==> r.s == s.(disk := r.s.disk))
            && (!r.ok && r.s != s ==>
                  && r.s.disk.enc == Some(Sealed(env.gen.value, s.disk.plain.value))
                  && r.s.disk.plain == if env.fault.Residue? then s.disk.plain else None)
  {
  }

  /** A heartbeat over TLS declares a locked agent locked and carries an unlocked one's password until it is marked
      reported, but never with certificate checks off; otherwise it carries nothing. */
  lemma HeartbeatCarries(s: State)
    ensures ReportOf(s) == LockedReport <==> s.active && s.tlsEnabled && s.locked
    ensures ReportOf(s).PasswordReport?
            <==> s.active && s.tlsEnabled && !s.tlsSkipVerify && !s.locked && s.password != "" && !s.reported
    ensures ReportOf(s).PasswordReport? ==> ReportOf(s).password == s.password
  {
  }

  // ----- the vault -----

  /** What has been encrypted under a password decrypts under that password alone, to the same plaintext. */
  lemma EncryptedDecrypts(d: Disk, pw: string, pw': string)
    requires d.plain.Some?
    ensures var sealed := Encrypted(d, pw, NoFault);
            && sealed.ok && sealed.disk.plain.None?
            && Decrypted(sealed.disk, pw, NoFault) == DiskResult(Disk(d.plain, None), true)
            && (pw' != pw ==> Decrypted(sealed.disk, pw', NoFault) == DiskResult(sealed.disk, false))
  {
  }

  /** A rotated file decrypts under the new password, to the same content. */
  lemma RotatedDecrypts(d: Disk, oldPw: string, newPw: string)
    requires d.enc.Some? && d.enc.value.key == oldPw
    ensures var r := Rotated(d, oldPw, newPw, NoFault);
            && r.ok && r.disk.plain == d.plain
            && Decrypted(r.disk, newPw, NoFault) == DiskResult(Disk(Some(d.enc.value.content), None), true)
    ensures forall pw, fault :: pw != oldPw ==> Rotated(d, pw, newPw, fault) == DiskResult(d, false)
  {
  }

  /** Overwriting needs no password and leaves the new content under the new one. */
  lemma OverwrittenDecrypts(d: Disk, pw: string, content: string)
    ensures var r := Overwritten(d, pw, content, NoFault);
            && r.ok && r.disk.plain == d.plain
            && Decrypted(r.disk, pw, NoFault) == DiskResult(Disk(Some(content), None), true)
  {
  }

  // ----- commands -----

  /** An exit works with the right password and a vault that does not fail: plaintext alone, no secret, not locked.
      Otherwise memory stays as it was, and the disk too unless the vault fails after writing the plaintext. */
  lemma ExitOutcome(s: State, pw: string, env: CommandEnv)
    requires s.active
    ensures var r := Executed(s, Exit(pw), env);
            var opens := pw != "" && s.disk.enc.Some? && s.disk.enc.value.key == pw;
            && (opens && env.fault.NoFault? ==>
                  r == s.(disk := Disk(Some(s.disk.enc.value.content), None), password := "", reported := false,
                          locked := false))
            && (!opens || env.fault.Clean? ==> r == s)
            && (opens && env.fault.Residue? ==> r == s.(disk := Disk(Some(s.disk.enc.value.content), s.disk.enc)))
            && (opens && env.fault.Late? ==> r == s.(disk := Disk(Some(s.disk.enc.value.content), None)))
  {
  }

  /** A rotation works with the right password, a generator and a vault that does not fail: the same content under the
      generated password, unreported. Otherwise memory stays as it was. */
  lemma RotationOutcome(s: State, pw: string, env: CommandEnv)
    requires s.active
    ensures var r := Executed(s, Rotate(pw), env);
            var opens := pw != "" && env.gen.Some? && s.disk.enc.Some? && s.disk.enc.value.key == pw;
            && (!opens || env.fault.Clean? ==> r == s)
            && (opens && !env.fault.Clean? ==>
                r.disk == Disk(s.disk.plain, Some(Sealed(env.gen.value, s.disk.enc.value.content))))
            && (opens && env.fault.NoFault? ==> r == s.(disk := r.disk, password := env.gen.value, reported := false))
            && (!(opens && env.fault.NoFault?) ==> r == s.(disk := r.disk))
  {
  }

  /** An enter command is a bootstrap; any other command, and any command to an inactive agent, does nothing. */
  lemma OtherCommandOutcome(s: State, cmd: Command, env: CommandEnv)
    ensures !s.active || cmd.Other? ==> Executed(s, cmd, env) == s
    ensures s.active && cmd.Enter? ==> Executed(s, cmd, env) == MaybeBootstrapped(s, env).s
    ensures s.active && cmd.Unlock? && (cmd.pw == "" || !s.locked) ==> Executed(s, cmd, env) == s
  {
    hide MaybeBootstrapped;
  }

  /** Commands take effect one after another, in the order they are queued; one that does not verify has none. */
  lemma {:induction false} CommandsInOrder(s: State, first: seq<Command>, then': seq<Command>, env: nat -> CommandEnv)
    ensures ExecutedAll(s, first + then', env, |first + then'|)
            == ExecutedAll(ExecutedAll(s, first, env, |first|), then', (i: nat) => env(|first| + i), |then'|)
    decreases |then'|
  {
    hide Executed;
    if then' == [] {
      assert first + then' == first;
    } else {
      var n := |then'| - 1;
      CommandsInOrder(s, first, then'[..n], env);
      PrefixExecuted(s, first + then', first + then'[..n], env, |first| + n);
      PrefixExecuted(ExecutedAll(s, first, env, |first|), then', then'[..n], (i: nat) => env(|first| + i), n);
    }
  }

  lemma {:induction false} PrefixExecuted(s: State, a: seq<Command>, b: seq<Command>, env: nat -> CommandEnv, n: nat)
    requires n <= |a| && n <= |b| && forall i :: 0 <= i < n ==> a[i] == b[i]
    ensures ExecutedAll(s, a, env, n) == ExecutedAll(s, b, env, n)
  {
    hide Executed;
    if n > 0 { PrefixExecuted(s, a, b, env, n - 1); }
  }

  lemma OneCommand(s: State, cmd: Command, env: nat -> CommandEnv)
    ensures ExecutedAll(s, [cmd], env, 1) == if env(0).verified then Executed(s, cmd, env(0)) else s
  {
    hide Executed;
    assert ExecutedAll(s, [cmd], env, 0) == s;
  }

  // ----- responses -----

  /** A cycle whose heartbeat is lost, refused, or not sent at all for want of a bootstrap ends as it was ready to
      send. */
  lemma NoResponseNoChange(s: State, env: CycleEnv)
    requires !ReadyToSend(s, env).ok || !env.transport.Accepted?
    ensures Cycled(s, env) == ReadyToSend(s, env).s
  {
    hide ReadyToSend;
  }

  /** Before it sends, a cycle takes the queued commands from the front, each if it verifies, and bootstraps once the
      queue is empty. */
  lemma ReadyMeans(s: State, env: CycleEnv, later: nat -> CommandEnv)
    requires forall i: nat :: later(i) == env.commands(1 + i)
    ensures s.pending == [] ==> ReadyToSend(s, env) == MaybeBootstrapped(s, env.boot)
    ensures s.pending != [] ==>
              var after := if env.commands(0).verified then Executed(s, s.pending[0], env.commands(0)) else s;
              ReadyToSend(s, env) == ReadyToSend(after.(pending := s.pending[1..]), env.(commands := later))
  {
    hide MaybeBootstrapped, Executed;
    if s.pending == [] {
      assert ExecutedAll(s, [], env.commands, 0) == s;
    } else {
      var c, rest := s.pending[0], s.pending[1..];
      assert s.pending == [c] + rest;
      CommandsInOrder(s, [c], rest, env.commands);
      OneCommand(s, c, env.commands);
      var after := ExecutedAll(s, [c], env.commands, 1);
      QueueUntouched(after, rest, later, |rest|, rest);
      SameCommands(after, rest, later, (i: nat) => env.commands(|[c]| + i), |rest|);
    }
  }

  /** What the queue holds makes no difference to a command. */
  lemma {:induction false} QueueUntouched(s: State, cmds: seq<Command>, env: nat -> CommandEnv, n: nat,
                                          queue: seq<Command>)
    requires n <= |cmds|
    ensures ExecutedAll(s.(pending := queue), cmds, env, n) == ExecutedAll(s, cmds, env, n).(pending := queue)
  {
    hide Executed;
    if n > 0 {
      QueueUntouched(s, cmds, env, n - 1, queue);
      QueueIgnored(ExecutedAll(s, cmds, env, n - 1), cmds[n - 1], env(n - 1), queue);
    }
  }

  lemma QueueIgnored(s: State, cmd: Command, env: CommandEnv, queue: seq<Command>)
    ensures Executed(s.(pending := queue), cmd, env) == Executed(s, cmd, env).(pending := queue)
  {
    if cmd.Exit? || cmd.Rotate? {
      QueueIgnoredByVault(s, cmd, env, queue);
      hide Executed;
    } else {
      hide Encrypted, Opens;
    }
  }

  lemma QueueIgnoredByVault(s: State, cmd: Command, env: CommandEnv, queue: seq<Command>)
    requires cmd.Exit? || cmd.Rotate?
    ensures Executed(s.(pending := queue), cmd, env) == Executed(s, cmd, env).(pending := queue)
  {
    hide Decrypted, Rotated, MaybeBootstrapped, Unlocked;
  }

  lemma {:induction false} SameCommands(s: State, cmds: seq<Command>, env: nat -> CommandEnv,
                                        env': nat -> CommandEnv, n: nat)
    requires n <= |cmds| && forall i: nat :: env(i) == env'(i)
    ensures ExecutedAll(s, cmds, env, n) == ExecutedAll(s, cmds, env', n)
  {
    hide Executed;
    if n > 0 { SameCommands(s, cmds, env, env', n - 1); }
  }

  /** Unlocking and self-recovery report success exactly when they leave no active agent locked. */
  lemma OkMeans(s: State, pw: string, env: CommandEnv)
    ensures var r := Unlocked(s, pw, env.readOk); r.ok <==> !(r.s.active && r.s.locked)
    ensures var r := SelfRecovered(s, env); r.ok <==> !(r.s.active && r.s.locked)
  {
    hide FreshContent, Opens;
  }

  /** A locked agent that is sent no password: the miss is counted, or the counter goes to the threshold when the kernel
      says it has no secret; at the threshold, and only there, self-recovery unlocks it if nothing fails. */
  lemma MissOutcome(s: State, env: CycleEnv)
    requires ReadyToSend(s, env).ok && ReadyToSend(s, env).s.active && ReadyToSend(s, env).s.locked
    requires env.transport.Accepted?
    requires env.transport.resp.unlock.None? || env.transport.resp.unlock.value == ""
    ensures var sent, r := ReadyToSend(s, env).s, Cycled(s, env);
            var threshold := if sent.maxNoUnlock > 0 then sent.maxNoUnlock else 3;
            var count := if env.transport.resp.noSecret then threshold else sent.noUnlockCount + 1;
            var works := && sent.disk.enc.Some? && env.recovery.gen.Some? && env.recovery.readOk
                         && env.recovery.fault.NoFault?;
            && (!r.locked <==> count >= threshold && works)
            && (r.locked ==> r.noUnlockCount == count && r.password == sent.password && r.reported == sent.reported)
            && (count < threshold ==> r.disk == sent.disk)
            && (!r.locked ==> && r.noUnlockCount == 0 && r.password == env.recovery.gen.value && !r.reported
                              && r.disk.plain == sent.disk.plain
                              && r.disk.enc == Some(Sealed(r.password, FreshContent(sent.disk.enc.value.content))))
  {
    CycledWhenAccepted(s, env);
    hide ReadyToSend, Cycled, FreshContent;
  }

  /** An unlocked agent's secret counts as reported once a heartbeat that carried it is accepted, and no longer once the
      kernel says it has none; the receipt stays on record. */
  lemma AcceptanceOutcome(s: State, env: CycleEnv)
    requires ReadyToSend(s, env).ok && env.transport.Accepted?
    requires !(ReadyToSend(s, env).s.active && ReadyToSend(s, env).s.locked)
    ensures var sent, r := ReadyToSend(s, env).s, Cycled(s, env);
            var carried := ReportOf(sent).PasswordReport?;
            && r == sent.(reported := r.reported, accepted := r.accepted, pending := env.transport.resp.pending)
            && (r.reported <==>
                  (sent.reported || carried)
                  && !(sent.active && !sent.locked && sent.password != "" && env.transport.resp.noSecret))
            && r.accepted == sent.accepted
               + if carried then {Receipt(sent.password, sent.tlsEnabled, !sent.tlsSkipVerify)} else {}
  {
    CycledWhenAccepted(s, env);
    hide ReadyToSend, Cycled;
    var sent := ReadyToSend(s, env).s;
    assert sent.accepted + {} == sent.accepted;
  }

  // ----- the section readable without the password -----

  predicate OccursAt(s: string, sub: string, i: nat) {
    i + |sub| <= |s| && s[i..i + |sub|] == sub
  }

  /** The search finds the first occurrence, if there is any. */
  lemma {:induction false} IndexOfIsFirst(s: string, sub: string)
    ensures IndexOf(s, sub).Some? ==>
              OccursAt(s, sub, IndexOf(s, sub).value)
              && forall j: nat :: j < IndexOf(s, sub).value ==> !OccursAt(s, sub, j)
    ensures IndexOf(s, sub).None? ==> forall j: nat :: !OccursAt(s, sub, j)
  {
    if sub <= s {
      assert s[0..|sub|] == sub;
    } else if s != [] {
      IndexOfIsFirst(s[1..], sub);
      assert |sub| <= |s| ==> s[0..0 + |sub|] == s[..|sub|];
      forall j: nat | j > 0 ensures OccursAt(s, sub, j) <==> OccursAt(s[1..], sub, j - 1) {
        if j + |sub| <= |s| { assert s[j..j + |sub|] == s[1..][j - 1..j - 1 + |sub|]; }
      }
    }
  }

  lemma FirstOccurrence(s: string, sub: string, i: nat)
    requires OccursAt(s, sub, i) && forall j: nat :: j < i ==> !OccursAt(s, sub, j)
    ensures IndexOf(s, sub) == Some(i)
  {
    IndexOfIsFirst(s, sub);
  }

  lemma {:induction false} TrimNewlinesTakesEnd(s: string) returns (k: nat)
    ensures k <= |s| && TrimNewlines(s) == s[..k] && (forall i :: k <= i < |s| ==> s[i] == '\n')
    ensures k > 0 ==> s[k - 1] != '\n'
  {
    k := |s|;
    if s != [] && s[|s| - 1] == '\n' {
      k := TrimNewlinesTakesEnd(s[..|s| - 1]);
      assert s[..|s| - 1][..k] == s[..k];
    }
  }

  lemma HeaderIsOneLine()
    ensures forall k :: 0 <= k < |HEADER| ==> HEADER[k] != '\n'
  {
  }

  lemma HeaderChar(s: string, k: nat)
    requires HEADER <= s && k < |HEADER|
    ensures s[k] != '\n'
  {
    HeaderIsOneLine();
    assert s[k] == HEADER[k];
  }

  lemma BlankAfterHeader(rest: string, b: nat)
    requires HEADER <= rest && OccursAt(rest, "\n\n", b)
    ensures b >= |HEADER|
  {
    assert rest[b] == rest[b..b + 2][0] == '\n';
    if b < |HEADER| { HeaderChar(rest, b); }
  }

  lemma PrefixHasNone(s: string, sub: string, k: nat)
    requires k <= |s| && forall j: nat :: j < k ==> !OccursAt(s, sub, j)
    requires sub != ""
    ensures forall j: nat :: !OccursAt(s[..k], sub, j)
  {
    forall j: nat ensures OccursAt(s[..k], sub, j) ==> j < k && OccursAt(s, sub, j) {
      if OccursAt(s[..k], sub, j) { assert s[..k][j..j + |sub|] == s[j..j + |sub|]; }
    }
  }

  /** The readable section of content that has one: it starts with the header and holds no blank line. */
  lemma SectionShape(content: string)
    requires IndexOf(content, HEADER).Some?
    ensures HEADER <= Bootstrap(content)
    ensures forall j: nat :: !OccursAt(Bootstrap(content), "\n\n", j)
  {
    IndexOfIsFirst(content, HEADER);
    var i := IndexOf(content, HEADER).value;
    var rest := content[i..];
    assert rest[..|HEADER|] == content[i..i + |HEADER|];
    IndexOfIsFirst(rest, "\n\n");
    var blank := IndexOf(rest, "\n\n");
    hide IndexOf;
    if blank.Some? {
      BlankAfterHeader(rest, blank.value);
      PrefixHasNone(rest, "\n\n", blank.value);
      hide OccursAt;
      assert HEADER == rest[..blank.value][..|HEADER|];
    }
  }

  /** Self-recovery keeps the readable section: what can be read without the password afterwards is what could be
      read before, save for line breaks at its end. */
  lemma ReadableSectionSurvives(content: string)
    ensures Bootstrap(FreshContent(content)) == TrimNewlines(Bootstrap(content))
  {
    var boot := Bootstrap(content);
    var t, fresh' := TrimNewlines(boot), FreshContent(content);
    assert fresh' == t + "\n\n[agent]\n";
    if IndexOf(content, HEADER).None? {
      assert boot == "" && t == "";
      NoHeaderInRest(fresh');
    } else {
      SectionShape(content);
      IndexOfIsFirst(content, HEADER);
      var k := TrimNewlinesTakesEnd(boot);
      hide IndexOf, Bootstrap, TrimNewlines, FreshContent;
      if k < |HEADER| { HeaderChar(boot, k); }
      assert HEADER <= t;
      PrefixHasNone(boot, "\n\n", k);
      hide OccursAt;
      SectionOf(t, fresh');
    }
  }

  lemma NoHeaderInRest(s: string)
    requires s == "\n\n[agent]\n"
    ensures Bootstrap(s) == ""
  {
    IndexOfIsFirst(s, HEADER);
    hide IndexOf;
  }

  lemma BlankInside(t: string, s: string, j: nat)
    requires t <= s && j < |t| && OccursAt(s, "\n\n", j)
    ensures OccursAt(t, "\n\n", j) || t[|t| - 1] == '\n'
  {
    assert s[j] == s[j..j + 2][0];
    if j + 1 < |t| { assert t[j..j + 2] == s[j..j + 2]; }
  }

  lemma SectionOf(t: string, s: string)
    requires s == t + "\n\n[agent]\n" && HEADER <= t && t[|t| - 1] != '\n'
    requires forall j: nat :: j < |t| ==> !OccursAt(t, "\n\n", j)
    ensures Bootstrap(s) == t
  {
    assert s[0..|HEADER|] == t[..|HEADER|];
    FirstOccurrence(s, HEADER, 0);
    assert s[|t|..|t| + 2] == "\n\n";
    forall j: nat | j < |t| ensures !OccursAt(s, "\n\n", j) {
      if OccursAt(s, "\n\n", j) { BlankInside(t, s, j); }
    }
    FirstOccurrence(s, "\n\n", |t|);
    hide IndexOf;
    assert s[0..] == s && s[..|t|] == t;
  }
}
