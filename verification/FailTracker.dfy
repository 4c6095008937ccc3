/** The assessor's record of since when each check of each host has been failing. */
module FailTracker {
  import opened SsamTypes
  import opened PrismCore

  datatype CheckResult = CheckResult(checkId: string, passed: bool, delta: real, confidence: real)

  datatype Assessment = Assessment(host: string, checks: seq<CheckResult>, now: int)

  // ----- a check's history -----

  /** One result of one check, with the time of its assessment. */
  datatype Appearance = Appearance(passed: bool, now: int)

  function InResult(checks: seq<CheckResult>, now: int, id: string): seq<Appearance> {
    if checks == [] then []
    else
      var c := checks[|checks| - 1];
      InResult(checks[..|checks| - 1], now, id) + if c.checkId == id then [Appearance(c.passed, now)] else []
  }

  /** Every appearance of a check of a host, oldest first. */
  function Appearances(history: seq<Assessment>, host: string, id: string): seq<Appearance> {
    if history == [] then []
    else
      var a := history[|history| - 1];
      Appearances(history[..|history| - 1], host, id) + if a.host == host then InResult(a.checks, a.now, id) else []
  }

  /** The check has failed without interruption from the k-th appearance to the last, and not before. */
  ghost predicate StreakFrom(apps: seq<Appearance>, k: nat) {
    && k < |apps|
    && (forall j :: k <= j < |apps| ==> !apps[j].passed)
    && (k > 0 ==> apps[k - 1].passed)
  }

  /** The check's latest appearance failed, in a streak whose first time is `since`; `None` if it passed or never
      appeared. */
  ghost predicate FailingSince(apps: seq<Appearance>, since: Option<int>) {
    match since
    case None => apps == [] || apps[|apps| - 1].passed
    case Some(t) => exists k: nat :: StreakFrom(apps, k) && apps[k].now == t
  }

  /** Exactly one value describes a history, so `FailingSince` pins the record down. */
  lemma FailingSinceUnique(apps: seq<Appearance>, s: Option<int>, t: Option<int>)
    requires FailingSince(apps, s) && FailingSince(apps, t)
    ensures s == t
  {
    if s.Some? && t.Some? {
      var i: nat :| StreakFrom(apps, i) && apps[i].now == s.value;
      var j: nat :| StreakFrom(apps, j) && apps[j].now == t.value;
      assert j == 0 || apps[j - 1].passed;
      assert i == 0 || apps[i - 1].passed;
    }
  }

  function Lookup(m: map<string, int>, id: string): Option<int> {
    if id in m then Some(m[id]) else None
  }

  lemma OneMoreAppearance(apps: seq<Appearance>, since: Option<int>, a: Appearance)
    requires FailingSince(apps, since)
    ensures FailingSince(apps + [a], if a.passed then None else if since.Some? then since else Some(a.now))
  {
    var all := apps + [a];
    if !a.passed && since.Some? {
      var k: nat :| StreakFrom(apps, k) && apps[k].now == since.value;
      assert StreakFrom(all, k) && all[k] == apps[k];
    }
    if !a.passed && since.None? {
      assert StreakFrom(all, |apps|) && all[|apps|] == a;
    }
  }

  // ----- the tracker -----

  /** The record of one host says, of every check, since when it has been failing. */
  ghost predicate RecordIs(record: map<string, int>, history: seq<Assessment>, host: string) {
    forall id :: FailingSince(Appearances(history, host, id), Lookup(record, id))
  }

  ghost predicate PartRecordIs(record: map<string, int>, history: seq<Assessment>, host: string,
                               checks: seq<CheckResult>, now: int) {
    forall id :: FailingSince(Appearances(history, host, id) + InResult(checks, now, id), Lookup(record, id))
  }

  function Hosts(history: seq<Assessment>): set<string> {
    set a | a in history :: a.host
  }

  class Tracker {
    var failTracker: map<string, map<string, int>>
    ghost var history: seq<Assessment>

    /** There is a record for each assessed host and no other, and it is right about every check. */
    ghost predicate Valid()
      reads this
    {
      && failTracker.Keys == Hosts(history)
      && forall host :: host in failTracker ==> RecordIs(failTracker[host], history, host)
    }

    constructor ()
      ensures Valid() && history == []
    {
      failTracker, history := map[], [];
    }

    method UpdateFailTracker(host: string, checks: seq<CheckResult>, now: int)
      requires Valid()
      modifies this
      ensures Valid() && history == old(history) + [Assessment(host, checks, now)]
      ensures forall other :: other in old(failTracker) && other != host ==>
              other in failTracker && failTracker[other] == old(failTracker)[other]
    {
      hide RecordIs;
      var record: map<string, int> := map[];
      if host in failTracker {
        record := failTracker[host];
        NothingOfResult(record, history, host, now);
      } else {
        FirstAssessment(history, host, now);
      }
      record := TrackResult(record, history, host, checks, now);
      Recorded(record, history, host, checks, now);
      ghost var a := Assessment(host, checks, now);
      forall other | other in failTracker && other != host ensures RecordIs(failTracker[other], history + [a], other) {
        OtherHostUntouched(failTracker[other], history, a, other);
      }
      assert Hosts(history + [a]) == Hosts(history) + {host} by {
        assert forall x :: x in history + [a] <==> x in history || x == a;
      }
      failTracker := failTracker[host := record];
      history := history + [a];
    }

    /** The failed checks of a result, each with the time its host's record gives for it, or 0. */
    method BuildNodeState(host: string, checks: seq<CheckResult>) returns (failed: seq<CheckFailure>)
      ensures failed == FailuresOf(checks, if host in failTracker then failTracker[host] else map[])
    {
      var record: map<string, int> := if host in failTracker then failTracker[host] else map[];
      failed := [];
      for i := 0 to |checks|
        invariant failed == FailuresOf(checks[..i], record)
      {
        assert checks[..i + 1][..i] == checks[..i];
        var c := checks[i];
        if !c.passed {
          var failAt := 0;
          if c.checkId in record {
            failAt := record[c.checkId];
          }
          failed := failed + [CheckFailure(c.checkId, c.delta, failAt, c.confidence)];
        }
      }
      assert checks[..|checks|] == checks;
    }

    /** What an assessment feeds the debt computation: the tracker is brought up to date first. Every failed check
        carries the start of its current streak, or 0 if the same result later reports it passed. */
    method ApplyPrism(host: string, checks: seq<CheckResult>, now: int) returns (failed: seq<CheckFailure>)
      requires Valid()
      modifies this
      ensures Valid() && history == old(history) + [Assessment(host, checks, now)]
      ensures host in failTracker && failed == FailuresOf(checks, failTracker[host])
      ensures forall i: nat :: i < |checks| && !checks[i].passed ==>
                if EndsPassed(checks, checks[i].checkId) then checks[i].checkId !in failTracker[host]
                else checks[i].checkId in failTracker[host] &&
                     FailingSince(Appearances(history, host, checks[i].checkId),
                                  Some(failTracker[host][checks[i].checkId]))
    {
      UpdateFailTracker(host, checks, now);
      failed := BuildNodeState(host, checks);
      assert host in Hosts(history) by { assert history[|history| - 1] in history; }
      forall i: nat | i < |checks| && !checks[i].passed
        ensures if EndsPassed(checks, checks[i].checkId) then checks[i].checkId !in failTracker[host]
                else checks[i].checkId in failTracker[host] &&
                     FailingSince(Appearances(history, host, checks[i].checkId),
                                  Some(failTracker[host][checks[i].checkId]))
      {
        TrackedIff(failTracker[host], old(history), host, checks, now, i);
      }
    }
  }

  /** The loop over a result's checks. */
  method TrackResult(start: map<string, int>, ghost history: seq<Assessment>, host: string, checks: seq<CheckResult>,
                     now: int)
    returns (record: map<string, int>)
    requires PartRecordIs(start, history, host, [], now)
    ensures PartRecordIs(record, history, host, checks, now)
  {
    hide PartRecordIs;
    record := start;
    for i := 0 to |checks|
      invariant PartRecordIs(record, history, host, checks[..i], now)
    {
      assert checks[..i + 1] == checks[..i] + [checks[i]];
      OneMoreCheck(record, history, host, checks[..i], checks[i], now);
      var c := checks[i];
      if !c.passed {
        if c.checkId !in record {
          record := record[c.checkId := now];
        }
      } else {
        record := record - {c.checkId};
      }
    }
    assert checks[..|checks|] == checks;
  }

  lemma OneMoreCheck(record: map<string, int>, history: seq<Assessment>, host: string, checks: seq<CheckResult>,
                     c: CheckResult, now: int)
    requires PartRecordIs(record, history, host, checks, now)
    ensures PartRecordIs(if c.passed then record - {c.checkId} else if c.checkId in record then record
                         else record[c.checkId := now],
                         history, host, checks + [c], now)
  {
    var next := if c.passed then record - {c.checkId} else if c.checkId in record then record
      else record[c.checkId := now];
    forall id ensures FailingSince(Appearances(history, host, id) + InResult(checks + [c], now, id), Lookup(next, id)) {
      var apps := Appearances(history, host, id) + InResult(checks, now, id);
      assert (checks + [c])[..|checks|] == checks;
      assert FailingSince(apps, Lookup(record, id));
      hide FailingSince;
      if c.checkId == id {
        OneMoreAppearance(apps, Lookup(record, id), Appearance(c.passed, now));
        assert Appearances(history, host, id) + InResult(checks + [c], now, id) == apps + [Appearance(c.passed, now)];
      } else {
        assert InResult(checks + [c], now, id) == InResult(checks, now, id);
      }
    }
  }

  lemma NothingOfResult(record: map<string, int>, history: seq<Assessment>, host: string, now: int)
    requires RecordIs(record, history, host)
    ensures PartRecordIs(record, history, host, [], now)
  {
    hide FailingSince;
    forall id ensures FailingSince(Appearances(history, host, id) + InResult([], now, id), Lookup(record, id)) {
      assert Appearances(history, host, id) + InResult([], now, id) == Appearances(history, host, id);
    }
  }

  lemma {:induction false} NeverAppeared(history: seq<Assessment>, host: string, id: string)
    requires host !in Hosts(history)
    ensures Appearances(history, host, id) == []
  {
    if history != [] {
      var n := |history| - 1;
      assert history[n] in history;
      assert forall a :: a in history[..n] ==> a in history;
      NeverAppeared(history[..n], host, id);
    }
  }

  lemma FirstAssessment(history: seq<Assessment>, host: string, now: int)
    requires host !in Hosts(history)
    ensures PartRecordIs(map[], history, host, [], now)
  {
    forall id ensures Appearances(history, host, id) + InResult([], now, id) == [] { NeverAppeared(history, host, id); }
  }

  lemma Recorded(record: map<string, int>, history: seq<Assessment>, host: string, checks: seq<CheckResult>, now: int)
    requires PartRecordIs(record, history, host, checks, now)
    ensures RecordIs(record, history + [Assessment(host, checks, now)], host)
  {
    hide FailingSince;
    var all := history + [Assessment(host, checks, now)];
    assert all[..|all| - 1] == history;
  }

  lemma OtherHostUntouched(record: map<string, int>, history: seq<Assessment>, a: Assessment, host: string)
    requires RecordIs(record, history, host) && a.host != host
    ensures RecordIs(record, history + [a], host)
  {
    hide FailingSince;
    var all := history + [a];
    assert all[..|all| - 1] == history;
    forall id ensures Appearances(all, host, id) == Appearances(history, host, id) {}
  }

  // ----- the failed checks of a result -----

  function FailuresOf(checks: seq<CheckResult>, record: map<string, int>): seq<CheckFailure> {
    if checks == [] then []
    else
      var c := checks[|checks| - 1];
      FailuresOf(checks[..|checks| - 1], record) +
      if c.passed then []
        else [CheckFailure(c.checkId, c.delta, if c.checkId in record then record[c.checkId] else 0, c.confidence)]
  }

  function FailedCount(checks: seq<CheckResult>): nat {
    if checks == [] then 0 else FailedCount(checks[..|checks| - 1]) + if checks[|checks| - 1].passed then 0 else 1
  }

  lemma {:induction false} EachFailureOnce(checks: seq<CheckResult>, record: map<string, int>)
    ensures |FailuresOf(checks, record)| == FailedCount(checks)
  {
    if checks != [] { EachFailureOnce(checks[..|checks| - 1], record); }
  }

  /** Exactly the failed checks are handed on, in their order, each with its own delta and confidence and the time
      on record, or 0 where there is none. */
  lemma {:induction false} FailuresSay(checks: seq<CheckResult>, record: map<string, int>, k: nat)
    requires k < |checks| && !checks[k].passed
    ensures FailedCount(checks[..k]) < |FailuresOf(checks, record)| == FailedCount(checks)
    ensures var f, c := FailuresOf(checks, record)[FailedCount(checks[..k])], checks[k];
            && f.checkId == c.checkId && f.delta == c.delta && f.confidence == c.confidence
            && (c.checkId in record ==> f.failUnix == record[c.checkId])
            && (c.checkId !in record ==> f.failUnix == 0)
  {
    var n := |checks| - 1;
    EachFailureOnce(checks, record);
    EachFailureOnce(checks[..n], record);
    if k < n {
      FailuresSay(checks[..n], record, k);
      assert checks[..n][..k] == checks[..k];
    }
  }

  /** The last appearance of the check in the result is a pass. */
  ghost predicate EndsPassed(checks: seq<CheckResult>, id: string) {
    exists j: nat :: LastOf(checks, id, j) && checks[j].passed
  }

  ghost predicate LastOf(checks: seq<CheckResult>, id: string, j: nat) {
    j < |checks| && checks[j].checkId == id && forall k :: j < k < |checks| ==> checks[k].checkId != id
  }

  lemma {:induction false} LastInResult(checks: seq<CheckResult>, now: int, id: string, i: nat)
    requires i < |checks| && checks[i].checkId == id
    ensures InResult(checks, now, id) != []
    ensures InResult(checks, now, id)[|InResult(checks, now, id)| - 1].passed <==> EndsPassed(checks, id)
  {
    var n := |checks| - 1;
    var init := checks[..n];
    if checks[n].checkId == id {
      assert LastOf(checks, id, n);
    } else {
      LastInResult(init, now, id, i);
      assert forall j: nat :: LastOf(init, id, j) <==> LastOf(checks, id, j);
    }
  }

  /** After the update a failed check is on record exactly when the result does not go on to report it passed. */
  lemma TrackedIff(record: map<string, int>, history: seq<Assessment>, host: string, checks: seq<CheckResult>, now: int,
                   i: nat)
    requires RecordIs(record, history + [Assessment(host, checks, now)], host)
    requires i < |checks| && !checks[i].passed
    ensures checks[i].checkId in record <==> !EndsPassed(checks, checks[i].checkId)
    ensures checks[i].checkId in record ==>
              FailingSince(Appearances(history + [Assessment(host, checks, now)], host, checks[i].checkId),
                           Some(record[checks[i].checkId]))
  {
    var id := checks[i].checkId;
    var all := history + [Assessment(host, checks, now)];
    var apps := Appearances(all, host, id);
    assert all[..|all| - 1] == history;
    LastInResult(checks, now, id, i);
    hide EndsPassed, InResult;
    assert apps == Appearances(history, host, id) + InResult(checks, now, id);
    assert FailingSince(apps, Lookup(record, id));
    assert id in record ==> !apps[|apps| - 1].passed;
  }

  ghost predicate DistinctIds(checks: seq<CheckResult>) {
    forall i, j :: 0 <= i < j < |checks| ==> checks[i].checkId != checks[j].checkId
  }

  /** With distinct ids in a result, no failed check ever falls back to time 0. */
  lemma DistinctIdsAlwaysTracked(record: map<string, int>, history: seq<Assessment>, host: string,
                                 checks: seq<CheckResult>, now: int)
    requires RecordIs(record, history + [Assessment(host, checks, now)], host) && DistinctIds(checks)
    ensures forall i: nat :: i < |checks| && !checks[i].passed ==> checks[i].checkId in record
  {
    hide RecordIs;
    forall i: nat | i < |checks| && !checks[i].passed ensures checks[i].checkId in record {
      TrackedIff(record, history, host, checks, now, i);
    }
  }

  /** The fallback is reachable: one result that reports a check failed and then passed. */
  lemma RepeatedIdFallsBack()
    ensures var checks := [CheckResult("ssh", false, 5.0, 1.0), CheckResult("ssh", true, 5.0, 1.0)];
            var history := [Assessment("h", checks, 100)];
            && RecordIs(map[], history, "h") && FailuresOf(checks, map[]) == [CheckFailure("ssh", 5.0, 0, 1.0)]
  {
    var c, d := CheckResult("ssh", false, 5.0, 1.0), CheckResult("ssh", true, 5.0, 1.0);
    var checks := [c, d];
    var history := [Assessment("h", checks, 100)];
    assert checks[..1] == [c] && [c][..0] == [];
    FirstAssessment([], "h", 100);
    OneMoreCheck(map[], [], "h", [], c, 100);
    OneMoreCheck(map["ssh" := 100], [], "h", [c], d, 100);
    assert [] + [c] == [c] && [c] + [d] == checks;
    assert map["ssh" := 100] - {"ssh"} == map[];
    Recorded(map[], [], "h", checks, 100);
    assert [] + history == history;
  }
}
