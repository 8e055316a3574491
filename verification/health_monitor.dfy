/**
 Health reports from an active probe.
 */
module Health {
  const U64: int := 0x1_0000_0000_0000_0000

  /** Reading an unsigned 64-bit number as a signed one. */
  function AsInt(u: int): int {
    if u < U64 / 2 then u else u - U64
  }

  datatype Probe = Ok | Bad(message: string)

  /** An unsigned 64-bit counter that has been incremented n times from zero. */
  ghost predicate CountsTo(u: int, n: nat) {
    0 <= u < U64 && u == n % U64
  }

  lemma CountStep(u: int, n: nat)
    requires CountsTo(u, n)
    ensures CountsTo((u + 1) % U64, n + 1)
    ensures n + 1 < U64 / 2 ==> AsInt((u + 1) % U64) == n + 1
  {}

  /** One turn of the check loop; the flags say when a cancellation is noticed. */
  datatype Turn = Turn(probe: Probe, cancelledInCheck: bool, cancelledInWait: bool)

  /** `at` is the number of the probe that led to the report. */
  datatype Report = Report(at: nat, healthy: bool, message: string)

  /** What a monitor is set up with: how many failures it takes, and which callbacks exist. */
  datatype Setup = Setup(maxFailed: nat, onHealthy: bool, onUnhealthy: bool)

  // -------------------------------------------------- what the reports have to be

  function Failures(seen: seq<Probe>, start: nat): (n: nat)
    ensures start <= |seen| ==> n <= |seen| - start
  {
    if |seen| <= start then 0
    else Failures(seen[..|seen| - 1], start) + (if seen[|seen| - 1].Bad? then 1 else 0)
  }

  ghost predicate NoneOk(seen: seq<Probe>, start: nat) {
    forall i :: start <= i < |seen| ==> seen[i].Bad?
  }

  /** The first probe after the j-th report. */
  function Since(reports: seq<Report>, j: nat): nat
    requires j <= |reports|
  {
    if j == 0 then 0 else reports[j - 1].at + 1
  }

  /**
   Healthy and unhealthy reports alternate, the first being healthy.  A healthy
   report comes with the first success since the report before it; an unhealthy
   one with the failure that completes the allowed number, whether or not
   successes lie between the failures.
   */
  ghost predicate Justified(setup: Setup, seen: seq<Probe>, reports: seq<Report>, j: nat)
    requires j < |reports|
  {
    var r, start := reports[j], Since(reports, j);
    && start <= r.at < |seen|
    && r.healthy == (j % 2 == 0)
    && if r.healthy then
         setup.onHealthy && r.message == "" && seen[r.at].Ok? && NoneOk(seen[..r.at], start)
       else
         && setup.onUnhealthy && seen[r.at] == Bad(r.message)
         && Failures(seen[..r.at], start) == setup.maxFailed - 1
  }

  /** No further report is due. */
  ghost predicate NoneDue(setup: Setup, seen: seq<Probe>, reports: seq<Report>) {
    var start := Since(reports, |reports|);
    if |reports| % 2 == 0 then setup.onHealthy ==> NoneOk(seen, start)
    else setup.onUnhealthy ==> Failures(seen, start) < setup.maxFailed
  }

  ghost predicate Accounts(setup: Setup, seen: seq<Probe>, reports: seq<Report>) {
    && (forall j :: 0 <= j < |reports| ==> Justified(setup, seen, reports, j))
    && NoneDue(setup, seen, reports)
  }

  // --------------------------------------------------------------------- the code

  /** No cancellation was noticed in turn i, or only after it in the last of n turns. */
  ghost predicate Counted(turns: seq<Turn>, i: nat, n: nat) {
    i < |turns| && !turns[i].cancelledInCheck && (i + 1 < n ==> !turns[i].cancelledInWait)
  }

  class Monitor {
    const setup: Setup
    var failedTimes: int
    var statusOK: bool

    constructor (maxFailed: int, onHealthy: bool, onUnhealthy: bool)
      requires maxFailed < U64 / 2
      ensures !statusOK && failedTimes == 0
      ensures setup.maxFailed == (if maxFailed <= 0 then 1 else maxFailed)
      ensures setup.onHealthy == onHealthy && setup.onUnhealthy == onUnhealthy
    {
      setup := Setup(if maxFailed <= 0 then 1 else maxFailed, onHealthy, onUnhealthy);
      failedTimes, statusOK := 0, false;
    }

    /** The fields sum up what was seen and reported. */
    ghost predicate Matches(seen: seq<Probe>, reports: seq<Report>)
      reads this
    {
      && 1 <= setup.maxFailed < U64 / 2
      && 0 <= failedTimes < U64
      && Since(reports, |reports|) <= |seen|
      && statusOK == (|reports| % 2 == 1)
      && (statusOK ==> CountsTo(failedTimes, Failures(seen, Since(reports, |reports|))))
    }

    /** Handles the outcome of one probe. */
    method Observe(probe: Probe, ghost seen: seq<Probe>, reports: seq<Report>, at: nat) returns (reports': seq<Report>)
      requires Matches(seen, reports) && Accounts(setup, seen, reports) && at == |seen|
      modifies this
      ensures Matches(seen + [probe], reports') && Accounts(setup, seen + [probe], reports')
      ensures reports <= reports' && |reports'| <= |reports| + 1
      ensures reports' != reports ==> reports'[|reports|].healthy == statusOK
    {
      if probe == Ok {
        reports' := ObserveOk(seen, reports, at);
      } else {
        reports' := ObserveBad(probe, seen, reports, at);
      }
    }

    method ObserveOk(ghost seen: seq<Probe>, reports: seq<Report>, at: nat) returns (reports': seq<Report>)
      requires Matches(seen, reports) && Accounts(setup, seen, reports) && at == |seen|
      modifies this
      ensures Matches(seen + [Ok], reports') && Accounts(setup, seen + [Ok], reports')
      ensures reports' == reports || (reports' == reports + [Report(at, true, "")] && statusOK)
    {
      reports' := reports;
      FailuresStep(seen, Ok, Since(reports, |reports|));
      if !statusOK && setup.onHealthy {
        statusOK, failedTimes := true, 0;
        reports' := reports + [Report(at, true, "")];
        ReportStep(setup, seen, Ok, reports, reports'[|reports|]);
      } else {
        QuietStep(setup, seen, Ok, reports);
      }
    }

    method ObserveBad(probe: Probe, ghost seen: seq<Probe>, reports: seq<Report>, at: nat)
      returns (reports': seq<Report>)
      requires Matches(seen, reports) && Accounts(setup, seen, reports) && at == |seen| && probe.Bad?
      modifies this
      ensures Matches(seen + [probe], reports') && Accounts(setup, seen + [probe], reports')
      ensures reports' == reports || (reports' == reports + [Report(at, false, probe.message)] && !statusOK)
    {
      reports' := reports;
      FailuresStep(seen, probe, Since(reports, |reports|));
      if statusOK {
        CountStep(failedTimes, Failures(seen, Since(reports, |reports|)));
      }
      failedTimes := (failedTimes + 1) % U64;
      if statusOK && AsInt(failedTimes) >= setup.maxFailed && setup.onUnhealthy {
        statusOK := false;
        reports' := reports + [Report(at, false, probe.message)];
        ReportStep(setup, seen, probe, reports, reports'[|reports|]);
      } else {
        QuietStep(setup, seen, probe, reports);
      }
    }

    /** One turn that counts. */
    method Take(probe: Probe, seen: seq<Probe>, reports: seq<Report>) returns (seen': seq<Probe>, reports': seq<Report>)
      requires Told(seen, reports)
      modifies this
      ensures Told(seen', reports') && seen' == seen + [probe]
    {
      reports' := Observe(probe, seen, reports, |seen|);
      seen' := seen + [probe];
    }

    /** The reports account for the probes seen, and the fields agree with both. */
    ghost predicate Told(seen: seq<Probe>, reports: seq<Report>)
      reads this
    {
      && Matches(seen, reports) && Accounts(setup, seen, reports)
      && (reports != [] ==> reports[|reports| - 1].healthy == statusOK)
    }

    /** The check loop: a probe that ends in cancellation counts for nothing. */
    method CheckWorker(turns: seq<Turn>) returns (seen: seq<Probe>, reports: seq<Report>)
      requires !statusOK && failedTimes == 0 && 1 <= setup.maxFailed < U64 / 2
      modifies this
      ensures Accounts(setup, seen, reports)
      ensures statusOK <==> reports != [] && reports[|reports| - 1].healthy
      ensures forall i :: 0 <= i < |seen| ==> Counted(turns, i, |seen|)
      ensures |seen| <= |turns| && forall i :: 0 <= i < |seen| ==> seen[i] == turns[i].probe
      ensures |seen| < |turns| ==> turns[|seen|].cancelledInCheck || (seen != [] && turns[|seen| - 1].cancelledInWait)
    {
      seen, reports := [], [];
      for i := 0 to |turns|
        invariant Told(seen, reports)
        invariant forall j :: 0 <= j < i ==> Counted(turns, j, i) && !turns[j].cancelledInWait
        invariant |seen| == i && forall j :: 0 <= j < i ==> seen[j] == turns[j].probe
      {
        if turns[i].cancelledInCheck {
          return;
        }
        seen, reports := Take(turns[i].probe, seen, reports);
        if turns[i].cancelledInWait {
          return;
        }
      }
    }
  }

  // ------------------------------------------------------------- what follows

  lemma FailuresStep(seen: seq<Probe>, probe: Probe, start: nat)
    requires start <= |seen|
    ensures Failures(seen + [probe], start) == Failures(seen, start) + (if probe.Bad? then 1 else 0)
    ensures Failures(seen + [probe], |seen| + 1) == 0
  {
    assert (seen + [probe])[..|seen|] == seen;
  }

  lemma AllStillJustified(setup: Setup, seen: seq<Probe>, probe: Probe, reports: seq<Report>)
    requires forall j :: 0 <= j < |reports| ==> Justified(setup, seen, reports, j)
    ensures forall j :: 0 <= j < |reports| ==> Justified(setup, seen + [probe], reports, j)
  {
    forall j | 0 <= j < |reports|
      ensures Justified(setup, seen + [probe], reports, j)
    {
      Longer(setup, seen, probe, reports, j);
    }
  }

  /** A probe that makes no report due changes nothing. */
  lemma QuietStep(setup: Setup, seen: seq<Probe>, probe: Probe, reports: seq<Report>)
    requires Accounts(setup, seen, reports) && Since(reports, |reports|) <= |seen|
    requires |reports| % 2 == 0 ==> setup.onHealthy ==> probe.Bad?
    requires |reports| % 2 == 1 && setup.onUnhealthy ==>
      Failures(seen + [probe], Since(reports, |reports|)) < setup.maxFailed
    ensures Accounts(setup, seen + [probe], reports)
  {
    AllStillJustified(setup, seen, probe, reports);
  }

  /** A report that is due for the newest probe completes the account. */
  lemma ReportStep(setup: Setup, seen: seq<Probe>, probe: Probe, reports: seq<Report>, r: Report)
    requires Accounts(setup, seen, reports) && Since(reports, |reports|) <= |seen| && setup.maxFailed >= 1
    requires r.at == |seen| && r.healthy == (|reports| % 2 == 0)
    requires r.healthy ==> setup.onHealthy && r.message == "" && probe.Ok?
    requires !r.healthy ==> setup.onUnhealthy && probe == Bad(r.message)
    requires !r.healthy ==> Failures(seen + [probe], Since(reports, |reports|)) >= setup.maxFailed
    ensures Accounts(setup, seen + [probe], reports + [r])
  {
    var now, all := seen + [probe], reports + [r];
    AllStillJustified(setup, seen, probe, reports);
    assert now[..|seen|] == seen;
    FailuresStep(seen, probe, Since(reports, |reports|));
    assert Since(all, |reports|) == Since(reports, |reports|);
    assert Justified(setup, now, all, |reports|);
    forall j | 0 <= j < |reports|
      ensures Justified(setup, now, all, j)
    {
      assert Justified(setup, now, reports, j);
      assert Since(all, j) == Since(reports, j);
    }
  }

  lemma Longer(setup: Setup, seen: seq<Probe>, probe: Probe, reports: seq<Report>, j: nat)
    requires j < |reports| && Justified(setup, seen, reports, j)
    ensures Justified(setup, seen + [probe], reports, j)
  {
    assert (seen + [probe])[..reports[j].at] == seen[..reports[j].at];
  }

  lemma {:induction false} FailuresGrow(seen: seq<Probe>, start: nat, n: nat)
    requires n <= |seen|
    ensures Failures(seen[..n], start) <= Failures(seen, start)
    ensures start <= n < |seen| && seen[n].Bad? ==> Failures(seen[..n], start) < Failures(seen, start)
  {
    if n < |seen| {
      var front := seen[..|seen| - 1];
      FailuresGrow(front, start, n);
      assert front[..n] == seen[..n];
    } else {
      assert seen[..n] == seen;
    }
  }

  /** Two accounts of the same probes have the same j-th report. */
  lemma SameReport(setup: Setup, seen: seq<Probe>, a: seq<Report>, b: seq<Report>, j: nat)
    requires j < |a| && j < |b| && Justified(setup, seen, a, j) && Justified(setup, seen, b, j)
    requires j > 0 ==> a[j - 1] == b[j - 1]
    ensures a[j] == b[j]
  {
    NotEarlier(setup, seen, a, b, j);
    NotEarlier(setup, seen, b, a, j);
  }

  lemma NotEarlier(setup: Setup, seen: seq<Probe>, a: seq<Report>, b: seq<Report>, j: nat)
    requires j < |a| && j < |b| && Justified(setup, seen, a, j) && Justified(setup, seen, b, j)
    requires j > 0 ==> a[j - 1] == b[j - 1]
    ensures a[j].at <= b[j].at
  {
    if b[j].at < a[j].at {
      var before := seen[..a[j].at];
      assert before[b[j].at] == seen[b[j].at] && before[..b[j].at] == seen[..b[j].at];
      FailuresGrow(before, Since(a, j), b[j].at);
    }
  }

  lemma {:induction false} AccountsAgree(setup: Setup, seen: seq<Probe>, a: seq<Report>, b: seq<Report>, n: nat)
    requires Accounts(setup, seen, a) && Accounts(setup, seen, b) && n <= |a| && n <= |b|
    ensures a[..n] == b[..n]
  {
    if n > 0 {
      AccountsAgree(setup, seen, a, b, n - 1);
      assert n > 1 ==> a[n - 2] == a[..n - 1][n - 2] && b[n - 2] == b[..n - 1][n - 2];
      SameReport(setup, seen, a, b, n - 1);
    }
  }

  /** The probes and the setup decide the reports: none is missing and none is added. */
  lemma ReportsAreDetermined(setup: Setup, seen: seq<Probe>, a: seq<Report>, b: seq<Report>)
    requires Accounts(setup, seen, a) && Accounts(setup, seen, b)
    ensures a == b
  {
    NotLonger(setup, seen, a, b);
    NotLonger(setup, seen, b, a);
    AccountsAgree(setup, seen, a, b, |a|);
    assert a[..|a|] == a && b[..|a|] == b;
  }

  lemma NotLonger(setup: Setup, seen: seq<Probe>, a: seq<Report>, b: seq<Report>)
    requires Accounts(setup, seen, a) && Accounts(setup, seen, b)
    ensures |a| <= |b|
  {
    var n := |b|;
    if n < |a| {
      AccountsAgree(setup, seen, a, b, n);
      assert n > 0 ==> a[n - 1] == a[..n][n - 1] && b[n - 1] == b[..n][n - 1];
      assert Justified(setup, seen, a, n);
      assert Since(a, n) == Since(b, n);
      if !a[n].healthy {
        FailuresGrow(seen, Since(a, n), a[n].at);
      }
    }
  }

  /**
   With both callbacks set: from a healthy report up to and including the next
   unhealthy one there are exactly `maxFailed` failures, the last of them the one
   that is reported.
   */
  lemma FailuresBeforeAlarm(setup: Setup, seen: seq<Probe>, reports: seq<Report>, j: nat)
    requires Accounts(setup, seen, reports) && j + 1 < |reports| && reports[j].healthy
    ensures !reports[j + 1].healthy
    ensures reports[j].at < reports[j + 1].at < |seen|
    ensures Failures(seen[..reports[j + 1].at + 1], reports[j].at) == setup.maxFailed
  {
    assert Justified(setup, seen, reports, j) && Justified(setup, seen, reports, j + 1);
    var b := reports[j + 1].at;
    var upto := seen[..b + 1];
    assert upto[..b] == seen[..b] && upto[b] == seen[b];
    SkipOk(seen[..b], reports[j].at);
  }

  lemma {:induction false} SkipOk(seen: seq<Probe>, a: nat)
    requires a < |seen| && seen[a].Ok?
    ensures Failures(seen, a) == Failures(seen, a + 1)
  {
    if a < |seen| - 1 {
      SkipOk(seen[..|seen| - 1], a);
    }
  }

  /** Successes do not clear the count: two failures around a success raise the alarm. */
  lemma FailuresNeedNotBeConsecutive(message: string)
    ensures var setup, bad := Setup(2, true, true), Bad(message);
      Accounts(setup, [Ok, bad, Ok, bad], [Report(0, true, ""), Report(3, false, message)])
  {
    var setup, seen := Setup(2, true, true), [Ok, Bad(message), Ok, Bad(message)];
    var reports := [Report(0, true, ""), Report(3, false, message)];
    assert seen[..3] == [Ok, Bad(message), Ok];
    assert [Ok, Bad(message), Ok][..2] == [Ok, Bad(message)] && [Ok, Bad(message)][..1] == [Ok];
    assert Failures([Ok, Bad(message)], 1) == 1;
    assert Justified(setup, seen, reports, 0) && Justified(setup, seen, reports, 1);
  }
}
