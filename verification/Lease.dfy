/** The offline lease: what the authority bus grants an instance, and how long the instance
    lives on its last grant when the bus cannot be reached. Times are in seconds on one
    clock. */
module Lease {
  import opened Common

  datatype TenantStatus = Active | Suspended | Revoked

  datatype Tenant = Tenant(
    status: TenantStatus, licenseExpiresAt: int, graceEndsAt: int, warningDays: int, offlineLeaseMinutes: int)

  datatype Status = Checking | Authorized | Warning | Grace | Blocked

  datatype Grant = Grant(allowed: bool, status: Status, licenseExpiresAt: int, graceEndsAt: int, leaseExpiresAt: int)

  const SECONDS_PER_DAY: int := 86_400
  const SECONDS_PER_MINUTE: int := 60

  // ----------------------------------------------------------------------------- the bus

  predicate SettingsValid(t: Tenant) {
    t.licenseExpiresAt <= t.graceEndsAt && 1 <= t.warningDays <= 180 && 5 <= t.offlineLeaseMinutes <= 10_080
  }

  function StatusAt(t: Tenant, instanceActive: bool, now: int): Status {
    if !instanceActive then Blocked
    else if !t.status.Active? then Blocked
    else if now > t.graceEndsAt then Blocked
    else if now > t.licenseExpiresAt then Grace
    else if now + t.warningDays * SECONDS_PER_DAY >= t.licenseExpiresAt then Warning
    else Authorized
  }

  function LeaseFrom(t: Tenant, now: int): int {
    if now + t.offlineLeaseMinutes * SECONDS_PER_MINUTE <= t.graceEndsAt
    then now + t.offlineLeaseMinutes * SECONDS_PER_MINUTE else t.graceEndsAt
  }

  function EvaluateEntitlement(t: Tenant, instanceActive: bool, now: int): Grant {
    var status := StatusAt(t, instanceActive, now);
    var allowed := !status.Blocked?;
    Grant(allowed, status, t.licenseExpiresAt, t.graceEndsAt, if allowed then LeaseFrom(t, now) else now)
  }

  function Rank(status: Status): nat {
    match status
    case Checking => 0
    case Authorized => 0
    case Warning => 1
    case Grace => 2
    case Blocked => 3
  }

  /** As time passes a status only gets worse: authorized, warning, grace, blocked. */
  lemma StatusOnlyWorsens(t: Tenant, instanceActive: bool, earlier: int, later: int)
    requires earlier <= later
    ensures Rank(StatusAt(t, instanceActive, earlier)) <= Rank(StatusAt(t, instanceActive, later))
    ensures StatusAt(t, instanceActive, earlier).Blocked? ==>
              EvaluateEntitlement(t, instanceActive, later).allowed == false
  {
    assert earlier + t.warningDays * SECONDS_PER_DAY <= later + t.warningDays * SECONDS_PER_DAY;
  }

  /** A grant allows exactly an active tenant's active instance until the grace period ends;
      its lease then lies between now and that end, and is not longer than a week. */
  lemma LeaseBounds(t: Tenant, instanceActive: bool, now: int)
    requires SettingsValid(t)
    ensures var g := EvaluateEntitlement(t, instanceActive, now);
            && (g.allowed <==> instanceActive && t.status.Active? && now <= t.graceEndsAt)
            && now <= g.leaseExpiresAt <= now + 7 * SECONDS_PER_DAY
            && (g.allowed ==> g.leaseExpiresAt <= t.graceEndsAt)
            && (now < g.leaseExpiresAt <==> g.allowed && now < t.graceEndsAt)
  {
  }

  /** The bus blocks an inactive instance or tenant, and anyone once the grace period is
      over; it grants grace once the license has expired, and warns exactly while it expires
      within the warning days. */
  lemma StatusWhen(t: Tenant, instanceActive: bool, now: int)
    requires SettingsValid(t)
    ensures var status := StatusAt(t, instanceActive, now);
            && (status.Blocked? <==> !instanceActive || !t.status.Active? || now > t.graceEndsAt)
            && (status.Grace? <==> instanceActive && t.status.Active? && t.licenseExpiresAt < now <= t.graceEndsAt)
            && (status.Warning? <==>
                  instanceActive && t.status.Active? && 0 <= t.licenseExpiresAt - now <= 86_400 * t.warningDays)
            && (status.Authorized? <==>
                  instanceActive && t.status.Active? && t.licenseExpiresAt - now > 86_400 * t.warningDays)
            && EvaluateEntitlement(t, instanceActive, now).status == status
  {
    assert 86_400 * t.warningDays >= 0;
  }

  // ------------------------------------------------------------------------ the instance

  datatype Snapshot = Snapshot(
    allowed: bool, status: Status, licenseExpiresAt: Option<int>, graceEndsAt: Option<int>,
    leaseExpiresAt: Option<int>, lastCheckedAt: Option<int>, nextCheckAt: Option<int>)

  const Unchecked := Snapshot(false, Checking, None, None, None, None, None)

  function Granted(grant: Grant, at: int, interval: nat): Snapshot {
    Snapshot(grant.allowed, grant.status, Some(grant.licenseExpiresAt), Some(grant.graceEndsAt),
             Some(grant.leaseExpiresAt), Some(at), Some(at + interval))
  }

  function Failed(s: Snapshot, at: int, interval: nat): Snapshot {
    var leaseValid := s.leaseExpiresAt.Some? && s.leaseExpiresAt.value > at && s.allowed;
    s.(allowed := leaseValid, status := if leaseValid then Warning else Blocked,
       lastCheckedAt := Some(at), nextCheckAt := Some(at + interval))
  }

  function Rejected(s: Snapshot, at: int, interval: nat): Snapshot {
    s.(allowed := false, status := Blocked, leaseExpiresAt := Some(at),
       lastCheckedAt := Some(at), nextCheckAt := Some(at + interval))
  }

  class AuthorityService {
    const checkInterval: nat
    var snapshot: Snapshot

    constructor (checkInterval: nat)
      ensures snapshot == Unchecked && this.checkInterval == checkInterval
    {
      this.checkInterval := checkInterval;
      snapshot := Unchecked;
    }

    method ApplyGrant(grant: Grant, checkedAt: int)
      modifies this
      ensures snapshot == Granted(grant, checkedAt, checkInterval)
    {
      snapshot := Snapshot(grant.allowed, grant.status, Some(grant.licenseExpiresAt), Some(grant.graceEndsAt),
                           Some(grant.leaseExpiresAt), Some(checkedAt), Some(checkedAt + checkInterval));
    }

    method ApplyFailure(now: int)
      modifies this
      ensures snapshot == Failed(old(snapshot), now, checkInterval)
    {
      var leaseValid := snapshot.leaseExpiresAt.Some? && snapshot.leaseExpiresAt.value > now && snapshot.allowed;
      snapshot := snapshot.(allowed := leaseValid);
      snapshot := snapshot.(status := if leaseValid then Warning else Blocked);
      snapshot := snapshot.(lastCheckedAt := Some(now), nextCheckAt := Some(now + checkInterval));
    }

    method ApplyRejection(now: int)
      modifies this
      ensures snapshot == Rejected(old(snapshot), now, checkInterval)
    {
      snapshot := snapshot.(allowed := false, status := Blocked);
      snapshot := snapshot.(leaseExpiresAt := Some(now));
      snapshot := snapshot.(lastCheckedAt := Some(now), nextCheckAt := Some(now + checkInterval));
    }

    /** The checks one after the other. */
    method RunChecks(events: seq<Event>)
      requires snapshot == Unchecked
      modifies this
      ensures snapshot == Run(events, checkInterval)
    {
      for i := 0 to |events|
        invariant snapshot == Run(events[..i], checkInterval)
      {
        match events[i] {
          case Grants(tenant, active, evaluatedAt, at) =>
            ApplyGrant(EvaluateEntitlement(tenant, active, evaluatedAt), at);
          case Fails(at) => ApplyFailure(at);
          case Rejects(at) => ApplyRejection(at);
        }
        assert events[..i + 1][..i] == events[..i];
      }
      assert events[..|events|] == events;
    }
  }

  // ---------------------------------------------------------------------------- all runs

  /** What a check comes to: the bus answers with what it evaluated a little earlier, cannot
      be reached, or refuses the credentials. */
  datatype Event =
    | Grants(tenant: Tenant, active: bool, evaluatedAt: int, at: int)
    | Fails(at: int)
    | Rejects(at: int)

  function Run(events: seq<Event>, interval: nat): Snapshot {
    if events == [] then Unchecked
    else
      var before := Run(events[..|events| - 1], interval);
      match events[|events| - 1]
      case Grants(tenant, active, evaluatedAt, at) =>
        Granted(EvaluateEntitlement(tenant, active, evaluatedAt), at, interval)
      case Fails(at) => Failed(before, at, interval)
      case Rejects(at) => Rejected(before, at, interval)
  }

  /** Time does not go back, and an answer is not evaluated after it arrives. */
  predicate InTime(events: seq<Event>) {
    && (forall i, j :: 0 <= i < j < |events| ==> events[i].at <= events[j].at)
    && (forall i :: 0 <= i < |events| && events[i].Grants? ==> events[i].evaluatedAt <= events[i].at)
  }

  // -------------------------------------------------------------- the status over a run

  /** All grants are evaluated for this tenant and instance, the later ones not earlier. */
  predicate SameTerms(events: seq<Event>, tenant: Tenant, active: bool) {
    && (forall i :: 0 <= i < |events| && events[i].Grants? ==> events[i].tenant == tenant && events[i].active == active)
    && (forall i, j :: 0 <= i < j < |events| && events[i].Grants? && events[j].Grants? ==>
          events[i].evaluatedAt <= events[j].evaluatedAt)
  }

  /** Allowed is what goes with authorized, warning and grace. */
  lemma {:induction false} StatusOfRun(events: seq<Event>, interval: nat)
    ensures var s := Run(events, interval);
            && (s.allowed <==> s.status in {Authorized, Warning, Grace})
            && (s.allowed ==> s.leaseExpiresAt.Some?)
            && (s.status.Checking? <==> events == [])
  {
    if events != [] {
      StatusOfRun(events[..|events| - 1], interval);
    }
  }

  /** For one tenant and instance the status of an instance improves on the next check in
      exactly two cases: the check fails in the grace period while the lease lies ahead, and
      grace becomes a warning; or the bus answers with a better status than the one that a
      failed check or a rejection had left. */
  lemma StatusImprovesIff(events: seq<Event>, e: Event, tenant: Tenant, active: bool, interval: nat)
    requires SameTerms(events + [e], tenant, active)
    ensures var before, after := Run(events, interval), Run(events + [e], interval);
            Rank(after.status) < Rank(before.status) <==>
            match e
            case Fails(at) => before.status.Grace? && at < before.leaseExpiresAt.GetOr(at)
            case Grants(_, _, evaluatedAt, _) =>
              && events != [] && !events[|events| - 1].Grants?
              && Rank(StatusAt(tenant, active, evaluatedAt)) < Rank(before.status)
            case Rejects(_) => false
  {
    var more := events + [e];
    assert more[..|more| - 1] == events && more[|events|] == e;
    StatusOfRun(events, interval);
    if e.Grants? && events != [] && events[|events| - 1].Grants? {
      var last := events[|events| - 1];
      assert more[|events| - 1] == last;
      StatusOnlyWorsens(tenant, active, last.evaluatedAt, e.evaluatedAt);
    }
  }

  /** A failed check in the grace period turns grace into a warning. */
  lemma GraceBecomesWarning(interval: nat) returns (events: seq<Event>, e: Event)
    ensures InTime(events + [e])
    ensures Run(events, interval).status.Grace? && Run(events + [e], interval).status.Warning?
  {
    var tenant := Tenant(Active, 0, 1_000, 1, 5);
    events := [Grants(tenant, true, 1, 1)];
    e := Fails(2);
    assert (events + [e])[..1] == events && events[..0] == [];
    assert EvaluateEntitlement(tenant, true, 1) == Grant(true, Grace, 0, 1_000, 301);
  }

  // -------------------------------------------------------------------- allowed over a run

  /** The last answer of the bus is an allowing grant with this lease. */
  predicate LastAllows(events: seq<Event>, lease: int) {
    events != [] &&
    match events[|events| - 1]
    case Grants(tenant, active, evaluatedAt, _) =>
      var grant := EvaluateEntitlement(tenant, active, evaluatedAt);
      grant.allowed && grant.leaseExpiresAt == lease
    case Fails(_) => LastAllows(events[..|events| - 1], lease)
    case Rejects(_) => false
  }

  /** ... and no failed check has come after that lease ran out. */
  predicate HoldsLease(events: seq<Event>, lease: int) {
    LastAllows(events, lease) && (events[|events| - 1].Fails? ==> events[|events| - 1].at < lease)
  }

  /** An instance is allowed exactly if the last answer it had was an allowing grant and
      every check since then failed before its lease ran out. */
  lemma {:induction false} AllowedIff(events: seq<Event>, interval: nat)
    requires InTime(events)
    ensures var s := Run(events, interval);
            s.allowed <==> exists lease :: HoldsLease(events, lease)
    ensures var s := Run(events, interval);
            s.allowed ==> s.leaseExpiresAt.Some? && HoldsLease(events, s.leaseExpiresAt.value)
  {
    if events != [] {
      var front, e := events[..|events| - 1], events[|events| - 1];
      AllowedIff(front, interval);
      match e
      case Grants(tenant, active, evaluatedAt, _) =>
        var grant := EvaluateEntitlement(tenant, active, evaluatedAt);
        assert Run(events, interval) == Granted(grant, e.at, interval);
        assert grant.allowed ==> HoldsLease(events, grant.leaseExpiresAt);
      case Fails(at) => FailedIff(events, interval);
      case Rejects(_) =>
    }
  }

  lemma LeaseUnique(events: seq<Event>, a: int, b: int)
    requires LastAllows(events, a) && LastAllows(events, b)
    ensures a == b
  {
  }

  lemma FailedIff(events: seq<Event>, interval: nat)
    requires InTime(events) && events != [] && events[|events| - 1].Fails?
    requires var front := events[..|events| - 1];
             var s := Run(front, interval);
             && (s.allowed <==> exists lease :: HoldsLease(front, lease))
             && (s.allowed ==> s.leaseExpiresAt.Some? && HoldsLease(front, s.leaseExpiresAt.value))
    ensures var s := Run(events, interval);
            && (s.allowed <==> exists lease :: HoldsLease(events, lease))
            && (s.allowed ==> s.leaseExpiresAt.Some? && HoldsLease(events, s.leaseExpiresAt.value))
  {
    var front, at := events[..|events| - 1], events[|events| - 1].at;
    var s := Run(front, interval);
    assert Run(events, interval) == Failed(s, at, interval);
    if Run(events, interval).allowed {
      assert HoldsLease(events, s.leaseExpiresAt.value);
    }
    if exists lease :: HoldsLease(events, lease) {
      var lease :| HoldsLease(events, lease);
      assert LastAllows(front, lease) && front[|front| - 1].at <= at;
      assert HoldsLease(front, lease);
      LeaseUnique(front, lease, s.leaseExpiresAt.value);
    }
  }

  /** Every check is recorded with its time and the time of the next; a grant brings its dates,
      and a rejection ends the lease there and then. */
  lemma ChecksRecorded(events: seq<Event>, e: Event, interval: nat)
    ensures var before, after := Run(events, interval), Run(events + [e], interval);
            && after.lastCheckedAt == Some(e.at) && after.nextCheckAt == Some(e.at + interval)
            && (match e
                case Grants(tenant, active, evaluatedAt, _) =>
                  && after.licenseExpiresAt == Some(tenant.licenseExpiresAt)
                  && after.graceEndsAt == Some(tenant.graceEndsAt)
                  && after.leaseExpiresAt == Some(EvaluateEntitlement(tenant, active, evaluatedAt).leaseExpiresAt)
                  && after.status == StatusAt(tenant, active, evaluatedAt)
                  && (after.allowed <==> !after.status.Blocked?)
                case Fails(_) =>
                  && after.licenseExpiresAt == before.licenseExpiresAt && after.graceEndsAt == before.graceEndsAt
                  && after.leaseExpiresAt == before.leaseExpiresAt
                  && after.status == (if after.allowed then Warning else Blocked)
                case Rejects(at) =>
                  && after.licenseExpiresAt == before.licenseExpiresAt && after.graceEndsAt == before.graceEndsAt
                  && after.leaseExpiresAt == Some(at) && after.status.Blocked? && !after.allowed)
  {
    assert (events + [e])[..|events|] == events;
  }

  /** The grant behind a lease. */
  lemma {:induction false} LeaseIsGranted(events: seq<Event>, lease: int)
    requires LastAllows(events, lease)
    ensures exists i ::
              && 0 <= i < |events| && events[i].Grants?
              && EvaluateEntitlement(events[i].tenant, events[i].active, events[i].evaluatedAt).allowed
              && lease == LeaseFrom(events[i].tenant, events[i].evaluatedAt)
              && (forall j :: i < j < |events| ==> events[j].Fails?)
  {
    var n := |events| - 1;
    if events[n].Fails? {
      LeaseIsGranted(events[..n], lease);
      var i :| && 0 <= i < n && events[..n][i].Grants?
               && EvaluateEntitlement(events[i].tenant, events[i].active, events[i].evaluatedAt).allowed
               && lease == LeaseFrom(events[i].tenant, events[i].evaluatedAt)
               && (forall j :: i < j < n ==> events[..n][j].Fails?);
      assert forall j :: i < j < n ==> events[j] == events[..n][j];
      assert events[i].Grants?;
    }
  }

  /** An instance still allowed after a failed check lives on one grant, with only failures
      since: less than its lease after it was evaluated, and before the grace period ends. */
  lemma OfflineBounded(events: seq<Event>, interval: nat)
    requires InTime(events) && events != [] && events[|events| - 1].Fails?
    requires Run(events, interval).allowed
    ensures exists i ::
              && 0 <= i < |events| && events[i].Grants?
              && EvaluateEntitlement(events[i].tenant, events[i].active, events[i].evaluatedAt).allowed
              && (forall j :: i < j < |events| ==> events[j].Fails?)
              && var t, now := events[i].tenant, events[|events| - 1].at;
              now < events[i].evaluatedAt + t.offlineLeaseMinutes * SECONDS_PER_MINUTE && now < t.graceEndsAt
  {
    AllowedIff(events, interval);
    var lease :| HoldsLease(events, lease);
    LeaseIsGranted(events, lease);
    var i :| && 0 <= i < |events| && events[i].Grants?
             && EvaluateEntitlement(events[i].tenant, events[i].active, events[i].evaluatedAt).allowed
             && lease == LeaseFrom(events[i].tenant, events[i].evaluatedAt)
             && (forall j :: i < j < |events| ==> events[j].Fails?);
  }

  /** After an allowing grant and nothing but failures since, the instance is allowed exactly
      if the latest failure came within the lease, counted in minutes from when the grant was
      evaluated, and before the grace period ends. */
  lemma {:induction false} OfflineAllowedIff(before: seq<Event>, grant: Event, failures: seq<Event>, interval: nat)
    requires grant.Grants? && InTime(before + [grant] + failures)
    requires grant.active && grant.tenant.status.Active? && grant.evaluatedAt <= grant.tenant.graceEndsAt
    requires failures != [] && forall i :: 0 <= i < |failures| ==> failures[i].Fails?
    ensures var at := failures[|failures| - 1].at;
            var s := Run(before + [grant] + failures, interval);
            && (s.allowed <==>
                  at < grant.evaluatedAt + 60 * grant.tenant.offlineLeaseMinutes && at < grant.tenant.graceEndsAt)
            && s.leaseExpiresAt == Some(LeaseFrom(grant.tenant, grant.evaluatedAt))
            && s.lastCheckedAt == Some(at) && s.nextCheckAt == Some(at + interval)
    decreases |failures|
  {
    var all := before + [grant] + failures;
    var front, n := failures[..|failures| - 1], |all| - 1;
    assert all[..n] == before + [grant] + front;
    if front == [] {
      assert all[..n] == before + [grant] && (before + [grant])[..|before|] == before;
    } else {
      assert InTime(all[..n]);
      OfflineAllowedIff(before, grant, front, interval);
      assert all[n - 1] == front[|front| - 1] && all[n - 1].at <= all[n].at;
    }
  }

  /** After a rejection, or a failure that found no lease, nothing but a new grant allows the
      instance again. */
  lemma {:induction false} OnlyGrantsReallow(events: seq<Event>, more: seq<Event>, interval: nat)
    requires !Run(events, interval).allowed && forall i :: 0 <= i < |more| ==> !more[i].Grants?
    ensures !Run(events + more, interval).allowed
    decreases |more|
  {
    if more == [] {
      assert events + more == events;
    } else {
      OnlyGrantsReallow(events, more[..|more| - 1], interval);
      assert (events + more)[..|events + more| - 1] == events + more[..|more| - 1];
    }
  }
}
