/** The half-open timer loop: one durable probe candidate at a time. */
module ProbeLoop {
  import opened Catalog
  import Queue
  import B = Breaker
  import C = Controller
  import S = Store

  /** A candidate released in an epoch, and the clock once it had been. */
  datatype Release = Release(epoch: nat, at: int)

  class Loop {
    const breaker: B.Breaker
    const store: S.Store
    const openFor: nat
    var probeEpoch: nat
    var releasedProbe: bool
    var attemptedVersion: nat
    var deadline: int
    var watchdogExpired: bool
    /** Every candidate released so far, and the latest clock reading. */
    ghost var releases: seq<Release>
    ghost var clock: int

    ghost predicate Valid()
      reads this
    {
      && (forall i :: 0 <= i < |releases| ==> releases[i].epoch <= probeEpoch)
      && (forall i :: 0 <= i < |releases| && releases[i].epoch == probeEpoch ==>
            releases[i].at + openFor <= if releasedProbe then deadline else clock)
      && Spaced(releases, openFor)
    }

    constructor (breaker: B.Breaker, store: S.Store, openFor: nat)
      ensures Valid() && this.breaker == breaker && this.store == store && this.openFor == openFor && releases == []
    {
      this.breaker, this.store, this.openFor := breaker, store, openFor;
      probeEpoch, releasedProbe, attemptedVersion, deadline, watchdogExpired := 0, false, 0, 0, false;
      releases, clock := [], 0;
    }

    /** A fresh epoch starts without a candidate. */
    method Observe(epoch: nat)
      requires Valid() && probeEpoch <= epoch
      modifies this`probeEpoch, this`releasedProbe, this`attemptedVersion, this`deadline, this`watchdogExpired
      ensures Valid() && probeEpoch == epoch
      ensures epoch > old(probeEpoch) ==> !releasedProbe && attemptedVersion == 0
      ensures epoch == old(probeEpoch) ==>
        releasedProbe == old(releasedProbe) && attemptedVersion == old(attemptedVersion)
      ensures epoch == old(probeEpoch) ==> deadline == old(deadline) && watchdogExpired == old(watchdogExpired)
    {
      if epoch != probeEpoch {
        probeEpoch, releasedProbe, attemptedVersion, deadline, watchdogExpired := epoch, false, 0, 0, false;
      }
    }

    /**
     * The release under the breaker's lock: one waiting row becomes pending, and
     * only while the breaker is half open in that epoch with no probe out.
     */
    method ReleaseCandidate(epoch: nat, now: int) returns (attempted: bool, released: bool)
      requires breaker.Valid() && store.Valid()
      modifies breaker`circuit, breaker`accepted, store`tasks
      ensures breaker.Valid() && store.Valid() && (released ==> attempted)
      ensures attempted <==> Idle(breaker.circuit, epoch)
      ensures attempted ==> forall i :: 0 <= i < |breaker.permits| ==> !B.Live(breaker.permits[i], breaker.circuit)
      ensures attempted ==> (released <==> exists r :: C.Waiting(old(store.tasks), r))
      ensures released ==> OneReleased(old(store.View()), store.View())
      ensures !released ==> store.View() == old(store.View())
    {
      attempted := breaker.HalfOpenIdle(epoch, now);
      released := false;
      if attempted {
        ghost var before := store.View();
        var ids := store.ReleaseToPending(WaitingDep, 0, 1);
        C.BatchReleased(before, ids, 1);
        released := |ids| > 0;
        if released {
          assert ids == [ids[0]] && C.Waiting(before.tasks, ids[0]);
          assert OneReleased(before, store.View());
        }
      }
    }

    /** Whether a candidate is due, after the watchdog has given up on an earlier one. */
    method Due(snapshot: B.Circuit, now: int, version: nat) returns (due: bool)
      requires Valid() && probeEpoch == snapshot.epoch && clock <= now
      modifies this`releasedProbe, this`watchdogExpired, this`clock
      ensures Valid() && clock == now
      ensures due <==>
        Idle(snapshot, snapshot.epoch) && !releasedProbe && (watchdogExpired || attemptedVersion != version)
    {
      clock := now;
      var idle := snapshot.state.HalfOpen? && !snapshot.probeInFlight;
      if idle && releasedProbe && now >= deadline {
        releasedProbe, watchdogExpired := false, true;
      }
      due := idle && !releasedProbe && (watchdogExpired || attemptedVersion != version);
    }

    /** What an attempt leaves: the version it answered, and the watchdog's deadline for a candidate. */
    method Attempted(version: nat, released: bool, later: int)
      requires Valid() && !releasedProbe && clock <= later
      modifies this`attemptedVersion, this`watchdogExpired, this`releasedProbe, this`deadline, this`releases
      ensures Valid() && attemptedVersion == version && releasedProbe == released
      ensures releases == old(releases) + if released then [Release(probeEpoch, later)] else []
    {
      attemptedVersion, watchdogExpired, releasedProbe := version, false, released;
      if released {
        SpacedNext(releases, openFor, Release(probeEpoch, later));
        deadline := later + openFor;
        releases := releases + [Release(probeEpoch, later)];
      }
    }

    /**
     * One pass, from a snapshot that the breaker may have left behind: at most
     * one row is released, never while a probe is out, never in another epoch,
     * and never within a dispatch interval of the last one of this epoch.
     */
    method Pass(snapshot: B.Circuit, now: int, releaseAt: int, later: int, version: nat)
      returns (attempted: bool, released: bool)
      requires Valid() && breaker.Valid() && store.Valid() && probeEpoch <= snapshot.epoch
      requires clock <= now <= later
      modifies this, breaker`circuit, breaker`accepted, store`tasks
      ensures Valid() && breaker.Valid() && store.Valid() && clock == later
      ensures releases == old(releases) + if released then [Release(snapshot.epoch, later)] else []
      ensures attempted ==> Idle(breaker.circuit, snapshot.epoch) && attemptedVersion == version
      ensures released ==> attempted && OneReleased(old(store.View()), store.View())
      ensures !released ==> store.View() == old(store.View())
      ensures attempted && !released ==> forall r :: !C.Waiting(store.tasks, r)
    {
      Observe(snapshot.epoch);
      var due := Due(snapshot, now, version);
      attempted, released := false, false;
      if due {
        attempted, released := ReleaseCandidate(snapshot.epoch, releaseAt);
        if attempted {
          Attempted(version, released, later);
        }
      }
      clock := later;
    }
  }

  /** Half open in the epoch, with no probe out. */
  predicate Idle(c: B.Circuit, epoch: nat) {
    c.state.HalfOpen? && c.epoch == epoch && !c.probeInFlight
  }

  /** Exactly one waiting row was released. */
  ghost predicate OneReleased(before: Db, after: Db) {
    exists r :: C.Waiting(before.tasks, r) && after == Queue.ReleaseAll(before, [r])
  }

  /** Two candidates of one half-open period are at least one dispatch interval apart. */
  ghost predicate Spaced(releases: seq<Release>, openFor: nat) {
    forall i, j :: 0 <= i < j < |releases| && releases[i].epoch == releases[j].epoch ==>
      releases[i].at + openFor <= releases[j].at
  }

  lemma SpacedNext(releases: seq<Release>, openFor: nat, r: Release)
    requires Spaced(releases, openFor)
    requires forall i :: 0 <= i < |releases| && releases[i].epoch == r.epoch ==> releases[i].at + openFor <= r.at
    ensures Spaced(releases + [r], openFor)
  {
  }
}
