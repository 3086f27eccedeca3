/** The rotation module's mutable state: the config object every caller of loadConfig shares, its version
    array pushed to in place, and the approvals map. */
module RotationService {
  import opened Options
  import opened Text
  import R = Rotation
  import RotationTheorems

  // A JavaScript array: shared by everyone who holds a reference to it.
  class VersionArray {
    var items: seq<R.SecretVersion>

    constructor (items: seq<R.SecretVersion>)
      ensures this.items == items
    {
      this.items := items;
    }
  }

  class RotationConfig {
    var activeVersion: nat
    var versions: VersionArray
    const gracePeriodMs: R.Time

    constructor (activeVersion: nat, versions: VersionArray, gracePeriodMs: R.Time)
      ensures this.activeVersion == activeVersion && this.versions == versions && this.gracePeriodMs == gracePeriodMs
    {
      this.activeVersion, this.versions, this.gracePeriodMs := activeVersion, versions, gracePeriodMs;
    }
  }

  class Rotator {
    var rotationStore: RotationConfig
    var rotationApprovals: map<int, set<string>>

    ghost function Store(): R.Store
      reads this, rotationStore, rotationStore.versions
    {
      R.Store(rotationStore.activeVersion, rotationStore.versions.items, rotationStore.gracePeriodMs, rotationApprovals)
    }

    constructor ()
      ensures Store() == R.INITIAL
      ensures fresh(rotationStore) && fresh(rotationStore.versions)
    {
      var versions := new VersionArray([]);
      rotationStore := new RotationConfig(0, versions, R.GRACE_PERIOD_MS);
      rotationApprovals := map[];
    }

    // The store object stays the one its callers already hold; its version array is pushed to, then replaced.
    method RotateSecretCAS(expected: int, pass: string, secret: string, t1: R.Time, t2: R.Time)
        returns (result: R.Result)
      modifies rotationStore, rotationStore.versions
      ensures (Store(), result) == R.CasRotate(true, old(Store()), expected, pass, secret, t1, t2)
      ensures result.Rotated? ==> fresh(rotationStore.versions)
      ensures !result.Rotated? ==> rotationStore.versions == old(rotationStore.versions)
    {
      var config := rotationStore;
      var currentVersion := config.activeVersion;
      if currentVersion != expected {
        return R.ConflictAt(currentVersion);
      }
      var newVersion := currentVersion + 1;
      config.versions.items := config.versions.items + [R.SecretVersion(newVersion, pass, secret, t1)];
      var cutoff := t2 - config.gracePeriodMs;
      var kept := new VersionArray(R.Live(config.versions.items, newVersion, cutoff));
      config.versions := kept;
      config.activeVersion := newVersion;
      result := R.Rotated(newVersion);
    }

    method ApproveSecretRotation(expected: int, operator: string, configured: Option<real>) returns (result: R.Result)
      modifies this`rotationApprovals
      ensures (Store(), result) == R.ApproveRotation(old(Store()), expected, operator, configured)
      ensures result.Pending? ==>
                && expected in rotationApprovals && result.received == |rotationApprovals[expected]| < result.required
                && RotationTheorems.IsThreshold(configured, result.required)
      ensures result.Approved? ==>
                && expected in rotationApprovals
                && forall required :: RotationTheorems.IsThreshold(configured, required) ==>
                                        |rotationApprovals[expected]| >= required
    {
      var name := Trim(operator);
      if name == "" {
        return R.OperatorMissing;
      }
      var required := R.RequiredApprovals(configured);
      RotationTheorems.ThresholdMeaning(configured, required);
      var operators := if expected in rotationApprovals then rotationApprovals[expected] else {};
      operators := operators + {name};
      rotationApprovals := rotationApprovals[expected := operators];
      result := if |operators| < required then R.Pending(required, |operators|) else R.Approved;
    }

    method GetActiveSecrets(pass: string, now: R.Time) returns (secrets: Option<seq<string>>)
      ensures secrets == R.ActiveSecrets(Store(), pass, now)
      ensures secrets.None? <==>
              exists v :: v in Store().versions && RotationTheorems.IsLive(Store(), v, now) && v.sealedBy != pass
      ensures secrets.Some? ==>
                forall x :: x in secrets.value <==>
                            exists v :: v in Store().versions && RotationTheorems.IsLive(Store(), v, now)
                              && v.secret == x
    {
      var cutoff := now - rotationStore.gracePeriodMs;
      secrets := R.Decrypt(R.Live(rotationStore.versions.items, rotationStore.activeVersion, cutoff), pass);
      RotationTheorems.ActiveSecretsMeaning(Store(), pass, now);
    }

    // After a failed verification the store is the snapshot; the object the caller loaded before has been
    // rotated all the same.
    method RotateSecretWithApprovals(expected: int, pass: string, operator: string, configured: Option<real>,
                                     secret: string, t1: R.Time, t2: R.Time, t3: R.Time) returns (result: R.Result)
      modifies this, rotationStore, rotationStore.versions
      ensures (Store(), result)
              == R.RotateWithApprovals(true, old(Store()), expected, pass, operator, configured, secret, t1, t2, t3)
      ensures result.VerificationFailed? ==>
                fresh(rotationStore) && old(rotationStore).activeVersion == old(rotationStore.activeVersion) + 1
      ensures !result.VerificationFailed? ==> rotationStore == old(rotationStore)
    {
      result := ApproveSecretRotation(expected, operator, configured);
      if result != R.Approved {
        return;
      }
      var before := rotationStore;
      var copy := new VersionArray(before.versions.items);
      var snapshot := new RotationConfig(before.activeVersion, copy, before.gracePeriodMs);
      result := RotateSecretCAS(expected, pass, secret, t1, t2);
      if !result.Rotated? {
        return;
      }
      var secrets := GetActiveSecrets(pass, t3);
      if secrets.None? || secrets.value == [] {
        rotationStore := snapshot;
        return R.VerificationFailed;
      }
      rotationApprovals := rotationApprovals - {expected};
    }

    method IsSecretValid(secret: string, pass: string, now: R.Time) returns (valid: Option<bool>)
      ensures valid.None? <==>
              exists v :: v in Store().versions && RotationTheorems.IsLive(Store(), v, now) && v.sealedBy != pass
      ensures valid.Some? ==>
                (valid.value <==>
                 exists v :: v in Store().versions && RotationTheorems.IsLive(Store(), v, now) && v.secret == secret)
    {
      var active := GetActiveSecrets(pass, now);
      valid := if active.Some? then Some(secret in active.value) else None;
    }

    method CleanupExpiredVersions(now: R.Time)
      modifies rotationStore
      ensures Store() == R.Step(true, old(Store()), R.Cleanup(now)).0
      ensures fresh(rotationStore.versions)
    {
      var config := rotationStore;
      var cutoff := now - config.gracePeriodMs;
      config.versions := new VersionArray(R.Live(config.versions.items, config.activeVersion, cutoff));
    }
  }
}
