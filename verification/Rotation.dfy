/** Secret rotation (api/auth/rotateSecret.ts): compare-and-swap versions, operator approvals, grace-window
    pruning and rollback. Every operation takes the clock readings it makes, in order. */
module Rotation {
  import opened Options
  import opened Text

  type Time = int

  // An encrypted secret: authenticated encryption opens it under the sealing passphrase and no other.
  datatype SecretVersion = SecretVersion(version: nat, sealedBy: string, secret: string, createdAt: Time)

  // The rotation store (active version, version list, grace period) and the pending approvals by version.
  datatype Store = Store(active: nat, versions: seq<SecretVersion>, grace: Time, approvals: map<int, set<string>>)

  const GRACE_PERIOD_MS := 5 * 60 * 1000
  const INITIAL := Store(0, [], GRACE_PERIOD_MS, map[])

  datatype Result =
    | Rotated(newVersion: nat)
    | ConflictAt(currentVersion: nat)
    | Pending(required: nat, received: nat)
    | Approved
    | OperatorMissing
    | VerificationFailed
    | Secrets(secrets: seq<string>)
    | Undecryptable
    | Done

  datatype Op =
    | Cas(expected: int, pass: string, secret: string, t1: Time, t2: Time)
    | Approve(expected: int, operator: string, configured: Option<real>)
    | RotateApproved(expected: int, pass: string, operator: string, configured: Option<real>, secret: string,
                     t1: Time, t2: Time, t3: Time)
    | Cleanup(now: Time)
    | Read(pass: string, now: Time)

  // ---------- operators ----------

  // SECRET_ROTATION_REQUIRED_APPROVALS; None when it does not parse to a finite number.
  function RequiredApprovals(configured: Option<real>): nat {
    if configured.Some? && configured.value > 0.0 then
      var floor := configured.value.Floor;
      if floor as real == configured.value then floor else floor + 1
    else
      2
  }

  // ---------- versions ----------

  // The versions that are active or were created at or after the cutoff, in order.
  function Live(versions: seq<SecretVersion>, active: nat, cutoff: Time): seq<SecretVersion> {
    if versions == [] then []
    else
      var rest := Live(versions[1..], active, cutoff);
      if versions[0].version == active || versions[0].createdAt >= cutoff then [versions[0]] + rest else rest
  }

  function Decrypt(versions: seq<SecretVersion>, pass: string): Option<seq<string>> {
    if versions == [] then Some([])
    else
      var rest := Decrypt(versions[1..], pass);
      if versions[0].sealedBy == pass && rest.Some? then Some([versions[0].secret] + rest.value) else None
  }

  function ActiveSecrets(s: Store, pass: string, now: Time): Option<seq<string>> {
    Decrypt(Live(s.versions, s.active, now - s.grace), pass)
  }

  // ---------- operations; with prune false, a reference that never forgets a version ----------

  function CasRotate(prune: bool, s: Store, expected: int, pass: string, secret: string, t1: Time, t2: Time)
    : (Store, Result)
  {
    if s.active != expected then
      (s, ConflictAt(s.active))
    else
      var n := s.active + 1;
      var pushed := s.versions + [SecretVersion(n, pass, secret, t1)];
      (s.(active := n, versions := if prune then Live(pushed, n, t2 - s.grace) else pushed), Rotated(n))
  }

  function OperatorsFor(s: Store, expected: int): set<string> {
    if expected in s.approvals then s.approvals[expected] else {}
  }

  function ApproveRotation(s: Store, expected: int, operator: string, configured: Option<real>): (Store, Result) {
    var name := Trim(operator);
    if name == "" then
      (s, OperatorMissing)
    else
      var operators := OperatorsFor(s, expected) + {name};
      var required := RequiredApprovals(configured);
      (s.(approvals := s.approvals[expected := operators]),
       if |operators| < required then Pending(required, |operators|) else Approved)
  }

  function RotateWithApprovals(prune: bool, s: Store, expected: int, pass: string, operator: string,
                               configured: Option<real>, secret: string, t1: Time, t2: Time, t3: Time)
    : (Store, Result)
  {
    var (approved, verdict) := ApproveRotation(s, expected, operator, configured);
    if verdict != Approved then
      (approved, verdict)
    else
      var (rotated, result) := CasRotate(prune, approved, expected, pass, secret, t1, t2);
      if !result.Rotated? then
        (rotated, result)
      else
        var secrets := ActiveSecrets(rotated, pass, t3);
        if secrets.None? || secrets.value == [] then
          (approved, VerificationFailed)
        else
          (rotated.(approvals := rotated.approvals - {expected}), result)
  }

  function Step(prune: bool, s: Store, op: Op): (Store, Result) {
    match op
    case Cas(expected, pass, secret, t1, t2) => CasRotate(prune, s, expected, pass, secret, t1, t2)
    case Approve(expected, operator, configured) => ApproveRotation(s, expected, operator, configured)
    case RotateApproved(expected, pass, operator, configured, secret, t1, t2, t3) =>
      RotateWithApprovals(prune, s, expected, pass, operator, configured, secret, t1, t2, t3)
    case Cleanup(now) =>
      (if prune then s.(versions := Live(s.versions, s.active, now - s.grace)) else s, Done)
    case Read(pass, now) =>
      (s, match ActiveSecrets(s, pass, now) case Some(xs) => Secrets(xs) case None => Undecryptable)
  }

  function Run(prune: bool, s: Store, ops: seq<Op>): (Store, seq<Result>)
    decreases |ops|
  {
    if ops == [] then (s, [])
    else
      var (s1, r) := Step(prune, s, ops[0]);
      var (s2, rs) := Run(prune, s1, ops[1..]);
      (s2, [r] + rs)
  }
}
