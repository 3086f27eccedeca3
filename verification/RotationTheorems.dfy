/** What rotation promises: pruning cannot be observed, bumps carry a quorum, one caller wins a version,
    and a failed verification leaves no trace in the store. */
module RotationTheorems {
  import opened Options
  import opened Text
  import opened Rotation

  // ---------- pruning is invisible ----------

  function Clock(op: Op, now: Time): Time {
    match op
    case Cas(_, _, _, _, t2) => t2
    case RotateApproved(_, _, _, _, _, _, _, t3) => t3
    case Cleanup(t) => t
    case Read(_, t) => t
    case Approve(_, _, _) => now
  }

  // The clock never goes back, within an operation or between two.
  predicate InOrder(op: Op, now: Time) {
    match op
    case Cas(_, _, _, t1, t2) => now <= t1 <= t2
    case RotateApproved(_, _, _, _, _, t1, t2, t3) => now <= t1 <= t2 <= t3
    case Cleanup(t) => now <= t
    case Read(_, t) => now <= t
    case Approve(_, _, _) => true
  }

  predicate Monotone(ops: seq<Op>, now: Time) {
    ops == [] || (InOrder(ops[0], now) && Monotone(ops[1..], Clock(ops[0], now)))
  }

  lemma {:induction false} LiveAppend(xs: seq<SecretVersion>, ys: seq<SecretVersion>, active: nat, cutoff: Time)
    ensures Live(xs + ys, active, cutoff) == Live(xs, active, cutoff) + Live(ys, active, cutoff)
  {
    if xs == [] {
      assert xs + ys == ys;
    } else {
      assert (xs + ys)[1..] == xs[1..] + ys;
      LiveAppend(xs[1..], ys, active, cutoff);
    }
  }

  // Filtering by a later cutoff forgets an earlier filter, also once the next version is active.
  lemma {:induction false} LiveTwice(xs: seq<SecretVersion>, active: nat, cutoff: Time, active': nat, cutoff': Time)
    requires cutoff <= cutoff'
    requires active' == active || forall v | v in xs :: v.version != active'
    ensures Live(Live(xs, active, cutoff), active', cutoff') == Live(xs, active', cutoff')
  {
    if xs != [] {
      LiveTwice(xs[1..], active, cutoff, active', cutoff');
    }
  }

  ghost predicate Upto(versions: seq<SecretVersion>, active: nat) {
    forall v | v in versions :: 0 < v.version <= active
  }

  lemma {:induction false} LiveIsPart(xs: seq<SecretVersion>, active: nat, cutoff: Time)
    ensures forall v :: v in Live(xs, active, cutoff) <==> v in xs && (v.version == active || v.createdAt >= cutoff)
  {
    if xs != [] {
      LiveIsPart(xs[1..], active, cutoff);
      assert xs == [xs[0]] + xs[1..];
    }
  }

  ghost predicate HasActive(s: Store) {
    s.active > 0 ==> exists v :: v in s.versions && v.version == s.active
  }

  // p is what a pruning store and u what a never-pruned one looks like after the same operations.
  ghost predicate Matches(p: Store, u: Store, now: Time) {
    && p.active == u.active && p.grace == u.grace && p.approvals == u.approvals
    && Upto(p.versions, p.active) && Upto(u.versions, u.active) && HasActive(p)
    && forall cutoff :: cutoff >= now - p.grace ==>
         Live(p.versions, p.active, cutoff) == Live(u.versions, u.active, cutoff)
  }

  // A new version after the same live ones leaves the same live ones, pruned in between or not.
  lemma PushMatches(p: Store, u: Store, now: Time, v: SecretVersion, earlier: Time, cutoff: Time)
    requires Matches(p, u, now) && v.version == p.active + 1
    requires now - p.grace <= earlier <= cutoff
    ensures Live(Live(p.versions + [v], v.version, earlier), v.version, cutoff)
              == Live(u.versions + [v], v.version, cutoff)
  {
    var n := v.version;
    LiveTwice(p.versions + [v], n, earlier, n, cutoff);
    LiveAppend(p.versions, [v], n, cutoff);
    LiveAppend(u.versions, [v], n, cutoff);
    LiveTwice(p.versions, p.active, cutoff, n, cutoff);
    LiveTwice(u.versions, u.active, cutoff, n, cutoff);
  }

  lemma CasMatches(p: Store, u: Store, now: Time, expected: int, pass: string, secret: string, t1: Time, t2: Time)
    requires Matches(p, u, now) && now <= t1 <= t2
    ensures var (p', r) := CasRotate(true, p, expected, pass, secret, t1, t2);
            var (u', r') := CasRotate(false, u, expected, pass, secret, t1, t2);
            r == r' && Matches(p', u', t2)
  {
    if p.active == expected {
      var v := SecretVersion(p.active + 1, pass, secret, t1);
      var cutoff := t2 - p.grace;
      PushedFacts(p, u, v, cutoff);
      PushedViews(p, u, now, v, cutoff);
      var p' := CasRotate(true, p, expected, pass, secret, t1, t2).0;
      assert p'.versions == Live(p.versions + [v], v.version, cutoff) && v in p'.versions;
    }
  }

  lemma PushedViews(p: Store, u: Store, now: Time, v: SecretVersion, earlier: Time)
    requires Matches(p, u, now) && v.version == p.active + 1 && now - p.grace <= earlier
    ensures forall cutoff :: cutoff >= earlier ==>
              Live(Live(p.versions + [v], v.version, earlier), v.version, cutoff)
              == Live(u.versions + [v], v.version, cutoff)
  {
    forall cutoff | cutoff >= earlier
      ensures Live(Live(p.versions + [v], v.version, earlier), v.version, cutoff)
              == Live(u.versions + [v], v.version, cutoff)
    {
      PushMatches(p, u, now, v, earlier, cutoff);
    }
  }

  lemma PushedFacts(p: Store, u: Store, v: SecretVersion, cutoff: Time)
    requires p.active == u.active && Upto(p.versions, p.active) && Upto(u.versions, u.active)
              && v.version == p.active + 1
    ensures Upto(Live(p.versions + [v], v.version, cutoff), v.version) && Upto(u.versions + [v], v.version)
    ensures v in Live(p.versions + [v], v.version, cutoff)
  {
    LiveIsPart(p.versions + [v], v.version, cutoff);
  }

  lemma LaterMatches(p: Store, u: Store, now: Time, later: Time)
    requires Matches(p, u, now) && now <= later
    ensures Matches(p, u, later)
  {
  }

  lemma ApprovalsApart(p: Store, u: Store, now: Time, approvals: map<int, set<string>>)
    requires Matches(p, u, now)
    ensures Matches(p.(approvals := approvals), u.(approvals := approvals), now)
  {
    assert HasActive(p.(approvals := approvals)) == HasActive(p);
  }

  lemma ApproveMatches(p: Store, u: Store, now: Time, expected: int, operator: string, configured: Option<real>)
    requires Matches(p, u, now)
    ensures var (p', r) := ApproveRotation(p, expected, operator, configured);
            var (u', r') := ApproveRotation(u, expected, operator, configured);
            r == r' && Matches(p', u', now)
  {
    var p' := ApproveRotation(p, expected, operator, configured).0;
    ApprovalsApart(p, u, now, p'.approvals);
  }

  lemma SecretsMatch(p: Store, u: Store, now: Time, pass: string)
    requires Matches(p, u, now)
    ensures ActiveSecrets(p, pass, now) == ActiveSecrets(u, pass, now)
  {
  }

  lemma RotateMatches(p: Store, u: Store, now: Time, expected: int, pass: string, operator: string,
                      configured: Option<real>, secret: string, t1: Time, t2: Time, t3: Time)
    requires Matches(p, u, now) && now <= t1 <= t2 <= t3
    ensures var (p', r) := RotateWithApprovals(true, p, expected, pass, operator, configured, secret, t1, t2, t3);
            var (u', r') := RotateWithApprovals(false, u, expected, pass, operator, configured, secret, t1, t2, t3);
            r == r' && Matches(p', u', t3)
  {
    ApproveMatches(p, u, now, expected, operator, configured);
    var (pa, verdict) := ApproveRotation(p, expected, operator, configured);
    var ua := ApproveRotation(u, expected, operator, configured).0;
    LaterMatches(pa, ua, now, t3);
    if verdict.Approved? {
      CasMatches(pa, ua, now, expected, pass, secret, t1, t2);
      var (pr, result) := CasRotate(true, pa, expected, pass, secret, t1, t2);
      var ur := CasRotate(false, ua, expected, pass, secret, t1, t2).0;
      LaterMatches(pr, ur, t2, t3);
      ApprovalsApart(pr, ur, t3, pr.approvals - {expected});
      SecretsMatch(pr, ur, t3, pass);
    }
  }

  lemma StepMatches(p: Store, u: Store, now: Time, op: Op)
    requires Matches(p, u, now) && InOrder(op, now)
    ensures var (p', r) := Step(true, p, op);
            var (u', r') := Step(false, u, op);
            r == r' && Matches(p', u', Clock(op, now))
  {
    match op
    case Cas(expected, pass, secret, t1, t2) => CasMatches(p, u, now, expected, pass, secret, t1, t2);
    case RotateApproved(expected, pass, operator, configured, secret, t1, t2, t3) =>
      RotateMatches(p, u, now, expected, pass, operator, configured, secret, t1, t2, t3);
    case Cleanup(t) =>
      LiveIsPart(p.versions, p.active, t - p.grace);
      forall cutoff | cutoff >= t - p.grace
        ensures Live(Live(p.versions, p.active, t - p.grace), p.active, cutoff) == Live(p.versions, p.active, cutoff)
      {
        LiveTwice(p.versions, p.active, t - p.grace, p.active, cutoff);
      }
    case Approve(expected, operator, configured) => ApproveMatches(p, u, now, expected, operator, configured);
    case Read(pass, t) =>
      LaterMatches(p, u, now, t);
      SecretsMatch(p, u, t, pass);
  }

  // Over any run of rotations, approvals, cleanups and rolled-back rotations under a non-decreasing clock, the
  // pruning store answers every call, reads of the active secrets included, as a store that keeps everything.
  lemma {:induction false} PruningIsInvisible(p: Store, u: Store, now: Time, ops: seq<Op>)
    requires Matches(p, u, now) && Monotone(ops, now)
    ensures Run(true, p, ops).1 == Run(false, u, ops).1
    ensures HasActive(Run(true, p, ops).0)
    decreases |ops|
  {
    if ops != [] {
      StepMatches(p, u, now, ops[0]);
      PruningIsInvisible(Step(true, p, ops[0]).0, Step(false, u, ops[0]).0, Clock(ops[0], now), ops[1..]);
    }
  }

  lemma PruningFromStart(now: Time, ops: seq<Op>)
    requires Monotone(ops, now)
    ensures Run(true, INITIAL, ops).1 == Run(false, INITIAL, ops).1
    ensures HasActive(Run(true, INITIAL, ops).0)
  {
    PruningIsInvisible(INITIAL, INITIAL, now, ops);
  }

  // ---------- approvals ----------

  // The store just before the i-th operation, and that operation's answer.
  function Before(ops: seq<Op>, i: nat): Store
    requires i <= |ops|
  {
    Run(true, INITIAL, ops[..i]).0
  }

  function Answer(ops: seq<Op>, i: nat): Result
    requires i < |ops|
  {
    Step(true, Before(ops, i), ops[i]).1
  }

  lemma {:induction false} RunLast(s: Store, ops: seq<Op>, op: Op)
    ensures Run(true, s, ops + [op]).0 == Step(true, Run(true, s, ops).0, op).0
    decreases |ops|
  {
    if ops == [] {
      assert [op][1..] == [];
    } else {
      assert (ops + [op])[1..] == ops[1..] + [op];
      RunLast(Step(true, s, ops[0]).0, ops[1..], op);
    }
  }

  lemma BeforeNext(ops: seq<Op>, i: nat)
    requires i < |ops|
    ensures Before(ops, i + 1) == Step(true, Before(ops, i), ops[i]).0
  {
    assert ops[..i + 1] == ops[..i] + [ops[i]];
    RunLast(INITIAL, ops[..i], ops[i]);
  }

  predicate ApprovesFor(op: Op, version: int) {
    (op.Approve? || op.RotateApproved?) && op.expected == version
  }

  // Everyone who approved exactly this version in the first i operations, by trimmed id; calls without one are refused.
  function Approvers(ops: seq<Op>, i: nat, version: int): set<string>
    requires i <= |ops|
  {
    set k | 0 <= k < i && ApprovesFor(ops[k], version) && Trim(ops[k].operator) != "" :: Trim(ops[k].operator)
  }

  // The operator an operation names for this version, if any.
  function Names(op: Op, version: int): set<string> {
    if ApprovesFor(op, version) && Trim(op.operator) != "" then {Trim(op.operator)} else {}
  }

  lemma RotateOperators(s: Store, expected: int, pass: string, operator: string, configured: Option<real>,
                        secret: string, t1: Time, t2: Time, t3: Time)
    ensures var approvals := RotateWithApprovals(true, s, expected, pass, operator, configured, secret, t1, t2,
              t3).0.approvals;
            var approved := ApproveRotation(s, expected, operator, configured).0.approvals;
            approvals == approved || approvals == approved - {expected}
  {
  }

  lemma ApproveOperators(s: Store, expected: int, operator: string, configured: Option<real>, version: int)
    ensures OperatorsFor(ApproveRotation(s, expected, operator, configured).0, version) <=
            OperatorsFor(s, version) + if version == expected && Trim(operator) != "" then {Trim(operator)} else {}
  {
  }

  lemma RotateAddsAsApprove(s: Store, expected: int, pass: string, operator: string, configured: Option<real>,
                            secret: string, t1: Time, t2: Time, t3: Time, version: int)
    ensures OperatorsFor(RotateWithApprovals(true, s, expected, pass, operator, configured, secret, t1, t2, t3).0,
              version) <=
            OperatorsFor(ApproveRotation(s, expected, operator, configured).0, version)
  {
    RotateOperators(s, expected, pass, operator, configured, secret, t1, t2, t3);
  }

  // An operation adds at most its own operator, and only to the version it approves.
  lemma OperatorsAfter(s: Store, op: Op, version: int)
    ensures OperatorsFor(Step(true, s, op).0, version) <= OperatorsFor(s, version) + Names(op, version)
  {
    match op
    case Approve(expected, operator, configured) => ApproveOperators(s, expected, operator, configured, version);
    case RotateApproved(expected, pass, operator, configured, secret, t1, t2, t3) =>
      ApproveOperators(s, expected, operator, configured, version);
      RotateAddsAsApprove(s, expected, pass, operator, configured, secret, t1, t2, t3, version);
    case _ =>
  }

  lemma {:induction false} ApprovalsAreBacked(ops: seq<Op>, i: nat, version: int)
    requires i <= |ops|
    ensures OperatorsFor(Before(ops, i), version) <= Approvers(ops, i, version)
  {
    if i > 0 {
      ApprovalsAreBacked(ops, i - 1, version);
      BeforeNext(ops, i - 1);
      OperatorsAfter(Before(ops, i - 1), ops[i - 1], version);
    }
  }

  lemma SubsetIsSmaller<T>(xs: set<T>, ys: set<T>)
    requires xs <= ys
    ensures |xs| <= |ys|
  {
    assert ys == xs + (ys - xs);
  }

  // How many approvals a setting asks for: two when it is absent, zero or negative, and otherwise the least whole
  // number that is not below it.
  ghost predicate IsThreshold(configured: Option<real>, required: nat) {
    if configured.None? || configured.value <= 0.0 then required == 2
    else required as real >= configured.value && (required as real) - 1.0 < configured.value
  }

  lemma ThresholdMeaning(configured: Option<real>, required: nat)
    ensures IsThreshold(configured, required) <==> RequiredApprovals(configured) == required
  {
  }

  // An approval without an operator is refused and leaves no trace. Any other is recorded for its version alone, and is
  // pending exactly while the version has fewer operators than the threshold.
  lemma ApprovalMeaning(s: Store, expected: int, operator: string, configured: Option<real>, required: nat)
    requires IsThreshold(configured, required)
    ensures var (s', r) := ApproveRotation(s, expected, operator, configured);
            var before := if expected in s.approvals then s.approvals[expected] else {};
            if forall c :: c in operator ==> IsSpace(c) then s' == s && r == OperatorMissing
            else
              && expected in s'.approvals && s'.approvals[expected] == before + {Trim(operator)}
              && s'.approvals.Keys == s.approvals.Keys + {expected}
              && (forall v :: v in s.approvals && v != expected ==> s'.approvals[v] == s.approvals[v])
              && s' == s.(approvals := s'.approvals)
              && var received := |s'.approvals[expected]|;
                 r == if received < required then Pending(required, received) else Approved
  {
    ThresholdMeaning(configured, required);
    TrimMeaning(operator);
  }

  // A bump through the approval path had a quorum of distinct operators approving exactly that version: two or more
  // where nothing is configured.
  lemma QuorumBehindEveryBump(ops: seq<Op>, i: nat, required: nat)
    requires i < |ops| && ops[i].RotateApproved? && Answer(ops, i).Rotated?
    requires IsThreshold(ops[i].configured, required)
    ensures |Approvers(ops, i + 1, ops[i].expected)| >= required
    ensures ops[i].configured.None? ==> |Approvers(ops, i + 1, ops[i].expected)| >= 2
    ensures "" !in Approvers(ops, i + 1, ops[i].expected)
    ensures "" !in OperatorsFor(Before(ops, i), ops[i].expected) + {Trim(ops[i].operator)}
    ensures Answer(ops, i).newVersion == ops[i].expected + 1
    ensures OperatorsFor(Before(ops, i + 1), ops[i].expected) == {}
  {
    var version := ops[i].expected;
    ThresholdMeaning(ops[i].configured, required);
    ApprovalsAreBacked(ops, i, version);
    NoBlankOperators(ops, i, version);
    BeforeNext(ops, i);
    var operators := OperatorsFor(Before(ops, i), version) + {Trim(ops[i].operator)};
    assert operators <= Approvers(ops, i + 1, version);
    SubsetIsSmaller(operators, Approvers(ops, i + 1, version));
  }

  lemma {:induction false} NoBlankOperators(ops: seq<Op>, i: nat, version: int)
    requires i <= |ops|
    ensures "" !in OperatorsFor(Before(ops, i), version)
  {
    if i > 0 {
      NoBlankOperators(ops, i - 1, version);
      BeforeNext(ops, i - 1);
      OperatorsAfter(Before(ops, i - 1), ops[i - 1], version);
    }
  }

  lemma {:induction false} ActiveGrows(ops: seq<Op>, i: nat, j: nat)
    requires i <= j <= |ops|
    ensures Before(ops, i).active <= Before(ops, j).active
  {
    if i < j {
      ActiveGrows(ops, i, j - 1);
      BeforeNext(ops, j - 1);
    }
  }

  // Of all the calls that expect a version, by either path, at most one rotates it.
  lemma OneWinner(ops: seq<Op>, i: nat, j: nat)
    requires i < j < |ops| && Answer(ops, i).Rotated? && Answer(ops, j).Rotated?
    ensures ops[i].expected != ops[j].expected
  {
    BeforeNext(ops, i);
    ActiveGrows(ops, i + 1, j);
  }

  // ---------- rollback ----------

  lemma {:induction false} DecryptFailsOnForeign(versions: seq<SecretVersion>, pass: string)
    ensures Decrypt(versions, pass).None? <==> exists v :: v in versions && v.sealedBy != pass
    ensures Decrypt(versions, pass).Some? ==> |Decrypt(versions, pass).value| == |versions|
  {
    if versions != [] {
      DecryptFailsOnForeign(versions[1..], pass);
      assert versions == [versions[0]] + versions[1..];
    }
  }

  ghost predicate ForeignInGrace(s: Store, pass: string, now: Time) {
    exists v :: v in s.versions && v.createdAt >= now - s.grace && v.sealedBy != pass
  }

  lemma LiveAfterRotation(s: Store, v: SecretVersion, t2: Time, t3: Time)
    requires Upto(s.versions, s.active) && v.version == s.active + 1 && t2 <= t3
    ensures forall x :: x in Live(Live(s.versions + [v], v.version, t2 - s.grace), v.version, t3 - s.grace)
                        <==> x == v || (x in s.versions && x.createdAt >= t3 - s.grace)
  {
    LiveIsPart(s.versions + [v], v.version, t2 - s.grace);
    LiveIsPart(Live(s.versions + [v], v.version, t2 - s.grace), v.version, t3 - s.grace);
    forall x | x in s.versions
      ensures x.version != v.version
    {
    }
  }

  // What the verification of a rotation reads back.
  lemma ReadAfterRotation(s: Store, pass: string, secret: string, t1: Time, t2: Time, t3: Time)
    requires Upto(s.versions, s.active) && t1 <= t2 <= t3
    ensures var secrets := ActiveSecrets(CasRotate(true, s, s.active, pass, secret, t1, t2).0, pass, t3);
            (secrets.None? <==> ForeignInGrace(s, pass, t3)) && secrets != Some([])
  {
    var v := SecretVersion(s.active + 1, pass, secret, t1);
    var live := Live(Live(s.versions + [v], v.version, t2 - s.grace), v.version, t3 - s.grace);
    LiveAfterRotation(s, v, t2, t3);
    DecryptFailsOnForeign(live, pass);
    assert v in live;
  }

  // An approved rotation at the right version is refused by its verification exactly when a secret sealed
  // under another passphrase is still in its grace window; then only the approval is recorded.
  lemma VerificationFailsExactly(s: Store, expected: int, pass: string, operator: string, configured: Option<real>,
                                 secret: string, t1: Time, t2: Time, t3: Time)
    requires Upto(s.versions, s.active) && t1 <= t2 <= t3
    requires ApproveRotation(s, expected, operator, configured).1.Approved? && expected == s.active
    ensures var (s', r) := RotateWithApprovals(true, s, expected, pass, operator, configured, secret, t1, t2, t3);
            && (r.VerificationFailed? <==> ForeignInGrace(s, pass, t3))
            && (r.VerificationFailed? ==> s' == ApproveRotation(s, expected, operator, configured).0)
            && (!r.VerificationFailed? ==> r == Rotated(s.active + 1))
  {
    ReadAfterRotation(ApproveRotation(s, expected, operator, configured).0, pass, secret, t1, t2, t3);
  }

  // Whatever a rotation through approvals answers, unless it rotated it left the active version and the
  // version list as they were.
  lemma OnlyABumpMovesVersions(s: Store, expected: int, pass: string, operator: string, configured: Option<real>,
                               secret: string, t1: Time, t2: Time, t3: Time)
    ensures var (s', r) := RotateWithApprovals(true, s, expected, pass, operator, configured, secret, t1, t2, t3);
            !r.Rotated? ==> s'.active == s.active && s'.versions == s.versions && s'.grace == s.grace
  {
  }

  // ---------- what a reader of the active secrets gets ----------

  // Active, or within the grace period of its creation.
  predicate IsLive(s: Store, v: SecretVersion, now: Time) {
    v.version == s.active || v.createdAt >= now - s.grace
  }

  // The secrets read are those of the versions, in their order.
  lemma {:induction false} DecryptAt(versions: seq<SecretVersion>, pass: string, i: nat)
    requires Decrypt(versions, pass).Some? && i < |versions|
    ensures |Decrypt(versions, pass).value| == |versions| && Decrypt(versions, pass).value[i] == versions[i].secret
  {
    DecryptFailsOnForeign(versions, pass);
    if i > 0 {
      DecryptAt(versions[1..], pass, i - 1);
    }
  }

  // A rotation at any other version than the active one changes nothing and names the active one. At the active one it
  // adds the new secret, sealed and stamped, as the next version, makes that active, and keeps besides it exactly the
  // versions within the grace period, in order.
  lemma RotationMeaning(s: Store, expected: int, pass: string, secret: string, t1: Time, t2: Time)
    requires Upto(s.versions, s.active)
    ensures var (s', r) := CasRotate(true, s, expected, pass, secret, t1, t2);
            if expected != s.active then s' == s && r == ConflictAt(s.active)
            else
              && r == Rotated(s.active + 1) && s' == s.(active := s.active + 1, versions := s'.versions)
              && s'.versions != [] && s'.versions[|s'.versions| - 1] == SecretVersion(s.active + 1, pass, secret, t1)
              && s'.versions[..|s'.versions| - 1] == KeptSince(s.versions, t2 - s.grace)
  {
    if expected == s.active {
      var v := SecretVersion(s.active + 1, pass, secret, t1);
      LiveAppend(s.versions, [v], v.version, t2 - s.grace);
      LiveOne(v, v.version, t2 - s.grace);
      NoneActive(s.versions, v.version, t2 - s.grace);
    }
  }

  function KeptSince(versions: seq<SecretVersion>, cutoff: Time): (kept: seq<SecretVersion>)
    ensures forall v :: v in kept <==> v in versions && v.createdAt >= cutoff
  {
    if versions == [] then []
    else
      var n := |versions| - 1;
      KeptSince(versions[..n], cutoff) + if versions[n].createdAt >= cutoff then [versions[n]] else []
  }

  lemma {:induction false} NoneActive(versions: seq<SecretVersion>, active: nat, cutoff: Time)
    requires forall v :: v in versions ==> v.version != active
    ensures Live(versions, active, cutoff) == KeptSince(versions, cutoff)
  {
    if versions != [] {
      var n := |versions| - 1;
      NoneActive(versions[..n], active, cutoff);
      LiveAppend(versions[..n], [versions[n]], active, cutoff);
      LiveOne(versions[n], active, cutoff);
      assert versions == versions[..n] + [versions[n]];
    }
  }

  lemma {:induction false} DecryptMembers(versions: seq<SecretVersion>, pass: string, secret: string)
    requires Decrypt(versions, pass).Some?
    ensures secret in Decrypt(versions, pass).value <==> exists v :: v in versions && v.secret == secret
  {
    if versions != [] {
      DecryptMembers(versions[1..], pass, secret);
      assert versions == [versions[0]] + versions[1..];
    }
  }

  // Reading fails exactly when a live version is sealed under another passphrase, and otherwise gives exactly the
  // secrets of the live versions.
  lemma ActiveSecretsMeaning(s: Store, pass: string, now: Time)
    ensures var secrets := ActiveSecrets(s, pass, now);
            && (secrets.None? <==> exists v :: v in s.versions && IsLive(s, v, now) && v.sealedBy != pass)
            && (secrets.Some? ==>
                  forall x :: x in secrets.value <==> exists v :: v in s.versions && IsLive(s, v, now) && v.secret == x)
  {
    var live := Live(s.versions, s.active, now - s.grace);
    LiveIsPart(s.versions, s.active, now - s.grace);
    DecryptFailsOnForeign(live, pass);
    assert forall v :: v in live <==> v in s.versions && IsLive(s, v, now);
    if ActiveSecrets(s, pass, now).Some? {
      forall x
        ensures x in ActiveSecrets(s, pass, now).value <==>
                  exists v :: v in s.versions && IsLive(s, v, now) && v.secret == x
      {
        DecryptMembers(live, pass, x);
      }
    }
  }

  // ---------- the grace window ----------

  lemma StepKeepsUpto(s: Store, op: Op)
    requires Upto(s.versions, s.active)
    ensures Upto(Step(true, s, op).0.versions, Step(true, s, op).0.active)
  {
    match op
    case Cas(_, pass, secret, t1, t2) => CasKeepsUpto(s, pass, secret, t1, t2);
    case RotateApproved(expected, pass, operator, configured, secret, t1, t2, t3) =>
      RotateKeepsUpto(s, expected, pass, operator, configured, secret, t1, t2, t3);
    case Cleanup(now) => LiveIsPart(s.versions, s.active, now - s.grace);
    case Approve(_, _, _) =>
    case Read(_, _) =>
  }

  lemma RotateKeepsUpto(s: Store, expected: int, pass: string, operator: string, configured: Option<real>,
                        secret: string, t1: Time, t2: Time, t3: Time)
    requires Upto(s.versions, s.active)
    ensures var s' := RotateWithApprovals(true, s, expected, pass, operator, configured, secret, t1, t2, t3).0;
            Upto(s'.versions, s'.active)
  {
    var approved := ApproveRotation(s, expected, operator, configured).0;
    var rotated := CasRotate(true, approved, expected, pass, secret, t1, t2).0;
    CasKeepsUpto(s, pass, secret, t1, t2);
    assert Upto(approved.versions, approved.active) && Upto(rotated.versions, rotated.active);
  }

  lemma CasKeepsUpto(s: Store, pass: string, secret: string, t1: Time, t2: Time)
    requires Upto(s.versions, s.active)
    ensures Upto(Live(s.versions + [SecretVersion(s.active + 1, pass, secret, t1)], s.active + 1, t2 - s.grace),
              s.active + 1)
  {
    LiveIsPart(s.versions + [SecretVersion(s.active + 1, pass, secret, t1)], s.active + 1, t2 - s.grace);
  }

  // In every run the versions kept are numbered from 1 to the active one.
  lemma {:induction false} VersionsUpToActive(ops: seq<Op>, i: nat)
    requires i <= |ops|
    ensures Upto(Before(ops, i).versions, Before(ops, i).active)
  {
    if i > 0 {
      VersionsUpToActive(ops, i - 1);
      BeforeNext(ops, i - 1);
      StepKeepsUpto(Before(ops, i - 1), ops[i - 1]);
    }
  }

  // The grace window runs from a secret's creation, not from the rotation that superseded it: after a
  // rotation the previous secret is accepted at a later time exactly while it is younger than the grace period.
  lemma GraceRunsFromCreation(s: Store, v: SecretVersion, pass: string, secret: string, t1: Time, t2: Time, now: Time)
    requires Upto(s.versions, s.active) && v in s.versions && t1 <= t2 <= now
    ensures var s' := CasRotate(true, s, s.active, pass, secret, t1, t2).0;
            v in Live(s'.versions, s'.active, now - s'.grace) <==> now <= v.createdAt + s.grace
  {
    var pushed := s.versions + [SecretVersion(s.active + 1, pass, secret, t1)];
    LiveIsPart(pushed, s.active + 1, t2 - s.grace);
    LiveIsPart(Live(pushed, s.active + 1, t2 - s.grace), s.active + 1, now - s.grace);
  }

  function ClockAfter(ops: seq<Op>, now: Time): Time {
    if ops == [] then now else ClockAfter(ops[1..], Clock(ops[0], now))
  }

  lemma {:induction false} MatchesAfter(p: Store, u: Store, now: Time, ops: seq<Op>)
    requires Matches(p, u, now) && Monotone(ops, now)
    ensures Matches(Run(true, p, ops).0, Run(false, u, ops).0, ClockAfter(ops, now))
    decreases |ops|
  {
    if ops != [] {
      StepMatches(p, u, now, ops[0]);
      MatchesAfter(Step(true, p, ops[0]).0, Step(false, u, ops[0]).0, Clock(ops[0], now), ops[1..]);
    }
  }

  lemma StepKeepsGrace(prune: bool, s: Store, op: Op)
    ensures Step(prune, s, op).0.grace == s.grace
  {
  }

  lemma {:induction false} GraceIsFixed(s: Store, ops: seq<Op>)
    ensures Run(true, s, ops).0.grace == s.grace
    decreases |ops|
  {
    if ops != [] {
      StepKeepsGrace(true, s, ops[0]);
      GraceIsFixed(Step(true, s, ops[0]).0, ops[1..]);
    }
  }

  // Every version that was ever created, in a store that never forgets one.
  function History(ops: seq<Op>): seq<SecretVersion> {
    Run(false, INITIAL, ops).0.versions
  }

  // After any run, however many rotations, cleanups and rolled-back rotations it had: a version that was ever created
  // is among those read, now or at any later time, exactly while it is active or within the grace period of its
  // creation.
  lemma GraceInRuns(ops: seq<Op>, begin: Time, v: SecretVersion, now: Time)
    requires Monotone(ops, begin) && ClockAfter(ops, begin) <= now && v in History(ops)
    ensures var s := Before(ops, |ops|);
            v in Live(s.versions, s.active, now - s.grace) <==>
            v.version == s.active || now <= v.createdAt + 300_000
  {
    assert ops[..|ops|] == ops;
    MatchesAfter(INITIAL, INITIAL, begin, ops);
    GraceIsFixed(INITIAL, ops);
    LiveIsPart(History(ops), Before(ops, |ops|).active, now - GRACE_PERIOD_MS);
  }

  function TwoRotations(pass: string, one: string, two: string, t: Time, u: Time): seq<Op> {
    [Cas(0, pass, one, t, t), Cas(1, pass, two, u, u)]
  }

  lemma LiveOne(v: SecretVersion, active: nat, cutoff: Time)
    ensures Live([v], active, cutoff) == if v.version == active || v.createdAt >= cutoff then [v] else []
  {
    assert [v][1..] == [];
  }

  lemma DecryptOne(v: SecretVersion)
    ensures Decrypt([v], v.sealedBy) == Some([v.secret])
  {
    assert [v][1..] == [] && [v.secret] + [] == [v.secret];
  }

  lemma FirstRotation(pass: string, one: string, two: string, t: Time, u: Time)
    ensures Before(TwoRotations(pass, one, two, t, u), 1)
            == Store(1, [SecretVersion(1, pass, one, t)], GRACE_PERIOD_MS, map[])
  {
    var ops := TwoRotations(pass, one, two, t, u);
    var v := SecretVersion(1, pass, one, t);
    assert ops[..0] == [] && Before(ops, 0) == INITIAL;
    BeforeNext(ops, 0);
    assert [] + [v] == [v];
    LiveOne(v, 1, t - GRACE_PERIOD_MS);
  }

  lemma SecondRotation(pass: string, one: string, two: string, t: Time, u: Time)
    requires u > t + 300_000
    ensures Before(TwoRotations(pass, one, two, t, u), 2)
            == Store(2, [SecretVersion(2, pass, two, u)], GRACE_PERIOD_MS, map[])
  {
    var ops := TwoRotations(pass, one, two, t, u);
    var v, w := SecretVersion(1, pass, one, t), SecretVersion(2, pass, two, u);
    FirstRotation(pass, one, two, t, u);
    BeforeNext(ops, 1);
    LiveAppend([v], [w], 2, u - GRACE_PERIOD_MS);
    LiveOne(v, 2, u - GRACE_PERIOD_MS);
    LiveOne(w, 2, u - GRACE_PERIOD_MS);
    assert [] + [w] == [w];
  }

  // A secret older than the grace period when it is superseded is refused from that moment on: just before the
  // second rotation it is the one active secret, just after it the other one is.
  lemma SupersededAtOnce(pass: string, one: string, two: string, t: Time, u: Time)
    requires u > t + 300_000
    ensures var ops := TwoRotations(pass, one, two, t, u);
            && Monotone(ops, t)
            && ActiveSecrets(Before(ops, 1), pass, u) == Some([one])
            && ActiveSecrets(Before(ops, 2), pass, u) == Some([two])
  {
    var ops := TwoRotations(pass, one, two, t, u);
    var v, w := SecretVersion(1, pass, one, t), SecretVersion(2, pass, two, u);
    FirstRotation(pass, one, two, t, u);
    SecondRotation(pass, one, two, t, u);
    LiveOne(v, 1, u - GRACE_PERIOD_MS);
    LiveOne(w, 2, u - GRACE_PERIOD_MS);
    DecryptOne(v);
    DecryptOne(w);
    assert ops[1..] == [ops[1]] && ops[1..][1..] == [];
    assert Monotone(ops[1..], t);
  }
}
