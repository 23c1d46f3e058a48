/** Crash safety of publication, and what recovery finds afterwards. */
module GenerationLaws {
  import opened Wrappers
  import opened Generations

  /** Generations 0 to `n` are complete, verified and chained. */
  ghost predicate Intact(d: Disk, n: nat) {
    && (forall k: nat {:trigger Reopens(d, k)} :: k <= n ==> Reopens(d, k))
    && (forall k: nat {:trigger Linked(d, k)} :: k < n ==> Linked(d, k))
  }

  /** No manifest beyond generation `n`. Directories without one may be there. */
  predicate Unpublished(d: Disk, n: nat) {
    forall k :: k in d.manifests ==> k <= n
  }

  /** Two disks agree on everything but the successor of `n`. */
  ghost predicate SameBut(d0: Disk, d: Disk, n: nat) {
    && d.finals - {n + 1} == d0.finals - {n + 1}
    && d.stagings - {n + 1} == d0.stagings - {n + 1}
    && d.manifests - {n + 1} == d0.manifests - {n + 1}
  }

  predicate HasManifest(d: Disk, n: nat) { n + 1 in d.manifests }
  predicate HasFinal(d: Disk, n: nat) { n + 1 in d.finals }
  predicate HasStaging(d: Disk, n: nat) { n + 1 in d.stagings }

  /** A manifest that can stand at `n + 1`: cut short, or complete and linked. */
  predicate ManifestShape(d: Disk, n: nat) {
    HasManifest(d, n) ==> d.manifests[n + 1].Partial? || Linked(d, n)
  }

  /** What each point of `apply` knows about the successor. */
  predicate At(d: Disk, n: nat, pc: Pub) {
    match pc
    case ClearStaging => !HasManifest(d, n)
    case ClearFinal => !HasManifest(d, n) && !HasStaging(d, n)
    case Copying => !HasManifest(d, n) && !HasFinal(d, n)
    case Patching => !HasManifest(d, n) && !HasFinal(d, n)
    case Renamed => !HasManifest(d, n) && HasFinal(d, n) && !HasStaging(d, n)
    case Writing => HasManifest(d, n) && d.manifests[n + 1].Partial? && HasFinal(d, n) && !HasStaging(d, n)
    case Written => Reopens(d, n + 1) && Linked(d, n) && !HasStaging(d, n)
    case Unlinking => HasFinal(d, n) && !HasStaging(d, n) && ManifestShape(d, n)
    case Unwinding(rejected, published) =>
      && ManifestShape(d, n)
      && (!published ==> !HasManifest(d, n) && !HasFinal(d, n))
      && (rejected ==> !published)
    case Done(Published) => Reopens(d, n + 1) && Linked(d, n) && !HasStaging(d, n)
    case Done(Rejected) => !HasManifest(d, n) && !HasFinal(d, n) && !HasStaging(d, n)
    case Done(Raised) => ManifestShape(d, n)
  }

  ghost predicate PubInv(d0: Disk, n: nat, s: PubState) {
    Intact(d0, n) && SameBut(d0, s.disk, n) && At(s.disk, n, s.pc)
  }

  lemma SameButReopens(d0: Disk, d: Disk, n: nat, k: nat)
    requires SameBut(d0, d, n) && k <= n
    ensures Reopens(d0, k) == Reopens(d, k)
    ensures k < n ==> Linked(d0, k) == Linked(d, k)
  {
    assert k in d.finals <==> k in d.finals - {n + 1};
    assert k in d0.finals <==> k in d0.finals - {n + 1};
    assert k in d.manifests <==> k in d.manifests - {n + 1};
    assert k in d0.manifests <==> k in d0.manifests - {n + 1};
    assert k in d.finals ==> d.finals[k] == (d.finals - {n + 1})[k];
    assert k in d0.finals ==> d0.finals[k] == (d0.finals - {n + 1})[k];
    assert k in d.manifests ==> d.manifests[k] == (d.manifests - {n + 1})[k];
    assert k in d0.manifests ==> d0.manifests[k] == (d0.manifests - {n + 1})[k];
    if k < n {
      assert k + 1 in d.manifests <==> k + 1 in d.manifests - {n + 1};
      assert k + 1 in d0.manifests <==> k + 1 in d0.manifests - {n + 1};
      assert k + 1 in d.manifests ==> d.manifests[k + 1] == (d.manifests - {n + 1})[k + 1];
      assert k + 1 in d0.manifests ==> d0.manifests[k + 1] == (d0.manifests - {n + 1})[k + 1];
    }
  }

  /** Earlier generations and their manifests survive whatever happens to the successor. */
  lemma SameButIntact(d0: Disk, d: Disk, n: nat)
    requires Intact(d0, n) && SameBut(d0, d, n)
    ensures Intact(d, n)
  {
    forall k: nat | k <= n ensures Reopens(d, k) { SameButReopens(d0, d, n, k); }
    forall k: nat | k < n ensures Linked(d, k) { SameButReopens(d0, d, n, k); }
  }

  /** Each step only touches the successor. */
  lemma PubFrame(n: nat, s: PubState, ch: Choice)
    ensures SameBut(s.disk, PubNext(n, s, ch).disk, n)
  {
    var d, e := s.disk, PubNext(n, s, ch).disk;
    assert d.finals - {n + 1} == e.finals - {n + 1};
    assert d.stagings - {n + 1} == e.stagings - {n + 1};
    assert d.manifests - {n + 1} == e.manifests - {n + 1};
  }

  lemma AtStep(n: nat, s: PubState, ch: Choice)
    requires At(s.disk, n, s.pc)
    ensures At(PubNext(n, s, ch).disk, n, PubNext(n, s, ch).pc)
  {
  }

  lemma PubStep(d0: Disk, n: nat, s: PubState, ch: Choice)
    requires PubInv(d0, n, s)
    ensures PubInv(d0, n, PubNext(n, s, ch))
  {
    PubFrame(n, s, ch);
    AtStep(n, s, ch);
  }

  lemma {:induction false} PubRunInv(d0: Disk, n: nat, s: PubState, choices: seq<Choice>)
    requires PubInv(d0, n, s)
    ensures PubInv(d0, n, PubRun(n, s, choices))
    decreases |choices|
  {
    if choices != [] {
      PubStep(d0, n, s, choices[0]);
      PubRunInv(d0, n, PubNext(n, s, choices[0]), choices[1..]);
    }
  }

  // ---- recovery ----

  /** Recovery from a disk whose manifests end at `n + 1`, by what stands there. */
  lemma RecoverShapes(d: Disk, n: nat, max: nat)
    requires Intact(d, n) && n < max
    requires forall k :: k in d.manifests ==> k <= n + 1
    requires ManifestShape(d, n)
    ensures Recovered(d, n, max) ==
            if !HasManifest(d, n) then Success(n)
            else if !HasFinal(d, n) then Failure(ManifestWithoutWorkspace)
            else if Reopens(d, n + 1) then Success(n + 1)
            else Failure(Unavailable)
  {
    assert Reopens(d, n);
    if HasManifest(d, n) && HasFinal(d, n) && Reopens(d, n + 1) {
      assert n + 2 !in d.manifests;
      assert Linked(d, n);
      assert Walk(d, n, max) == Walk(d, n + 1, max);
      assert Walk(d, n + 1, max) == Success(n + 1);
    }
  }

  /** Publish and recover. Stop `apply` after any number of steps, whatever its failures:
      generations up to `n` and their manifests are untouched, and recovery returns `n`
      with the leftovers gone, or `n + 1` complete and linked to `n`, or raises exactly
      when a manifest was left without a directory that matches it. */
  lemma PublishAndRecover(d0: Disk, n: nat, max: nat, choices: seq<Choice>)
    requires Intact(d0, n) && Unpublished(d0, n) && n < max
    ensures var d := PubRun(n, PubState(d0, ClearStaging), choices).disk;
            var r := Recovered(d, n, max);
            var after := RecoveredDisk(d, n, max);
            && SameBut(d0, d, n) && Intact(d, n)
            && (r == Success(n) <==> !HasManifest(d, n))
            && (r == Success(n) ==> after.finals == d.finals - {n + 1} && !HasStaging(after, n))
            && (r == Success(n + 1) <==> Reopens(d, n + 1))
            && (r == Success(n + 1) ==> Linked(d, n) && Intact(after, n + 1))
            && (r.Failure? <==> HasManifest(d, n) && !Reopens(d, n + 1))
  {
    var s := PubState(d0, ClearStaging);
    var end := PubRun(n, s, choices);
    var d := end.disk;
    PubRunInv(d0, n, s, choices);
    SameButIntact(d0, d, n);
    forall k | k in d.manifests ensures k <= n + 1 {
      assert k in d.manifests - {n + 1} || k == n + 1;
    }
    RecoverShapes(d, n, max);
    if Reopens(d, n + 1) {
      AdoptIntact(d, n);
      if n + 1 < max {
        CleanIntact(d, n + 1);
      }
    }
  }

  lemma AdoptIntact(d: Disk, n: nat)
    requires Intact(d, n) && Reopens(d, n + 1) && Linked(d, n)
    ensures Intact(d, n + 1)
  {
    forall k: nat | k <= n + 1 ensures Reopens(d, k) {
      if k <= n { assert Reopens(d, k); }
    }
    forall k: nat | k < n + 1 ensures Linked(d, k) {
      if k < n { assert Linked(d, k); }
    }
  }

  lemma CleanIntact(d: Disk, n: nat)
    requires Intact(d, n)
    ensures Intact(WithoutLeftovers(d, n + 1), n)
  {
    var e := WithoutLeftovers(d, n + 1);
    assert SameBut(d, e, n) by {
      assert e.finals - {n + 1} == d.finals - {n + 1};
      assert e.stagings - {n + 1} == d.stagings - {n + 1};
    }
    SameButIntact(d, e, n);
  }

  // ---- when raising means a partial manifest ----

  /** Runs in which removing and closing the manifest never fail. */
  predicate TidyStep(s: PubState, ch: Choice) {
    && (s.pc.Unlinking? ==> ch.Go?)
    && (s.pc.Written? ==> !ch.CloseFails?)
  }

  predicate TidyRun(n: nat, s: PubState, choices: seq<Choice>)
    decreases |choices|
  {
    choices == [] || (TidyStep(s, choices[0]) && TidyRun(n, PubNext(n, s, choices[0]), choices[1..]))
  }

  /** In a tidy run a manifest never outlives its directory. */
  predicate Tidy(d: Disk, n: nat, pc: Pub) {
    && (HasManifest(d, n) ==> HasFinal(d, n) && (d.manifests[n + 1].Complete? ==> Reopens(d, n + 1)))
    && (pc.Unwinding? ==> !HasManifest(d, n))
  }

  lemma {:induction false} TidyRunKeeps(d0: Disk, n: nat, s: PubState, choices: seq<Choice>)
    requires PubInv(d0, n, s) && Tidy(s.disk, n, s.pc) && TidyRun(n, s, choices)
    ensures Tidy(PubRun(n, s, choices).disk, n, PubRun(n, s, choices).pc)
    decreases |choices|
  {
    if choices != [] {
      PubStep(d0, n, s, choices[0]);
      TidyStepKeeps(d0, n, s, choices[0]);
      TidyRunKeeps(d0, n, PubNext(n, s, choices[0]), choices[1..]);
    }
  }

  lemma TidyStepKeeps(d0: Disk, n: nat, s: PubState, ch: Choice)
    requires PubInv(d0, n, s) && Tidy(s.disk, n, s.pc) && TidyStep(s, ch)
    ensures Tidy(PubNext(n, s, ch).disk, n, PubNext(n, s, ch).pc)
  {
    SameButIntact(d0, s.disk, n);
    assert Reopens(s.disk, n);
  }

  /** Without such a failure, recovery raises exactly when manifest `n + 1` was left
      partial. */
  lemma RaisesExactlyOnPartial(d0: Disk, n: nat, max: nat, choices: seq<Choice>)
    requires Intact(d0, n) && Unpublished(d0, n) && n < max
    requires TidyRun(n, PubState(d0, ClearStaging), choices)
    ensures var d := PubRun(n, PubState(d0, ClearStaging), choices).disk;
            Recovered(d, n, max).Failure? <==> HasManifest(d, n) && d.manifests[n + 1].Partial?
  {
    PublishAndRecover(d0, n, max, choices);
    TidyRunKeeps(d0, n, PubState(d0, ClearStaging), choices);
  }

  /** A verdict tells the truth: `Published` means recovery finds `n + 1`, `Rejected`
      means it finds `n` with nothing left of the attempt. */
  lemma VerdictIsTrue(d0: Disk, n: nat, max: nat, choices: seq<Choice>)
    requires Intact(d0, n) && Unpublished(d0, n) && n < max
    ensures var end := PubRun(n, PubState(d0, ClearStaging), choices);
            && (end.pc == Done(Published) ==> Recovered(end.disk, n, max) == Success(n + 1))
            && (end.pc == Done(Rejected) ==>
                 Recovered(end.disk, n, max) == Success(n) && !HasFinal(end.disk, n) && !HasStaging(end.disk, n))
  {
    PublishAndRecover(d0, n, max, choices);
    PubRunInv(d0, n, PubState(d0, ClearStaging), choices);
  }
}
