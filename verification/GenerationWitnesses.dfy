/** Runs of a publication that end badly: for every intact task directory there is a way to
    stop in each of the two states that recovery refuses. */
module GenerationWitnesses {
  import opened Wrappers
  import opened Generations
  import opened GenerationLaws

  /** An intact directory without leftovers: what recovery leaves behind. */
  ghost predicate Clean(d: Disk, n: nat) {
    Intact(d, n) && Unpublished(d, n) && n + 1 !in d.finals && n + 1 !in d.stagings
  }

  lemma {:induction false} PubRunAppend(n: nat, s: PubState, first: seq<Choice>, second: seq<Choice>)
    ensures PubRun(n, s, first + second) == PubRun(n, PubRun(n, s, first), second)
    decreases |first|
  {
    if first == [] {
      assert first + second == second;
    } else {
      assert (first + second)[0] == first[0] && (first + second)[1..] == first[1..] + second;
      PubRunAppend(n, PubNext(n, s, first[0]), first[1..], second);
    }
  }

  lemma PubRunOne(n: nat, s: PubState, ch: Choice)
    ensures PubRun(n, s, [ch]) == PubNext(n, s, ch)
  {
    assert [ch][1..] == [];
  }

  lemma PubRunTwo(n: nat, s: PubState, a: Choice, b: Choice)
    ensures PubRun(n, s, [a, b]) == PubNext(n, PubNext(n, s, a), b)
  {
    assert [a, b][1..] == [b];
    PubRunOne(n, PubNext(n, s, a), b);
  }

  /** The successor's directory is being prepared, with these contents. */
  predicate Staged(d0: Disk, n: nat, s: PubState, pc: Pub, contents: Tree) {
    s.pc == pc && s.disk.finals == d0.finals && s.disk.manifests == d0.manifests
    && n + 1 in s.disk.stagings && s.disk.stagings[n + 1] == contents
  }

  /** The successor's directory stands, with this manifest if any. */
  predicate Standing(d0: Disk, n: nat, s: PubState, pc: Pub, contents: Tree, manifest: Option<Manifest>) {
    && s.pc == pc && s.disk.finals == d0.finals[n + 1 := contents] && n + 1 !in s.disk.stagings
    && s.disk.manifests == if manifest.Some? then d0.manifests[n + 1 := manifest.value] else d0.manifests
  }

  function Copied(contents: Tree): seq<Choice> { [Go, Go] + [Chew(contents), Go] }

  lemma CopyRun(d0: Disk, n: nat)
    requires Clean(d0, n)
    ensures Reopens(d0, n)
    ensures var t := d0.manifests[n].tree;
            Staged(d0, n, PubRun(n, PubState(d0, ClearStaging), Copied(t)), Patching, t)
  {
    assert Reopens(d0, n);
    var s := PubState(d0, ClearStaging);
    var t := d0.manifests[n].tree;
    PubRunAppend(n, s, [Go, Go], [Chew(t), Go]);
    PubRunTwo(n, s, Go, Go);
    PubRunTwo(n, PubRun(n, s, [Go, Go]), Chew(t), Go);
  }

  lemma RenameRun(d0: Disk, n: nat, s: PubState, before: Tree, contents: Tree)
    requires Clean(d0, n) && Staged(d0, n, s, Patching, before)
    ensures Standing(d0, n, PubRun(n, s, [Chew(contents), Go]), Renamed, contents, None)
  {
    PubRunTwo(n, s, Chew(contents), Go);
  }

  /** Everything up to the moment the manifest is opened. */
  function Renaming(d0: Disk, n: nat, contents: Tree): seq<Choice>
    requires Reopens(d0, n)
  {
    Copied(d0.manifests[n].tree) + [Chew(contents), Go]
  }

  lemma RenamingRun(d0: Disk, n: nat, contents: Tree)
    requires Clean(d0, n)
    ensures Reopens(d0, n)
    ensures Standing(d0, n, PubRun(n, PubState(d0, ClearStaging), Renaming(d0, n, contents)), Renamed, contents, None)
  {
    CopyRun(d0, n);
    var s, t := PubState(d0, ClearStaging), d0.manifests[n].tree;
    PubRunAppend(n, s, Copied(t), [Chew(contents), Go]);
    RenameRun(d0, n, PubRun(n, s, Copied(t)), t, contents);
  }

  /** Stop after the manifest was opened: it is partial, its directory stands, and recovery
      refuses the task. */
  lemma PartialIsReachable(d0: Disk, n: nat, max: nat, contents: Tree)
    requires Clean(d0, n) && n < max
    ensures Reopens(d0, n)
    ensures var d := PubRun(n, PubState(d0, ClearStaging), Renaming(d0, n, contents) + [Go]).disk;
            && HasManifest(d, n) && d.manifests[n + 1].Partial? && HasFinal(d, n)
            && Recovered(d, n, max) == Failure(Unavailable)
  {
    RenamingRun(d0, n, contents);
    var s := PubState(d0, ClearStaging);
    PubRunAppend(n, s, Renaming(d0, n, contents), [Go]);
    PubRunOne(n, PubRun(n, s, Renaming(d0, n, contents)), Go);
    var d := PubRun(n, s, Renaming(d0, n, contents) + [Go]).disk;
    StandingKeeps(d0, n, d, contents, Partial);
  }

  lemma StandingKeeps(d0: Disk, n: nat, d: Disk, contents: Tree, m: Manifest)
    requires Clean(d0, n)
    requires d.finals == d0.finals[n + 1 := contents] && d.manifests == d0.manifests[n + 1 := m]
    ensures Reopens(d, n) && d.manifests[n] == d0.manifests[n]
    ensures n + 1 in d.manifests && d.manifests[n + 1] == m && n + 1 in d.finals && d.finals[n + 1] == contents
  {
    assert Reopens(d0, n);
  }

  lemma WriteRun(d0: Disk, n: nat, s: PubState, contents: Tree)
    requires Clean(d0, n) && Standing(d0, n, s, Renamed, contents, None)
    ensures n in d0.manifests && d0.manifests[n].Complete?
    ensures Standing(d0, n, PubRun(n, s, [Go, Go]), Written, contents,
              Some(Complete(Some(d0.manifests[n].tree), contents)))
  {
    assert Reopens(d0, n);
    PubRunTwo(n, s, Go, Go);
    assert d0.manifests[n + 1 := Partial][n + 1 := Complete(Some(d0.manifests[n].tree), contents)]
        == d0.manifests[n + 1 := Complete(Some(d0.manifests[n].tree), contents)];
  }

  lemma WritingRun(d0: Disk, n: nat, contents: Tree)
    requires Clean(d0, n)
    ensures Reopens(d0, n)
    ensures Standing(d0, n, PubRun(n, PubState(d0, ClearStaging), Renaming(d0, n, contents) + [Go, Go]), Written,
              contents, Some(Complete(Some(d0.manifests[n].tree), contents)))
  {
    RenamingRun(d0, n, contents);
    var s := PubState(d0, ClearStaging);
    PubRunAppend(n, s, Renaming(d0, n, contents), [Go, Go]);
    WriteRun(d0, n, PubRun(n, s, Renaming(d0, n, contents)), contents);
  }

  /** An exception after the manifest was written, a removal of the manifest that fails, and
      the rollback of the directory: a complete manifest without its directory is left, and
      recovery refuses the task. */
  lemma OrphanIsReachable(d0: Disk, n: nat, max: nat, contents: Tree)
    requires Clean(d0, n) && n < max
    ensures Reopens(d0, n)
    ensures var s := PubRun(n, PubState(d0, ClearStaging),
                      (Renaming(d0, n, contents) + [Go, Go]) + ([Raise, Raise] + [Go, Go]));
            && s.pc == Done(Raised) && HasManifest(s.disk, n)
            && s.disk.manifests[n + 1].Complete? && !HasFinal(s.disk, n)
            && Recovered(s.disk, n, max) == Failure(ManifestWithoutWorkspace)
  {
    WritingRun(d0, n, contents);
    var s := PubState(d0, ClearStaging);
    var written := PubRun(n, s, Renaming(d0, n, contents) + [Go, Go]);
    PubRunAppend(n, s, Renaming(d0, n, contents) + [Go, Go], [Raise, Raise] + [Go, Go]);
    PubRunAppend(n, written, [Raise, Raise], [Go, Go]);
    PubRunTwo(n, written, Raise, Raise);
    PubRunTwo(n, PubRun(n, written, [Raise, Raise]), Go, Go);
    assert Reopens(d0, n);
  }

  /** The ordinary course: the successor is published. */
  lemma PublishedIsReachable(d0: Disk, n: nat, contents: Tree)
    requires Clean(d0, n)
    ensures Reopens(d0, n)
    ensures Standing(d0, n, PubRun(n, PubState(d0, ClearStaging), (Renaming(d0, n, contents) + [Go, Go]) + [Go]),
              Done(Published),
              contents, Some(Complete(Some(d0.manifests[n].tree), contents)))
  {
    WritingRun(d0, n, contents);
    var s := PubState(d0, ClearStaging);
    PubRunAppend(n, s, Renaming(d0, n, contents) + [Go, Go], [Go]);
    PubRunOne(n, PubRun(n, s, Renaming(d0, n, contents) + [Go, Go]), Go);
  }
}
