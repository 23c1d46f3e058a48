/** Workspace generations on disk: publishing a successor and recovering the latest one
    (src/ulg/workspace/manager.py, src/ulg/workspace/editor.py). */
module Generations {
  import opened Wrappers

  /** A directory's contents, identified by their tree digest. */
  type Tree = nat

  /** A manifest is written in place, so it can be cut short. */
  datatype Manifest = Partial | Complete(parent: Option<Tree>, tree: Tree)

  /** One task's directory: `generation-k`, `generation-k.staging`, `manifest-k.json`. */
  datatype Disk = Disk(finals: map<nat, Tree>, stagings: map<nat, Tree>, manifests: map<nat, Manifest>)

  datatype RecoverError = Unavailable | ChainBroken | ManifestWithoutWorkspace

  /** A well-formed manifest that matches the directory it describes: what `reopen`
      verifies. Generation 0 names no parent, every other one does. */
  predicate Reopens(d: Disk, g: nat) {
    && g in d.manifests && d.manifests[g].Complete?
    && (d.manifests[g].parent.None? <==> g == 0)
    && g in d.finals && d.finals[g] == d.manifests[g].tree
  }

  /** Manifest `g + 1` names the tree of manifest `g` as its parent. */
  predicate Linked(d: Disk, g: nat) {
    && g in d.manifests && d.manifests[g].Complete?
    && g + 1 in d.manifests && d.manifests[g + 1].Complete?
    && d.manifests[g + 1].parent == Some(d.manifests[g].tree)
  }

  /** The walk from a verified generation `g`. */
  function Walk(d: Disk, g: nat, max: nat): Result<nat, RecoverError>
    decreases max - g
  {
    if g >= max then Success(g)
    else if g + 1 in d.finals && g + 1 in d.manifests then
      if !Reopens(d, g + 1) then Failure(Unavailable)
      else if !Linked(d, g) then Failure(ChainBroken)
      else Walk(d, g + 1, max)
    else if g + 1 in d.manifests then Failure(ManifestWithoutWorkspace)
    else Success(g)
  }

  /** What `recover_latest` returns. */
  function Recovered(d: Disk, g: nat, max: nat): Result<nat, RecoverError> {
    if Reopens(d, g) then Walk(d, g, max) else Failure(Unavailable)
  }

  /** The disk without any leftover of generation `g`. */
  function WithoutLeftovers(d: Disk, g: nat): Disk {
    d.(finals := d.finals - {g}, stagings := d.stagings - {g})
  }

  /** The disk `recover_latest` leaves behind. */
  function RecoveredDisk(d: Disk, g: nat, max: nat): Disk {
    match Recovered(d, g, max)
    case Failure(_) => d
    case Success(m) => if m < max then WithoutLeftovers(d, m + 1) else d
  }

  class Workspace {
    var disk: Disk
    const maxGenerations: nat

    constructor (disk: Disk, maxGenerations: nat)
      ensures this.disk == disk && this.maxGenerations == maxGenerations
    {
      this.disk := disk;
      this.maxGenerations := maxGenerations;
    }

    /** `recover_latest` */
    method RecoverLatest(generation: nat) returns (r: Result<nat, RecoverError>)
      modifies this
      ensures r == Recovered(old(disk), generation, maxGenerations)
      ensures disk == RecoveredDisk(old(disk), generation, maxGenerations)
    {
      if !Reopens(disk, generation) { return Failure(Unavailable); }
      var current: nat := generation;
      while current < maxGenerations
        invariant disk == old(disk)
        invariant Walk(disk, generation, maxGenerations) == Walk(disk, current, maxGenerations)
        invariant Reopens(disk, current)
        decreases maxGenerations - current
      {
        var next := current + 1;
        var finalExists := next in disk.finals;
        var manifestExists := next in disk.manifests;
        if finalExists && manifestExists {
          if !Reopens(disk, next) { return Failure(Unavailable); }
          if !Linked(disk, current) { return Failure(ChainBroken); }
          current := next;
          continue;
        }
        if manifestExists && !finalExists { return Failure(ManifestWithoutWorkspace); }
        if finalExists {
          disk := disk.(finals := disk.finals - {next});
        }
        if next in disk.stagings {
          disk := disk.(stagings := disk.stagings - {next});
        }
        assert disk.finals == old(disk).finals - {next};
        assert disk.stagings == old(disk).stagings - {next};
        return Success(current);
      }
      return Success(current);
    }
  }

  // ---- publishing a successor, one atomic change at a time ----

  datatype Verdict = Published | Rejected | Raised

  /** Where `WorkspaceEditor.apply` is, for a workspace at generation `n`. */
  datatype Pub =
    | ClearStaging
    | ClearFinal
    | Copying
    | Patching
    | Renamed
    | Writing
    | Written
    | Unlinking
    | Unwinding(rejected: bool, published: bool)
    | Done(verdict: Verdict)

  /** What happens next: the ordinary step; some contents of the directory at hand
      change (a copy, an edit or a removal part-way); a `PatchError`; another exception;
      or the manifest's descriptor fails to close after a complete write. */
  datatype Choice = Go | Chew(contents: Tree) | Reject | Raise | CloseFails

  datatype PubState = PubState(disk: Disk, pc: Pub)

  function DropStaging(d: Disk, g: nat): Disk { d.(stagings := d.stagings - {g}) }
  function DropFinal(d: Disk, g: nat): Disk { d.(finals := d.finals - {g}) }
  function SetStaging(d: Disk, g: nat, t: Tree): Disk { d.(stagings := d.stagings[g := t]) }
  function SetFinal(d: Disk, g: nat, t: Tree): Disk { d.(finals := d.finals[g := t]) }
  function SetManifest(d: Disk, g: nat, m: Manifest): Disk { d.(manifests := d.manifests[g := m]) }
  function DropManifest(d: Disk, g: nat): Disk { d.(manifests := d.manifests - {g}) }

  /** One step of `apply` after the patch was parsed and authorised. */
  function PubNext(n: nat, s: PubState, ch: Choice): PubState {
    var (d, g) := (s.disk, n + 1);
    match s.pc
    case ClearStaging =>
      if g !in d.stagings then PubState(d, ClearFinal)
      else (match ch
        case Go => PubState(DropStaging(d, g), ClearFinal)
        case Chew(t) => PubState(SetStaging(d, g, t), ClearStaging)
        case _ => PubState(d, Done(Raised)))
    case ClearFinal =>
      if g !in d.finals then
        // the copy starts from the verified source manifest
        if ch.Go? && Reopens(d, n) then PubState(SetStaging(d, g, 0), Copying)
        else PubState(d, Unwinding(false, false))
      else if g in d.manifests then PubState(d, Done(Raised))
      else (match ch
        case Go => PubState(DropFinal(d, g), ClearFinal)
        case Chew(t) => PubState(SetFinal(d, g, t), ClearFinal)
        case _ => PubState(d, Done(Raised)))
    case Copying =>
      (match ch
        case Chew(t) => PubState(SetStaging(d, g, t), Copying)
        case Go =>
          // the copy is scanned and compared with the source manifest
          if g in d.stagings && Reopens(d, n) && d.stagings[g] == d.manifests[n].tree then PubState(d, Patching)
          else PubState(d, Unwinding(false, false))
        case _ => PubState(d, Unwinding(false, false)))
    case Patching =>
      (match ch
        case Chew(t) => PubState(SetStaging(d, g, t), Patching)
        case Go =>
          if g in d.stagings then PubState(DropStaging(SetFinal(d, g, d.stagings[g]), g), Renamed)
          else PubState(d, Unwinding(false, false))
        case Reject => PubState(d, Unwinding(true, false))
        case _ => PubState(d, Unwinding(false, false)))
    case Renamed =>
      if ch.Go? && g !in d.manifests then PubState(SetManifest(d, g, Partial), Writing)
      else PubState(d, Unwinding(false, true))
    case Writing =>
      if ch.Go? && n in d.manifests && d.manifests[n].Complete? && g in d.finals then
        PubState(SetManifest(d, g, Complete(Some(d.manifests[n].tree), d.finals[g])), Written)
      else PubState(d, Unlinking)
    case Written =>
      (match ch
        case Go => PubState(d, Done(Published))
        case CloseFails => PubState(d, Unwinding(false, true))
        case _ => PubState(d, Unlinking))
    case Unlinking =>
      if ch.Go? then PubState(DropManifest(d, g), Unwinding(false, true))
      else PubState(d, Unwinding(false, true))
    case Unwinding(rejected, published) =>
      if g in d.stagings then
        (match ch
          case Go => PubState(DropStaging(d, g), s.pc)
          case Chew(t) => PubState(SetStaging(d, g, t), s.pc)
          case _ => PubState(d, Done(Raised)))
      else if published && g in d.finals then
        (match ch
          case Go => PubState(DropFinal(d, g), s.pc)
          case Chew(t) => PubState(SetFinal(d, g, t), s.pc)
          case _ => PubState(d, Done(Raised)))
      else PubState(d, Done(if rejected then Rejected else Raised))
    case Done(_) => s
  }

  function PubRun(n: nat, s: PubState, choices: seq<Choice>): PubState
    decreases |choices|
  {
    if choices == [] then s else PubRun(n, PubNext(n, s, choices[0]), choices[1..])
  }
}
