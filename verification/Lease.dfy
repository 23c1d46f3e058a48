/** The lock file of one task, shared by any number of processes
    (`lease`, `delete_state` and `delete_idle_lock` in src/ulg/tasks/state.py, in the
    order `_clean_tasks` in src/ulg/cli.py calls them). */
module Lease {
  import opened Wrappers

  type Pid = nat
  type Inode = nat

  /** Where a process is. The inode is the one its descriptor refers to. `Holding` and
      `Emptied` have a loaded session; in `Emptied` it has deleted the state file. */
  datatype Place =
    | Idle
    | Opened(inode: Inode)
    | Locked(inode: Inode)
    | Holding(inode: Inode)
    | Emptied(inode: Inode)
    | Sweeping
    | SweepOpened(inode: Inode)
    | SweepLocked(inode: Inode)
    | SweepChecked(inode: Inode)

  /** `path` is the inode at the lock path; inodes from `unused` on were never used.
      `created` says that `create` ran for this task. */
  datatype World = World(path: Option<Inode>, unused: Inode, state: bool, created: bool, procs: map<Pid, Place>)

  function PlaceOf(w: World, p: Pid): Place {
    if p in w.procs then w.procs[p] else Idle
  }

  function Put(w: World, p: Pid, place: Place): World {
    w.(procs := w.procs[p := place])
  }

  /** The inode a process has locked. */
  function LockOf(place: Place): Option<Inode> {
    match place
    case Locked(i) => Some(i)
    case Holding(i) => Some(i)
    case Emptied(i) => Some(i)
    case SweepLocked(i) => Some(i)
    case SweepChecked(i) => Some(i)
    case _ => None
  }

  predicate Taken(w: World, i: Inode) {
    exists p :: p in w.procs && LockOf(PlaceOf(w, p)) == Some(i)
  }

  predicate Live(place: Place) {
    place.Holding? || place.Emptied?
  }

  datatype Step =
    | Create
    | OpenLease
    | Flock
    | Load
    | DeleteState
    | Release
    | OpenLock
    | CheckInode
    | Unlink
    | Die

  /** One step of one process. Leaving a lease closes the descriptor, and so does a
      failure or a crash anywhere: the lock is gone with it. */
  function Next(w: World, p: Pid, s: Step): World {
    match (PlaceOf(w, p), s)
    case (Idle, Create) => if w.state then w else w.(state := true, created := true)
    case (Idle, OpenLease) =>
      if w.path.Some? then Put(w, p, Opened(w.path.value))
      else Put(w.(path := Some(w.unused), unused := w.unused + 1), p, Opened(w.unused))
    case (Opened(i), Flock) => Put(w, p, if Taken(w, i) then Idle else Locked(i))
    case (Locked(i), Load) => Put(w, p, if w.state then Holding(i) else Idle)
    case (Holding(i), DeleteState) => if w.state then Put(w.(state := false), p, Emptied(i)) else Put(w, p, Idle)
    case (Emptied(i), Release) => Put(w, p, Sweeping)
    case (Sweeping, OpenLock) => Put(w, p, if w.path.Some? then SweepOpened(w.path.value) else Idle)
    case (SweepOpened(i), Flock) => Put(w, p, if Taken(w, i) then Idle else SweepLocked(i))
    case (SweepLocked(i), CheckInode) => Put(w, p, if w.path == Some(i) then SweepChecked(i) else Idle)
    case (SweepChecked(_), Unlink) => Put(w.(path := None), p, Idle)
    case (Holding(_), Release) => Put(w, p, Idle)
    case (_, Die) => Put(w, p, Idle)
    case _ => w
  }

  function Run(w: World, steps: seq<(Pid, Step)>): World
    decreases |steps|
  {
    if steps == [] then w else Run(Next(w, steps[0].0, steps[0].1), steps[1..])
  }

  /** Every `create` in the run is the first for this task: identifiers are random. */
  predicate OneCreate(w: World, steps: seq<(Pid, Step)>)
    decreases |steps|
  {
    steps == [] ||
    ((steps[0].1 == Create ==> !w.created) && OneCreate(Next(w, steps[0].0, steps[0].1), steps[1..]))
  }

  const START := World(None, 0, false, false, map[])

  // ---- what every step keeps ----

  predicate Gone(w: World) { w.created && !w.state }

  /** The descriptor of a process, if it has one. */
  function InodeOf(place: Place): Option<Inode> {
    match place
    case Opened(i) => Some(i)
    case SweepOpened(i) => Some(i)
    case _ => LockOf(place)
  }

  /** A process that deleted the state file. */
  predicate Deleter(place: Place) {
    place.Emptied? || place.Sweeping? || place.SweepOpened? || place.SweepLocked? || place.SweepChecked?
  }

  ghost predicate Exclusive(w: World) {
    forall p, q :: LockOf(PlaceOf(w, p)).Some? && LockOf(PlaceOf(w, p)) == LockOf(PlaceOf(w, q)) ==> p == q
  }

  ghost predicate OneDeleter(w: World) {
    forall p, q :: Deleter(PlaceOf(w, p)) && Deleter(PlaceOf(w, q)) ==> p == q
  }

  /** While the state file exists or is still to come, the lock path names one inode, the
      one every descriptor refers to. */
  predicate PlaceOk(w: World, place: Place) {
    && (InodeOf(place).Some? && !Gone(w) ==> w.path == InodeOf(place))
    && (Deleter(place) ==> Gone(w))
    && (place.Holding? ==> w.state)
    && (place.SweepOpened? || place.SweepLocked? || place.SweepChecked? ==> w.path == Some(place.inode))
  }

  ghost predicate PlacesOk(w: World) {
    forall p :: PlaceOk(w, PlaceOf(w, p))
  }

  /** Afterwards a single process may remove it. */
  ghost predicate Inv(w: World) {
    (w.state ==> w.created) && Exclusive(w) && OneDeleter(w) && PlacesOk(w)
  }

  lemma PutPlaces(w: World, base: World, p: Pid, place: Place)
    requires base.procs == w.procs
    ensures forall q :: PlaceOf(Put(base, p, place), q) == if q == p then place else PlaceOf(w, q)
  {
  }

  /** A step that moves one process, and perhaps the files. */
  lemma Moves(w: World, next: World, p: Pid, place: Place)
    requires Inv(w) && (next.state ==> next.created)
    requires forall q :: PlaceOf(next, q) == if q == p then place else PlaceOf(w, q)
    requires forall q :: q != p && LockOf(place).Some? ==> LockOf(PlaceOf(w, q)) != LockOf(place)
    requires forall q :: q != p && Deleter(place) ==> !Deleter(PlaceOf(w, q))
    requires PlaceOk(next, place) && forall q :: q != p && PlaceOk(w, PlaceOf(w, q)) ==> PlaceOk(next, PlaceOf(w, q))
    ensures Inv(next)
  {
  }

  /** A process moves on without touching the files. */
  lemma MoveKeeps(w: World, p: Pid, place: Place)
    requires Inv(w) && PlaceOk(w, place)
    requires LockOf(place).Some? ==> LockOf(place) == LockOf(PlaceOf(w, p)) || !Taken(w, LockOf(place).value)
    requires Deleter(place) ==> Deleter(PlaceOf(w, p))
    ensures Inv(Put(w, p, place))
  {
    PutPlaces(w, w, p, place);
    forall q | q != p && LockOf(place).Some? ensures LockOf(PlaceOf(w, q)) != LockOf(place) {
      assert q !in w.procs ==> PlaceOf(w, q).Idle?;
    }
    Moves(w, Put(w, p, place), p, place);
  }

  lemma FreshLock(w: World, p: Pid)
    requires Inv(w) && w.path.None? && PlaceOf(w, p).Idle?
    ensures var i := w.unused; Inv(Put(w.(path := Some(i), unused := i + 1), p, Opened(i)))
  {
    var base := w.(path := Some(w.unused), unused := w.unused + 1);
    PutPlaces(w, base, p, Opened(w.unused));
    Moves(w, Put(base, p, Opened(w.unused)), p, Opened(w.unused));
  }

  lemma DeleteKeeps(w: World, p: Pid, i: Inode)
    requires Inv(w) && PlaceOf(w, p) == Holding(i)
    ensures Inv(Put(w.(state := false), p, Emptied(i)))
  {
    var base := w.(state := false);
    PutPlaces(w, base, p, Emptied(i));
    assert PlaceOk(w, PlaceOf(w, p));
    forall q | q != p
      ensures LockOf(PlaceOf(w, q)) != Some(i) && !Deleter(PlaceOf(w, q))
      ensures PlaceOk(Put(base, p, Emptied(i)), PlaceOf(w, q))
    {
      assert PlaceOk(w, PlaceOf(w, q));
    }
    Moves(w, Put(base, p, Emptied(i)), p, Emptied(i));
  }

  lemma UnlinkKeeps(w: World, p: Pid, i: Inode)
    requires Inv(w) && PlaceOf(w, p) == SweepChecked(i)
    ensures Inv(Put(w.(path := None), p, Idle))
  {
    var base := w.(path := None);
    PutPlaces(w, base, p, Idle);
    assert PlaceOk(w, PlaceOf(w, p));
    forall q | q != p ensures PlaceOk(Put(base, p, Idle), PlaceOf(w, q)) {
      assert PlaceOk(w, PlaceOf(w, q)) && !Deleter(PlaceOf(w, q));
    }
    Moves(w, Put(base, p, Idle), p, Idle);
  }

  lemma CreateKeeps(w: World, p: Pid)
    requires Inv(w) && !w.created && PlaceOf(w, p).Idle?
    ensures Inv(w.(state := true, created := true))
  {
    var next := w.(state := true, created := true);
    forall q ensures PlaceOf(next, q) == PlaceOf(w, q) && PlaceOk(next, PlaceOf(w, q)) {
      assert PlaceOk(w, PlaceOf(w, q));
    }
    Moves(w, next, p, Idle);
  }

  lemma StepKeeps(w: World, p: Pid, s: Step)
    requires Inv(w) && (s == Create ==> !w.created)
    ensures Inv(Next(w, p, s))
  {
    var place := PlaceOf(w, p);
    assert PlaceOk(w, place);
    if s == Create && place.Idle? && !w.state {
      CreateKeeps(w, p);
    } else if s == OpenLease && place.Idle? && w.path.None? {
      FreshLock(w, p);
    } else if s == DeleteState && place.Holding? && w.state {
      DeleteKeeps(w, p, place.inode);
    } else if s == Unlink && place.SweepChecked? {
      UnlinkKeeps(w, p, place.inode);
    } else if Next(w, p, s) != w {
      MoveKeeps(w, p, PlaceOf(Next(w, p, s), p));
    }
  }

  lemma {:induction false} RunKeeps(w: World, steps: seq<(Pid, Step)>)
    requires Inv(w) && OneCreate(w, steps)
    ensures Inv(Run(w, steps))
    decreases |steps|
  {
    if steps != [] {
      StepKeeps(w, steps[0].0, steps[0].1);
      RunKeeps(Next(w, steps[0].0, steps[0].1), steps[1..]);
    }
  }

  /** One live session: however many processes lease, die, clean and sweep, two of them
      never hold a loaded session of the same task, although the lock inode is removed. */
  lemma OneLiveSession(steps: seq<(Pid, Step)>, p: Pid, q: Pid)
    requires OneCreate(START, steps)
    requires Live(PlaceOf(Run(START, steps), p)) && Live(PlaceOf(Run(START, steps), q))
    ensures p == q
  {
    RunKeeps(START, steps);
    var w := Run(START, steps);
    assert PlaceOk(w, PlaceOf(w, p)) && PlaceOk(w, PlaceOf(w, q));
  }

  /** And the lock path is only ever removed once the state file is gone, by the process
      that deleted it, and it is the inode this process has locked: the identity check
      before the removal never fails. */
  lemma RemovedLast(steps: seq<(Pid, Step)>, p: Pid)
    requires OneCreate(START, steps)
    ensures var w := Run(START, steps);
            && (Next(w, p, Unlink).path != w.path ==> Gone(w) && w.path == LockOf(PlaceOf(w, p)))
            && (PlaceOf(w, p).SweepLocked? ==> PlaceOf(Next(w, p, CheckInode), p).SweepChecked?)
  {
    RunKeeps(START, steps);
    var w := Run(START, steps);
    assert PlaceOk(w, PlaceOf(w, p));
  }

  // ---- the assumption is needed ----

  /** A process that opened the lock file of a deleted task, and the sweeper about to
      remove that file. */
  const RACE := World(Some(0), 1, false, true, map[0 := SweepChecked(0), 1 := Opened(0)])

  lemma RaceIsReachable()
    ensures Run(START, [(0, Create), (0, OpenLease), (0, Flock), (0, Load), (0, DeleteState), (0, Release),
                        (1, OpenLease), (0, OpenLock), (0, Flock), (0, CheckInode)]) == RACE
  {
    var w1 := World(Some(0), 1, true, true, map[0 := Opened(0)]);
    assert Next(Next(START, 0, Create), 0, OpenLease) == w1;
    var w2 := World(Some(0), 1, true, true, map[0 := Holding(0)]);
    assert Next(w1, 0, Flock) == World(Some(0), 1, true, true, map[0 := Locked(0)]);
    assert Next(Next(w1, 0, Flock), 0, Load) == w2;
    var w3 := World(Some(0), 1, false, true, map[0 := Sweeping, 1 := Opened(0)]);
    assert Next(Next(Next(w2, 0, DeleteState), 0, Release), 1, OpenLease) == w3;
    var w4 := World(Some(0), 1, false, true, map[0 := SweepOpened(0), 1 := Opened(0)]);
    assert Next(w3, 0, OpenLock) == w4;
    assert !Taken(w4, 0);
    assert Next(Next(w4, 0, Flock), 0, CheckInode) == RACE;
  }

  /** With a second `create` for the same identifier two sessions can be live: process 1
      opened the old lock file just before process 0 removes it; process 2 recreates the
      task and leases it through a new lock file; then process 1 locks the old one. */
  lemma SecondCreateBreaks()
    ensures var w := Run(RACE, [(0, Unlink), (2, Create), (2, OpenLease), (2, Flock), (2, Load),
              (1, Flock), (1, Load)]);
            PlaceOf(w, 1) == Holding(0) && PlaceOf(w, 2) == Holding(1)
  {
    var w1 := World(None, 1, true, true, map[0 := Idle, 1 := Opened(0)]);
    assert Next(Next(RACE, 0, Unlink), 2, Create) == w1;
    var w2 := World(Some(1), 2, true, true, map[0 := Idle, 1 := Opened(0), 2 := Opened(1)]);
    assert Next(w1, 2, OpenLease) == w2;
    assert !Taken(w2, 1);
    var w3 := World(Some(1), 2, true, true, map[0 := Idle, 1 := Opened(0), 2 := Holding(1)]);
    assert Next(Next(w2, 2, Flock), 2, Load) == w3;
    assert !Taken(w3, 0);
    var w4 := World(Some(1), 2, true, true, map[0 := Idle, 1 := Holding(0), 2 := Holding(1)]);
    assert Next(Next(w3, 1, Flock), 1, Load) == w4;
  }
}
