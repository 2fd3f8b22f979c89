/**
 * Many handles at once. A `World` records which descriptor each live handle
 * holds, the descriptor table and the log of calls made into it; each `Op`
 * is one operation of `detail::file` applied to named handles, with the same
 * close rules as the class (`AfterClose`, `CloseCalls`, `TableAfterClose`).
 * The OS outcome of a close does not appear: `m_fd` ends up the same
 * whichever way the call goes.
 *
 * The theorem `RunSafe`: as long as raw descriptors handed to the
 * constructor are the caller's to give, no two live handles ever share a
 * descriptor of 2 or more, every such descriptor a handle holds is open,
 * and every close call the handles make finds its descriptor open.
 */
module Ownership {
  import opened OsEnv
  import opened FileHandle

  type HandleId = nat

  datatype World = World(handles: map<HandleId, int>, open: set<int>, log: seq<OsEvent>)

  datatype Op =
    | OpenNew(h: HandleId, osFd: int)          // a handle built from `open_file`, given what the OS open returned
    | Adopt(h: HandleId, fd: int)              // `file(int)`
    | MoveConstruct(dst: HandleId, src: HandleId)
    | MoveAssign(dst: HandleId, src: HandleId)
    | ExplicitClose(h: HandleId)               // `close()`
    | Destruct(h: HandleId)                    // `~file()`

  /** Some live handle holds `fd`. */
  predicate Held(w: World, fd: int)
  {
    fd in w.handles.Values
  }

  /** The handles an operation may change, create or remove. */
  function Touched(op: Op): set<HandleId>
  {
    match op
    case OpenNew(h, _) => {h}
    case Adopt(h, _) => {h}
    case MoveConstruct(dst, src) => {dst, src}
    case MoveAssign(dst, src) => {dst, src}
    case ExplicitClose(h) => {h}
    case Destruct(h) => {h}
  }

  /**
   * One operation, or None when it cannot take place: a handle that is not
   * live (or, for a new one, already live), a self-move, an OS open that
   * hands out a number in use, or a raw descriptor of 2 or more that is not
   * open or already held (validity is the caller's responsibility).
   */
  function Apply(w: World, op: Op): (r: Option<World>)
    ensures r.Some? ==> |w.log| <= |r.value.log| <= |w.log| + 1 && r.value.log[..|w.log|] == w.log
    ensures r.Some? ==> forall h :: h in w.handles && h !in Touched(op) ==>
              h in r.value.handles && r.value.handles[h] == w.handles[h]
    ensures r.Some? ==> forall h :: h in r.value.handles ==> h in w.handles || h in Touched(op)
  {
    match op
    case OpenNew(h, osFd) =>
      if h in w.handles || osFd in w.open then None
      else if osFd < 0 then Some(w)
      else Some(World(w.handles[h := osFd], w.open + {osFd}, w.log + [Opened(osFd)]))
    case Adopt(h, fd) =>
      if h in w.handles || (IssuesClose(fd) && (fd !in w.open || Held(w, fd))) then None
      else Some(w.(handles := w.handles[h := fd]))
    case MoveConstruct(dst, src) =>
      if dst in w.handles || src !in w.handles then None
      else Some(w.(handles := w.handles[dst := w.handles[src]][src := Empty]))
    case MoveAssign(dst, src) =>
      if dst !in w.handles || src !in w.handles || dst == src then None
      else
        var fd := w.handles[dst];
        Some(World(w.handles[dst := w.handles[src]][src := Empty],
                   TableAfterClose(w.open, fd), w.log + CloseCalls(fd)))
    case ExplicitClose(h) =>
      if h !in w.handles then None
      else
        var fd := w.handles[h];
        Some(World(w.handles[h := AfterClose(fd)], TableAfterClose(w.open, fd), w.log + CloseCalls(fd)))
    case Destruct(h) =>
      if h !in w.handles then None
      else
        var fd := w.handles[h];
        Some(World(w.handles - {h}, TableAfterClose(w.open, fd), w.log + CloseCalls(fd)))
  }

  /** A sequence of operations, or None when one of them cannot take place. */
  function Run(w: World, ops: seq<Op>): Option<World>
    decreases |ops|
  {
    if ops == [] then Some(w)
    else match Apply(w, ops[0])
      case None => None
      case Some(next) => Run(next, ops[1..])
  }

  /** Every descriptor of 2 or more a live handle holds is open, and held by that handle alone. */
  ghost predicate Inv(w: World)
  {
    (forall h :: h in w.handles && IssuesClose(w.handles[h]) ==> w.handles[h] in w.open) &&
    (forall h, g :: h in w.handles && g in w.handles && h != g && IssuesClose(w.handles[h]) ==>
       w.handles[h] != w.handles[g])
  }

  /** No close call in `log` is for descriptor 0, 1 or a negative number. */
  predicate NoLowClose(log: seq<OsEvent>)
  {
    forall e :: e in log && e.CloseCalled? ==> IssuesClose(e.fd)
  }

  /** What one operation adds: the calls it makes, all valid against the table, none on a low descriptor. */
  ghost predicate SafeStep(w: World, w': World)
  {
    |w.log| <= |w'.log| && w'.log[..|w.log|] == w.log &&
    Replay(w.open, w'.log[|w.log|..]) == Some(w'.open) &&
    NoLowClose(w'.log[|w.log|..])
  }

  /** Each operation keeps `Inv` and makes only valid calls. */
  lemma {:induction false} StepSafe(w: World, op: Op)
    requires Inv(w) && Apply(w, op).Some?
    ensures Inv(Apply(w, op).value) && SafeStep(w, Apply(w, op).value)
  {
  }

  /**
   * Any run keeps `Inv`; the calls it makes, replayed from the table it
   * started with, never open a number in use and never close one that is
   * not open, and none closes descriptor 0 or 1.
   */
  lemma {:induction false} RunSafe(w: World, ops: seq<Op>)
    requires Inv(w) && Run(w, ops).Some?
    ensures Inv(Run(w, ops).value) && SafeStep(w, Run(w, ops).value)
    decreases |ops|
  {
    if ops == [] {
      assert w.log[|w.log|..] == [];
    } else {
      var next := Apply(w, ops[0]).value;
      StepSafe(w, ops[0]);
      RunSafe(next, ops[1..]);
      var last := Run(w, ops).value;
      var a, b := next.log[|w.log|..], last.log[|next.log|..];
      assert last.log[..|next.log|] == next.log;
      assert last.log[|w.log|..] == a + b;
      assert last.log[..|w.log|] == w.log;
      ReplayAppend(w.open, a, b);
      forall e: OsEvent | e in a + b && e.CloseCalled? ensures IssuesClose(e.fd) {
        assert e in a || e in b;
      }
    }
  }

  /**
   * Starting from an empty log, a descriptor number the handles close twice
   * was handed out again by an open in between: each acquisition is released
   * at most once.
   */
  lemma ReleasedAtMostOnce(w: World, ops: seq<Op>, i: nat, j: nat, fd: int)
    requires Inv(w) && w.log == [] && Run(w, ops).Some?
    requires i < j < |Run(w, ops).value.log|
    requires Run(w, ops).value.log[i] == CloseCalled(fd) && Run(w, ops).value.log[j] == CloseCalled(fd)
    ensures exists k :: i < k < j && Run(w, ops).value.log[k] == Opened(fd)
  {
    RunSafe(w, ops);
    var log := Run(w, ops).value.log;
    assert log[|w.log|..] == log;
    ReopenedBetweenCloses(w.open, log, i, j, fd);
  }

  /** Moves leave the source empty and hand its descriptor to the destination unchanged. */
  lemma MoveEmptiesSource(w: World, dst: HandleId, src: HandleId)
    ensures Apply(w, MoveConstruct(dst, src)).Some? ==>
              var w' := Apply(w, MoveConstruct(dst, src)).value;
              w'.handles[src] == Empty && w'.handles[dst] == w.handles[src]
    ensures Apply(w, MoveAssign(dst, src)).Some? ==>
              var w' := Apply(w, MoveAssign(dst, src)).value;
              w'.handles[src] == Empty && w'.handles[dst] == w.handles[src]
  {
  }

  /**
   * Destroying a handle that holds a descriptor of 2 or more releases it:
   * exactly one close call, the descriptor leaves the table, and no live
   * handle holds it afterwards.
   */
  lemma DestructReleases(w: World, h: HandleId)
    requires Inv(w) && h in w.handles && IssuesClose(w.handles[h])
    ensures Apply(w, Destruct(h)).Some?
    ensures var w' := Apply(w, Destruct(h)).value;
      w'.log == w.log + [CloseCalled(w.handles[h])] &&
      w'.open == w.open - {w.handles[h]} &&
      !Held(w', w.handles[h])
  {
  }

  /**
   * A handle built from `open_file` and then destroyed releases its
   * descriptor exactly when it is 2 or more: a 0 or 1 handed out by the OS
   * stays open, with no close call made.
   */
  lemma OpenThenDestroy(w: World, h: HandleId, fd: int)
    requires h !in w.handles && fd >= 0 && fd !in w.open
    ensures Run(w, [OpenNew(h, fd), Destruct(h)]).Some?
    ensures var w' := Run(w, [OpenNew(h, fd), Destruct(h)]).value;
      (fd in w'.open <==> !IssuesClose(fd)) &&
      w'.log == w.log + [Opened(fd)] + CloseCalls(fd) &&
      w'.handles == w.handles
  {
    var ops := [OpenNew(h, fd), Destruct(h)];
    var w1 := World(w.handles[h := fd], w.open + {fd}, w.log + [Opened(fd)]);
    assert Apply(w, ops[0]) == Some(w1);
    var w2 := World(w.handles, TableAfterClose(w1.open, fd), w1.log + CloseCalls(fd));
    assert w1.handles - {h} == w.handles;
    assert Apply(w1, Destruct(h)) == Some(w2);
    assert ops[1..] == [Destruct(h)];
    assert Run(w1, [Destruct(h)]) == Some(w2);
  }

  /*
   * The class and the World agree: run on a `File` whose descriptor is the
   * one a World handle holds, with an `Os` whose table and log are the
   * World's, each method leaves exactly the World that `Apply` computes for
   * the matching operation.
   */

  method OpenFileAgrees(w: World, h: HandleId, os: Os, filename: string) returns (r: Result<int>)
    requires h !in w.handles && w.open == os.open && w.log == os.log && os.Valid()
    modifies os
    ensures r.Ok? ==> Apply(w, OpenNew(h, r.value)) == Some(World(w.handles[h := r.value], os.open, os.log))
    ensures r.Err? ==> Apply(w, OpenNew(h, -1)) == Some(World(w.handles, os.open, os.log))
  {
    r := File.OpenFile(os, filename);
  }

  method AdoptAgrees(w: World, h: HandleId, fd: int) returns (f: File)
    requires h !in w.handles && (IssuesClose(fd) ==> fd in w.open && !Held(w, fd))
    ensures Apply(w, Adopt(h, fd)) == Some(w.(handles := w.handles[h := f.fd]))
  {
    f := new File(fd);
  }

  method CloseAgrees(w: World, h: HandleId, f: File, os: Os) returns (r: Outcome)
    requires h in w.handles && w.handles[h] == f.fd && w.open == os.open && w.log == os.log
    modifies f, os
    ensures Apply(w, ExplicitClose(h)) == Some(World(w.handles[h := f.fd], os.open, os.log))
  {
    r := f.Close(os);
  }

  method DestroyAgrees(w: World, h: HandleId, f: File, os: Os)
    requires h in w.handles && w.handles[h] == f.fd && w.open == os.open && w.log == os.log
    modifies f, os
    ensures Apply(w, Destruct(h)) == Some(World(w.handles - {h}, os.open, os.log))
  {
    f.Destroy(os);
  }

  method MoveAssignAgrees(w: World, dst: HandleId, src: HandleId, f: File, g: File, os: Os)
    requires dst != src && f != g
    requires dst in w.handles && src in w.handles && w.handles[dst] == f.fd && w.handles[src] == g.fd
    requires w.open == os.open && w.log == os.log
    modifies f, g, os
    ensures Apply(w, MoveAssign(dst, src)).Some?
    ensures var w' := Apply(w, MoveAssign(dst, src)).value;
      w'.handles == w.handles[dst := f.fd][src := g.fd] && w'.open == os.open && w'.log == os.log
  {
    f.MoveAssign(g, os);
  }

  method MoveAgrees(w: World, dst: HandleId, src: HandleId, g: File) returns (f: File)
    requires dst !in w.handles && src in w.handles && w.handles[src] == g.fd
    modifies g
    ensures Apply(w, MoveConstruct(dst, src)).Some?
    ensures var w' := Apply(w, MoveConstruct(dst, src)).value;
      w'.handles == w.handles[dst := f.fd][src := g.fd] && w'.open == w.open && w'.log == w.log
  {
    f := new File.Move(g);
  }
}
