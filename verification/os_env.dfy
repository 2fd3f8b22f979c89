/**
 * The operating system as the file handle sees it: a table of open
 * descriptor numbers, an opaque size for the file behind each descriptor,
 * and a ghost log of the open and close calls made against the table.
 * Every call may fail; which way it goes is chosen nondeterministically.
 */
module OsEnv {

  datatype Option<T> = None | Some(value: T)

  /** One call into the descriptor table, as recorded in the ghost log. */
  datatype OsEvent = Opened(fd: int) | CloseCalled(fd: int)

  /**
   * Replays `log` against the table `open`. The result is None as soon as a
   * call finds the table in a state it must never find it in: an open that
   * hands out a number already in use, or a close of a number that is not
   * open (a double close, or a close of someone else's descriptor).
   */
  function Replay(open: set<int>, log: seq<OsEvent>): Option<set<int>>
    decreases |log|
  {
    if log == [] then Some(open)
    else match log[0]
      case Opened(fd) => if fd in open then None else Replay(open + {fd}, log[1..])
      case CloseCalled(fd) => if fd in open then Replay(open - {fd}, log[1..]) else None
  }

  /** Replaying two logs one after the other is replaying their concatenation. */
  lemma {:induction false} ReplayAppend(open: set<int>, a: seq<OsEvent>, b: seq<OsEvent>)
    ensures Replay(open, a + b) ==
            match Replay(open, a)
            case None => None
            case Some(mid) => Replay(mid, b)
    decreases |a|
  {
    if a == [] {
      assert a + b == b;
    } else {
      assert (a + b)[0] == a[0];
      assert (a + b)[1..] == a[1..] + b;
      match a[0]
      case Opened(fd) =>
        if fd !in open { ReplayAppend(open + {fd}, a[1..], b); }
      case CloseCalled(fd) =>
        if fd in open { ReplayAppend(open - {fd}, a[1..], b); }
    }
  }

  /** A descriptor that is not open stays closed through a valid log that never opens it. */
  lemma {:induction false} StaysClosed(open: set<int>, log: seq<OsEvent>, fd: int)
    requires fd !in open
    requires Replay(open, log).Some?
    requires forall k :: 0 <= k < |log| ==> log[k] != Opened(fd)
    ensures fd !in Replay(open, log).value
    decreases |log|
  {
    if log != [] {
      assert log[0] != Opened(fd);
      forall k | 0 <= k < |log[1..]| ensures log[1..][k] != Opened(fd) {
        assert log[1..][k] == log[k + 1];
      }
      match log[0]
      case Opened(x) => StaysClosed(open + {x}, log[1..], fd);
      case CloseCalled(x) => StaysClosed(open - {x}, log[1..], fd);
    }
  }

  /**
   * In a valid log the same descriptor number is closed a second time only
   * after an open has handed that number out again: each acquisition of a
   * descriptor is released at most once.
   */
  lemma ReopenedBetweenCloses(open: set<int>, log: seq<OsEvent>, i: nat, j: nat, fd: int)
    requires Replay(open, log).Some?
    requires i < j < |log|
    requires log[i] == CloseCalled(fd) && log[j] == CloseCalled(fd)
    ensures exists k :: i < k < j && log[k] == Opened(fd)
  {
    if forall k :: i < k < j ==> log[k] != Opened(fd) {
      var before, middle, after := log[..i + 1], log[i + 1..j], log[j..];
      assert log == before + (middle + after);
      ReplayAppend(open, before, middle + after);
      ReplayAppend(open, log[..i], [log[i]]);
      assert log[..i] + [log[i]] == before;
      var o0 := Replay(open, log[..i]).value;
      var o1 := Replay(open, before).value;
      assert fd !in o1;
      ReplayAppend(o1, middle, after);
      forall k | 0 <= k < |middle| ensures middle[k] != Opened(fd) {
        assert middle[k] == log[i + 1 + k];
      }
      StaysClosed(o1, middle, fd);
      assert false;
    }
  }

  /** The process-wide descriptor table, updated in place by the calls below. */
  class Os {
    var open: set<int>
    /** The per-process descriptor limit: numbers handed out stay below it. */
    var limit: nat
    /** The size the file behind each descriptor currently has (an oracle). */
    var sizes: map<int, nat>
    ghost var log: seq<OsEvent>
    /** Whether the most recent close call reported success. */
    ghost var lastCloseOk: bool

    /** Descriptor numbers the OS hands out are never negative. */
    ghost predicate Valid()
      reads this
    {
      forall fd :: fd in open ==> fd >= 0
    }

    constructor (open: set<int>, limit: nat, sizes: map<int, nat>)
      requires forall fd :: fd in open ==> fd >= 0
      ensures Valid()
      ensures this.open == open && this.limit == limit && this.sizes == sizes && log == []
    {
      this.open := open;
      this.limit := limit;
      this.sizes := sizes;
      log := [];
    }

    /**
     * The open call: either fails (a negative result, nothing changes), as
     * it must when every number below the limit is in use, or hands out a
     * number that was not in use and records it as open.
     */
    method Open(filename: string) returns (fd: int)
      modifies this
      ensures fd < 0 ==> open == old(open) && sizes == old(sizes) && log == old(log)
      ensures fd >= 0 ==> fd < limit && fd !in old(open) && open == old(open) + {fd}
      ensures (forall n :: 0 <= n < limit ==> n in old(open)) ==> fd < 0
      ensures limit == old(limit) && lastCloseOk == old(lastCloseOk)
      ensures fd >= 0 ==> fd in sizes && sizes == old(sizes)[fd := sizes[fd]]
      ensures fd >= 0 ==> log == old(log) + [Opened(fd)]
    {
      var ok: bool :| true;
      if !ok || forall n :: 0 <= n < limit ==> n in open {
        return -1;
      }
      fd :| 0 <= fd < limit && fd !in open;
      var size: nat :| true;
      open := open + {fd};
      sizes := sizes[fd := size];
      log := log + [Opened(fd)];
    }

    /**
     * The close call: the number leaves the table whatever the outcome, and a
     * close of a number that is not open always fails.
     */
    method Close(fd: int) returns (ok: bool)
      modifies this
      ensures open == old(open) - {fd} && limit == old(limit) && sizes == old(sizes)
      ensures log == old(log) + [CloseCalled(fd)] && lastCloseOk == ok
      ensures fd !in old(open) ==> !ok
    {
      var succeeded: bool :| true;
      ok := succeeded && fd in open;
      open := open - {fd};
      log := log + [CloseCalled(fd)];
      lastCloseOk := ok;
    }

    /** The size query: fails on a number that is not open, may fail on any. */
    method Size(fd: int) returns (r: Option<nat>)
      ensures fd !in open ==> r == None
      ensures r.Some? ==> fd in open && fd in sizes && r.value == sizes[fd]
    {
      var succeeded: bool :| true;
      if succeeded && fd in open && fd in sizes {
        r := Some(sizes[fd]);
      } else {
        r := None;
      }
    }
  }
}
