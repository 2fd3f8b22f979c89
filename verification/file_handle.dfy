/**
 * The move-only owner of one POSIX file descriptor (`tgd_header::detail::file`).
 * The rules of `close()` and `open_file` are stated once as functions on the
 * descriptor number; the class `File` carries the mutable `m_fd` and its
 * methods are proved against those functions and the descriptor table `Os`.
 */
module FileHandle {
  import opened OsEnv

  /** The value of `m_fd` when the handle owns nothing. */
  const Empty: int := -1

  /** The one error kind; the OS error code and message text are not modelled. */
  datatype OsError = OpenError(filename: string) | CloseError | SizeError

  datatype Result<T> = Ok(value: T) | Err(error: OsError)

  datatype Outcome = Pass | Fail(error: OsError)

  /**
   * `close()` calls into the OS only for descriptors 2 and up: the empty
   * value and descriptors 0 and 1 are left alone, descriptor 2 is closed.
   */
  predicate IssuesClose(fd: int): (b: bool)
    ensures b ==> fd != Empty && fd != 0 && fd != 1
    ensures fd == 2 ==> b
  {
    fd >= 2
  }

  /** The value `m_fd` holds after `close()`: a closing handle ends up owning nothing. */
  function AfterClose(fd: int): (r: int)
    ensures !IssuesClose(r)
    ensures IssuesClose(fd) ==> r == Empty
    ensures !IssuesClose(fd) ==> r == fd
  {
    if IssuesClose(fd) then Empty else fd
  }

  /** The calls `close()` makes into the descriptor table, for the ghost log. */
  function CloseCalls(fd: int): (calls: seq<OsEvent>)
    ensures |calls| <= 1
    ensures forall e :: e in calls ==> e == CloseCalled(fd) && IssuesClose(e.fd)
    ensures IssuesClose(fd) ==> calls == [CloseCalled(fd)]
  {
    if IssuesClose(fd) then [CloseCalled(fd)] else []
  }

  /** The descriptor table after `close()`. */
  function TableAfterClose(open: set<int>, fd: int): (r: set<int>)
    ensures r <= open && open - r <= {fd}
    ensures fd in r <==> fd in open && !IssuesClose(fd)
  {
    if IssuesClose(fd) then open - {fd} else open
  }

  /** What `close()` reports, given whether its OS close call succeeded. */
  function CloseOutcome(fd: int, osOk: bool): (r: Outcome)
    ensures r.Fail? <==> IssuesClose(fd) && !osOk
    ensures r.Fail? ==> r.error == CloseError
  {
    if IssuesClose(fd) && !osOk then Fail(CloseError) else Pass
  }

  /** `open_file` given what the OS open call returned. */
  function OpenResult(filename: string, osFd: int): (r: Result<int>)
    ensures r.Err? <==> osFd < 0
    ensures r.Err? ==> r.error == OpenError(filename)
    ensures r.Ok? ==> r.value == osFd && r.value >= 0
  {
    if osFd < 0 then Err(OpenError(filename)) else Ok(osFd)
  }

  /**
   * `close()` is idempotent: a second call finds nothing to close, makes no
   * OS call, reports success and leaves the table and `m_fd` as the first
   * call left them.
   */
  lemma CloseIdempotent(fd: int, open: set<int>, osOk: bool)
    ensures CloseCalls(AfterClose(fd)) == []
    ensures CloseOutcome(AfterClose(fd), osOk) == Pass
    ensures AfterClose(AfterClose(fd)) == AfterClose(fd)
    ensures TableAfterClose(TableAfterClose(open, fd), AfterClose(fd)) == TableAfterClose(open, fd)
  {
  }

  /** Descriptors 0 and 1 (and any negative value) are never closed and stay in `m_fd`. */
  lemma LowDescriptorsKept(fd: int, open: set<int>, osOk: bool)
    requires fd < 2
    ensures AfterClose(fd) == fd && CloseCalls(fd) == [] && CloseOutcome(fd, osOk) == Pass
    ensures TableAfterClose(open, fd) == open
  {
  }

  /** The handle: the one mutable field `m_fd`. Copying does not exist. */
  class File {
    var fd: int

    /** `file(int)`: takes the raw descriptor as it is. */
    constructor (fd: int)
      ensures this.fd == fd
    {
      this.fd := fd;
    }

    /** The move constructor: takes over `other`'s descriptor and empties `other`. */
    constructor Move(other: File)
      modifies other
      ensures fd == old(other.fd) && other.fd == Empty
    {
      fd := other.fd;
      new;
      other.fd := Empty;
    }

    /**
     * `open_file`: the OS open call, with a failure reported as an error that
     * names the file.
     */
    static method OpenFile(os: Os, filename: string) returns (r: Result<int>)
      modifies os
      ensures r.Err? ==> r.error == OpenError(filename)
      ensures r.Err? ==> os.open == old(os.open) && os.log == old(os.log)
      ensures r.Ok? ==> r.value >= 0 && r.value !in old(os.open) && os.open == old(os.open) + {r.value}
      ensures r.Ok? ==> os.log == old(os.log) + [Opened(r.value)]
      ensures os.limit == old(os.limit)
      ensures r.Err? ==> os.sizes == old(os.sizes)
      ensures r.Ok? ==> r.value in os.sizes && os.sizes == old(os.sizes)[r.value := os.sizes[r.value]]
    {
      var osFd := os.Open(filename);
      r := OpenResult(filename, osFd);
    }

    /**
     * `close()`: for a descriptor of 2 or more, one OS close call and `m_fd`
     * emptied whether or not that call succeeded; otherwise nothing at all.
     */
    method Close(os: Os) returns (r: Outcome)
      modifies this, os
      ensures fd == AfterClose(old(fd))
      ensures os.open == TableAfterClose(old(os.open), old(fd))
      ensures os.log == old(os.log) + CloseCalls(old(fd))
      ensures os.limit == old(os.limit) && os.sizes == old(os.sizes)
      ensures r == CloseOutcome(old(fd), if IssuesClose(old(fd)) then os.lastCloseOk else true)
      ensures IssuesClose(old(fd)) && old(fd) !in old(os.open) ==> r.Fail?
    {
      if fd >= 2 {
        var ok := os.Close(fd);
        if !ok {
          fd := Empty;
          return Fail(CloseError);
        }
        fd := Empty;
      }
      r := Pass;
    }

    /**
     * The move assignment: closes what this handle owned, ignoring any
     * failure, then takes over `other`'s descriptor and empties `other`.
     */
    method MoveAssign(other: File, os: Os)
      requires other != this
      modifies this, other, os
      ensures fd == old(other.fd) && other.fd == Empty
      ensures os.open == TableAfterClose(old(os.open), old(fd))
      ensures os.log == old(os.log) + CloseCalls(old(fd))
      ensures os.limit == old(os.limit) && os.sizes == old(os.sizes)
    {
      var _ := Close(os);
      fd := other.fd;
      other.fd := Empty;
    }

    /** The destructor: `close()` with any failure swallowed. */
    method Destroy(os: Os)
      modifies this, os
      ensures fd == AfterClose(old(fd))
      ensures os.open == TableAfterClose(old(os.open), old(fd))
      ensures os.log == old(os.log) + CloseCalls(old(fd))
      ensures os.limit == old(os.limit) && os.sizes == old(os.sizes)
    {
      var _ := Close(os);
    }

    /** `fd()`: the stored descriptor; nothing changes. */
    method Fd() returns (r: int)
      ensures r == fd
    {
      r := fd;
    }

    /**
     * `file_size()`: the size the OS reports for the descriptor, or an error
     * when the query fails, as it always does on a descriptor that is not open
     * (in particular on an empty handle). Nothing changes.
     */
    method FileSize(os: Os) returns (r: Result<nat>)
      ensures r.Err? ==> r.error == SizeError
      ensures fd !in os.open ==> r.Err?
      ensures os.Valid() && fd < 0 ==> r.Err?
      ensures r.Ok? ==> fd in os.open && fd in os.sizes && r.value == os.sizes[fd]
    {
      var size := os.Size(fd);
      if size.None? {
        return Err(SizeError);
      }
      r := Ok(size.value);
    }
  }

  /**
   * Two `close()` calls in a row: the second reports success and adds no OS
   * call, whatever the first one reported.
   */
  method CloseTwice(f: File, os: Os) returns (first: Outcome, second: Outcome)
    modifies f, os
    ensures second == Pass
    ensures f.fd == AfterClose(old(f.fd))
    ensures os.open == TableAfterClose(old(os.open), old(f.fd))
    ensures os.log == old(os.log) + CloseCalls(old(f.fd))
    ensures os.limit == old(os.limit) && os.sizes == old(os.sizes)
  {
    first := f.Close(os);
    second := f.Close(os);
  }
}
