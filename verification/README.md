# tgd_header file handle

A model of `tgd_header::detail::file` from `include/tgd_header/file.hpp`.
This class is the move-only owner of one POSIX file descriptor, held in
`m_fd`. The model has three modules:

- `OsEnv` (`os_env.dfy`): the operating system as an abstract environment.
  The class `Os` holds the table of open descriptor numbers, the process
  descriptor limit, an opaque size for the file behind each descriptor, and
  a ghost log of open and close calls. `Open`, `Close` and `Size` may fail,
  and each is free to choose its outcome. `Replay` checks a log against a
  table. It fails on an open that hands out a number already in use, and on
  a close of a number that is not open (a double close). `ReopenedBetweenCloses`
  shows that in a valid log the same number is closed twice only if an open
  handed it out again in between.
- `FileHandle` (`file_handle.dfy`): the rules of `close()` and `open_file`
  as functions of the descriptor number (`IssuesClose`, `AfterClose`,
  `CloseCalls`, `TableAfterClose`, `OpenResult`). It also holds the class
  `File`, with a mutable `fd` field (`m_fd`). Its constructors and methods
  are proved against those functions and the `Os` table.
- `Ownership` (`ownership.dfy`): many handles at once. A `World` maps live
  handles to their descriptors. `Apply` and `Run` execute open, raw
  construction, move construction, move assignment, close and destruction,
  using the same close rules as the class. `RunSafe` is the main theorem. It
  says that along any run, two live handles never share a descriptor of 2
  or more, and every such descriptor a handle holds is open. It also says
  that every close call finds its descriptor open, and that no close call
  is made on descriptor 0 or 1.

The OS calls `::open`, `::close`, `::fstat` and `_filelengthi64` are not
modelled as code. Their outcome is a nondeterministic choice inside `Os`.
World operations carry no close outcome, because `m_fd` and the table end
up the same whichever way the OS close goes.

Each case of `Ownership.Apply` is the same state change that the ensures of
the matching `File` method give. The methods `OpenFileAgrees`,
`AdoptAgrees`, `CloseAgrees`, `DestroyAgrees`, `MoveAssignAgrees` and
`MoveAgrees` prove this, one for each of the six cases. Each runs the class method on a `File` and an `Os` that mirror a
World, and shows that the result is the World `Apply` computes.

Facts about the code that the model keeps:

- `open_file` returns the raw descriptor, not a handle.
- `close()` tests `m_fd >= 2`. Descriptor 2 is closed, and a negative value
  other than -1 is left alone, like 0 and 1.
- A `close()` on 0, 1 or a negative value leaves `m_fd` as it was. It does
  not reset it to -1.
- If `open_file` returns 0 or 1 (possible when stdin or stdout is closed),
  the handle never releases that descriptor: `OpenThenDestroy` proves that
  after `OpenNew(h, fd)` and `Destruct(h)` the descriptor is still open
  exactly when it is 0 or 1. `DestructReleases` covers only descriptors of
  2 or more for this reason.
- `file_size()` has no empty-handle test of its own. It relies on the OS
  query failing for -1, and `File.FileSize` proves that failure because the
  table holds no negative number.

## Model

| member | source | states |
|---|---|---|
| `FileHandle.IssuesClose` | include/tgd_header/file.hpp:133 | close calls the OS only when `m_fd >= 2`: never for the empty value -1 or for 0 and 1, always for 2 |
| `FileHandle.AfterClose` | include/tgd_header/file.hpp:132-140 | after close the handle owns nothing (`m_fd` is below 2); a descriptor of 2 or more becomes -1, and anything else stays as it was |
| `FileHandle.CloseCalls` | include/tgd_header/file.hpp:133-134 | close makes at most one OS close call, exactly one when `m_fd >= 2`, and that call is always on a descriptor of 2 or more |
| `FileHandle.TableAfterClose` | include/tgd_header/file.hpp:133-135 | close removes at most the handle's own descriptor from the table, and it removes it exactly when that descriptor is 2 or more |
| `FileHandle.CloseOutcome` | include/tgd_header/file.hpp:133-138 | close reports a failure exactly when it made an OS call (`m_fd >= 2`) and that call failed |
| `FileHandle.OpenResult` | include/tgd_header/file.hpp:87-95 | open_file fails exactly when the OS open returns a negative value, and the error names the filename; otherwise it returns that descriptor, which is `>= 0` |
| `FileHandle.CloseIdempotent` | include/tgd_header/file.hpp:132-140 | a second close makes no OS call and leaves `m_fd` and the table as the first close left them |
| `FileHandle.LowDescriptorsKept` | include/tgd_header/file.hpp:133 | for `m_fd` of 0, 1 or a negative value, close makes no call, leaves `m_fd` unchanged and leaves the table unchanged |
| `FileHandle.File.constructor` | include/tgd_header/file.hpp:99-101 | construction from a raw descriptor stores it unchanged |
| `FileHandle.File.Move` | include/tgd_header/file.hpp:106-109 | the move constructor takes the source's descriptor and leaves the source at -1 |
| `FileHandle.File.OpenFile` | include/tgd_header/file.hpp:86-95 | on failure the error names the filename and the table is unchanged; on success the result is a non-negative number that was not open, and it is now open and logged |
| `FileHandle.File.Close` | include/tgd_header/file.hpp:132-140 | `m_fd` becomes `AfterClose` of its old value whether the OS call succeeds or fails; the table and log change by exactly that one close; the outcome is `CloseOutcome` of the old descriptor and the OS result, so a failure is reported only for a descriptor `>= 2` whose OS close failed, and always when that descriptor was not open |
| `FileHandle.File.MoveAssign` | include/tgd_header/file.hpp:111-122 | requires distinct objects; closes the destination's old descriptor and ignores any failure; the destination then holds the source's old descriptor and the source holds -1 |
| `FileHandle.File.Destroy` | include/tgd_header/file.hpp:124-130 | the destructor has the same effect as close and reports nothing |
| `FileHandle.File.Fd` | include/tgd_header/file.hpp:142-144 | returns the stored descriptor and changes nothing |
| `FileHandle.File.FileSize` | include/tgd_header/file.hpp:146-164 | the size query fails on a descriptor that is not open, and so on an empty handle; otherwise it returns the size the OS holds for the descriptor or an error; it changes nothing |
| `FileHandle.CloseTwice` | include/tgd_header/file.hpp:132-140 | two closes in a row: the second reports success, and together they make only the first one's OS call; the limit and the sizes are unchanged |
| `OsEnv.Os.Open` | include/tgd_header/file.hpp:88 | the OS open either fails and changes nothing (it must fail when every number below the limit is in use) or returns a number that was not in use and records it as open |
| `OsEnv.Os.Close` | include/tgd_header/file.hpp:134 | the OS close removes the number from the table whatever its outcome, records its outcome, and fails for a number that was not open |
| `OsEnv.Os.Size` | include/tgd_header/file.hpp:151-159 | the size query fails for a number that is not open; on success it returns that descriptor's size |
| `OsEnv.ReopenedBetweenCloses` | include/tgd_header/file.hpp:132-138 | in a valid call log, a descriptor number is closed a second time only after an open handed it out again |
| `Ownership.Apply` | include/tgd_header/file.hpp:86-140 | one operation on many handles (open_file with file(int), file(int), move construction, move assignment, close, destruction); the log only grows, by at most one call, and handles the operation does not name are unchanged |
| `Ownership.OpenFileAgrees` | include/tgd_header/file.hpp:86-101 | `File.OpenFile` changes the table and log exactly as `Apply` does for `OpenNew` with the descriptor it returned, or with a failing open |
| `Ownership.AdoptAgrees` | include/tgd_header/file.hpp:99-101 | `file(int)` adds exactly the handle holding the given descriptor, as `Apply` does for `Adopt`, leaving table and log alone |
| `Ownership.CloseAgrees` | include/tgd_header/file.hpp:132-140 | `File.Close` leaves `m_fd`, the table and the log exactly as `Apply` does for `ExplicitClose` |
| `Ownership.DestroyAgrees` | include/tgd_header/file.hpp:124-130 | `File.Destroy` leaves the table and log exactly as `Apply` does for `Destruct` |
| `Ownership.MoveAssignAgrees` | include/tgd_header/file.hpp:111-122 | `File.MoveAssign` leaves both handles, the table and the log exactly as `Apply` does for `MoveAssign` |
| `Ownership.MoveAgrees` | include/tgd_header/file.hpp:106-109 | the move constructor leaves both handles exactly as `Apply` does for `MoveConstruct` |
| `Ownership.StepSafe` | include/tgd_header/file.hpp:99-140 | each operation keeps descriptors of 2 or more exclusive to one live handle and open, and the calls it makes are valid against the table |
| `Ownership.RunSafe` | include/tgd_header/file.hpp:103-140 | along any run of handle operations the invariant holds; the calls made never double-close and never close a number that is not open; descriptors 0 and 1 are never closed |
| `Ownership.ReleasedAtMostOnce` | include/tgd_header/file.hpp:103-138 | from an empty log, the handles close the same descriptor number twice only if an open handed it out again in between; each acquisition is released at most once |
| `Ownership.MoveEmptiesSource` | include/tgd_header/file.hpp:106-122 | move construction and move assignment leave the source at -1 and give the destination the source's descriptor unchanged |
| `Ownership.OpenThenDestroy` | include/tgd_header/file.hpp:86-138 | a handle built from `open_file` and destroyed leaves its descriptor open exactly when it is 0 or 1; it makes one open call and a close call only for 2 or more, and leaves the other handles as they were |
| `Ownership.DestructReleases` | include/tgd_header/file.hpp:124-138 | destroying a handle that holds a descriptor of 2 or more makes exactly one close call on it; the descriptor leaves the table, and no live handle holds it afterwards |

## Left out

- The Windows guard `disable_invalid_parameter_handler` (lines 46-78, 149) and the `_filelengthi64` variant. They manipulate process-wide CRT state. The size query is one abstract call, `Os.Size`.
- `errno`, the `std::system_error` category and the message text. Errors are one kind, `OsError`, and the open error carries only the filename.
- The variadic open flags and mode. They are passed through to the OS and play no part in the model.
- The signed-to-`size_t` casts of `st_size` and of the `_filelengthi64` result. Sizes are `nat`.
- The self-move `assert` is the precondition `other != this` of `File.MoveAssign`. The World does not enable a self-move.
- Threads and concurrent access. The source provides none.
- OsEnv.Os.Close: after a failed close, the descriptor counts as released. This is Linux behaviour; POSIX leaves the state unspecified after some failures.
- OsEnv.Os.Open: it hands out any free number below the limit. The POSIX "lowest free number" rule is not modelled.
- Ownership: for a raw descriptor of 2 or more, the World requires it to be open and held by no live handle. The source leaves this to the caller. A use of a destroyed or moved-from object beyond what C++ allows is not an operation of the World.
