# Console streams of the RuxOS POSIX layer, modelled in Dafny

This project models the standard-input and standard-output streams of the RuxOS POSIX
compatibility layer (`api/ruxos_posix_api/src/imp/stdio.rs`). The layer turns a
byte-at-a-time, non-blocking console into POSIX-style streams and exposes them to the
descriptor table as file objects (`FileLike`).

The console hardware is replaced by a `Platform.Console` object with two parts:

- the input is a script of polls (`seq<Option<byte>>`). Each `getchar` takes the next
  entry. `None` means no byte was available at that poll. Once the script runs out, every
  poll answers `None`.
- the output is a log (`seq<byte>`) of every byte written.

The scheduler is replaced by a `Platform.Scheduler` that counts yields.

Files and modules:

- `base.dfy` (`Base`): `byte` (Rust's `u8`), CR and LF, `Option`, `Result`, and the error
  kinds produced here (`AxError.WouldBlock`, `LinuxError.EPERM`/`EAGAIN`).
- `platform.dfy` (`Platform`): the console device and the scheduler (`ruxhal::console`,
  `sys_sched_yield`). Neither is part of this layer.
- `raw_io.dfy` (`RawIo`): `console_read_bytes`, `console_write_bytes`, `StdinRaw::read`,
  `StdoutRaw::write`/`flush`. `ReadPolls` is the function that defines one raw read.
  `IsReadOf` is an independent description of a raw read. Two lemmas prove that they agree
  in both directions.
- `stdio.dfy` (`Stdio`): the `Stdin` and `Stdout` handles and their `FileLike` operations.
  This covers the blocking protocol (`BlockedRead`, `BlockedYields`), the non-blocking
  protocol, the flag, and the constant `stat` and `poll` results.
- `client.dfy` (`Client`): two call sequences whose results follow from the handles'
  contracts alone.

A non-blocking `FileLike::read` that obtains the lock returns the raw read's count
unchanged, which may be `Ok(0)`. Only a contended `try_lock` gives EAGAIN
(`stdio.rs:89-96`, `stdio.rs:139`). `Client.FlagScenario` shows both.

## Model

| member | source | states |
|---|---|---|
| `Base.FromAxError` | api/ruxos_posix_api/src/imp/stdio.rs:139 | the `?` that turns the non-blocking read's `AxError` into a `LinuxError` maps would-block to EAGAIN |
| `RawIo.Translate` | api/ruxos_posix_api/src/imp/stdio.rs:23 | the stored byte is never CR; every byte other than CR passes unchanged; the result is LF exactly when the console byte was CR or LF |
| `RawIo.ReadPolls` | api/ruxos_posix_api/src/imp/stdio.rs:40-51 | a raw read stores at most as many bytes as the buffer holds, and no more than the polls it had |
| `RawIo.ReadPollsIsReadOf` | api/ruxos_posix_api/src/imp/stdio.rs:22-27 | every stored byte is the translated byte of a poll that found one, in order; the read stops when the buffer is full, when the script runs out, or at the first `None` poll. That poll is used up and nothing else is |
| `RawIo.IsReadOfDeterminesRead` | api/ruxos_posix_api/src/imp/stdio.rs:42-48 | converse: any data and rest that meet the stopping rule are exactly the raw read's outcome |
| `RawIo.ReadPollsStoresNoCR` | api/ruxos_posix_api/src/imp/stdio.rs:44 | no carriage return ever reaches the caller's buffer |
| `RawIo.ReadPollsEmpty` | api/ruxos_posix_api/src/imp/stdio.rs:42-48 | with room in the buffer, a raw read stores nothing if and only if the first poll finds no byte, and then it uses up only that poll |
| `RawIo.ConsoleReadBytes` | api/ruxos_posix_api/src/imp/stdio.rs:22-28 | one poll: a byte found is returned translated and echoed once; `None` is returned with no echo |
| `RawIo.ConsoleWriteBytes` | api/ruxos_posix_api/src/imp/stdio.rs:30-33 | the bytes are appended verbatim to the console log and the full length is reported |
| `RawIo.StdinRawRead` | api/ruxos_posix_api/src/imp/stdio.rs:38-51 | returns `Ok(n)` with `n <= buf.Length`; `buf[..n]` and the script left are the outcome of `ReadPolls`; `buf[n..]` is unchanged; the log gains exactly `buf[..n]` |
| `RawIo.StdoutRawWrite` | api/ruxos_posix_api/src/imp/stdio.rs:55-57 | appends the buffer verbatim to the log and returns its length |
| `RawIo.StdoutRawFlush` | api/ruxos_posix_api/src/imp/stdio.rs:59-61 | flushing always succeeds |
| `Stdio.IdlePolls` | api/ruxos_posix_api/src/imp/stdio.rs:77-84 | counts the leading polls that find no byte: each of them is `None`, and the poll after them, if any, has a byte |
| `Stdio.BlockedRead` | api/ruxos_posix_api/src/imp/stdio.rs:72-85 | a blocking read into an empty buffer takes nothing; into a non-empty buffer it returns at least one byte and at most the buffer's size |
| `Stdio.BlockedYields` | api/ruxos_posix_api/src/imp/stdio.rs:78-84 | an empty buffer never yields; otherwise a yield falls between each pair of consecutive failed attempts, so there is one fewer yield than idle polls |
| `Stdio.BlockedReadAfterIdle` | api/ruxos_posix_api/src/imp/stdio.rs:72-85 | a blocking read skips exactly the idle polls. Its first byte is the first byte to arrive, translated. The rest is a raw read from there |
| `Stdio.Stdin.constructor` | api/ruxos_posix_api/src/imp/stdio.rs:119-127 | a new handle views the shared console and starts in blocking mode |
| `Stdio.Stdin.ReadBlocked` | api/ruxos_posix_api/src/imp/stdio.rs:72-85 | the result, buffer, script, echo log and yield count are those given by `BlockedRead` and `BlockedYields` |
| `Stdio.Stdin.ReadNonblocked` | api/ruxos_posix_api/src/imp/stdio.rs:88-96 | a contended lock gives `WouldBlock` and changes nothing; an obtained lock gives exactly one raw read's result, which may be `Ok(0)` |
| `Stdio.Stdin.Read` | api/ruxos_posix_api/src/imp/stdio.rs:99-103 | the stream's `Read` is the blocking protocol |
| `Stdio.Stdin.FileRead` | api/ruxos_posix_api/src/imp/stdio.rs:137-142 | dispatches on the flag: if set, returns EAGAIN for a contended lock and otherwise one raw read, never yielding; if clear, behaves as the blocking protocol |
| `Stdio.Stdin.FileWrite` | api/ruxos_posix_api/src/imp/stdio.rs:144-146 | writing standard input always fails with EPERM (a function, so it touches no state) |
| `Stdio.Stdin.FileFlush` | api/ruxos_posix_api/src/imp/stdio.rs:148-150 | flushing always succeeds |
| `Stdio.Stdin.FileStat` | api/ruxos_posix_api/src/imp/stdio.rs:152-160 | inode 1, link count 1, mode exactly `0o20440` (`S_IFCHR` plus `0o440`): a character device readable by owner and group |
| `Stdio.Stdin.FilePoll` | api/ruxos_posix_api/src/imp/stdio.rs:166-171 | always reports readable and writable |
| `Stdio.Stdin.SetNonblocking` | api/ruxos_posix_api/src/imp/stdio.rs:173-176 | stores the requested value in the flag and succeeds |
| `Stdio.Stdout.constructor` | api/ruxos_posix_api/src/imp/stdio.rs:129-133 | a new handle views the shared console |
| `Stdio.Stdout.Write` | api/ruxos_posix_api/src/imp/stdio.rs:110-112 | appends the buffer verbatim to the log and returns its length; the input script is untouched |
| `Stdio.Stdout.Flush` | api/ruxos_posix_api/src/imp/stdio.rs:114-116 | flushing always succeeds |
| `Stdio.Stdout.FileRead` | api/ruxos_posix_api/src/imp/stdio.rs:181-183 | reading standard output always fails with EPERM; it neither reads nor changes the buffer or the console |
| `Stdio.Stdout.FileWrite` | api/ruxos_posix_api/src/imp/stdio.rs:185-187 | appends the buffer verbatim to the log and returns its full length |
| `Stdio.Stdout.FileFlush` | api/ruxos_posix_api/src/imp/stdio.rs:189-191 | flushing always succeeds |
| `Stdio.Stdout.FileStat` | api/ruxos_posix_api/src/imp/stdio.rs:193-201 | inode 1, link count 1, mode exactly `0o20220` (`S_IFCHR` plus `0o220`): a character device writable by owner and group |
| `Stdio.Stdout.FilePoll` | api/ruxos_posix_api/src/imp/stdio.rs:207-212 | always reports readable and writable |
| `Stdio.Stdout.SetNonblocking` | api/ruxos_posix_api/src/imp/stdio.rs:214-216 | always succeeds and changes nothing (it is a function) |
| `Client.FlagScenario` | api/ruxos_posix_api/src/imp/stdio.rs:137-142 | after setting the flag: an idle read that gets the lock is `Ok(0)` and a contended one is EAGAIN. After clearing it: the read waits for the CR, stores and echoes LF, and yields once |
| `Client.SharedConsoleScenario` | api/ruxos_posix_api/src/imp/stdio.rs:181-187 | stdout's write and stdin's echo go, in call order, to the one console log; the wrong-direction calls give EPERM |

## Left out

- Stdio.Stdin.ReadBlocked: requires a poll with a byte somewhere in the script whenever the buffer is non-empty. The source loops forever otherwise, and here termination is measured by the length of the script.
- Stdio.Stdin.Read: carries the same termination requires as `Stdio.Stdin.ReadBlocked`.
- Stdio.Stdin.FileRead: carries the same termination requires in blocking mode.
- Stdio.Stdin.FileRead: the lock is taken as always obtained by the blocking protocol. For the non-blocking protocol, whether `try_lock` succeeds is the parameter `lockFree`. Contention between concurrent callers, and the order of echoes against another caller's writes, are not modelled.
- The `nonblocking` flag is an `AtomicBool` with relaxed ordering in the source. Here it is a plain field, and memory ordering is not modelled.
- `sys_sched_yield` is reduced to a count of yields. Scheduler fairness and re-scheduling are not modelled.
- `BufReader` is taken as a pass-through to `StdinRaw`. Its internal buffering is not part of this model, so nothing is claimed about reading ahead into that buffer.
- `ruxhal::console::getchar` and `write_bytes` are the abstract `Platform.Console`. The hardware itself is not modelled.
- `into_any` (the `Arc` downcast) is not modelled. Neither are the `RuxStat::from` conversion or the default fields of `ctypes::stat`; only the inode, link count and mode are.
- The `fd` feature (`#[cfg(feature = "fd")]`) is taken as always enabled.
- The `?` after the raw read in `read_blocked` and `read_nonblocked` never propagates an error, because the raw read always returns `Ok`. The model therefore has no error path there.
- Byte counts (`usize`) are `nat`. They never exceed the buffer's length, so overflow cannot arise.
