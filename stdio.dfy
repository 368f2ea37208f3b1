/** The standard streams: the `Stdin` and `Stdout` handles, the blocking and
    non-blocking read protocols, and their file-object (`FileLike`) view used
    by the descriptor table. */
module Stdio {
  import opened Base
  import opened Platform
  import opened RawIo

  /** Some later poll of the script finds a byte. */
  ghost predicate HasByte(polls: seq<Option<byte>>)
  {
    exists i :: 0 <= i < |polls| && polls[i].Some?
  }

  /** The number of polls at the head of the script that find no byte. */
  function IdlePolls(polls: seq<Option<byte>>): (k: nat)
    ensures k <= |polls|
    ensures forall i :: 0 <= i < k ==> polls[i].None?
    ensures k < |polls| ==> polls[k].Some?
  {
    if polls != [] && polls[0].None? then 1 + IdlePolls(polls[1..]) else 0
  }

  /** The outcome of a blocking read into a buffer of `cap` bytes: with no
      room, one raw read that takes nothing; otherwise the raw reads that find
      nothing each use up one idle poll, and the first raw read that finds a
      byte is the one returned. */
  function BlockedRead(polls: seq<Option<byte>>, cap: nat): (r: ReadOutcome)
    requires cap == 0 || HasByte(polls)
    ensures cap == 0 ==> r == ReadOutcome([], polls)
    ensures cap > 0 ==> 1 <= |r.data| <= cap
  {
    if cap == 0 then ReadPolls(polls, 0)
    else
      var k := IdlePolls(polls);
      assert k < |polls| by {
        var i :| 0 <= i < |polls| && polls[i].Some?;
      }
      ReadPolls(polls[k..], cap)
  }

  /** The yields performed by a blocking read: after every failed attempt but
      the first. */
  function BlockedYields(polls: seq<Option<byte>>, cap: nat): (y: nat)
    ensures cap == 0 ==> y == 0
    ensures cap > 0 && IdlePolls(polls) > 0 ==> y + 1 == IdlePolls(polls)
  {
    if cap == 0 || IdlePolls(polls) == 0 then 0 else IdlePolls(polls) - 1
  }

  /** A blocking read into a non-empty buffer skips exactly the idle polls,
      and then is a raw read that starts with the first byte to arrive. */
  lemma BlockedReadAfterIdle(polls: seq<Option<byte>>, cap: nat)
    requires cap > 0 && HasByte(polls)
    ensures var k := IdlePolls(polls);
      k < |polls| && polls[k].Some?
      && BlockedRead(polls, cap).data[0] == Translate(polls[k].value)
      && IsReadOf(polls[k..], cap, BlockedRead(polls, cap).data, BlockedRead(polls, cap).rest)
  {
    var k := IdlePolls(polls);
    var i :| 0 <= i < |polls| && polls[i].Some?;
    assert k < |polls|;
    ReadPollsIsReadOf(polls[k..], cap);
  }

  /** The effect of a read whose outcome is `o`, on the caller's buffer
      (`before` to `after`), the console's output log (`logBefore` to
      `logAfter`) and the poll script left (`input`): the stored bytes
      overwrite a prefix of the buffer and nothing else, the script advances
      to `o.rest`, and each stored byte is echoed once, in order. */
  ghost predicate Delivered(o: ReadOutcome, before: seq<byte>, after: seq<byte>,
                            logBefore: seq<byte>, logAfter: seq<byte>, input: seq<Option<byte>>)
  {
    |o.data| <= |before| == |after|
    && after[..|o.data|] == o.data && after[|o.data|..] == before[|o.data|..]
    && input == o.rest && logAfter == logBefore + o.data
  }

  /** `stat` information: inode, link count and mode; the remaining fields of
      `struct stat` are left at zero by the source and are not modelled. */
  datatype Stat = Stat(ino: nat, nlink: nat, mode: bv32)

  /** `PollState`. */
  datatype PollState = PollState(readable: bool, writable: bool)

  const S_IFMT: bv32 := 0xF000   // 0o170000, file-type bits
  const S_IFCHR: bv32 := 0x2000  // 0o20000, character device
  const S_IRUSR: bv32 := 0x100   // 0o400
  const S_IWUSR: bv32 := 0x80    // 0o200
  const S_IRGRP: bv32 := 0x20    // 0o040
  const S_IWGRP: bv32 := 0x10    // 0o020

  predicate IsCharDevice(mode: bv32)
  {
    mode & S_IFMT == S_IFCHR
  }

  /** The permission bits of a mode, 0o7777. */
  function Permissions(mode: bv32): bv32
  {
    mode & 0xFFF
  }

  /** A handle to the standard input stream. */
  class Stdin {
    /** The process-wide input stream (its console) that the handle views. */
    const console: Console
    /** Whether `FileRead` uses the non-blocking protocol. */
    var nonblocking: bool

    /** `stdin()`: a new handle, in blocking mode. */
    constructor (console: Console)
      ensures this.console == console && !nonblocking
    {
      this.console := console;
      nonblocking := false;
    }

    /** `Stdin::read_blocked`: returns only once at least one byte was read,
        unless the buffer is empty. The scheduler services the yields. */
    method ReadBlocked(buf: array<byte>, sched: Scheduler) returns (r: Result<nat, AxError>)
      requires buf.Length == 0 || HasByte(console.input)
      modifies console, buf, sched
      ensures var o := BlockedRead(old(console.input), buf.Length);
        r == Ok(|o.data|)
        && Delivered(o, old(buf[..]), buf[..], old(console.output), console.output, console.input)
      ensures sched.yieldCount == old(sched.yieldCount) + BlockedYields(old(console.input), buf.Length)
    {
      ghost var polls := console.input;
      ghost var contents := buf[..];
      var first := StdinRawRead(console, buf);
      // The raw read cannot fail, so `?` never propagates an error.
      var readLen := first.value;
      if buf.Length == 0 || readLen > 0 {
        assert buf.Length > 0 ==> IdlePolls(polls) == 0 by {
          if buf.Length > 0 { ReadPollsEmpty(polls, buf.Length); }
        }
        return Ok(readLen);
      }
      ReadPollsEmpty(polls, buf.Length);
      ghost var attempts := 1;
      while true
        invariant 1 <= attempts <= IdlePolls(polls) < |polls|
        invariant console.input == polls[attempts..]
        invariant buf[..] == contents && console.output == old(console.output)
        invariant sched.yieldCount == old(sched.yieldCount) + attempts - 1
        decreases |console.input|
      {
        ghost var before := console.input;
        var res := StdinRawRead(console, buf);
        readLen := res.value;
        ReadPollsEmpty(before, buf.Length);
        if readLen > 0 {
          assert attempts == IdlePolls(polls);
          return Ok(readLen);
        }
        assert buf[..] == contents;
        assert polls[attempts].None?;
        assert console.input == polls[attempts + 1..];
        attempts := attempts + 1;
        sched.Yield();
      }
    }

    /** `Stdin::read_nonblocked`: `lockFree` says whether `try_lock` obtains
        the stream's lock. */
    method ReadNonblocked(buf: array<byte>, lockFree: bool) returns (r: Result<nat, AxError>)
      modifies console, buf
      ensures !lockFree ==> r == Err(WouldBlock) && buf[..] == old(buf[..])
                            && console.input == old(console.input) && console.output == old(console.output)
      ensures lockFree ==> var o := ReadPolls(old(console.input), buf.Length);
        r == Ok(|o.data|)
        && Delivered(o, old(buf[..]), buf[..], old(console.output), console.output, console.input)
    {
      if lockFree {
        var res := StdinRawRead(console, buf);
        r := Ok(res.value);
      } else {
        r := Err(WouldBlock);
      }
    }

    /** `Read for Stdin`: the blocking protocol. */
    method Read(buf: array<byte>, sched: Scheduler) returns (r: Result<nat, AxError>)
      requires buf.Length == 0 || HasByte(console.input)
      modifies console, buf, sched
      ensures var o := BlockedRead(old(console.input), buf.Length);
        r == Ok(|o.data|)
        && Delivered(o, old(buf[..]), buf[..], old(console.output), console.output, console.input)
      ensures sched.yieldCount == old(sched.yieldCount) + BlockedYields(old(console.input), buf.Length)
    {
      r := ReadBlocked(buf, sched);
    }

    /** `FileLike::read`: dispatches on the non-blocking flag. */
    method FileRead(buf: array<byte>, sched: Scheduler, lockFree: bool) returns (r: Result<nat, LinuxError>)
      requires nonblocking || buf.Length == 0 || HasByte(console.input)
      modifies console, buf, sched
      ensures nonblocking && !lockFree ==>
                r == Err(EAGAIN) && buf[..] == old(buf[..])
                && console.input == old(console.input) && console.output == old(console.output)
      ensures nonblocking && lockFree ==> var o := ReadPolls(old(console.input), buf.Length);
        r == Ok(|o.data|)
        && Delivered(o, old(buf[..]), buf[..], old(console.output), console.output, console.input)
      ensures nonblocking ==> sched.yieldCount == old(sched.yieldCount)
      ensures !nonblocking ==> var o := BlockedRead(old(console.input), buf.Length);
        r == Ok(|o.data|)
        && Delivered(o, old(buf[..]), buf[..], old(console.output), console.output, console.input)
        && sched.yieldCount == old(sched.yieldCount) + BlockedYields(old(console.input), buf.Length)
    {
      if nonblocking {
        var res := ReadNonblocked(buf, lockFree);
        r := match res
          case Ok(n) => Ok(n)
          case Err(e) => Err(FromAxError(e));
      } else {
        var res := ReadBlocked(buf, sched);
        r := Ok(res.value);
      }
    }

    /** `FileLike::write`: standard input cannot be written. */
    function FileWrite(buf: seq<byte>): (r: Result<nat, LinuxError>)
      ensures r == Err(EPERM)
    {
      Err(EPERM)
    }

    /** `FileLike::flush`. */
    function FileFlush(): (r: Result<(), LinuxError>)
      ensures r.Ok?
    {
      Ok(())
    }

    /** `FileLike::stat`: a character device readable by owner and group. */
    function FileStat(): (r: Result<Stat, LinuxError>)
      ensures r.Ok? && r.value.ino == 1 && r.value.nlink == 1
      ensures r.value.mode == S_IFCHR | S_IRUSR | S_IRGRP
      ensures IsCharDevice(r.value.mode) && Permissions(r.value.mode) == S_IRUSR | S_IRGRP
    {
      Ok(Stat(1, 1, S_IFCHR | S_IRUSR | S_IRGRP))  // 0o20000 | 0o440
    }

    /** `FileLike::poll`: always ready both ways. */
    function FilePoll(): (r: Result<PollState, LinuxError>)
      ensures r.Ok? && r.value.readable && r.value.writable
    {
      Ok(PollState(true, true))
    }

    /** `FileLike::set_nonblocking`: the only transition of the flag. */
    method SetNonblocking(nonblocking: bool) returns (r: Result<(), LinuxError>)
      modifies this
      ensures this.nonblocking == nonblocking && r.Ok?
    {
      this.nonblocking := nonblocking;
      r := Ok(());
    }
  }

  /** A handle to the standard output stream. */
  class Stdout {
    /** The process-wide output stream (its console) that the handle views. */
    const console: Console

    /** `stdout()`. */
    constructor (console: Console)
      ensures this.console == console
    {
      this.console := console;
    }

    /** `Write for Stdout`: every byte goes to the console. */
    method Write(buf: seq<byte>) returns (r: Result<nat, AxError>)
      modifies console
      ensures r == Ok(|buf|)
      ensures console.output == old(console.output) + buf
      ensures console.input == old(console.input)
    {
      r := StdoutRawWrite(console, buf);
    }

    /** `Write for Stdout`, `flush`. */
    function Flush(): (r: Result<(), AxError>)
      ensures r.Ok?
    {
      StdoutRawFlush()
    }

    /** `FileLike::read`: standard output cannot be read; the function's
        reads frame is empty, so neither the buffer nor the console is touched. */
    function FileRead(buf: array<byte>): (r: Result<nat, LinuxError>)
      ensures r == Err(EPERM)
    {
      Err(EPERM)
    }

    /** `FileLike::write`. */
    method FileWrite(buf: seq<byte>) returns (r: Result<nat, LinuxError>)
      modifies console
      ensures r == Ok(|buf|)
      ensures console.output == old(console.output) + buf
      ensures console.input == old(console.input)
    {
      var res := Write(buf);
      r := Ok(res.value);
    }

    /** `FileLike::flush`. */
    function FileFlush(): (r: Result<(), LinuxError>)
      ensures r.Ok?
    {
      Ok(())
    }

    /** `FileLike::stat`: a character device writable by owner and group. */
    function FileStat(): (r: Result<Stat, LinuxError>)
      ensures r.Ok? && r.value.ino == 1 && r.value.nlink == 1
      ensures r.value.mode == S_IFCHR | S_IWUSR | S_IWGRP
      ensures IsCharDevice(r.value.mode) && Permissions(r.value.mode) == S_IWUSR | S_IWGRP
    {
      Ok(Stat(1, 1, S_IFCHR | S_IWUSR | S_IWGRP))  // 0o20000 | 0o220
    }

    /** `FileLike::poll`: always ready both ways. */
    function FilePoll(): (r: Result<PollState, LinuxError>)
      ensures r.Ok? && r.value.readable && r.value.writable
    {
      Ok(PollState(true, true))
    }

    /** `FileLike::set_nonblocking`: accepted, with no effect. */
    function SetNonblocking(nonblocking: bool): (r: Result<(), LinuxError>)
      ensures r.Ok?
    {
      Ok(())
    }
  }
}
