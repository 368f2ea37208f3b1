/** A client of the stream handles: what a caller can conclude from their
    contracts alone about a sequence of file-object calls. */
module Client {
  import opened Base
  import opened Platform
  import opened Stdio

  /** With the console idle for three polls and then delivering a carriage
      return: a non-blocking read that obtains the lock returns `Ok(0)` (not
      would-block), one that does not obtain it returns EAGAIN, and after
      switching back to blocking mode a read waits for the byte, stores and
      echoes it as a line feed, and yields once between its two failed
      attempts. */
  method FlagScenario() returns (idle: Result<nat, LinuxError>, contended: Result<nat, LinuxError>,
                                 blocked: Result<nat, LinuxError>, stored: byte, echoed: seq<byte>, yieldCount: nat)
    ensures idle == Ok(0) && contended == Err(EAGAIN)
    ensures blocked == Ok(1) && stored == LF && echoed == [LF] && yieldCount == 1
  {
    var console := new Console([None, None, None, Some(CR)]);
    var sched := new Scheduler();
    var stdin := new Stdin(console);
    var buf := new byte[1];
    var switched := stdin.SetNonblocking(true);
    idle := stdin.FileRead(buf, sched, true);
    contended := stdin.FileRead(buf, sched, false);
    switched := stdin.SetNonblocking(false);
    assert console.input == [None, None, Some(CR)];
    assert console.input[2].Some?;
    blocked := stdin.FileRead(buf, sched, true);
    stored := buf[0];
    echoed := console.output;
    yieldCount := sched.yieldCount;
  }

  /** Output and input share the console: what standard output writes and
      what standard input echoes land in one log, in call order, while
      writing standard input and reading standard output are refused. */
  method SharedConsoleScenario(text: seq<byte>) returns (written: Result<nat, LinuxError>,
                                                   wrongWrite: Result<nat, LinuxError>,
                                                   wrongRead: Result<nat, LinuxError>, log: seq<byte>)
    ensures written == Ok(|text|) && wrongWrite == Err(EPERM) && wrongRead == Err(EPERM)
    ensures log == text + [LF]
  {
    var console := new Console([Some(CR)]);
    var sched := new Scheduler();
    var stdin := new Stdin(console);
    var stdout := new Stdout(console);
    var buf := new byte[4];
    written := stdout.FileWrite(text);
    wrongWrite := stdin.FileWrite(text);
    wrongRead := stdout.FileRead(buf);
    assert console.input[0].Some?;
    var n := stdin.FileRead(buf, sched, true);
    log := console.output;
  }
}
