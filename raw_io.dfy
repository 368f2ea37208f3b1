/** The console byte adapter: `console_read_bytes`, `console_write_bytes`
    and the two raw stream types `StdinRaw` and `StdoutRaw` built on them. */
module RawIo {
  import opened Base
  import opened Platform

  /** Carriage-return normalisation applied to every byte read from the
      console. */
  function Translate(c: byte): (r: byte)
    ensures r != CR
    ensures c != CR ==> r == c
    ensures r == LF <==> (c == CR || c == LF)
  {
    if c == CR then LF else c
  }

  /** What a raw read takes from the console: the bytes it stores, and the
      polls left in the script afterwards. */
  datatype ReadOutcome = ReadOutcome(data: seq<byte>, rest: seq<Option<byte>>)

  /** The outcome of one raw read into a buffer of `cap` bytes, when the
      device answers the polls `polls`: bytes are taken (translated) until the
      buffer is full or a poll answers `None`; that poll is used up. */
  function ReadPolls(polls: seq<Option<byte>>, cap: nat): (r: ReadOutcome)
    ensures |r.data| <= cap && |r.data| <= |polls|
    ensures |r.rest| <= |polls|
    decreases cap
  {
    if cap == 0 || polls == [] then ReadOutcome([], polls)
    else match polls[0]
      case None => ReadOutcome([], polls[1..])
      case Some(c) =>
        var tail := ReadPolls(polls[1..], cap - 1);
        ReadOutcome([Translate(c)] + tail.data, tail.rest)
  }

  /** An independent description of a raw read: `data` holds the translated
      bytes of the first |data| polls, all of which had a byte; the read
      stopped because the buffer was full, or the script was used up, or the
      next poll answered `None`, which is then consumed and nothing else. */
  ghost predicate IsReadOf(polls: seq<Option<byte>>, cap: nat, data: seq<byte>, rest: seq<Option<byte>>)
  {
    var n := |data|;
    n <= cap && n <= |polls|
    && (forall i :: 0 <= i < n ==> polls[i].Some? && data[i] == Translate(polls[i].value))
    && if n == cap then rest == polls[n..]
       else if n == |polls| then rest == []
       else polls[n].None? && rest == polls[n + 1..]
  }

  lemma {:induction false} ReadPollsIsReadOf(polls: seq<Option<byte>>, cap: nat)
    ensures IsReadOf(polls, cap, ReadPolls(polls, cap).data, ReadPolls(polls, cap).rest)
    decreases cap
  {
    if cap == 0 || polls == [] || polls[0].None? {
    } else {
      var tail := polls[1..];
      ReadPollsIsReadOf(tail, cap - 1);
      var t := ReadPolls(tail, cap - 1);
      var r := ReadPolls(polls, cap);
      assert r.data == [Translate(polls[0].value)] + t.data;
      forall i | 0 <= i < |r.data|
        ensures polls[i].Some? && r.data[i] == Translate(polls[i].value)
      {
        if i > 0 {
          assert r.data[i] == t.data[i - 1] && polls[i] == tail[i - 1];
        }
      }
      var n := |r.data|;
      if n < cap && n < |polls| {
        assert polls[n] == tail[n - 1];
        assert polls[n + 1..] == tail[n..];
      } else if n == cap {
        assert polls[n..] == tail[n - 1..];
      }
    }
  }

  /** A read description whose first poll had a byte is that byte followed
      by a read description of the remaining polls. */
  lemma IsReadOfTail(polls: seq<Option<byte>>, cap: nat, data: seq<byte>, rest: seq<Option<byte>>)
    requires IsReadOf(polls, cap, data, rest)
    requires cap > 0 && polls != [] && polls[0].Some?
    ensures |data| > 0 && data[0] == Translate(polls[0].value)
    ensures IsReadOf(polls[1..], cap - 1, data[1..], rest)
  {
  }

  /** The converse of ReadPollsIsReadOf: the description determines the
      outcome, so it is a complete reference for ReadPolls. */
  lemma {:induction false} IsReadOfDeterminesRead(polls: seq<Option<byte>>, cap: nat, data: seq<byte>, rest: seq<Option<byte>>)
    requires IsReadOf(polls, cap, data, rest)
    ensures ReadPolls(polls, cap) == ReadOutcome(data, rest)
    decreases cap
  {
    if cap == 0 || polls == [] {
    } else if polls[0].None? {
      assert |data| == 0;
    } else {
      IsReadOfTail(polls, cap, data, rest);
      IsReadOfDeterminesRead(polls[1..], cap - 1, data[1..], rest);
      assert data == [data[0]] + data[1..];
    }
  }

  /** No carriage return ever reaches the caller's buffer. */
  lemma {:induction false} ReadPollsStoresNoCR(polls: seq<Option<byte>>, cap: nat)
    ensures forall i :: 0 <= i < |ReadPolls(polls, cap).data| ==> ReadPolls(polls, cap).data[i] != CR
  {
    ReadPollsIsReadOf(polls, cap);
  }

  /** A raw read into a non-empty buffer stores nothing exactly when the first
      poll finds no byte, and then it uses up just that poll. */
  lemma {:induction false} ReadPollsEmpty(polls: seq<Option<byte>>, cap: nat)
    requires cap > 0
    ensures ReadPolls(polls, cap).data == [] <==> (polls == [] || polls[0].None?)
    ensures ReadPolls(polls, cap).data == [] ==> ReadPolls(polls, cap).rest == (if polls == [] then [] else polls[1..])
  {
  }

  /** `console_read_bytes`: one poll; a byte found is translated and echoed. */
  method ConsoleReadBytes(con: Console) returns (c: Option<byte>)
    modifies con
    ensures con.input == if old(con.input) == [] then [] else old(con.input)[1..]
    ensures c == if old(con.input) == [] || old(con.input)[0].None? then None
                 else Some(Translate(old(con.input)[0].value))
    ensures con.output == old(con.output) + (if c.Some? then [c.value] else [])
  {
    var raw := con.GetChar();
    c := match raw
      case None => None
      case Some(b) => Some(Translate(b));
    if c.Some? {
      // The echo's result is discarded.
      var echoed := ConsoleWriteBytes(con, [c.value]);
    }
  }

  /** `console_write_bytes`: every byte goes to the device, verbatim. */
  method ConsoleWriteBytes(con: Console, buf: seq<byte>) returns (r: Result<nat, AxError>)
    modifies con
    ensures r == Ok(|buf|)
    ensures con.output == old(con.output) + buf
    ensures con.input == old(con.input)
  {
    con.WriteBytes(buf);
    r := Ok(|buf|);
  }

  /** `StdinRaw::read`: fills `buf` from the console without blocking. */
  method StdinRawRead(con: Console, buf: array<byte>) returns (r: Result<nat, AxError>)
    modifies con, buf
    ensures r.Ok? && r.value <= buf.Length
    ensures ReadPolls(old(con.input), buf.Length) == ReadOutcome(buf[..r.value], con.input)
    ensures buf[r.value..] == old(buf[r.value..])
    ensures con.output == old(con.output) + buf[..r.value]
  {
    ghost var polls := con.input;
    var readLen := 0;
    while readLen < buf.Length
      invariant 0 <= readLen <= buf.Length
      invariant ReadPolls(polls, buf.Length)
             == ReadOutcome(buf[..readLen] + ReadPolls(con.input, buf.Length - readLen).data,
                            ReadPolls(con.input, buf.Length - readLen).rest)
      invariant forall i :: readLen <= i < buf.Length ==> buf[i] == old(buf[i])
      invariant con.output == old(con.output) + buf[..readLen]
      decreases buf.Length - readLen
    {
      ghost var before := con.input;
      ghost var stored := buf[..readLen];
      var c := ConsoleReadBytes(con);
      if c.Some? {
        buf[readLen] := c.value;
        assert buf[..readLen + 1] == stored + [c.value];
        ghost var next := ReadPolls(con.input, buf.Length - readLen - 1);
        assert ReadPolls(before, buf.Length - readLen) == ReadOutcome([c.value] + next.data, next.rest);
        assert stored + ([c.value] + next.data) == buf[..readLen + 1] + next.data;
        readLen := readLen + 1;
      } else {
        assert ReadPolls(before, buf.Length - readLen) == ReadOutcome([], con.input);
        assert buf[..readLen] + [] == buf[..readLen];
        break;
      }
    }
    assert buf[readLen..] == old(buf[readLen..]);
    r := Ok(readLen);
  }

  /** `StdoutRaw::write`. */
  method StdoutRawWrite(con: Console, buf: seq<byte>) returns (r: Result<nat, AxError>)
    modifies con
    ensures r == Ok(|buf|)
    ensures con.output == old(con.output) + buf
    ensures con.input == old(con.input)
  {
    r := ConsoleWriteBytes(con, buf);
  }

  /** `StdoutRaw::flush`: nothing is buffered, so there is nothing to do. */
  function StdoutRawFlush(): (r: Result<(), AxError>)
    ensures r.Ok?
  {
    Ok(())
  }
}
