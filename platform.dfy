/** The collaborators outside the console-stream layer, replaced by abstract
    state: the console hardware (`ruxhal::console`) and the scheduler's yield. */
module Platform {
  import opened Base

  /** The console device. Its input side is a script of polls: each poll of
      `getchar` takes the next entry, where `None` means that no byte was
      available at that poll; once the script is used up the device stays
      idle and every poll answers `None`. Its output side is the log of every
      byte written to it. */
  class Console {
    var input: seq<Option<byte>>
    var output: seq<byte>

    constructor (script: seq<Option<byte>>)
      ensures input == script && output == []
    {
      input := script;
      output := [];
    }

    /** `ruxhal::console::getchar`: one non-blocking poll of the device. */
    method GetChar() returns (c: Option<byte>)
      modifies this
      ensures c == if old(input) == [] then None else old(input)[0]
      ensures input == if old(input) == [] then [] else old(input)[1..]
      ensures output == old(output)
    {
      if input == [] {
        c := None;
      } else {
        c := input[0];
        input := input[1..];
      }
    }

    /** `ruxhal::console::write_bytes`: the device accepts every byte. */
    method WriteBytes(bytes: seq<byte>)
      modifies this
      ensures output == old(output) + bytes
      ensures input == old(input)
    {
      output := output + bytes;
    }
  }

  /** `crate::sys_sched_yield`, reduced to a count of the yields performed. */
  class Scheduler {
    var yieldCount: nat

    constructor ()
      ensures yieldCount == 0
    {
      yieldCount := 0;
    }

    method Yield()
      modifies this
      ensures yieldCount == old(yieldCount) + 1
    {
      yieldCount := yieldCount + 1;
    }
  }
}
