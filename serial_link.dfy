/**
 * The serial link seen by both drivers, reduced to a scripted channel: the
 * sensor's replies are fixed in advance, one per exchange, and every buffer
 * the driver writes is logged in order.
 */
module SerialLink {
  import opened Protocol

  /** What comes back from the sensor for one written frame. */
  datatype Reply =
    | Bytes(data: seq<Byte>)  // the bytes that arrive before the read timeout (possibly none)
    | PortError               // the port reports an I/O failure

  /** Reply `k` of a script; once the script is used up the sensor stays silent. */
  function ReplyAt(script: seq<Reply>, k: nat): Reply {
    if k < |script| then script[k] else Bytes([])
  }

  /** The script left after `k` exchanges. */
  function After(script: seq<Reply>, k: nat): (rest: seq<Reply>)
    ensures |rest| == if k < |script| then |script| - k else 0
  {
    if k < |script| then script[k..] else []
  }

  /** Reply `j` of what is left after `k` exchanges is reply `k + j` of the whole script. */
  lemma ReplyAtAfter(script: seq<Reply>, k: nat, j: nat)
    ensures ReplyAt(After(script, k), j) == ReplyAt(script, k + j)
  {
  }

  /** Consuming `i` replies and then `j` more is consuming `i + j`. */
  lemma AfterAfter(script: seq<Reply>, i: nat, j: nat)
    ensures After(After(script, i), j) == After(script, i + j)
  {
  }

  /** Appending the next element of `s` to a log that ends with the first `i` of them. */
  lemma AppendNext<T>(log: seq<T>, s: seq<T>, i: nat)
    requires i < |s|
    ensures log + s[..i] + [s[i]] == log + s[..i + 1]
  {
    assert s[..i + 1] == s[..i] + [s[i]];
  }

  /** A serial port connected to a scripted sensor. */
  class Port {
    /** The replies not yet consumed. */
    var script: seq<Reply>
    /** Every buffer handed to the port for writing, oldest first. */
    var written: seq<seq<Byte>>

    constructor (replies: seq<Reply>)
      ensures script == replies && written == []
    {
      script := replies;
      written := [];
    }

    /** Writes a whole buffer (`write_all`, `ser.write`); a failed write shows up in the reply. */
    method Write(data: seq<Byte>)
      modifies this
      ensures written == old(written) + [data]
      ensures script == old(script)
    {
      written := written + [data];
    }

    /** Blocks for the sensor's reply to the last frame written. */
    method Receive() returns (reply: Reply)
      modifies this
      ensures reply == ReplyAt(old(script), 0)
      ensures script == After(old(script), 1)
      ensures written == old(written)
    {
      reply := ReplyAt(script, 0);
      script := After(script, 1);
    }
  }
}
