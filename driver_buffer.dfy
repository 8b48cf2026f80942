/**
 * The driver's fixed output buffer: a 65535-character array that the vendor DLL
 * overwrites with a NUL-terminated reply, and the const readers over it
 * (`GetOutString`, `Recv`, `GetResult`).
 */
module DriverBuffer {
  import DriverReply

  /** `UINT16_MAX`, the length of `outbuffer`. */
  const BufferSize: nat := 65535

  predicate HasNul(buf: seq<char>) {
    exists k :: 0 <= k < |buf| && buf[k] == '\0'
  }

  predicate NulFree(s: string) {
    forall i :: 0 <= i < |s| ==> s[i] != '\0'
  }

  /**
   * What `std::string(const char*)` reads from `buf`: the characters before the first
   * NUL. The buffer must hold a NUL, or the read runs off its end.
   */
  function CString(buf: seq<char>): (s: string)
    requires HasNul(buf)
    ensures |s| < |buf| && buf[|s|] == '\0'
    ensures s == buf[..|s|] && NulFree(s)
  {
    if buf[0] == '\0' then []
    else
      assert HasNul(buf[1..]) by {
        var k :| 0 <= k < |buf| && buf[k] == '\0';
        assert buf[1..][k - 1] == '\0';
      }
      [buf[0]] + CString(buf[1..])
  }

  /** The first NUL at index `n` fixes the string read. */
  lemma {:induction false} CStringUpTo(buf: seq<char>, n: nat)
    requires n < |buf| && buf[n] == '\0' && NulFree(buf[..n])
    ensures HasNul(buf) && CString(buf) == buf[..n]
  {
    if n > 0 {
      assert buf[1..][n - 1] == '\0';
      assert buf[1..][..n - 1] == buf[..n][1..];
      CStringUpTo(buf[1..], n - 1);
    }
  }

  /** A NUL-free reply followed by a NUL reads back as itself, whatever follows. */
  lemma StoredReplyReadsBack(reply: string, rest: seq<char>)
    requires NulFree(reply)
    ensures HasNul(reply + ['\0'] + rest) && CString(reply + ['\0'] + rest) == reply
  {
    var buf := reply + ['\0'] + rest;
    assert buf[..|reply|] == reply;
    CStringUpTo(buf, |reply|);
  }

  class Driver {
    /** `std::array<char, UINT16_MAX> outbuffer`. */
    const outbuffer: array<char>

    ghost predicate Valid()
      reads outbuffer
    {
      outbuffer.Length == BufferSize && HasNul(outbuffer[..])
    }

    /** The reply the buffer currently holds. */
    ghost function OutString(): string
      reads outbuffer
      requires Valid()
    {
      CString(outbuffer[..])
    }

    /** A driver whose buffer holds the empty reply. */
    constructor ()
      ensures Valid() && fresh(outbuffer) && OutString() == ""
    {
      outbuffer := new char[BufferSize](_ => '\0');
      new;
      assert outbuffer[..][0] == '\0';
    }

    /**
     * The write the DLL's `asic_call_parse` performs on `outbuffer`: the reply and its
     * terminating NUL; the rest of the buffer is left as it was.
     */
    method Store(reply: string)
      requires Valid() && NulFree(reply) && |reply| < BufferSize
      modifies outbuffer
      ensures Valid() && OutString() == reply
      ensures outbuffer[|reply| + 1..] == old(outbuffer[|reply| + 1..])
    {
      var i := 0;
      while i < |reply|
        invariant 0 <= i <= |reply|
        invariant outbuffer[..i] == reply[..i]
        invariant outbuffer[|reply| + 1..] == old(outbuffer[|reply| + 1..])
      {
        outbuffer[i] := reply[i];
        i := i + 1;
      }
      outbuffer[|reply|] := '\0';
      assert outbuffer[..] == reply + ['\0'] + outbuffer[|reply| + 1..];
      StoredReplyReadsBack(reply, outbuffer[|reply| + 1..]);
    }

    /** `std::string(outbuffer.data())`: the characters before the first NUL. */
    method GetOutString() returns (s: string)
      requires Valid()
      ensures s == CString(outbuffer[..])
      ensures NulFree(s) && |s| < BufferSize
    {
      var n := 0;
      while outbuffer[n] != '\0'
        invariant 0 <= n < outbuffer.Length
        invariant NulFree(outbuffer[..n])
        decreases outbuffer.Length - n
      {
        assert outbuffer[..n + 1] == outbuffer[..n] + [outbuffer[n]];
        n := n + 1;
      }
      s := outbuffer[..n];
      CStringUpTo(outbuffer[..], n);
    }

    /** `Recv()`: the reply, exactly as `GetOutString` reads it. */
    method Recv() returns (s: string)
      requires Valid()
      ensures s == CString(outbuffer[..])
    {
      s := GetOutString();
    }

    /** The payload of the reply the buffer holds. */
    method GetResult() returns (r: string)
      requires Valid()
      ensures r == DriverReply.GetResult(CString(outbuffer[..]))
      ensures DriverReply.IsSuffix(r, CString(outbuffer[..]))
    {
      var output := GetOutString();
      r := DriverReply.GetResult(output);
    }
  }
}
