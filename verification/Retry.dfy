/**
 The results of send, write and sendfile, and the caller that resends what is
 left while they say `again`.
 */
module Retry {

  // lua_pushboolean takes an int: the size_t argument keeps its low 32 bits.
  const INT_RANGE := 0x1_0000_0000

  predicate Narrowed(size: nat) {
    size % INT_RANGE != 0
  }

  // What the kernel does with one call: take up to n bytes, ask to be called
  // again (EAGAIN, EWOULDBLOCK, EINTR), or fail.
  datatype Answer = Take(n: nat) | TryAgain | Break(errno: int)

  const EINVAL := 22
  const ECONNRESET := 104

  datatype Result = Failed(errno: int) | Sent(n: nat, again: bool)

  function Min(a: nat, b: nat): nat {
    if a < b then a else b
  }

  // The kernel never takes more than it was given.
  function Limited(a: Answer, size: nat): Answer {
    if a.Take? && a.n > size then Take(size) else a
  }

  // The values send_lua returns for the kernel's answer.
  function Reported(a: Answer, size: nat): Result
    requires a.Take? ==> a.n <= size
  {
    match a
    case TryAgain => Sent(0, true)
    case Break(errno) => Failed(errno)
    case Take(n) => Sent(n, Narrowed(size - n))
  }

  // What the caller is told of the kernel's next answer, when `asked` bytes were
  // offered: EAGAIN is no error, an errno is one, and a count is passed on.
  predicate Told(answers: seq<Answer>, asked: nat, r: Result) {
    if answers == [] then r == Failed(ECONNRESET)
    else
      match answers[0]
      case TryAgain => r == Sent(0, true)
      case Break(errno) => r == Failed(errno)
      case Take(n) => r.Sent? && r.n == Min(n, asked)
  }

  // The answers that are left.
  function Later(answers: seq<Answer>): seq<Answer> {
    if answers == [] then [] else answers[1..]
  }

  // A connection: what the peer was given so far, and the kernel's coming answers.
  // When they run out the connection is gone.
  class Connection {
    var delivered: string
    var answers: seq<Answer>

    constructor (answers: seq<Answer>)
      ensures delivered == [] && this.answers == answers
    {
      delivered, this.answers := [], answers;
    }

    // send(2), write(2) and sendfile(2): -1 is Break or TryAgain.
    method Transfer(buf: string) returns (a: Answer)
      modifies this
      ensures a.Take? ==> a.n <= |buf| && delivered == old(delivered) + buf[..a.n]
      ensures !a.Take? ==> delivered == old(delivered)
      ensures !a.Break? ==> |answers| < |old(answers)|
      ensures a == if old(answers) == [] then Break(ECONNRESET) else Limited(old(answers)[0], |buf|)
      ensures answers == Later(old(answers))
    {
      if answers == [] {
        return Break(ECONNRESET);
      }
      a := Limited(answers[0], |buf|);
      answers := answers[1..];
      if a.Take? {
        delivered := delivered + buf[..a.n];
      }
    }

    // send_lua and write_lua
    method Send(buf: string) returns (r: Result)
      modifies this
      ensures r.Sent? ==> r.n <= |buf| && delivered == old(delivered) + buf[..r.n]
      ensures r.Sent? && r.again ==> r.n < |buf|
      ensures r.Sent? && !r.again ==> (|buf| - r.n) % INT_RANGE == 0
      ensures buf != [] ==> Told(old(answers), |buf|, r) && answers == Later(old(answers))
      ensures buf != [] && r.Sent? ==> (r.again <==> old(answers)[0].TryAgain? || (|buf| - r.n) % 4294967296 != 0)
      ensures r.Failed? ==> delivered == old(delivered)
      ensures buf == [] ==> r == Failed(EINVAL) && answers == old(answers)
      ensures r.Sent? ==> |answers| < |old(answers)|
    {
      if |buf| == 0 {
        return Failed(EINVAL);
      }
      var a := Transfer(buf);
      r := Reported(a, |buf|);
    }

    // sendfile_lua: `again` compares sizes before narrowing. The kernel stops at the
    // end of the file.
    method SendFile(file: string, len: nat, offset: nat) returns (r: Result)
      modifies this
      ensures r.Sent? ==> r.n <= len && (r.again <==> r.n < len)
      ensures r.Sent? && r.n > 0 ==> offset + r.n <= |file|
      ensures r.Sent? ==> delivered == old(delivered) + if r.n == 0 then [] else file[offset..offset + r.n]
      ensures r.Failed? ==> delivered == old(delivered)
      ensures len == 0 ==> r == Failed(EINVAL) && answers == old(answers)
      ensures r.Sent? ==> |answers| < |old(answers)|
      ensures len != 0 ==> Told(old(answers), Min(len, Available(file, offset)), r) && answers == Later(old(answers))
    {
      if len == 0 {
        return Failed(EINVAL);
      }
      var there := if offset < |file| then file[offset..] else [];
      var window := there[..Min(len, |there|)];
      var a := Transfer(window);
      match a {
        case TryAgain => r := Sent(0, true);
        case Break(errno) => r := Failed(errno);
        case Take(n) =>
          assert n > 0 ==> window[..n] == file[offset..offset + n];
          r := Sent(n, len - n != 0);
      }
    }

    // The caller's loop: resend the rest while `again` holds. It stops without error
    // exactly after a prefix whose rest is a multiple of the int range, and with an
    // error after some prefix; each byte is given once and in order.
    method SendAll(msg: string) returns (r: Result, ghost sent: nat)
      modifies this
      ensures sent <= |msg| && delivered == old(delivered) + msg[..sent]
      ensures r.Sent? ==> !r.again && (|msg| - sent) % INT_RANGE == 0
      ensures r.Sent? && |msg| < INT_RANGE ==> delivered == old(delivered) + msg
      ensures msg == [] ==> r == Failed(EINVAL)
      ensures r.Failed? && msg != [] ==> GaveUp(old(answers), answers, r.errno)
    {
      sent := 0;
      var rest := msg;
      ghost var k := 0;
      while true
        invariant sent <= |msg| && rest == msg[sent..] && (msg != [] ==> rest != [])
        invariant k <= |old(answers)| && answers == old(answers)[k..] && NoBreak(old(answers)[..k])
        invariant delivered == old(delivered) + msg[..sent]
        decreases |answers|
      {
        r := Send(rest);
        if r.Failed? {
          return;
        }
        assert old(answers)[..k + 1] == old(answers)[..k] + [old(answers)[k]];
        k := k + 1;
        assert msg[..sent + r.n] == msg[..sent] + rest[..r.n];
        rest, sent := rest[r.n..], sent + r.n;
        if !r.again {
          return;
        }
      }
    }

    // The same loop over sendfile, as the offset advances: nothing is lost, whatever
    // the length.
    method SendWholeFile(file: string, len: nat, start: nat) returns (r: Result)
      modifies this
      ensures r.Sent? ==> start + len <= |file| && delivered == old(delivered) + file[start..start + len]
      ensures r.Failed? ==> exists k :: 0 <= k <= len && SentOf(old(delivered), file, start, k, delivered)
      ensures len == 0 ==> r == Failed(EINVAL)
      ensures r.Failed? && len != 0 ==> GaveUp(old(answers), answers, r.errno)
    {
      var offset: nat, remain: nat := start, len;
      ghost var k := 0;
      while true
        invariant len != 0 ==> remain != 0
        invariant k <= |old(answers)| && answers == old(answers)[k..] && NoBreak(old(answers)[..k])
        invariant start <= offset && offset - start + remain == len
        invariant SentOf(old(delivered), file, start, offset - start, delivered)
        decreases |answers|
      {
        r := SendFile(file, remain, offset);
        if r.Failed? {
          return;
        }
        assert old(answers)[..k + 1] == old(answers)[..k] + [old(answers)[k]];
        k := k + 1;
        offset, remain := offset + r.n, remain - r.n;
        if !r.again {
          return;
        }
      }
    }
  }

  predicate NoBreak(answers: seq<Answer>) {
    forall i :: 0 <= i < |answers| ==> !answers[i].Break?
  }

  // The loop ended with an error: the kernel's first one, or the connection is gone.
  ghost predicate GaveUp(was: seq<Answer>, left: seq<Answer>, errno: int) {
    || (left == [] && NoBreak(was) && errno == ECONNRESET)
    || (exists k :: 0 <= k < |was| && was[k] == Break(errno) && NoBreak(was[..k]) && left == was[k + 1..])
  }

  // How many bytes the file has from the offset on.
  function Available(file: string, offset: nat): nat {
    if offset < |file| then |file| - offset else 0
  }

  // k bytes of the file from start were added.
  ghost predicate SentOf(before: string, file: string, start: nat, k: nat, after: string) {
    if k == 0 then after == before else start + k <= |file| && after == before + file[start..start + k]
  }

  predicate AgainIsRight(len: nat, n: nat)
    requires n <= len
  {
    Narrowed(len - n) <==> n < len
  }

  // `again` says "fewer bytes than asked", whatever the kernel takes, exactly for
  // the lengths below the int range.
  lemma AgainMeansPartial(len: nat)
    ensures (forall n: nat :: n <= len ==> AgainIsRight(len, n)) <==> len < 4294967296
  {
    if len >= INT_RANGE {
      var n := len - INT_RANGE;
      assert !AgainIsRight(len, n);
    }
  }

  // A longer message can lose its end without an error: a kernel that takes all but
  // INT_RANGE bytes is not asked again.
  method LosesTheRest(msg: string) returns (r: Result, delivered: string)
    requires |msg| > 4294967296
    ensures r == Sent(|msg| - 4294967296, false) && delivered == msg[..|msg| - 4294967296]
  {
    var c := new Connection([Take(|msg| - INT_RANGE)]);
    r := c.Send(msg);
    delivered := c.delivered;
  }
}
