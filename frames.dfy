/** Frame validation and dispatch (wxt5xx/message.py, `MessageParser`):
    in CRC mode the stripped frame's last three characters must be the CRC
    of the rest; the first remaining character is the address and the rest
    goes through the parser chain. */
module Frames {
  import opened Common
  import opened Text
  import opened Crc
  import opened Parsers

  /** `check_crc(message)`: the frame without whitespace around it and
      without its last three characters, and whether those three are the CRC
      of the rest. As with Python slices, a frame shorter than three
      characters has an empty body and is all tail. */
  function CheckCrc(message: string): (r: (string, bool))
    ensures |Strip(message)| < 3 ==> r == ("", false)
  {
    var m := Strip(message);
    var body := if |m| >= 3 then m[..|m| - 3] else "";
    var tail := if |m| >= 3 then m[|m| - 3..] else m;
    (body, Checksum(body) == tail)
  }

  /** The body parse_message goes on with, and whether it may. */
  function Checked(hasCrc: bool, message: string): (string, bool) {
    if hasCrc then CheckCrc(message) else (message, true)
  }

  /** `parse_message(message)` for a parser built with `has_crc`. A frame
      that fails the check is rejected before any parser runs; without CRC
      the frame is taken as given (the serial layer strips it). */
  function ParseFrame(hasCrc: bool, message: string): (r: Result<Reply>)
    ensures hasCrc && !CheckCrc(message).1 ==> r == Failure(InvalidCrc)
    ensures Checked(hasCrc, message).1 && |Checked(hasCrc, message).0| == 0 ==> r == Failure(EmptyFrame)
    ensures r.Ok? ==> var body := Checked(hasCrc, message).0;
      && |body| > 0
      && exists n :: 0 <= n < |Chain| && Recognizes(Chain[n], Leader(body[1..])) && Fits(Chain[n], r.value)
  {
    var (body, ok) := Checked(hasCrc, message);
    if !ok then Failure(InvalidCrc)
    else if |body| == 0 then Failure(EmptyFrame)
    else Dispatch(body[1..])
  }

  /** `check_crc`, computing the CRC with the loop of `crc16`. */
  method CheckFrame(message: string) returns (body: string, ok: bool)
    ensures (body, ok) == CheckCrc(message)
  {
    var m := Strip(message);
    var tail: string;
    if |m| >= 3 {
      body, tail := m[..|m| - 3], m[|m| - 3..];
    } else {
      body, tail := "", m;
    }
    var c := Crc16(body);
    ok := c == tail;
  }

  class MessageParser {
    const hasCrc: bool

    constructor (hasCrc: bool)
      ensures this.hasCrc == hasCrc
    {
      this.hasCrc := hasCrc;
    }

    /** `parse_message`: the loop over the parsers stops at the first answer
        other than None. `tried` counts the parsers consulted: none when the
        CRC check fails, and up to the one that answers otherwise. */
    method ParseMessage(message: string) returns (r: Result<Reply>, ghost tried: nat)
      ensures r == ParseFrame(hasCrc, message)
      ensures hasCrc && !CheckCrc(message).1 ==> tried == 0
      ensures tried <= |Chain|
      ensures r.Ok? ==> 1 <= tried
    {
      var body := message;
      var ok := true;
      tried := 0;
      if hasCrc {
        body, ok := CheckFrame(message);
      }
      if !ok {
        return Failure(InvalidCrc), tried;
      }
      if |body| == 0 {
        return Failure(EmptyFrame), tried;
      }
      r, tried := RunChain(body[1..]);
    }
  }

  /** The loop `for parser in self.parsers` with its early `break`. */
  method RunChain(rest: string) returns (r: Result<Reply>, ghost tried: nat)
    ensures r == Dispatch(rest)
    ensures 1 <= tried <= |Chain|
    ensures r.Ok? ==> Recognizes(Chain[tried - 1], Leader(rest))
  {
    tried := 0;
    for i := 0 to |Chain|
      invariant tried == i
      invariant DispatchFrom(i, rest) == Dispatch(rest)
    {
      var answer := Run(Chain[i], rest);
      tried := tried + 1;
      if answer.Failure? {
        assert DispatchFrom(i, rest) == Failure(answer.error);
        return Failure(answer.error), tried;
      }
      if answer.value.Some? {
        assert DispatchFrom(i, rest) == Ok(answer.value.value);
        return Ok(answer.value.value), tried;
      }
      DispatchPasses(i, rest);
    }
    r := Failure(UnrecognizedMessage);
  }

  // ---------------------------------------------------------------------
  // Properties of the frame check

  /** Whatever three non-space characters follow a body that does not start
      with whitespace, the check gives the body back, and it passes exactly
      when they are the body's CRC. */
  lemma CheckCrcSplits(m: string, t: string, term: string)
    requires |m| > 0 ==> !IsSpace(m[0])
    requires |t| == 3 && forall i :: 0 <= i < 3 ==> !IsSpace(t[i])
    requires AllSpace(term)
    ensures CheckCrc(m + t + term) == (m, Checksum(m) == t)
  {
    var a := m + t;
    assert !IsSpace(a[0]) && !IsSpace(a[|a| - 1]);
    StripSpaceTail(a, term);
    assert m + t + term == a + term;
    assert a[..|a| - 3] == m && a[|a| - 3..] == t;
  }

  /** CRC round trip: a body followed by its CRC and a whitespace
      terminator such as "\r\n" passes the check and yields the body. */
  lemma CrcRoundTrip(m: string, term: string)
    requires |m| > 0 ==> !IsSpace(m[0])
    requires AllSpace(term)
    ensures CheckCrc(m + Checksum(m) + term) == (m, true)
  {
    CheckCrcSplits(m, Checksum(m), term);
  }

  /** In CRC mode a frame whose last three characters are not the CRC of the
      rest is rejected with InvalidCrc. */
  lemma CorruptedCrcRejected(m: string, t: string, term: string)
    requires |m| > 0 ==> !IsSpace(m[0])
    requires |t| == 3 && forall i :: 0 <= i < 3 ==> !IsSpace(t[i])
    requires AllSpace(term) && t != Checksum(m)
    ensures ParseFrame(true, m + t + term) == Failure(InvalidCrc)
  {
    CheckCrcSplits(m, t, term);
  }
}
