/** Reading and writing frames of the Base Protocol of the Language Server Protocol 3.17, section
    "Header Part", as the daemon does on its standard streams. */
module ContentLength {
  import opened Options

  /** Bytes are the characters below 256. */
  type Byte = char
  type Bytes = seq<Byte>

  const MAX_LINE: nat := 1024
  const MAX_HEADER: nat := 8 * 1024
  const MAX_FRAME: nat := 4 * 1024 * 1024
  const USIZE_MAX: nat := 0xFFFF_FFFF_FFFF_FFFF

  datatype Error =
    | LineTooLong | HeaderTooLarge | NotUtf8 | EofInHeader
    | DuplicateLength | UnsupportedHeader | BadLength | FrameTooLarge | MissingLength
    | EofInPayload

  datatype Result<T> = Ok(value: T) | Err(error: Error)

  // ---- Bytes ----

  predicate Continuation(s: Bytes, i: nat, low: int, high: int) { i < |s| && low <= s[i] as int <= high }

  /** Well-formed UTF-8, by the table in section 4 of RFC 3629. */
  predicate Utf8(s: Bytes) {
    if s == [] then true
    else
      var c := s[0] as int;
      if c < 0x80 then Utf8(s[1..])
      else if 0xC2 <= c <= 0xDF then Continuation(s, 1, 0x80, 0xBF) && Utf8(s[2..])
      else if 0xE0 <= c <= 0xEF then
        && Continuation(s, 1, if c == 0xE0 then 0xA0 else 0x80, if c == 0xED then 0x9F else 0xBF)
        && Continuation(s, 2, 0x80, 0xBF)
        && Utf8(s[3..])
      else if 0xF0 <= c <= 0xF4 then
        && Continuation(s, 1, if c == 0xF0 then 0x90 else 0x80, if c == 0xF4 then 0x8F else 0xBF)
        && Continuation(s, 2, 0x80, 0xBF) && Continuation(s, 3, 0x80, 0xBF)
        && Utf8(s[4..])
      else false
  }

  /** Everything up to and including the first line feed, or all there is. */
  function FirstLine(s: Bytes): (line: Bytes)
    ensures line <= s && (s != [] ==> line != [])
  {
    if s == [] then [] else if s[0] == '\n' then [s[0]] else [s[0]] + FirstLine(s[1..])
  }

  predicate NoFeed(s: Bytes) { forall i :: 0 <= i < |s| ==> s[i] != '\n' }

  function Trimmed(line: Bytes): (r: Bytes)
    ensures r <= line
  {
    if line != [] && (line[|line| - 1] == '\r' || line[|line| - 1] == '\n') then Trimmed(line[..|line| - 1]) else line
  }

  predicate IsDigit(c: char) { '0' <= c <= '9' }

  predicate AllDigits(s: Bytes) { forall i :: 0 <= i < |s| ==> IsDigit(s[i]) }

  function DigitsValue(s: Bytes): nat
    requires AllDigits(s)
  {
    if s == [] then 0 else 10 * DigitsValue(s[..|s| - 1]) + (s[|s| - 1] as int - '0' as int)
  }

  /** An unsigned number, with or without a plus sign. */
  function ParsedLength(text: Bytes): Option<nat> {
    var digits := if text != [] && text[0] == '+' then text[1..] else text;
    if digits == [] || !AllDigits(digits) then None
    else if DigitsValue(digits) > USIZE_MAX then None
    else Some(DigitsValue(digits))
  }

  const PREFIX: Bytes := "Content-Length: "

  /** What a header line that is not blank asks for. */
  function LengthOf(header: Bytes): Result<nat> {
    if !(PREFIX <= header) then Err(UnsupportedHeader)
    else match ParsedLength(header[|PREFIX|..])
      case None => Err(BadLength)
      case Some(n) => if n > MAX_FRAME then Err(FrameTooLarge) else Ok(n)
  }

  // ---- A frame ----

  datatype Frame = Frame(payload: Bytes, rest: Bytes) | Eof | Failed(error: Error)

  /** What the header loop knows: the length, if one was given, the bytes read so far, and the first
      complaint about a header, which waits for the end of the headers. */
  datatype Header = Header(length: Option<nat>, total: nat, complaint: Option<Error>)

  function Noted(h: Header, header: Bytes): Header {
    if h.complaint.Some? then h
    else if h.length.Some? then h.(complaint := Some(DuplicateLength))
    else match LengthOf(header)
      case Ok(n) => h.(length := Some(n))
      case Err(e) => h.(complaint := Some(e))
  }

  function Payload(h: Header, s: Bytes): Frame {
    if h.complaint.Some? then Failed(h.complaint.value)
    else if h.length.None? then Failed(MissingLength)
    else if h.length.value > |s| then Failed(EofInPayload)
    else Frame(s[..h.length.value], s[h.length.value..])
  }

  datatype Headers = Done(header: Header, rest: Bytes) | NoMore | Broken(error: Error)

  /** One turn of the header loop: why it stops, or `Done` with the trimmed line to look at. */
  function Turn(line: Bytes, h: Header): Headers {
    if line == [] then if h.total > 0 then Broken(EofInHeader) else NoMore
    else if h.total + |line| > MAX_HEADER then Broken(HeaderTooLarge)
    else if !Utf8(line) then Broken(NotUtf8)
    else Done(h.(total := h.total + |line|), Trimmed(line))
  }

  function HeadersFrom(s: Bytes, h: Header): (r: Headers)
    ensures r.Done? ==> |r.rest| < |s|
    decreases |s|
  {
    var line := FirstLine(s);
    if |line| > MAX_LINE then Broken(LineTooLong)
    else
      var turn := Turn(line, h);
      if !turn.Done? then turn
      else if turn.rest == [] then Done(turn.header, s[|line|..])
      else HeadersFrom(s[|line|..], Noted(turn.header, turn.rest))
  }

  const NO_HEADER := Header(None, 0, None)

  function Finish(headers: Headers): Frame {
    match headers
    case Done(h, rest) => Payload(h, rest)
    case NoMore => Eof
    case Broken(e) => Failed(e)
  }

  function ReadFrame(s: Bytes): Frame { Finish(HeadersFrom(s, NO_HEADER)) }

  /** Frames are read until the stream ends or breaks. */
  function ReadAll(s: Bytes): (seq<Bytes>, Frame)
    decreases |s|
  {
    match ReadFrame(s)
    case Frame(payload, rest) => var (payloads, end) := ReadAll(rest); ([payload] + payloads, end)
    case end => ([], end)
  }

  // ---- Writing ----

  function Decimal(n: nat): (s: Bytes)
    ensures s != [] && AllDigits(s)
  {
    var digit: Byte := ('0' as int + n % 10) as char;
    if n < 10 then [digit] else Decimal(n / 10) + [digit]
  }

  function Written(payload: Bytes): Bytes { PREFIX + Decimal(|payload|) + "\r\n\r\n" + payload }

  function WrittenAll(payloads: seq<Bytes>): Bytes {
    if payloads == [] then [] else Written(payloads[0]) + WrittenAll(payloads[1..])
  }

  // ---- The reader ----

  function Flat(chunks: seq<Bytes>): Bytes { if chunks == [] then [] else chunks[0] + Flat(chunks[1..]) }

  lemma {:induction false} LineGoesOn(a: Bytes, b: Bytes)
    requires NoFeed(a)
    ensures FirstLine(a + b) == a + FirstLine(b)
  {
    if a == [] {
      assert a + b == b && a + FirstLine(b) == FirstLine(b);
    } else {
      assert (a + b)[1..] == a[1..] + b && (a + b)[0] == a[0];
      LineGoesOn(a[1..], b);
      assert [a[0]] + a[1..] == a;
    }
  }

  lemma {:induction false} LineStops(a: Bytes, b: Bytes)
    requires !NoFeed(a)
    ensures FirstLine(a + b) == FirstLine(a)
  {
    assert (a + b)[1..] == a[1..] + b;
    if a[0] != '\n' {
      LineStops(a[1..], b);
    }
  }

  lemma {:induction false} LineEnds(s: Bytes)
    requires !NoFeed(s)
    ensures FirstLine(s) != [] && FirstLine(s)[|FirstLine(s)| - 1] == '\n'
  {
    if s[0] != '\n' {
      LineEnds(s[1..]);
    }
  }

  /** A line that has begun goes on into what is available, and perhaps beyond. */
  lemma LineContinues(line: Bytes, available: Bytes, later: Bytes)
    requires NoFeed(line)
    ensures !NoFeed(available) ==> FirstLine(line + (available + later)) == line + FirstLine(available)
    ensures NoFeed(available) ==> FirstLine(available) == available
    ensures NoFeed(available) ==> FirstLine(line + (available + later)) == line + available + FirstLine(later)
  {
    LineGoesOn(line, available + later);
    if !NoFeed(available) {
      LineStops(available, later);
    } else {
      LineGoesOn(available, later);
      LineGoesOn(available, []);
      assert available + [] == available;
      assert line + (available + FirstLine(later)) == line + available + FirstLine(later);
    }
  }

  lemma MovedOver(a: Bytes, b: Bytes, n: nat)
    requires n <= |b|
    ensures a + b == (a + b[..n]) + b[n..]
  {
    assert b == b[..n] + b[n..];
  }

  /** A buffered reader: the bytes to come, cut into the pieces in which they arrive. */
  class BufReader {
    var chunks: seq<Bytes>

    predicate Valid()
      reads this
    {
      forall i :: 0 <= i < |chunks| ==> chunks[i] != []
    }

    function Contents(): Bytes
      reads this
    {
      Flat(chunks)
    }

    constructor (chunks: seq<Bytes>)
      requires forall i :: 0 <= i < |chunks| ==> chunks[i] != []
      ensures Valid() && Contents() == Flat(chunks)
    {
      this.chunks := chunks;
    }

    method FillBuf() returns (available: Bytes)
      requires Valid()
      ensures available <= Contents() && (available == [] <==> Contents() == [])
      ensures chunks != [] ==> available == chunks[0]
    {
      return if chunks == [] then [] else chunks[0];
    }

    method Consume(n: nat)
      requires Valid() && chunks != [] && 0 < n <= |chunks[0]|
      modifies this
      ensures Valid() && n <= |old(Contents())| && Contents() == old(Contents())[n..]
    {
      var first, others := chunks[0], chunks[1..];
      assert chunks == [first] + others && Contents() == first + Flat(others);
      if n == |first| {
        chunks := others;
      } else {
        chunks := [first[n..]] + others;
        assert chunks[1..] == others;
        assert Contents() == first[n..] + Flat(others);
      }
    }

    /** One turn of the line loop: the line so far, and whether it is whole; or it grew too long. */
    method ExtendLine(line: Bytes) returns (r: Option<Bytes>, whole: bool)
      requires Valid() && NoFeed(line) && |line| <= MAX_LINE
      modifies this
      ensures Valid() && (r.Some? ==> |r.value| <= MAX_LINE && r.value + Contents() == line + old(Contents()))
      ensures r.None? ==> |FirstLine(line + old(Contents()))| > MAX_LINE
      ensures r.Some? && whole ==> r.value == FirstLine(line + old(Contents()))
      ensures r.Some? && !whole ==> NoFeed(r.value) && |Contents()| < |old(Contents())|
    {
      var available := FillBuf();
      if available == [] {
        LineGoesOn(line, []);
        return Some(line), true;
      }
      var taken := FirstLine(available);
      ghost var rest := Contents();
      LineContinues(line, available, Flat(chunks[1..]));
      if |line| + |taken| > MAX_LINE {
        return None, false;
      }
      if !NoFeed(available) {
        LineEnds(available);
      }
      MovedOver(line, rest, |taken|);
      assert rest[..|taken|] == taken;
      Consume(|taken|);
      return Some(line + taken), taken[|taken| - 1] == '\n';
    }

    /** The next line, however the bytes arrive; too long if and only if the whole line is. */
    method ReadBoundedHeaderLine() returns (r: Result<Bytes>)
      requires Valid()
      modifies this
      ensures Valid()
      ensures r == if |FirstLine(old(Contents()))| > MAX_LINE then Err(LineTooLong) else Ok(FirstLine(old(Contents())))
      ensures r.Ok? ==> Contents() == old(Contents())[|r.value|..]
    {
      var line: Bytes := [];
      while true
        invariant Valid() && old(Contents()) == line + Contents()
        invariant NoFeed(line) && |line| <= MAX_LINE
        decreases |Contents()|
      {
        var longer, whole := ExtendLine(line);
        if longer.None? {
          return Err(LineTooLong);
        }
        line := longer.value;
        if whole {
          return Ok(line);
        }
      }
    }

    method ReadExact(n: nat) returns (r: Result<Bytes>)
      requires Valid()
      modifies this
      ensures Valid()
      ensures r == if n > |old(Contents())| then Err(EofInPayload) else Ok(old(Contents())[..n])
      ensures r.Ok? ==> Contents() == old(Contents())[n..]
    {
      var payload: Bytes := [];
      while |payload| < n
        invariant Valid() && |payload| <= n && old(Contents()) == payload + Contents()
      {
        var available := FillBuf();
        if available == [] {
          return Err(EofInPayload);
        }
        var take := if |available| <= n - |payload| then |available| else n - |payload|;
        assert available[..take] == Contents()[..take];
        MovedOver(payload, Contents(), take);
        payload := payload + available[..take];
        Consume(take);
      }
      return Ok(payload);
    }

    method ReadHeaders() returns (r: Result<Option<Header>>)
      requires Valid()
      modifies this
      ensures Valid()
      ensures match HeadersFrom(old(Contents()), NO_HEADER)
        case Done(h, rest) => r == Ok(Some(h)) && Contents() == rest
        case NoMore => r == Ok(None)
        case Broken(e) => r == Err(e)
    {
      var h := NO_HEADER;
      while true
        invariant Valid() && HeadersFrom(Contents(), h) == HeadersFrom(old(Contents()), NO_HEADER)
        decreases |Contents()|
      {
        var line := ReadBoundedHeaderLine();
        if line.Err? {
          return Err(line.error);
        }
        var turn := Turn(line.value, h);
        match turn
        case NoMore => return Ok(None);
        case Broken(e) => return Err(e);
        case Done(h', header) =>
          if header == [] {
            return Ok(Some(h'));
          }
          h := Noted(h', header);
      }
    }

    method ReadContentLengthFrame() returns (r: Result<Option<Bytes>>)
      requires Valid()
      modifies this
      ensures Valid()
      ensures match ReadFrame(old(Contents()))
        case Frame(payload, rest) => r == Ok(Some(payload)) && Contents() == rest
        case Eof => r == Ok(None)
        case Failed(e) => r == Err(e)
    {
      var header := ReadHeaders();
      if header.Err? {
        return Err(header.error);
      }
      if header.value.None? {
        return Ok(None);
      }
      var h := header.value.value;
      if h.complaint.Some? {
        return Err(h.complaint.value);
      }
      if h.length.None? {
        return Err(MissingLength);
      }
      var payload := ReadExact(h.length.value);
      return if payload.Err? then Err(payload.error) else Ok(Some(payload.value));
    }

    /** All frames up to the end of the stream or the first error. */
    method ReadAllFrames() returns (payloads: seq<Bytes>, end: Option<Error>)
      requires Valid()
      modifies this
      ensures ReadAll(old(Contents())) == (payloads, EndFrame(end))
    {
      payloads := [];
      ghost var whole := Contents();
      BeginsWhole(whole);
      while true
        invariant Valid() && Continues(payloads, Contents(), whole)
        decreases |Contents()|
      {
        ghost var s := Contents();
        var frame := ReadContentLengthFrame();
        if frame.Err? {
          EndsWith(payloads, s, whole);
          return payloads, Some(frame.error);
        }
        if frame.value.None? {
          EndsWith(payloads, s, whole);
          return payloads, None;
        }
        GoesOnWith(payloads, s, whole);
        payloads := payloads + [frame.value.value];
      }
    }
  }

  function EndFrame(end: Option<Error>): Frame {
    match end
    case None => Eof
    case Some(e) => Failed(e)
  }

  /** These payloads and those still to come are all of them. */
  ghost predicate Continues(payloads: seq<Bytes>, s: Bytes, whole: Bytes) {
    ReadAll(whole) == (payloads + ReadAll(s).0, ReadAll(s).1)
  }

  lemma BeginsWhole(whole: Bytes)
    ensures Continues([], whole, whole)
  {
    assert [] + ReadAll(whole).0 == ReadAll(whole).0;
  }

  lemma GoesOnWith(payloads: seq<Bytes>, s: Bytes, whole: Bytes)
    requires Continues(payloads, s, whole) && ReadFrame(s).Frame?
    ensures Continues(payloads + [ReadFrame(s).payload], ReadFrame(s).rest, whole) && |ReadFrame(s).rest| < |s|
  {
    var payload, later := ReadFrame(s).payload, ReadAll(ReadFrame(s).rest).0;
    assert payloads + ([payload] + later) == payloads + [payload] + later;
  }

  lemma EndsWith(payloads: seq<Bytes>, s: Bytes, whole: Bytes)
    requires Continues(payloads, s, whole) && !ReadFrame(s).Frame?
    ensures ReadAll(whole) == (payloads, ReadFrame(s))
  {
    assert payloads + [] == payloads;
  }
}
