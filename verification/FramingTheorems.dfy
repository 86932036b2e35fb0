/** Frames that were written are read back, for every list of payloads; and the frames that are
    accepted are exactly those with one length header. */
module FramingTheorems {
  import opened Options
  import opened ContentLength

  // ---- Numbers ----

  function Pow10(k: nat): nat { if k == 0 then 1 else 10 * Pow10(k - 1) }

  lemma {:induction false} DecimalReadsBack(n: nat)
    ensures DigitsValue(Decimal(n)) == n
  {
    var last: Byte := ('0' as int + n % 10) as char;
    assert last as int - '0' as int == n % 10;
    if n < 10 {
      assert [last][..0] == [];
    } else {
      DecimalReadsBack(n / 10);
      assert (Decimal(n / 10) + [last])[..|Decimal(n / 10)|] == Decimal(n / 10);
    }
  }

  lemma {:induction false} DecimalIsShort(n: nat, k: nat)
    requires k > 0 && n < Pow10(k)
    ensures |Decimal(n)| <= k
  {
    if n >= 10 {
      DecimalIsShort(n / 10, k - 1);
    }
  }

  lemma SizesAreShort(n: nat)
    requires n <= USIZE_MAX
    ensures |Decimal(n)| <= 20
  {
    assert Pow10(5) == 100000;
    assert Pow10(10) == 100000 * Pow10(5);
    assert Pow10(15) == 100000 * Pow10(10);
    assert Pow10(20) == 100000 * Pow10(15);
    DecimalIsShort(n, 20);
  }

  lemma {:induction false} AsciiIsUtf8(s: Bytes)
    requires forall i :: 0 <= i < |s| ==> s[i] as int < 0x80
    ensures Utf8(s)
  {
    if s != [] {
      AsciiIsUtf8(s[1..]);
    }
  }

  // ---- One frame ----

  function LengthLine(n: nat): Bytes { PREFIX + Decimal(n) + "\r\n" }

  const BLANK_LINE: Bytes := "\r\n"

  lemma LengthLineReads(n: nat, rest: Bytes)
    requires n <= USIZE_MAX
    ensures FirstLine(LengthLine(n) + rest) == LengthLine(n)
    ensures |LengthLine(n)| <= 40 && Utf8(LengthLine(n))
  {
    SizesAreShort(n);
    AsciiIsUtf8(LengthLine(n));
    var open: Bytes := PREFIX + Decimal(n) + "\r";
    var tail: Bytes := "\n" + rest;
    assert LengthLine(n) + rest == open + tail;
    LineGoesOn(open, tail);
    assert FirstLine(tail) == "\n";
  }

  lemma LengthLineMeans(n: nat)
    requires n <= USIZE_MAX
    ensures Trimmed(LengthLine(n)) == PREFIX + Decimal(n)
    ensures LengthOf(PREFIX + Decimal(n)) == if n <= MAX_FRAME then Ok(n) else Err(FrameTooLarge)
  {
    var header := PREFIX + Decimal(n);
    assert header[|PREFIX|..] == Decimal(n);
    DecimalReadsBack(n);
    var line := LengthLine(n);
    var open: Bytes := header + "\r";
    assert line[|line| - 1] == '\n' && line[..|line| - 1] == open;
    assert open[|open| - 1] == '\r' && open[..|open| - 1] == header;
    assert IsDigit(header[|header| - 1]);
    assert Trimmed(header) == header;
    assert Trimmed(open) == header;
  }

  lemma BlankLineReads(rest: Bytes)
    ensures FirstLine(BLANK_LINE + rest) == BLANK_LINE && Utf8(BLANK_LINE) && Trimmed(BLANK_LINE) == []
  {
    assert BLANK_LINE + rest == "\r" + ("\n" + rest);
    LineGoesOn("\r", "\n" + rest);
    assert BLANK_LINE[..1] == "\r" && BLANK_LINE[..1][..0] == [];
    AsciiIsUtf8(BLANK_LINE);
  }

  // ---- What is accepted ----

  predicate GoodLine(s: Bytes) {
    var line := FirstLine(s);
    0 < |line| <= MAX_LINE && Utf8(line)
  }

  function Counted(s: Bytes, h: Header): Header { h.(total := h.total + |FirstLine(s)|) }

  function Below(s: Bytes): Bytes { s[|FirstLine(s)|..] }

  lemma GoodTurn(line: Bytes, h: Header)
    requires 0 < |line| <= MAX_LINE && Utf8(line) && h.total <= MAX_LINE
    ensures Turn(line, h) == Done(h.(total := h.total + |line|), Trimmed(line))
  {
  }

  lemma TextLine(s: Bytes, h: Header)
    requires GoodLine(s) && h.total <= MAX_LINE && Trimmed(FirstLine(s)) != []
    ensures HeadersFrom(s, h) == HeadersFrom(Below(s), Noted(Counted(s, h), Trimmed(FirstLine(s))))
  {
    GoodTurn(FirstLine(s), h);
  }

  lemma LastLine(s: Bytes, h: Header)
    requires GoodLine(s) && h.total <= MAX_LINE && Trimmed(FirstLine(s)) == []
    ensures HeadersFrom(s, h) == Done(Counted(s, h), Below(s))
  {
    GoodTurn(FirstLine(s), h);
  }

  lemma {:induction false} ComplaintsStay(s: Bytes, h: Header)
    requires h.complaint.Some?
    ensures HeadersFrom(s, h).Done? ==> HeadersFrom(s, h).header.complaint == h.complaint
    decreases |s|
  {
    var line := FirstLine(s);
    if |line| <= MAX_LINE && Turn(line, h).Done? && Trimmed(line) != [] {
      ComplaintsStay(s[|line|..], h.(total := h.total + |line|));
    }
  }

  /** One length header, a blank line, and the payload it announces. */
  predicate WellFormed(s: Bytes, payload: Bytes, rest: Bytes) {
    && GoodLine(s)
    && LengthOf(Trimmed(FirstLine(s))) == Ok(|payload|)
    && GoodLine(Below(s))
    && Trimmed(FirstLine(Below(s))) == []
    && Below(Below(s)) == payload + rest
  }

  lemma PayloadIff(h: Header, s: Bytes, payload: Bytes, rest: Bytes)
    requires h.length.Some? && h.complaint.None?
    ensures Payload(h, s) == Frame(payload, rest) <==> s == payload + rest && |payload| == h.length.value
  {
    var n := h.length.value;
    if n <= |s| {
      assert s == s[..n] + s[n..];
    }
    if s == payload + rest && |payload| == n {
      assert s[..n] == payload && s[n..] == rest;
    }
  }

  lemma SecondLine(s: Bytes, h: Header, payload: Bytes, rest: Bytes)
    requires h.length.Some? && h.complaint.None? && 0 < h.total <= MAX_LINE
    ensures Finish(HeadersFrom(s, h)) == Frame(payload, rest)
       <==> GoodLine(s) && Trimmed(FirstLine(s)) == [] && Below(s) == payload + rest && |payload| == h.length.value
  {
    if GoodLine(s) {
      if Trimmed(FirstLine(s)) == [] {
        LastLine(s, h);
        PayloadIff(Counted(s, h), Below(s), payload, rest);
      } else {
        TextLine(s, h);
        ComplaintsStay(Below(s), Noted(Counted(s, h), Trimmed(FirstLine(s))));
      }
    }
  }

  /** The reader accepts exactly the well-formed frames. */
  lemma AcceptedIff(s: Bytes, payload: Bytes, rest: Bytes)
    ensures ReadFrame(s) == Frame(payload, rest) <==> WellFormed(s, payload, rest)
  {
    if GoodLine(s) {
      var text := Trimmed(FirstLine(s));
      if text == [] {
        LastLine(s, NO_HEADER);
      } else {
        TextLine(s, NO_HEADER);
        var h := Noted(Counted(s, NO_HEADER), text);
        if h.complaint.Some? {
          ComplaintsStay(Below(s), h);
        } else {
          SecondLine(Below(s), h, payload, rest);
        }
      }
    }
  }

  // ---- One written frame ----

  /** The lines of a written frame. */
  lemma WrittenLines(payload: Bytes, rest: Bytes)
    requires |payload| <= USIZE_MAX
    ensures
      var s := Written(payload) + rest;
      && GoodLine(s) && FirstLine(s) == LengthLine(|payload|)
      && GoodLine(Below(s)) && Trimmed(FirstLine(Below(s))) == []
      && Below(Below(s)) == payload + rest
  {
    var n := |payload|;
    var tail := BLANK_LINE + (payload + rest);
    assert Written(payload) + rest == LengthLine(n) + tail;
    LengthLineReads(n, tail);
    BlankLineReads(payload + rest);
    assert Below(LengthLine(n) + tail) == tail;
    assert Below(tail) == payload + rest;
  }

  /** A written frame is read back, with what follows it untouched, up to the limit on its length. */
  lemma WrittenReadsBack(payload: Bytes, rest: Bytes)
    requires |payload| <= USIZE_MAX
    ensures ReadFrame(Written(payload) + rest) == if |payload| <= MAX_FRAME then Frame(payload, rest)
      else Failed(FrameTooLarge)
  {
    var s := Written(payload) + rest;
    WrittenLines(payload, rest);
    LengthLineMeans(|payload|);
    if |payload| <= MAX_FRAME {
      AcceptedIff(s, payload, rest);
    } else {
      TextLine(s, NO_HEADER);
      LastLine(Below(s), Noted(Counted(s, NO_HEADER), Trimmed(FirstLine(s))));
    }
  }

  // ---- All frames ----

  /** A stream of written frames reads back as the payloads, and then ends, exactly if all fit. */
  lemma {:induction false} StreamReadsBackIff(payloads: seq<Bytes>)
    requires forall p :: p in payloads ==> |p| <= USIZE_MAX
    ensures ReadAll(WrittenAll(payloads)) == (payloads, Eof) <==> forall p :: p in payloads ==> |p| <= MAX_FRAME
  {
    if payloads != [] {
      var first, others := payloads[0], payloads[1..];
      assert payloads == [first] + others && first in payloads;
      WrittenReadsBack(first, WrittenAll(others));
      StreamReadsBackIff(others);
      if |first| <= MAX_FRAME && ReadAll(WrittenAll(payloads)).0 == payloads {
        assert ReadAll(WrittenAll(payloads)).0[1..] == ReadAll(WrittenAll(others)).0;
      }
    }
  }

  /** However the stream is cut into buffers, the reader gives back the payloads and then the end. */
  method ReadBack(payloads: seq<Bytes>, chunks: seq<Bytes>) returns (read: seq<Bytes>, end: Option<Error>)
    requires forall p :: p in payloads ==> |p| <= USIZE_MAX
    requires Flat(chunks) == WrittenAll(payloads) && forall i :: 0 <= i < |chunks| ==> chunks[i] != []
    ensures (read == payloads && end == None) <==> forall p :: p in payloads ==> |p| <= MAX_FRAME
  {
    var reader := new BufReader(chunks);
    read, end := reader.ReadAllFrames();
    StreamReadsBackIff(payloads);
  }
}
