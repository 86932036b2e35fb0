/** The private protocol between the daemon and a worker process: length-prefixed frames, and calls of
    the worker answered by its supervisor, numbered on both sides. */
module WorkerProtocol {
  import opened Options
  import opened WireFailures

  const U32_MAX: nat := 0xFFFF_FFFF
  const VERSION: nat := 2

  // ---- Frames as bytes ----

  type Octet = x: int | 0 <= x < 256

  function Header(n: nat): seq<Octet>
    requires n <= U32_MAX
  {
    [n % 256, n / 256 % 256, n / 65536 % 256, n / 16777216]
  }

  function LengthIn(header: seq<Octet>): nat
    requires |header| == 4
  {
    var a: int, b: int, c: int, d: int := header[0], header[1], header[2], header[3];
    a + 256 * b + 65536 * c + 16777216 * d
  }

  /** `write_frame`: what is written, or nothing if the frame is out of bounds. */
  function Encoded(bytes: seq<Octet>, limit: nat): Option<seq<Octet>> {
    if bytes == [] || |bytes| > limit || |bytes| > U32_MAX then None else Some(Header(|bytes|) + bytes)
  }

  /** `read_frame`: the frame and what follows it. */
  function Decoded(stream: seq<Octet>, limit: nat): Option<(seq<Octet>, seq<Octet>)> {
    if |stream| < 4 then None
    else
      var length, rest := LengthIn(stream[..4]), stream[4..];
      if length == 0 || length > limit || length > |rest| then None else Some((rest[..length], rest[length..]))
  }

  lemma HeaderReadsBack(n: nat)
    requires n <= U32_MAX
    ensures LengthIn(Header(n)) == n
  {
    assert n / 65536 == n / 256 / 256 && n / 16777216 == n / 65536 / 256;
  }

  lemma HeaderIsUnique(header: seq<Octet>)
    requires |header| == 4
    ensures LengthIn(header) <= U32_MAX && Header(LengthIn(header)) == header
  {
    var a: int, b: int, c: int, d: int := header[0], header[1], header[2], header[3];
    var n := LengthIn(header);
    var n1, n2 := b + 256 * c + 65536 * d, c + 256 * d;
    assert n == a + 256 * n1 && n1 == b + 256 * n2;
    assert n / 256 == n1 && n1 / 256 == n2 && n2 / 256 == d;
    assert n / 65536 == n2 && n / 16777216 == d;
  }

  /** Decoding undoes encoding, and nothing else decodes. */
  lemma DecodedIff(stream: seq<Octet>, limit: nat, bytes: seq<Octet>, rest: seq<Octet>)
    ensures Decoded(stream, limit) == Some((bytes, rest))
       <==> Encoded(bytes, limit).Some? && stream == Encoded(bytes, limit).value + rest
  {
    if Decoded(stream, limit) == Some((bytes, rest)) {
      HeaderIsUnique(stream[..4]);
      assert stream == stream[..4] + (bytes + rest);
    }
    if Encoded(bytes, limit).Some? && stream == Encoded(bytes, limit).value + rest {
      HeaderReadsBack(|bytes|);
      assert stream[..4] == Header(|bytes|) && stream[4..] == bytes + rest;
      assert (bytes + rest)[..|bytes|] == bytes && (bytes + rest)[|bytes|..] == rest;
    }
  }

  // ---- Calls ----

  /** What the worker's Subversion session asks for; `body` stands for the rest of the request. */
  datatype Call = Credential(operationId: string, body: string) | Settlement(operationId: string, body: string)

  /** What the supervisor's broker says to it. */
  datatype Answer = Credentials(response: string) | CredentialRefused | Acknowledged(ack: string)
    | SettlementRefused(failure: Failure)

  /** What the session gets back. */
  datatype Outcome = GotCredentials(response: string) | GotAck(ack: string) | GotFailure(failure: Failure)
    | ProtocolFailure

  datatype ChildFrame =
    | CredentialRequest(version: nat, operationId: string, sequence: nat, call: Call)
    | CredentialSettlement(version: nat, operationId: string, sequence: nat, call: Call)
    | Final(version: nat, operationId: string, response: string, responseOperationId: string)

  datatype ParentFrame =
    | CredentialResponse(version: nat, operationId: string, sequence: nat, response: string)
    | SettlementAck(version: nat, operationId: string, sequence: nat, ack: string)
    | SettlementFailure(version: nat, operationId: string, sequence: nat, failure: Failure)

  // ---- The worker's side ----

  class WorkerControlAuthBroker {
    const operationId: string
    var sequence: nat

    constructor (operationId: string)
      ensures this.operationId == operationId && sequence == 0
    {
      this.operationId, sequence := operationId, 0;
    }

    /** The frame for a call, unless the call is another operation's or the numbers have run out. */
    method Send(call: Call) returns (frame: Option<ChildFrame>)
      modifies this
      ensures frame.Some? <==> call.operationId == operationId && old(sequence) < U32_MAX
      ensures frame.None? ==> sequence == old(sequence)
      ensures frame.Some? ==> sequence == old(sequence) + 1 && frame.value == FrameFor(operationId, sequence, call)
    {
      if call.operationId != operationId || sequence >= U32_MAX {
        return None;
      }
      sequence := sequence + 1;
      return Some(FrameFor(operationId, sequence, call));
    }

    method Receive(call: Call, reply: ParentFrame) returns (outcome: Outcome)
      ensures outcome == Understood(operationId, sequence, call, reply)
    {
      if reply.version != VERSION || reply.operationId != operationId || reply.sequence != sequence {
        return ProtocolFailure;
      }
      match reply {
        case CredentialResponse(_, _, _, response) =>
          return if call.Credential? then GotCredentials(response) else ProtocolFailure;
        case SettlementAck(_, _, _, ack) => return if call.Settlement? then GotAck(ack) else ProtocolFailure;
        case SettlementFailure(_, _, _, failure) =>
          if call.Credential? {
            return ProtocolFailure;
          }
          var valid := ValidateSettlement(failure);
          return if valid.Some? then GotFailure(valid.value) else ProtocolFailure;
      }
    }
  }

  function FrameFor(operationId: string, sequence: nat, call: Call): ChildFrame {
    match call
    case Credential(_, _) => CredentialRequest(VERSION, operationId, sequence, call)
    case Settlement(_, _) => CredentialSettlement(VERSION, operationId, sequence, call)
  }

  function Understood(operationId: string, sequence: nat, call: Call, reply: ParentFrame): Outcome {
    if reply.version != VERSION || reply.operationId != operationId || reply.sequence != sequence then ProtocolFailure
    else if reply.CredentialResponse? && call.Credential? then GotCredentials(reply.response)
    else if reply.SettlementAck? && call.Settlement? then GotAck(reply.ack)
    else if reply.SettlementFailure? && call.Settlement? && ValidateSettlement(reply.failure).Some? then
      GotFailure(ValidateSettlement(reply.failure).value)
    else ProtocolFailure
  }

  // ---- The daemon's side ----

  /** `settlement_parent_frame` and its credential counterpart; `None` ends the exchange. */
  function ReplyTo(operationId: string, sequence: nat, call: Call, answer: Answer): Option<ParentFrame> {
    match answer
    case Credentials(response) =>
      if call.Credential? then Some(CredentialResponse(VERSION, operationId, sequence, response)) else None
    case CredentialRefused => None
    case Acknowledged(ack) =>
      if call.Settlement? then Some(SettlementAck(VERSION, operationId, sequence, ack)) else None
    case SettlementRefused(failure) =>
      if call.Credential? || ValidateSettlement(failure).None? then None
      else Some(SettlementFailure(VERSION, operationId, sequence, ValidateSettlement(failure).value))
  }

  predicate Acceptable(frame: ChildFrame, operationId: string, expected: nat) {
    && !frame.Final?
    && frame.version == VERSION && frame.operationId == operationId
    && frame.call.operationId == operationId && frame.sequence == expected
  }

  class FrameExchange {
    const operationId: string
    var expected: nat
    var open: bool

    constructor (operationId: string)
      ensures this.operationId == operationId && expected == 1 && open
    {
      this.operationId, expected, open := operationId, 1, true;
    }

    /** One turn of the exchange: the reply, and whether the exchange goes on. */
    method Turn(frame: ChildFrame, answer: Answer) returns (reply: Option<ParentFrame>)
      requires open && !frame.Final?
      modifies this
      ensures reply ==
        if !Acceptable(frame, operationId, old(expected)) then None
        else ReplyTo(operationId, old(expected), frame.call, answer)
      ensures open <==> reply.Some? && old(expected) < U32_MAX
      ensures expected == if open then old(expected) + 1 else old(expected)
    {
      if !Acceptable(frame, operationId, expected) {
        open := false;
        return None;
      }
      reply := ReplyTo(operationId, expected, frame.call, answer);
      if reply.None? || expected >= U32_MAX {
        open := false;
      } else {
        expected := expected + 1;
      }
    }

    /** The final frame ends the exchange with the worker's response, if nothing follows it. */
    method Finish(frame: ChildFrame, trailing: bool) returns (response: Option<string>)
      requires open && frame.Final?
      modifies this
      ensures !open && expected == old(expected)
      ensures response.Some?
        <==> frame.version == VERSION && frame.operationId == frame.responseOperationId == operationId && !trailing
      ensures response.Some? ==> response.value == frame.response
    {
      open := false;
      if frame.version != VERSION || frame.operationId != operationId || frame.responseOperationId != operationId
        || trailing {
        return None;
      }
      return Some(frame.response);
    }
  }

  // ---- Calls through the pipe are calls ----

  /** What a call answered directly would give; `None` if the answer ends the session. */
  function Direct(call: Call, answer: Answer): Option<Outcome> {
    match (call, answer)
    case (Credential(_, _), Credentials(response)) => Some(GotCredentials(response))
    case (Settlement(_, _), Acknowledged(ack)) => Some(GotAck(ack))
    case (Settlement(_, _), SettlementRefused(failure)) =>
      if ValidateSettlement(failure).Some? then Some(GotFailure(failure)) else None
    case _ => None
  }

  /** How far a session got: how many calls were sent, and whether an answer ended it. */
  datatype Progress = Progress(sent: nat, over: bool)

  /** Calls of another operation are not sent, nor are calls when the numbers have run out or the session
      is over. */
  predicate IsSent(operationId: string, call: Call, p: Progress) {
    call.operationId == operationId && p.sent < U32_MAX && !p.over
  }

  function OutcomeOf(operationId: string, call: Call, answer: Answer, p: Progress): Outcome {
    if IsSent(operationId, call, p) && Direct(call, answer).Some? then Direct(call, answer).value else ProtocolFailure
  }

  function ProgressOf(operationId: string, call: Call, answer: Answer, p: Progress): Progress {
    if IsSent(operationId, call, p) then Progress(p.sent + 1, Direct(call, answer).None?) else p
  }

  /** What a whole session of calls answered directly would give: an answer that ends the session fails
      that call and all later ones. */
  function DirectSession(operationId: string, calls: seq<Call>, answers: seq<Answer>, p: Progress): seq<Outcome>
    requires |calls| == |answers|
    decreases |calls|
  {
    if calls == [] then []
    else
      [OutcomeOf(operationId, calls[0], answers[0], p)]
      + DirectSession(operationId, calls[1..], answers[1..], ProgressOf(operationId, calls[0], answers[0], p))
  }

  function ProgressAfter(operationId: string, calls: seq<Call>, answers: seq<Answer>, p: Progress): Progress
    requires |calls| == |answers|
    decreases |calls|
  {
    if calls == [] then p
    else ProgressAfter(operationId, calls[1..], answers[1..], ProgressOf(operationId, calls[0], answers[0], p))
  }

  /** One hop there and back gives what a direct answer would. */
  lemma HopIsDirect(operationId: string, sequence: nat, call: Call, answer: Answer)
    requires call.operationId == operationId
    ensures Acceptable(FrameFor(operationId, sequence, call), operationId, sequence)
    ensures ReplyTo(operationId, sequence, call, answer).Some? <==> Direct(call, answer).Some?
    ensures Direct(call, answer).Some? ==>
      Understood(operationId, sequence, call, ReplyTo(operationId, sequence, call, answer).value)
        == Direct(call, answer).value
  {
    if answer.SettlementRefused? && ValidateSettlement(answer.failure).Some? {
      SettlementPassesUnchanged(answer.failure);
    }
  }

  /** The worker takes a reply for credentials, an acknowledgement or a failure exactly if it is the frame of
      that kind with this version, operation and number; anything else is a protocol failure. */
  lemma UnderstoodIff(operationId: string, sequence: nat, call: Call, reply: ParentFrame, text: string,
      failure: Failure)
    ensures var outcome := Understood(operationId, sequence, call, reply);
      && (outcome == GotCredentials(text) <==>
            call.Credential? && reply == CredentialResponse(VERSION, operationId, sequence, text))
      && (outcome == GotAck(text) <==>
            call.Settlement? && reply == SettlementAck(VERSION, operationId, sequence, text))
      && (outcome == GotFailure(failure) <==>
            && call.Settlement? && reply == SettlementFailure(VERSION, operationId, sequence, failure)
            && ValidateSettlement(failure).Some?)
  {
    if reply.SettlementFailure? && ValidateSettlement(reply.failure).Some? {
      SettlementPassesUnchanged(reply.failure);
    }
  }

  /** The daemon accepts, as number `expected`, exactly the frames the worker would send under that number
      for a call of its operation. A frame carries a call of its own kind. */
  lemma AcceptedIffSent(frame: ChildFrame, operationId: string, expected: nat)
    requires !frame.Final? ==> (frame.CredentialRequest? <==> frame.call.Credential?)
    ensures Acceptable(frame, operationId, expected) <==>
      exists call: Call :: call.operationId == operationId && frame == FrameFor(operationId, expected, call)
  {
    if Acceptable(frame, operationId, expected) {
      assert frame == FrameFor(operationId, expected, frame.call);
    }
  }

  /** The two sides agree: the next number the worker sends is the one the daemon expects. */
  predicate InStep(worker: WorkerControlAuthBroker, exchange: FrameExchange, p: Progress)
    reads worker, exchange
  {
    && worker.operationId == exchange.operationId
    && (exchange.open <==> !p.over && p.sent < U32_MAX)
    && (!p.over ==> worker.sequence == p.sent <= U32_MAX)
    && (exchange.open ==> exchange.expected == worker.sequence + 1)
  }

  /** One call over the pipe. */
  method CallOverPipe(worker: WorkerControlAuthBroker, exchange: FrameExchange, call: Call, answer: Answer, p: Progress)
    returns (outcome: Outcome, p': Progress)
    requires InStep(worker, exchange, p)
    modifies worker, exchange
    ensures InStep(worker, exchange, p')
    ensures outcome == OutcomeOf(worker.operationId, call, answer, p)
    ensures p' == ProgressOf(worker.operationId, call, answer, p)
  {
    var frame := worker.Send(call);
    if frame.None? || !exchange.open {
      return ProtocolFailure, p;
    }
    HopIsDirect(worker.operationId, worker.sequence, call, answer);
    var reply := exchange.Turn(frame.value, answer);
    if reply.None? {
      return ProtocolFailure, Progress(p.sent + 1, true);
    }
    outcome := worker.Receive(call, reply.value);
    p' := Progress(p.sent + 1, false);
  }

  /** A whole session over the pipe: every call gets what a direct answer would give, the numbers on the
      two sides never disagree, and the final frame is accepted exactly if no answer ended the session and
      the numbers have not run out. */
  method Session(operationId: string, calls: seq<Call>, answers: seq<Answer>, result: string)
    returns (outcomes: seq<Outcome>, p: Progress, response: Option<string>)
    requires |calls| == |answers|
    ensures outcomes == DirectSession(operationId, calls, answers, Progress(0, false))
    ensures p == ProgressAfter(operationId, calls, answers, Progress(0, false))
    ensures response == if p.over || p.sent == U32_MAX then None else Some(result)
  {
    var worker := new WorkerControlAuthBroker(operationId);
    var exchange := new FrameExchange(operationId);
    outcomes, p := [], Progress(0, false);
    for i := 0 to |calls|
      invariant InStep(worker, exchange, p) && worker.operationId == operationId
      invariant outcomes + DirectSession(operationId, calls[i..], answers[i..], p)
             == DirectSession(operationId, calls, answers, Progress(0, false))
      invariant ProgressAfter(operationId, calls[i..], answers[i..], p)
             == ProgressAfter(operationId, calls, answers, Progress(0, false))
    {
      assert calls[i..][1..] == calls[i + 1..] && answers[i..][1..] == answers[i + 1..];
      var outcome, p' := CallOverPipe(worker, exchange, calls[i], answers[i], p);
      outcomes, p := outcomes + [outcome], p';
    }
    assert calls[|calls|..] == [] && answers[|calls|..] == [];
    response := None;
    if exchange.open {
      response := exchange.Finish(Final(VERSION, operationId, result, operationId), false);
    }
  }
}
