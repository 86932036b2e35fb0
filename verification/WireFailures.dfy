/** Failures that cross the pipe between the daemon and its worker: a fixed table says which codes may
    cross and what they may carry. */
module WireFailures {
  import opened Collections
  import opened Options

  /** Of a JSON value, only strings and whole numbers matter here. */
  datatype Value = Text(text: string) | Whole(number: int) | Other(json: string)

  datatype Args = Object(fields: map<string, Value>) | NotAnObject(json: string)

  datatype Failure = Failure(code: string, category: string, messageKey: string, args: Args, retryable: bool)

  datatype Shape = Hashes | HashesAndOutcome | StatusOnly | Nothing

  datatype Contract = Contract(category: string, messageKey: string, shape: Shape)

  /** The failures a credential settlement may end in. */
  function CredentialContract(code: string): Option<Contract> {
    match code
    case "SUBVERSIONR_CREDENTIAL_UNTRUSTED_WORKSPACE" =>
      Some(Contract("lifecycle", "error.auth.credentialUntrustedWorkspace", Hashes))
    case "SUBVERSIONR_CREDENTIAL_TIMEOUT" => Some(Contract("auth", "error.auth.credentialTimeout", HashesAndOutcome))
    case "SUBVERSIONR_CREDENTIAL_LEASE_UNKNOWN" =>
      Some(Contract("auth", "error.auth.credentialLeaseUnknown", HashesAndOutcome))
    case "SUBVERSIONR_CREDENTIAL_LEASE_FOREIGN" =>
      Some(Contract("auth", "error.auth.credentialLeaseForeign", HashesAndOutcome))
    case "SUBVERSIONR_CREDENTIAL_LEASE_EXPIRED" =>
      Some(Contract("auth", "error.auth.credentialLeaseExpired", HashesAndOutcome))
    case "SUBVERSIONR_CREDENTIAL_SETTLEMENT_CONFLICT" =>
      Some(Contract("auth", "error.auth.credentialSettlementConflict", HashesAndOutcome))
    case _ => None
  }

  /** The other failures a worker may end in. */
  function WorkerContract(code: string): Option<Contract> {
    match code
    case "SUBVERSIONR_REMOTE_CONFIG_CREATE_FAILED" =>
      Some(Contract("native", "error.remote.configCreateFailed", StatusOnly))
    case "SUBVERSIONR_REMOTE_CONFIG_CREATE_NULL" =>
      Some(Contract("native", "error.remote.configCreateNull", StatusOnly))
    case "SUBVERSIONR_REMOTE_CONFIG_INSPECTION_FAILED" =>
      Some(Contract("native", "error.remote.configInspectionFailed", StatusOnly))
    case "SUBVERSIONR_REMOTE_CONFIG_INSPECTION_INVALID" =>
      Some(Contract("native", "error.remote.configInspectionInvalid", Nothing))
    case "SUBVERSIONR_REMOTE_WORKER_START_FAILED" =>
      Some(Contract("process", "error.remote.workerStartFailed", Nothing))
    case _ => None
  }

  predicate LowercaseSha256(s: string) {
    |s| == 64 && forall i :: 0 <= i < 64 ==> '0' <= s[i] <= '9' || 'a' <= s[i] <= 'f'
  }

  const OUTCOMES := {"accepted", "rejected", "unused", "cancelled", "timedOut"}

  function TextAt(fields: map<string, Value>, key: string): Option<string> {
    if key in fields && fields[key].Text? then Some(fields[key].text) else None
  }

  /** The hashes, and the outcome if there has to be one, copied out of the arguments. */
  function SafeArgs(args: Args, withOutcome: bool): Option<Args> {
    if args.NotAnObject? then None
    else
      var fields := args.fields;
      if |fields| != (if withOutcome then 3 else 2) then None
      else
        match (TextAt(fields, "operationHash"), TextAt(fields, "leaseHash"))
        case (Some(operation), Some(lease)) =>
          if !LowercaseSha256(operation) || !LowercaseSha256(lease) then None
          else if !withOutcome then Some(Object(map["operationHash" := Text(operation), "leaseHash" := Text(lease)]))
          else (
            match TextAt(fields, "outcome")
            case Some(outcome) =>
              if outcome !in OUTCOMES then None
              else Some(Object(map["operationHash" := Text(operation), "leaseHash" := Text(lease),
                "outcome" := Text(outcome)]))
            case None => None
          )
        case _ => None
  }

  /** `validate_credential_settlement_wire_failure`; `None` is the protocol failure. */
  function ValidateSettlement(failure: Failure): Option<Failure> {
    var contract := CredentialContract(failure.code);
    if failure.retryable || contract.None? then None
    else
      var c := contract.value;
      if failure.category != c.category || failure.messageKey != c.messageKey then None
      else match SafeArgs(failure.args, c.shape.HashesAndOutcome?)
        case None => None
        case Some(args) => Some(Failure(failure.code, c.category, c.messageKey, args, false))
  }

  /** `validate_wire_failure`, for the failure in a worker's final frame. */
  function Validate(failure: Failure): Option<Failure> {
    if CredentialContract(failure.code).Some? then ValidateSettlement(failure)
    else
      var contract := WorkerContract(failure.code);
      if failure.retryable || contract.None? then None
      else
        var c := contract.value;
        if failure.category != c.category || failure.messageKey != c.messageKey then None
        else if c.shape.StatusOnly? && !(failure.args.Object? && |failure.args.fields| == 1
            && "status" in failure.args.fields && failure.args.fields["status"].Whole?) then None
        else if !c.shape.StatusOnly? && failure.args != Object(map[]) then None
        else Some(Failure(failure.code, c.category, c.messageKey, failure.args, false))
  }

  // ---- What crosses, crosses unchanged ----

  lemma KeysOfSize<V>(m: map<string, V>, keys: set<string>)
    requires keys <= m.Keys && |m| == |keys|
    ensures m.Keys == keys
  {
    if extra :| extra in m.Keys && extra !in keys {
      SubsetIsSmaller(keys + {extra}, m.Keys);
    }
  }

  /** The copy leaves nothing out: the right number of fields and all the right names is the same object. */
  lemma SafeArgsAreTheArgs(args: Args, withOutcome: bool)
    requires SafeArgs(args, withOutcome).Some?
    ensures SafeArgs(args, withOutcome).value == args
  {
    var fields, copy := args.fields, SafeArgs(args, withOutcome).value.fields;
    if withOutcome {
      assert "operationHash" != "leaseHash" && "outcome" != "leaseHash";
      KeysOfSize(fields, {"operationHash", "leaseHash", "outcome"});
    } else {
      assert "operationHash" != "leaseHash";
      KeysOfSize(fields, {"operationHash", "leaseHash"});
    }
    assert copy == fields;
  }

  /** A settlement failure that is let through is let through unchanged, so it may be checked again at
      every hop and arrive as it was. */
  lemma SettlementPassesUnchanged(failure: Failure)
    requires ValidateSettlement(failure).Some?
    ensures ValidateSettlement(failure).value == failure
  {
    SafeArgsAreTheArgs(failure.args, CredentialContract(failure.code).value.shape.HashesAndOutcome?);
  }

  lemma FinalPassesUnchanged(failure: Failure)
    requires Validate(failure).Some?
    ensures Validate(failure).value == failure
  {
    if CredentialContract(failure.code).Some? {
      SettlementPassesUnchanged(failure);
    }
  }

  /** Exactly what a settlement failure has to look like. */
  lemma SettlementPassesIff(failure: Failure)
    ensures ValidateSettlement(failure).Some? <==>
      && CredentialContract(failure.code).Some?
      && var c := CredentialContract(failure.code).value;
      && failure.category == c.category && failure.messageKey == c.messageKey && !failure.retryable
      && failure.args.Object?
      && failure.args.fields.Keys
        == {"operationHash", "leaseHash"} + (if c.shape.HashesAndOutcome? then {"outcome"} else {})
      && (forall key :: key in ["operationHash", "leaseHash"] ==>
            failure.args.fields[key].Text? && LowercaseSha256(failure.args.fields[key].text))
      && (c.shape.HashesAndOutcome? ==>
        failure.args.fields["outcome"].Text? && failure.args.fields["outcome"].text in OUTCOMES)
  {
    var contract := CredentialContract(failure.code);
    if ValidateSettlement(failure).Some? {
      SettlementPassesUnchanged(failure);
    } else if contract.Some? && failure.args.Object? {
      assert "operationHash" in ["operationHash", "leaseHash"] && "leaseHash" in ["operationHash", "leaseHash"];
    }
  }

  /** The one argument is a status that is a whole number. */
  predicate OnlyStatus(args: Args) {
    args.Object? && args.fields.Keys == {"status"} && args.fields["status"].Whole?
  }

  lemma OnlyStatusIff(args: Args)
    ensures OnlyStatus(args) <==>
      args.Object? && |args.fields| == 1 && "status" in args.fields && args.fields["status"].Whole?
  {
    if args.Object? {
      var fields := args.fields;
      assert |fields| == |fields.Keys|;
      if |fields| == 1 && "status" in fields { KeysOfSize(fields, {"status"}); }
    }
  }

  /** Exactly which failures a worker's final frame may carry: a settlement failure that is let through, or
      one of its own codes with that code's category, message and arguments, and not to be retried. */
  lemma FinalPassesIff(failure: Failure)
    ensures Validate(failure).Some? <==>
      || ValidateSettlement(failure).Some?
      || (&& WorkerContract(failure.code).Some? && !failure.retryable
          && var c := WorkerContract(failure.code).value;
             && failure.category == c.category && failure.messageKey == c.messageKey
             && if c.shape.StatusOnly? then OnlyStatus(failure.args) else failure.args == Object(map[]))
  {
    OnlyStatusIff(failure.args);
  }
}
