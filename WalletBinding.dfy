/**
  The wallet binding's entry points, as far as they decide before any
  work is done: `CreateWallet` and `GenerateAddressFromKeyPair` type-check
  their arguments; `FindOutputs` type-checks its five arguments, then
  validates and decodes the transaction public key, every output, the view
  secret key and every spend public key, in that order, and queues a scan
  worker only when all of it passes. An `Err` result is the error thrown
  back to JavaScript; an `Ok` result is the task the worker would receive.
 */
module WalletBinding {
  import opened Wrappers
  import opened JsValues
  import opened BindingErrors
  import opened ArgCheck
  import opened KeyInputs

  // ---------------------------------------------------------------------
  // createWallet(path, password, callback)

  datatype CreateWalletTask = CreateWalletTask(path: string, password: string, callback: nat)

  const CreateWalletParams: seq<Param> := [
    Param(StringType, "string path"),
    Param(StringType, "string container password"),
    Param(FunctionType, "function callback")
  ]

  /** Queues a wallet-generation worker with the path, the password and
      the callback exactly when the three arguments are a string, a string
      and a function; otherwise throws the error of the first one that is
      not. */
  function CreateWallet(args: seq<Value>): (r: Result<CreateWalletTask, Error>)
    ensures r.Ok? <==> Arg(args, 0).Str? && Arg(args, 1).Str? && Arg(args, 2).Func?
    ensures r.Ok? ==> r.value == CreateWalletTask(Arg(args, 0).s, Arg(args, 1).s, Arg(args, 2).id)
    ensures !Arg(args, 0).Str? ==> r == Err(ExpectedArg(0, "string path"))
    ensures Arg(args, 0).Str? && !Arg(args, 1).Str? ==>
      r == Err(ExpectedArg(1, "string container password"))
    ensures Arg(args, 0).Str? && Arg(args, 1).Str? && !Arg(args, 2).Func? ==>
      r == Err(ExpectedArg(2, "function callback"))
  {
    match CheckArgTypes(args, CreateWalletParams, 0)
    case Some(e) => Err(e)
    case None =>
      assert Conforms(args, CreateWalletParams, 0) && Conforms(args, CreateWalletParams, 1)
          && Conforms(args, CreateWalletParams, 2);
      Ok(CreateWalletTask(Arg(args, 0).s, Arg(args, 1).s, Arg(args, 2).id))
  }

  // ---------------------------------------------------------------------
  // generateAddressFromKeyPair(spendPublicKey, viewPublicKey)

  /** The two hex strings the address derivation goes on to decode. */
  datatype AddressRequest = AddressRequest(spendKeyHex: string, viewKeyHex: string)

  const GenerateAddressParams: seq<Param> := [
    Param(StringType, "string spend public key"),
    Param(StringType, "string view public key")
  ]

  /** Goes on to derive an address from the two strings exactly when both
      arguments are strings; otherwise throws the error of the first that
      is not. No length is checked here. */
  function GenerateAddressFromKeyPair(args: seq<Value>): (r: Result<AddressRequest, Error>)
    ensures r.Ok? <==> Arg(args, 0).Str? && Arg(args, 1).Str?
    ensures r.Ok? ==> r.value == AddressRequest(Arg(args, 0).s, Arg(args, 1).s)
    ensures !Arg(args, 0).Str? ==> r == Err(ExpectedArg(0, "string spend public key"))
    ensures Arg(args, 0).Str? && !Arg(args, 1).Str? ==>
      r == Err(ExpectedArg(1, "string view public key"))
  {
    match CheckArgTypes(args, GenerateAddressParams, 0)
    case Some(e) => Err(e)
    case None =>
      assert Conforms(args, GenerateAddressParams, 0) && Conforms(args, GenerateAddressParams, 1);
      Ok(AddressRequest(Arg(args, 0).s, Arg(args, 1).s))
  }

  // ---------------------------------------------------------------------
  // findOutputs(txPublicKey, outputs, viewSecretKey, spendPublicKeys, callback)

  /** What `FindOutputsAsyncWorker` is constructed with. */
  datatype FindOutputsTask = FindOutputsTask(
    txPublicKey: Bytes,
    outputs: seq<OutputRecord>,
    viewSecretKey: Bytes,
    spendPublicKeys: set<Bytes>,
    callback: nat)

  const FindOutputsParams: seq<Param> := [
    Param(StringType, "transaction public key"),
    Param(ArrayType, "Array<OutputRecord> outputs"),
    Param(StringType, "string viewSecretKey"),
    Param(ArrayType, "Array<string> spendPublicKeys"),
    Param(FunctionType, "function callback")
  ]

  predicate FindOutputsArgTypesOk(args: seq<Value>) {
    Arg(args, 0).Str? && Arg(args, 1).Arr? && Arg(args, 2).Str? && Arg(args, 3).Arr? && Arg(args, 4).Func?
  }

  lemma FindOutputsParamsConform(args: seq<Value>)
    ensures CheckArgTypes(args, FindOutputsParams, 0) == None <==> FindOutputsArgTypesOk(args)
  {
    if FindOutputsArgTypesOk(args) {
      assert forall j :: 0 <= j < 5 ==> Conforms(args, FindOutputsParams, j);
    } else {
      assert !(Conforms(args, FindOutputsParams, 0) && Conforms(args, FindOutputsParams, 1)
            && Conforms(args, FindOutputsParams, 2) && Conforms(args, FindOutputsParams, 3)
            && Conforms(args, FindOutputsParams, 4));
    }
  }

  /** The decision `FindOutputs` makes, step by step in the binding's
      order; the method below computes it the binding's way. */
  function ValidateFindOutputs(args: seq<Value>, fromHex: HexDecoder): Result<FindOutputsTask, Error> {
    match CheckArgTypes(args, FindOutputsParams, 0)
    case Some(e) => Err(e)
    case None =>
      FindOutputsParamsConform(args);
      var txKey := fromHex(Arg(args, 0).s);
      if |txKey| != PublicKeySize then Err(TxKeyInvalidLength)
      else
        match CheckOutputs(Arg(args, 1).elements, fromHex)
        case Err(e) => Err(e)
        case Ok(outputs) =>
          var viewKey := fromHex(Arg(args, 2).s);
          if |viewKey| != SecretKeySize then Err(ViewKeyInvalidLength)
          else
            match CollectSpendKeys(Arg(args, 3).elements, fromHex)
            case Err(e) => Err(e)
            case Ok(spendKeys) => Ok(FindOutputsTask(txKey, outputs, viewKey, spendKeys, Arg(args, 4).id))
  }

  /** The binding's `FindOutputs`: each check returns early with its error;
      the worker is built only after the last one. */
  method FindOutputs(args: seq<Value>, fromHex: HexDecoder) returns (r: Result<FindOutputsTask, Error>)
    ensures r == ValidateFindOutputs(args, fromHex)
  {
    var typeError := CheckArgTypes(args, FindOutputsParams, 0);
    if typeError.Some? {
      return Err(typeError.value);
    }
    FindOutputsParamsConform(args);
    var txKey := fromHex(Arg(args, 0).s);
    if |txKey| != PublicKeySize {
      return Err(TxKeyInvalidLength);
    }
    var outputs := ParseOutputs(Arg(args, 1).elements, fromHex);
    if outputs.Err? {
      return Err(outputs.error);
    }
    var viewKey := fromHex(Arg(args, 2).s);
    if |viewKey| != SecretKeySize {
      return Err(ViewKeyInvalidLength);
    }
    var spendKeys := ParseSpendKeys(Arg(args, 3).elements, fromHex);
    if spendKeys.Err? {
      return Err(spendKeys.error);
    }
    return Ok(FindOutputsTask(txKey, outputs.value, viewKey, spendKeys.value, Arg(args, 4).id));
  }

  /** Every check the binding makes, stated at once and in no order. */
  predicate FindOutputsAccepted(args: seq<Value>, fromHex: HexDecoder) {
    && FindOutputsArgTypesOk(args)
    && |fromHex(Arg(args, 0).s)| == PublicKeySize
    && (forall i :: 0 <= i < |Arg(args, 1).elements| ==> OutputWellFormed(Arg(args, 1).elements[i], fromHex))
    && |fromHex(Arg(args, 2).s)| == SecretKeySize
    && (forall i :: 0 <= i < |Arg(args, 3).elements| ==>
          Arg(args, 3).elements[i].Str? && |fromHex(Arg(args, 3).elements[i].s)| == PublicKeySize)
  }

  /** A worker is queued if and only if every check passes. */
  lemma FindOutputsDispatchIff(args: seq<Value>, fromHex: HexDecoder)
    ensures ValidateFindOutputs(args, fromHex).Ok? <==> FindOutputsAccepted(args, fromHex)
  {
    FindOutputsParamsConform(args);
    if FindOutputsArgTypesOk(args) {
      OutputsAcceptedIff(Arg(args, 1).elements, fromHex);
      SpendKeysAcceptedIff(Arg(args, 3).elements, fromHex);
    }
  }

  lemma OutputsAcceptedIff(items: seq<Value>, fromHex: HexDecoder)
    ensures CheckOutputs(items, fromHex).Ok? <==>
      forall i :: 0 <= i < |items| ==> OutputWellFormed(items[i], fromHex)
  {
    assert forall i :: 0 <= i < |items| ==>
      (ParseOutput(items[i], i, fromHex).Ok? <==> OutputWellFormed(items[i], fromHex));
  }

  lemma SpendKeysAcceptedIff(items: seq<Value>, fromHex: HexDecoder)
    ensures CollectSpendKeys(items, fromHex).Ok? <==>
      forall i :: 0 <= i < |items| ==> items[i].Str? && |fromHex(items[i].s)| == PublicKeySize
  {
    assert forall i :: 0 <= i < |items| ==>
      (ParseSpendKey(items[i], i, fromHex).Ok? <==> items[i].Str? && |fromHex(items[i].s)| == PublicKeySize);
  }

  /** What the queued worker receives: the decoded transaction key, one
      record per output in input order with that output's amount and
      decoded key, the decoded view key, the set of decoded spend keys
      (duplicates collapsed, every one a public key's size), the callback. */
  lemma FindOutputsTaskContents(args: seq<Value>, fromHex: HexDecoder, task: FindOutputsTask)
    requires ValidateFindOutputs(args, fromHex) == Ok(task)
    ensures FindOutputsArgTypesOk(args)
    ensures task.txPublicKey == fromHex(Arg(args, 0).s) && |task.txPublicKey| == PublicKeySize
    ensures |task.outputs| == |Arg(args, 1).elements|
    ensures forall i :: 0 <= i < |task.outputs| ==>
      && OutputWellFormed(Arg(args, 1).elements[i], fromHex)
      && task.outputs[i].amount == Arg(args, 1).elements[i].fields["amount"].x
      && task.outputs[i].key == fromHex(Arg(args, 1).elements[i].fields["key"].s)
      && |task.outputs[i].key| == PublicKeySize
    ensures task.viewSecretKey == fromHex(Arg(args, 2).s) && |task.viewSecretKey| == SecretKeySize
    ensures task.spendPublicKeys == DecodedKeys(Arg(args, 3).elements, fromHex)
    ensures forall key :: key in task.spendPublicKeys ==> |key| == PublicKeySize
    ensures task.callback == Arg(args, 4).id
  {
    FindOutputsOkParts(args, fromHex);
    var outs := Arg(args, 1).elements;
    var records := CheckOutputs(outs, fromHex).value;
    assert records == task.outputs;
    forall i | 0 <= i < |task.outputs|
      ensures OutputWellFormed(outs[i], fromHex)
      ensures task.outputs[i] == OutputRecord(outs[i].fields["amount"].x, fromHex(outs[i].fields["key"].s))
    {
      assert ParseOutput(outs[i], i, fromHex) == Ok(records[i]);
    }
  }

  lemma FindOutputsOkParts(args: seq<Value>, fromHex: HexDecoder)
    requires ValidateFindOutputs(args, fromHex).Ok?
    ensures FindOutputsArgTypesOk(args)
    ensures CheckOutputs(Arg(args, 1).elements, fromHex).Ok?
    ensures CollectSpendKeys(Arg(args, 3).elements, fromHex).Ok?
    ensures ValidateFindOutputs(args, fromHex).value == FindOutputsTask(
      fromHex(Arg(args, 0).s),
      CheckOutputs(Arg(args, 1).elements, fromHex).value,
      fromHex(Arg(args, 2).s),
      CollectSpendKeys(Arg(args, 3).elements, fromHex).value,
      Arg(args, 4).id)
    ensures |fromHex(Arg(args, 0).s)| == PublicKeySize
    ensures |fromHex(Arg(args, 2).s)| == SecretKeySize
  {
    FindOutputsParamsConform(args);
  }

  /** The signature walk of lines 33-47, unrolled. */
  lemma FindOutputsTypeCheckUnrolled(args: seq<Value>)
    ensures CheckArgTypes(args, FindOutputsParams, 0) ==
      if !Arg(args, 0).Str? then Some(ExpectedArg(0, "transaction public key"))
      else if !Arg(args, 1).Arr? then Some(ExpectedArg(1, "Array<OutputRecord> outputs"))
      else if !Arg(args, 2).Str? then Some(ExpectedArg(2, "string viewSecretKey"))
      else if !Arg(args, 3).Arr? then Some(ExpectedArg(3, "Array<string> spendPublicKeys"))
      else if !Arg(args, 4).Func? then Some(ExpectedArg(4, "function callback"))
      else None
  {
    var p := FindOutputsParams;
    assert CheckArgTypes(args, p, 5) == None;
    assert CheckArgTypes(args, p, 4) == if !Arg(args, 4).Func? then Some(ExpectedArg(4, p[4].description)) else None;
    assert CheckArgTypes(args, p, 3) == if !Arg(args, 3).Arr? then Some(ExpectedArg(3, p[3].description)) else CheckArgTypes(args, p, 4);
    assert CheckArgTypes(args, p, 2) == if !Arg(args, 2).Str? then Some(ExpectedArg(2, p[2].description)) else CheckArgTypes(args, p, 3);
    assert CheckArgTypes(args, p, 1) == if !Arg(args, 1).Arr? then Some(ExpectedArg(1, p[1].description)) else CheckArgTypes(args, p, 2);
    assert CheckArgTypes(args, p, 0) == if !Arg(args, 0).Str? then Some(ExpectedArg(0, p[0].description)) else CheckArgTypes(args, p, 1);
  }

  /** The arguments are checked in order 0..4; the first of the wrong
      type is reported, whatever the others hold. */
  lemma FindOutputsArgOrder(args: seq<Value>, fromHex: HexDecoder)
    ensures !Arg(args, 0).Str? ==>
      ValidateFindOutputs(args, fromHex) == Err(ExpectedArg(0, "transaction public key"))
    ensures Arg(args, 0).Str? && !Arg(args, 1).Arr? ==>
      ValidateFindOutputs(args, fromHex) == Err(ExpectedArg(1, "Array<OutputRecord> outputs"))
    ensures Arg(args, 0).Str? && Arg(args, 1).Arr? && !Arg(args, 2).Str? ==>
      ValidateFindOutputs(args, fromHex) == Err(ExpectedArg(2, "string viewSecretKey"))
    ensures Arg(args, 0).Str? && Arg(args, 1).Arr? && Arg(args, 2).Str? && !Arg(args, 3).Arr? ==>
      ValidateFindOutputs(args, fromHex) == Err(ExpectedArg(3, "Array<string> spendPublicKeys"))
    ensures Arg(args, 0).Str? && Arg(args, 1).Arr? && Arg(args, 2).Str? && Arg(args, 3).Arr? && !Arg(args, 4).Func? ==>
      ValidateFindOutputs(args, fromHex) == Err(ExpectedArg(4, "function callback"))
  {
    FindOutputsTypeCheckUnrolled(args);
  }

  /** Nothing after the first argument of the wrong type is examined: the
      later arguments, and the decoder, do not change the error. */
  lemma FindOutputsIgnoresArgsAfterTypeError(
    args: seq<Value>, args': seq<Value>, fromHex: HexDecoder, fromHex': HexDecoder, k: nat)
    requires k < |FindOutputsParams|
    requires ValidateFindOutputs(args, fromHex) == Err(ExpectedArg(k, FindOutputsParams[k].description))
    requires forall j :: 0 <= j <= k ==> Arg(args, j) == Arg(args', j)
    ensures ValidateFindOutputs(args', fromHex') == ValidateFindOutputs(args, fromHex)
  {
    FindOutputsParamsConform(args);
    CheckArgTypesIgnoresLaterArgs(args, args', FindOutputsParams, k);
  }

  /** Once the types are right, a transaction key that does not decode to
      a public key's size is rejected, and it is the only way to get this
      error. */
  lemma FindOutputsTxKeyLength(args: seq<Value>, fromHex: HexDecoder)
    ensures ValidateFindOutputs(args, fromHex) == Err(TxKeyInvalidLength) <==>
      FindOutputsArgTypesOk(args) && |fromHex(Arg(args, 0).s)| != PublicKeySize
  {
    FindOutputsParamsConform(args);
    if FindOutputsArgTypesOk(args) {
      var outs := CheckOutputs(Arg(args, 1).elements, fromHex);
      var spends := CollectSpendKeys(Arg(args, 3).elements, fromHex);
      assert outs.Err? ==> outs.error.IsOutputError();
      assert spends.Err? ==> spends.error.IsSpendKeyError();
    }
  }

  /** The first ill-formed output is reported, with the error its first
      failing check gives, whatever the view key and the spend keys are:
      those are looked at only after every output has passed. */
  lemma FindOutputsReportsFirstBadOutput(args: seq<Value>, fromHex: HexDecoder, i: nat)
    requires FindOutputsArgTypesOk(args)
    requires |fromHex(Arg(args, 0).s)| == PublicKeySize
    requires i < |Arg(args, 1).elements|
    requires !OutputWellFormed(Arg(args, 1).elements[i], fromHex)
    requires forall j :: 0 <= j < i ==> OutputWellFormed(Arg(args, 1).elements[j], fromHex)
    ensures ValidateFindOutputs(args, fromHex) == Err(ParseOutput(Arg(args, 1).elements[i], i, fromHex).error)
  {
    FindOutputsParamsConform(args);
    var outs := Arg(args, 1).elements;
    var r := CheckOutputs(outs, fromHex);
    assert !ParseOutput(outs[i], i, fromHex).Ok?;
    assert r.Err?;
    assert !OutputWellFormed(outs[r.error.output], fromHex);
  }

  /** With every output accepted, a view secret key of the wrong size is
      reported whatever the spend keys are. */
  lemma FindOutputsViewKeyBeforeSpendKeys(args: seq<Value>, fromHex: HexDecoder)
    requires FindOutputsArgTypesOk(args)
    requires |fromHex(Arg(args, 0).s)| == PublicKeySize
    requires forall j :: 0 <= j < |Arg(args, 1).elements| ==> OutputWellFormed(Arg(args, 1).elements[j], fromHex)
    requires |fromHex(Arg(args, 2).s)| != SecretKeySize
    ensures ValidateFindOutputs(args, fromHex) == Err(ViewKeyInvalidLength)
  {
    FindOutputsParamsConform(args);
    var outs := Arg(args, 1).elements;
    assert forall j :: 0 <= j < |outs| ==> ParseOutput(outs[j], j, fromHex).Ok?;
  }

  /** With everything before it accepted, the first bad spend key is
      reported. */
  lemma FindOutputsReportsFirstBadSpendKey(args: seq<Value>, fromHex: HexDecoder, i: nat)
    requires FindOutputsArgTypesOk(args)
    requires |fromHex(Arg(args, 0).s)| == PublicKeySize
    requires forall j :: 0 <= j < |Arg(args, 1).elements| ==> OutputWellFormed(Arg(args, 1).elements[j], fromHex)
    requires |fromHex(Arg(args, 2).s)| == SecretKeySize
    requires i < |Arg(args, 3).elements|
    requires !ParseSpendKey(Arg(args, 3).elements[i], i, fromHex).Ok?
    requires forall j :: 0 <= j < i ==> ParseSpendKey(Arg(args, 3).elements[j], j, fromHex).Ok?
    ensures ValidateFindOutputs(args, fromHex) == Err(ParseSpendKey(Arg(args, 3).elements[i], i, fromHex).error)
  {
    FindOutputsParamsConform(args);
    var outs := Arg(args, 1).elements;
    assert forall j :: 0 <= j < |outs| ==> ParseOutput(outs[j], j, fromHex).Ok?;
    var r := CollectSpendKeys(Arg(args, 3).elements, fromHex);
    assert r.Err?;
  }
}
