/**
  The errors the wallet binding throws before it queues any work, and the
  exact message text of each.
 */
module BindingErrors {
  import opened Decimal

  datatype Error =
      /** argument `index` does not have the type its description names */
    | ExpectedArg(index: nat, description: string)
      /** the decoded transaction public key is not a public key's size */
    | TxKeyInvalidLength
      /** element `output` of the outputs array fails one of its checks */
    | OutputMissingAmount(output: nat)
    | OutputMissingKey(output: nat)
    | AmountNotNumber(output: nat)
    | OutputKeyNotString(output: nat)
    | OutputKeyInvalidLength(output: nat)
      /** the decoded view secret key is not a secret key's size */
    | ViewKeyInvalidLength
      /** element `spendKey` of the spend public keys array fails a check */
    | SpendKeyNotString(spendKey: nat)
    | SpendKeyInvalidLength(spendKey: nat)
  {
    predicate IsOutputError() {
      OutputMissingAmount? || OutputMissingKey? || AmountNotNumber? ||
      OutputKeyNotString? || OutputKeyInvalidLength?
    }

    predicate IsSpendKeyError() {
      SpendKeyNotString? || SpendKeyInvalidLength?
    }

    /** The position, in the call's argument list, of the argument blamed. */
    function ArgumentIndex(): nat {
      match this
      case ExpectedArg(k, _) => k
      case TxKeyInvalidLength => 0
      case ViewKeyInvalidLength => 2
      case SpendKeyNotString(_) => 3
      case SpendKeyInvalidLength(_) => 3
      case _ => 1
    }
  }

  /** The text passed to `Nan::ThrowError`. Every message opens by naming
      the argument it blames: "expected arg k: " for a type error,
      "invalid arg k: " for a rejected value. */
  function Message(e: Error): (m: string)
    ensures var opening := if e.ExpectedArg? then "expected arg " else "invalid arg ";
            opening + NatToString(e.ArgumentIndex()) + ": " <= m
  {
    match e
    case ExpectedArg(k, d) => "expected arg " + NatToString(k) + ": " + d
    case TxKeyInvalidLength => "invalid arg " + NatToString(0) + ": " + "transaction public key has invalid length"
    case OutputMissingAmount(i) => "invalid arg " + NatToString(1) + ": " + "output " + NatToString(i) + " missing amount"
    case OutputMissingKey(i) => "invalid arg " + NatToString(1) + ": " + "output " + NatToString(i) + " missing key"
    case AmountNotNumber(i) => "invalid arg " + NatToString(1) + ": " + "amount of output " + NatToString(i) + " is not a number"
    case OutputKeyNotString(i) => "invalid arg " + NatToString(1) + ": " + "key of output " + NatToString(i) + " is not a string"
    case OutputKeyInvalidLength(i) => "invalid arg " + NatToString(1) + ": " + "key of output " + NatToString(i) + " has invalid length"
    case ViewKeyInvalidLength => "invalid arg " + NatToString(2) + ": " + "view secret key has invalid length"
    case SpendKeyNotString(i) => "invalid arg " + NatToString(3) + ": " + "spend public key " + NatToString(i) + " is not a string"
    case SpendKeyInvalidLength(i) => "invalid arg " + NatToString(3) + ": " + "spend public key " + NatToString(i) + " has invalid length"
  }

  /** A numeral framed by fixed text can be read back: equal framed
      strings have equal indices. */
  lemma FramedIndexInjective(before: string, after: string, i: nat, j: nat)
    requires before + NatToString(i) + after == before + NatToString(j) + after
    ensures i == j
  {
    var m := before + NatToString(i) + after;
    assert |NatToString(i)| == |NatToString(j)|;
    assert m[|before|..|before| + |NatToString(i)|] == NatToString(i);
    assert (before + NatToString(j) + after)[|before|..|before| + |NatToString(j)|] == NatToString(j);
    NatToStringInjective(i, j);
  }

  /** Each message about an output or a spend key names its index: two
      messages of the same kind are equal only for the same index. */
  lemma MessageNamesIndex(i: nat, j: nat)
    ensures Message(OutputMissingAmount(i)) == Message(OutputMissingAmount(j)) ==> i == j
    ensures Message(OutputMissingKey(i)) == Message(OutputMissingKey(j)) ==> i == j
    ensures Message(AmountNotNumber(i)) == Message(AmountNotNumber(j)) ==> i == j
    ensures Message(OutputKeyNotString(i)) == Message(OutputKeyNotString(j)) ==> i == j
    ensures Message(OutputKeyInvalidLength(i)) == Message(OutputKeyInvalidLength(j)) ==> i == j
    ensures Message(SpendKeyNotString(i)) == Message(SpendKeyNotString(j)) ==> i == j
    ensures Message(SpendKeyInvalidLength(i)) == Message(SpendKeyInvalidLength(j)) ==> i == j
  {
    var arg1 := "invalid arg " + NatToString(1) + ": ";
    var arg3 := "invalid arg " + NatToString(3) + ": ";
    if Message(OutputMissingAmount(i)) == Message(OutputMissingAmount(j)) {
      FramedIndexInjective(arg1 + "output ", " missing amount", i, j);
    }
    if Message(OutputMissingKey(i)) == Message(OutputMissingKey(j)) {
      FramedIndexInjective(arg1 + "output ", " missing key", i, j);
    }
    if Message(AmountNotNumber(i)) == Message(AmountNotNumber(j)) {
      FramedIndexInjective(arg1 + "amount of output ", " is not a number", i, j);
    }
    if Message(OutputKeyNotString(i)) == Message(OutputKeyNotString(j)) {
      FramedIndexInjective(arg1 + "key of output ", " is not a string", i, j);
    }
    if Message(OutputKeyInvalidLength(i)) == Message(OutputKeyInvalidLength(j)) {
      FramedIndexInjective(arg1 + "key of output ", " has invalid length", i, j);
    }
    if Message(SpendKeyNotString(i)) == Message(SpendKeyNotString(j)) {
      FramedIndexInjective(arg3 + "spend public key ", " is not a string", i, j);
    }
    if Message(SpendKeyInvalidLength(i)) == Message(SpendKeyInvalidLength(j)) {
      FramedIndexInjective(arg3 + "spend public key ", " has invalid length", i, j);
    }
  }
}
