/**
  The two array walks of `FindOutputs`: the outputs array, whose elements
  must each carry a numeric `amount` and a hex `key` of a public key's size,
  and the spend public keys array, whose hex strings are folded into a set.
  Each walk stops at, and reports, the first element that fails.
 */
module KeyInputs {
  import opened Wrappers
  import opened JsValues
  import opened BindingErrors

  newtype uint8 = x: int | 0 <= x < 256

  type Bytes = seq<uint8>

  /** The hex decoder `fromHex` the binding calls; its body is not part of
      this model, so every operation takes it as a parameter. */
  type HexDecoder = string -> Bytes

  /** `sizeof(Crypto::PublicKey)` and `sizeof(Crypto::SecretKey)`. */
  const PublicKeySize: nat := 32
  const SecretKeySize: nat := 32

  /** One candidate output handed to the scanner: its amount (the opaque
      JavaScript number) and its one-time public key. */
  datatype OutputRecord = OutputRecord(amount: real, key: Bytes)

  /** All five checks an element of the outputs array must pass. */
  predicate OutputWellFormed(item: Value, fromHex: HexDecoder) {
    && HasOwnProperty(item, "amount")
    && HasOwnProperty(item, "key")
    && item.fields["amount"].Num?
    && item.fields["key"].Str?
    && |fromHex(item.fields["key"].s)| == PublicKeySize
  }

  /** The checks on output `i`, in the order the binding makes them. Each
      error names `i`, and each can arise only once every earlier check
      has passed. */
  function ParseOutput(item: Value, i: nat, fromHex: HexDecoder): (r: Result<OutputRecord, Error>)
    ensures r.Ok? <==> OutputWellFormed(item, fromHex)
    ensures r.Ok? ==> r.value == OutputRecord(item.fields["amount"].x, fromHex(item.fields["key"].s))
    ensures r.Err? ==> r.error.IsOutputError() && r.error.output == i
    ensures r == Err(OutputMissingAmount(i)) ==> !HasOwnProperty(item, "amount")
    ensures r == Err(OutputMissingKey(i)) ==>
      HasOwnProperty(item, "amount") && !HasOwnProperty(item, "key")
    ensures r == Err(AmountNotNumber(i)) ==>
      HasOwnProperty(item, "amount") && HasOwnProperty(item, "key") && !item.fields["amount"].Num?
    ensures r == Err(OutputKeyNotString(i)) ==>
      HasOwnProperty(item, "amount") && HasOwnProperty(item, "key") && item.fields["amount"].Num?
      && !item.fields["key"].Str?
    ensures r == Err(OutputKeyInvalidLength(i)) ==>
      HasOwnProperty(item, "amount") && HasOwnProperty(item, "key") && item.fields["amount"].Num?
      && item.fields["key"].Str? && |fromHex(item.fields["key"].s)| != PublicKeySize
  {
    if !HasOwnProperty(item, "amount") then Err(OutputMissingAmount(i))
    else if !HasOwnProperty(item, "key") then Err(OutputMissingKey(i))
    else
      var amount := item.fields["amount"];
      if !amount.Num? then Err(AmountNotNumber(i))
      else
        var key := item.fields["key"];
        if !key.Str? then Err(OutputKeyNotString(i))
        else
          var bytes := fromHex(key.s);
          if |bytes| != PublicKeySize then Err(OutputKeyInvalidLength(i))
          else Ok(OutputRecord(amount.x, bytes))
  }

  /** The outputs array walked from index 0: on success one record per
      element, in order; otherwise the error of the least failing index. */
  function CheckOutputs(items: seq<Value>, fromHex: HexDecoder): (r: Result<seq<OutputRecord>, Error>)
    decreases |items|
    ensures r.Ok? <==> forall i :: 0 <= i < |items| ==> ParseOutput(items[i], i, fromHex).Ok?
    ensures r.Ok? ==>
      && |r.value| == |items|
      && forall i :: 0 <= i < |items| ==> ParseOutput(items[i], i, fromHex) == Ok(r.value[i])
    ensures r.Err? ==>
      && r.error.IsOutputError()
      && r.error.output < |items|
      && ParseOutput(items[r.error.output], r.error.output, fromHex) == Err(r.error)
      && forall j :: 0 <= j < r.error.output ==> ParseOutput(items[j], j, fromHex).Ok?
  {
    if items == [] then Ok([])
    else
      var n := |items| - 1;
      assert forall j :: 0 <= j < n ==> items[..n][j] == items[j];
      match CheckOutputs(items[..n], fromHex)
      case Err(e) => Err(e)
      case Ok(prefix) =>
        match ParseOutput(items[n], n, fromHex)
        case Err(e) => Err(e)
        case Ok(record) => Ok(prefix + [record])
  }

  /** The loop of lines 64-95: push a record per element, return on the
      first element that fails. */
  method ParseOutputs(items: seq<Value>, fromHex: HexDecoder) returns (r: Result<seq<OutputRecord>, Error>)
    ensures r == CheckOutputs(items, fromHex)
  {
    var outputs: seq<OutputRecord> := [];
    var i := 0;
    while i < |items|
      invariant 0 <= i <= |items|
      invariant |outputs| == i
      invariant forall j :: 0 <= j < i ==> ParseOutput(items[j], j, fromHex) == Ok(outputs[j])
    {
      var record := ParseOutput(items[i], i, fromHex);
      if record.Err? {
        return Err(record.error);
      }
      outputs := outputs + [record.value];
      i := i + 1;
    }
    var expected := CheckOutputs(items, fromHex);
    assert forall j :: 0 <= j < |items| ==> expected.value[j] == outputs[j];
    assert expected.value == outputs;
    return Ok(outputs);
  }

  /** No element after the first failing one is inspected: replacing or
      dropping the elements after it leaves the verdict unchanged. */
  lemma CheckOutputsStopsAtFirstFailure(items: seq<Value>, items': seq<Value>, fromHex: HexDecoder)
    requires CheckOutputs(items, fromHex).Err?
    requires CheckOutputs(items, fromHex).error.output < |items'|
    requires items'[..CheckOutputs(items, fromHex).error.output + 1]
          == items[..CheckOutputs(items, fromHex).error.output + 1]
    ensures CheckOutputs(items', fromHex) == CheckOutputs(items, fromHex)
  {
    var e := CheckOutputs(items, fromHex).error;
    var k := e.output;
    assert forall j :: 0 <= j <= k ==> items'[j] == items[..k + 1][j];
    var r' := CheckOutputs(items', fromHex);
    assert ParseOutput(items'[k], k, fromHex) == Err(e);
    assert r'.Err?;
    assert r'.error.output == k;
  }

  /** The checks on spend public key `i`. */
  function ParseSpendKey(v: Value, i: nat, fromHex: HexDecoder): (r: Result<Bytes, Error>)
    ensures r.Ok? <==> v.Str? && |fromHex(v.s)| == PublicKeySize
    ensures r.Ok? ==> r.value == fromHex(v.s)
    ensures r.Err? ==> r.error.IsSpendKeyError() && r.error.spendKey == i
    ensures r == Err(SpendKeyNotString(i)) ==> !v.Str?
    ensures r == Err(SpendKeyInvalidLength(i)) ==> v.Str? && |fromHex(v.s)| != PublicKeySize
  {
    if !v.Str? then Err(SpendKeyNotString(i))
    else
      var bytes := fromHex(v.s);
      if |bytes| != PublicKeySize then Err(SpendKeyInvalidLength(i))
      else Ok(bytes)
  }

  /** The set of decoded keys of `items`' strings. */
  ghost function DecodedKeys(items: seq<Value>, fromHex: HexDecoder): set<Bytes> {
    set i | 0 <= i < |items| && items[i].Str? :: fromHex(items[i].s)
  }

  /** The spend public keys array folded into a set: on success the set of
      every element's decoded key, each of a public key's size; otherwise
      the error of the least failing index. */
  function CollectSpendKeys(items: seq<Value>, fromHex: HexDecoder): (r: Result<set<Bytes>, Error>)
    decreases |items|
    ensures r.Ok? <==> forall i :: 0 <= i < |items| ==> ParseSpendKey(items[i], i, fromHex).Ok?
    ensures r.Ok? ==> r.value == DecodedKeys(items, fromHex)
    ensures r.Ok? ==> forall key :: key in r.value ==> |key| == PublicKeySize
    ensures r.Err? ==>
      && r.error.IsSpendKeyError()
      && r.error.spendKey < |items|
      && ParseSpendKey(items[r.error.spendKey], r.error.spendKey, fromHex) == Err(r.error)
      && forall j :: 0 <= j < r.error.spendKey ==> ParseSpendKey(items[j], j, fromHex).Ok?
  {
    if items == [] then Ok({})
    else
      var n := |items| - 1;
      assert forall j :: 0 <= j < n ==> items[..n][j] == items[j];
      match CollectSpendKeys(items[..n], fromHex)
      case Err(e) => Err(e)
      case Ok(keys) =>
        match ParseSpendKey(items[n], n, fromHex)
        case Err(e) => Err(e)
        case Ok(key) =>
          DecodedKeysSnoc(items, fromHex);
          Ok(keys + {key})
  }

  lemma DecodedKeysSnoc(items: seq<Value>, fromHex: HexDecoder)
    requires items != [] && items[|items| - 1].Str?
    ensures DecodedKeys(items, fromHex)
         == DecodedKeys(items[..|items| - 1], fromHex) + {fromHex(items[|items| - 1].s)}
  {
    var n := |items| - 1;
    assert forall j :: 0 <= j < n ==> items[..n][j] == items[j];
  }

  /** The loop of lines 109-120: insert each decoded key into the set,
      return on the first element that fails. */
  method ParseSpendKeys(items: seq<Value>, fromHex: HexDecoder) returns (r: Result<set<Bytes>, Error>)
    ensures r == CollectSpendKeys(items, fromHex)
  {
    var keys: set<Bytes> := {};
    var i := 0;
    while i < |items|
      invariant 0 <= i <= |items|
      invariant CollectSpendKeys(items[..i], fromHex) == Ok(keys)
    {
      var key := ParseSpendKey(items[i], i, fromHex);
      if key.Err? {
        assert forall j :: 0 <= j < i ==> items[..i][j] == items[j];
        return Err(key.error);
      }
      assert items[..i + 1][..i] == items[..i];
      keys := keys + {key.value};
      i := i + 1;
    }
    assert items[..i] == items;
    return Ok(keys);
  }

  /** As for outputs, no spend key after the first failing one is
      inspected. */
  lemma CollectSpendKeysStopsAtFirstFailure(items: seq<Value>, items': seq<Value>, fromHex: HexDecoder)
    requires CollectSpendKeys(items, fromHex).Err?
    requires CollectSpendKeys(items, fromHex).error.spendKey < |items'|
    requires items'[..CollectSpendKeys(items, fromHex).error.spendKey + 1]
          == items[..CollectSpendKeys(items, fromHex).error.spendKey + 1]
    ensures CollectSpendKeys(items', fromHex) == CollectSpendKeys(items, fromHex)
  {
    var e := CollectSpendKeys(items, fromHex).error;
    var k := e.spendKey;
    assert forall j :: 0 <= j <= k ==> items'[j] == items[..k + 1][j];
    var r' := CollectSpendKeys(items', fromHex);
    assert ParseSpendKey(items'[k], k, fromHex) == Err(e);
    assert r'.Err?;
    assert r'.error.spendKey == k;
  }

  /** Duplicates collapse: at most one key per element, and appending a
      copy of an accepted element leaves the set as it was. */
  lemma {:induction false} SpendKeysAtMostOnePerElement(items: seq<Value>, fromHex: HexDecoder)
    requires CollectSpendKeys(items, fromHex).Ok?
    ensures |CollectSpendKeys(items, fromHex).value| <= |items|
  {
    if items != [] {
      var n := |items| - 1;
      assert forall j :: 0 <= j < n ==> items[..n][j] == items[j];
      SpendKeysAtMostOnePerElement(items[..n], fromHex);
    }
  }

  lemma SpendKeysCollapseDuplicate(items: seq<Value>, j: nat, fromHex: HexDecoder)
    requires j < |items|
    requires CollectSpendKeys(items, fromHex).Ok?
    ensures CollectSpendKeys(items + [items[j]], fromHex) == CollectSpendKeys(items, fromHex)
  {
    var items' := items + [items[j]];
    var keys := CollectSpendKeys(items, fromHex).value;
    assert items'[..|items|] == items;
    assert ParseSpendKey(items[j], j, fromHex).Ok?;
    var key := fromHex(items[j].s);
    assert ParseSpendKey(items'[|items|], |items|, fromHex) == Ok(key);
    assert key in keys;
    assert keys + {key} == keys;
  }
}
