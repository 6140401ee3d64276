# Wallet binding argument validation

This project models the Node.js binding layer of a CryptoNote-style wallet
helper library (`src/Bindings/WalletBinding.cc`): the checks each entry point
makes on its JavaScript arguments before it hands any work to a background
worker.

The centre is `findOutputs(txPublicKey, outputs, viewSecretKey,
spendPublicKeys, callback)`. It does the following, stopping at the first
failure:

1. It type-checks its five arguments in order: string, array, string, array,
   function.
2. It hex-decodes the transaction public key and demands the size of a
   public key (32 bytes).
3. It walks the outputs array. Each element must own an `amount` and a `key`
   property, the amount must be a number, and the key must be a string whose
   decoding has a public key's size. The first failing index is named in the
   error.
4. It checks the decoded view secret key's size.
5. It folds the spend public keys array into a set. The first element that is
   not a string, or does not decode to a public key's size, is rejected.

Only then does it queue a scanning worker. `createWallet` and
`generateAddressFromKeyPair` only make the type checks of step 1, on their own
argument lists.

Modules:

- `JsValues`: the JavaScript values the binding inspects.
- `Decimal`: the `std::to_string` rendering of indices in messages.
- `BindingErrors`: the thrown errors and their message text.
- `ArgCheck`: the type-check prologue, driven by a signature table.
- `KeyInputs`: the two array walks. Each walk is an imperative method proved
  equal to a recursive specification function.
- `WalletBinding`: the three entry points.

`WalletBinding.ValidateFindOutputs` states the whole `findOutputs` decision as
a function. The method `WalletBinding.FindOutputs` computes it the way the
binding does, with early returns. The lemmas about `ValidateFindOutputs`
state the check order, the first-failure reporting, what the queued task
holds, and that a task is queued if and only if every check passes.

An `Err(e)` result stands for `Nan::ThrowError(Message(e))`. An `Ok(task)`
result stands for queuing a worker built from `task`. The hex decoder
`fromHex` is a parameter of every operation, because its body is not part of
this model. Every property proved holds for any decoder, and depends only on
the lengths it returns.

## Model

| member | source | states |
|---|---|---|
| `Decimal.DecimalValueOfNatToString` | src/Bindings/WalletBinding.cc:67 | reading back the decimal numeral `std::to_string` gives an index returns that index |
| `Decimal.NatToStringInjective` | src/Bindings/WalletBinding.cc:67 | `std::to_string` renders distinct indices as distinct numerals |
| `BindingErrors.MessageNamesIndex` | src/Bindings/WalletBinding.cc:67-117 | for each of the seven output and spend-key errors, two messages of the same kind are equal only when they are for the same index |
| `BindingErrors.Message` | src/Bindings/WalletBinding.cc:13-117 | every thrown message begins "expected arg k: " (type error) or "invalid arg k: " (rejected value), with k the blamed argument's position |
| `ArgCheck.CheckArgTypes` | src/Bindings/WalletBinding.cc:33-47 | no error iff every argument has its parameter's type; otherwise the error names the least non-conforming index with that parameter's description, and every earlier argument conforms |
| `ArgCheck.CheckArgTypesIgnoresLaterArgs` | src/Bindings/WalletBinding.cc:33-47 | the type error depends on no argument after the offending one |
| `WalletBinding.CreateWallet` | src/Bindings/WalletBinding.cc:12-30 | a wallet worker with path, password and callback is queued iff the arguments are string, string and function; otherwise the first wrong one's error ("string path", "string container password", "function callback") |
| `WalletBinding.GenerateAddressFromKeyPair` | src/Bindings/WalletBinding.cc:143-152 | address derivation proceeds on the two strings iff both arguments are strings; otherwise the first wrong one's error; no length is checked |
| `WalletBinding.FindOutputsArgOrder` | src/Bindings/WalletBinding.cc:33-47 | the five arguments are checked in order string, array, string, array, function, and the first of the wrong type yields its own error |
| `WalletBinding.FindOutputsIgnoresArgsAfterTypeError` | src/Bindings/WalletBinding.cc:33-47 | after a type error nothing later is examined: changing later arguments or the hex decoder leaves the result unchanged |
| `WalletBinding.FindOutputsTxKeyLength` | src/Bindings/WalletBinding.cc:49-55 | the result is the transaction-key length error iff the types are right and the decoded transaction key is not 32 bytes |
| `KeyInputs.ParseOutput` | src/Bindings/WalletBinding.cc:65-92 | output i is accepted iff it owns amount and key, the amount is a number and the key decodes to 32 bytes; the record holds that amount and decoded key; each error names i and arises only once the checks before it (amount present, key present, amount numeric, key a string, key length) have passed |
| `KeyInputs.CheckOutputs` | src/Bindings/WalletBinding.cc:64-95 | success iff every element is accepted, with one record per element in input order; otherwise the error of the least failing index, every earlier element accepted |
| `KeyInputs.ParseOutputs` | src/Bindings/WalletBinding.cc:64-95 | the push-and-return-early loop computes exactly `CheckOutputs` |
| `KeyInputs.CheckOutputsStopsAtFirstFailure` | src/Bindings/WalletBinding.cc:64-95 | elements after the first failing output are never inspected: any array agreeing up to that index gives the same error |
| `WalletBinding.FindOutputsReportsFirstBadOutput` | src/Bindings/WalletBinding.cc:64-103 | with types and transaction key accepted, the first ill-formed output's error is reported whatever the view key and spend keys are |
| `WalletBinding.FindOutputsViewKeyBeforeSpendKeys` | src/Bindings/WalletBinding.cc:97-120 | once every output passes, a view secret key not of 32 bytes is reported whatever the spend keys are |
| `KeyInputs.ParseSpendKey` | src/Bindings/WalletBinding.cc:111-119 | spend key i is accepted iff it is a string decoding to 32 bytes, giving that decoding; an error names i; "is not a string" arises only for a non-string, and "has invalid length" only for a string whose decoding is not 32 bytes |
| `KeyInputs.CollectSpendKeys` | src/Bindings/WalletBinding.cc:106-120 | success iff every element is accepted, giving exactly the set of decoded keys, each of 32 bytes; otherwise the error of the least failing index |
| `KeyInputs.ParseSpendKeys` | src/Bindings/WalletBinding.cc:106-120 | the insert-and-return-early loop computes exactly `CollectSpendKeys` |
| `KeyInputs.CollectSpendKeysStopsAtFirstFailure` | src/Bindings/WalletBinding.cc:109-120 | spend keys after the first failing one are never inspected |
| `KeyInputs.SpendKeysAtMostOnePerElement` | src/Bindings/WalletBinding.cc:106-120 | the spend-key set has no more members than the array has elements |
| `KeyInputs.SpendKeysCollapseDuplicate` | src/Bindings/WalletBinding.cc:119 | appending a copy of an accepted element leaves the set unchanged: duplicates collapse |
| `WalletBinding.FindOutputsReportsFirstBadSpendKey` | src/Bindings/WalletBinding.cc:105-120 | with everything before them accepted, the first bad spend key's error is reported |
| `WalletBinding.FindOutputs` | src/Bindings/WalletBinding.cc:32-131 | the binding's sequence of checks with early returns yields exactly `ValidateFindOutputs` |
| `WalletBinding.FindOutputsDispatchIff` | src/Bindings/WalletBinding.cc:122-128 | a worker is queued iff all checks hold at once: argument types, both key sizes, every output well formed, every spend key a string of the right size |
| `WalletBinding.FindOutputsTaskContents` | src/Bindings/WalletBinding.cc:49-128 | the queued task holds the decoded 32-byte transaction key, one record per output in input order with that output's amount and decoded key, the decoded view key, the set of decoded spend keys (each 32 bytes), and the callback |

## Left out

- `generateNewKeyPair` (lines 133-141) is left out. It only calls the curve library's key generation and hex-encodes the result, and neither body is part of this model.
- `generateAddressFromKeyPair` after its type checks (lines 151-160) is left out. It decodes into fixed buffers without a length check and calls the base58 address encoder, and neither body is part of this model. The model stops at the two strings it would decode.
- Module registration (`NAN_MODULE_INIT`, lines 5-10) and the return-value plumbing (`GetReturnValue().Set`) are left out. They are binding glue with no decision in them.
- The workers `GenerateWalletAsyncWorker` and `FindOutputsAsyncWorker` are not part of this model. Queuing a worker is modelled as returning `Ok(task)`. Asynchrony and the callback's later invocation are concurrency and are not modelled.
- `fromHex` is a parameter, not a definition. An exception it might throw on odd-length or non-hex text is not modelled.
- `KeyInputs.ParseOutput`: an element that is not a plain object is reported as "missing amount". For `undefined` or `null`, V8's `ToObject` raises instead. Other primitives have no own `amount` property, so the model matches the binding for them.
- `KeyInputs.ParseOutput`: arrays and functions are JavaScript objects and can own `amount` and `key` properties (`Object.assign([], {amount: 1, key: k})` passes the checks of lines 66-91). `Arr` and `Func` carry no named properties, so the model rejects such an element as "missing amount" where the binding accepts it.
- String arguments are converted with `std::string(*Nan::Utf8String(...))` (lines 24-25, 51, 88, 99, 115, 151-152). That re-encodes the text as UTF-8 and cuts it at its first U+0000. The model does not do this: `CreateWalletTask.path`, `CreateWalletTask.password` and `AddressRequest` hold the JavaScript string unchanged. In `findOutputs` the conversion is part of the `fromHex` parameter.
- The amount is carried as the JavaScript number itself (a real). Its conversion by `NumberValue()` into the amount field (line 81) is floating point and is not modelled. Neither are NaN and the infinities.
- A key is modelled as its byte sequence. The `reinterpret_cast` into `Crypto::PublicKey` / `Crypto::SecretKey` is not modelled.
- Arrays are dense sequences, so holes, accessor properties and inherited properties are not modelled. The `length` read through `Uint32Value()` equals the number of elements.
- Duplicate spend keys are accepted and collapse into one set member; `KeyInputs.SpendKeysCollapseDuplicate` states this.
- Only the decoded length of a hex string is checked; malformed hex yields whatever the decoder returns.
- `generateAddressFromKeyPair` checks only the types of its arguments.
