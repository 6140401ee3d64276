/**
  The type-check prologue every binding entry point opens with: the
  arguments are checked one after another against a signature, and the
  first one of the wrong type is reported with that parameter's
  description; nothing after it is looked at.
 */
module ArgCheck {
  import opened Wrappers
  import opened JsValues
  import opened BindingErrors

  /** One expected parameter: its type and the words the error uses. */
  datatype Param = Param(kind: ValueType, description: string)

  predicate Conforms(args: seq<Value>, sig: seq<Param>, j: nat)
    requires j < |sig|
  {
    HasType(Arg(args, j), sig[j].kind)
  }

  /** Checks arguments `from`, `from + 1`, ... of `sig` in order. None when
      all conform; otherwise the error for the least index that does not. */
  function CheckArgTypes(args: seq<Value>, sig: seq<Param>, from: nat): (r: Option<Error>)
    requires from <= |sig|
    decreases |sig| - from
    ensures r == None <==> forall j :: from <= j < |sig| ==> Conforms(args, sig, j)
    ensures r.Some? ==>
      && r.value.ExpectedArg?
      && from <= r.value.index < |sig|
      && r.value.description == sig[r.value.index].description
      && !Conforms(args, sig, r.value.index)
      && forall j :: from <= j < r.value.index ==> Conforms(args, sig, j)
  {
    if from == |sig| then None
    else if !Conforms(args, sig, from) then Some(ExpectedArg(from, sig[from].description))
    else CheckArgTypes(args, sig, from + 1)
  }

  /** The verdict depends on no argument after the first offending one. */
  lemma CheckArgTypesIgnoresLaterArgs(args: seq<Value>, args': seq<Value>, sig: seq<Param>, k: nat)
    requires k < |sig|
    requires CheckArgTypes(args, sig, 0) == Some(ExpectedArg(k, sig[k].description))
    requires forall j :: 0 <= j <= k ==> Arg(args, j) == Arg(args', j)
    ensures CheckArgTypes(args', sig, 0) == CheckArgTypes(args, sig, 0)
  {
    var r' := CheckArgTypes(args', sig, 0);
    assert !Conforms(args', sig, k);
    assert forall j :: 0 <= j < k ==> Conforms(args', sig, j) by {
      forall j | 0 <= j < k ensures Conforms(args', sig, j) {
        assert Conforms(args, sig, j);
      }
    }
  }
}
