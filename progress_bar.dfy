/** How `ProgressBar` turns its `verbose` and `disable` keywords into the
    single `disable` keyword it hands to the progress-bar library. */
module ProgressBarArgs {
  import opened Wrappers
  import opened PyValues
  import opened PyDict

  /** The `disable` derived from `verbose`: `None` stays `None` (the library
      then disables itself when the output is not a terminal); anything else
      gives the boolean opposite of its truthiness. */
  function Disable(verbose: Value): (disable: Value)
    ensures disable.PyNone? <==> verbose.PyNone?
    ensures !verbose.PyNone? ==> disable.PyBool? && Truthy(disable) != Truthy(verbose)
  {
    if verbose.PyNone? then PyNone else PyBool(!Truthy(verbose))
  }

  /** The body of `ProgressBar.__init__` up to the call into the library:
      `verbose` is popped (default `True`), the derived `disable` computed,
      an explicit `disable` popped in its place if there is one, and the
      chosen value stored back under `disable`. Returns the positional and
      keyword arguments the library receives. */
  method ResolveKwargs(args: seq<Value>, kwargs: Dict<string, Value>)
    returns (forwardedArgs: seq<Value>, forwarded: Dict<string, Value>)
    ensures forwardedArgs == args
    ensures Get(forwarded, "verbose").None?
    ensures Get(forwarded, "disable").Some?
    ensures Get(kwargs, "disable").Some? ==> Get(forwarded, "disable") == Get(kwargs, "disable")
    ensures Get(kwargs, "disable").None? && Get(kwargs, "verbose").Some? ==>
      Get(forwarded, "disable") == Some(Disable(Get(kwargs, "verbose").value))
    ensures Get(kwargs, "disable").None? && Get(kwargs, "verbose").None? ==>
      Get(forwarded, "disable") == Some(PyBool(false))
    ensures forall k :: k != "verbose" && k != "disable" ==> Get(forwarded, k) == Get(kwargs, k)
    ensures KeysUnique(kwargs) ==> KeysUnique(forwarded)
    ensures |forwarded| > 0 && forwarded[|forwarded| - 1].0 == "disable"
  {
    var popped := Pop(kwargs, "verbose", PyBool(true));
    var verbose := popped.0;
    var kw := popped.1;
    var disable := Disable(verbose);
    popped := Pop(kw, "disable", disable);
    kw := popped.1;
    kw := Put(kw, "disable", popped.0);
    PutAbsentLast(popped.1, "disable", popped.0);
    return args, kw;
  }
}
