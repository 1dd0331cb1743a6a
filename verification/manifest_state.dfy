/**
 The convergence state of an instance manifest (pkg/apis/wing/v1alpha1/constants.go).
 In Go the state is a named string type with three constants; here the three
 constants are a datatype, `ToWire` gives the string each one stands for and
 `FromWire` reads a string back.
 */
module ManifestStates {
  import opened Wrappers

  datatype InstanceManifestState = Converging | Converged | Error

  /** The wire string of a state, as stored in a manifest's `state` field. */
  function ToWire(s: InstanceManifestState): (w: string)
    ensures |w| > 0
  {
    match s
    case Converging => "converging"
    case Converged => "converged"
    case Error => "error"
  }

  /** Reads a wire string back; strings that are none of the three constants give `None`. */
  function FromWire(w: string): (r: Option<InstanceManifestState>)
    ensures r.Some? ==> ToWire(r.value) == w
    ensures r.None? <==> forall s :: ToWire(s) != w
  {
    if w == "converging" then Some(Converging)
    else if w == "converged" then Some(Converged)
    else if w == "error" then Some(Error)
    else None
  }

  /** The three constants and the strings they carry on the wire. */
  lemma WireStrings()
    ensures ToWire(Converging) == "converging"
    ensures ToWire(Converged) == "converged"
    ensures ToWire(Error) == "error"
  {
  }

  /** Distinct states have distinct wire strings. */
  lemma WireInjective(a: InstanceManifestState, b: InstanceManifestState)
    ensures ToWire(a) == ToWire(b) <==> a == b
  {
  }

  /** Reading a state's own wire string gives that state back. */
  lemma WireRoundTrip(s: InstanceManifestState)
    ensures FromWire(ToWire(s)) == Some(s)
  {
  }

  /** Writing back a string that parsed gives the string it came from. */
  lemma WireRoundTripString(w: string)
    requires FromWire(w).Some?
    ensures ToWire(FromWire(w).value) == w
  {
  }
}
