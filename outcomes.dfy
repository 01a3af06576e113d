/** Value wrappers shared by every module: a missing number (NaN in the
    source's pandas and numpy code) is `None`; an operation that raises is
    an `Err` carrying the kind of failure. */
module Outcomes {

  datatype Option<T> = None | Some(value: T)

  /** The failure kinds the preprocessing scripts can raise. */
  datatype Error =
    | EmptyTable            // the persisted table has no row, so `index[0]` raises
    | ExtractionFailure     // a numeric step raises (NaN centroid rounded, empty array reduced)
    | MissingMetadataField  // the sidecar JSON has no `TxRefAmp` key
    | WrongArguments        // a library call is given arguments it does not take (TypeError)

  datatype Result<T> = Ok(value: T) | Err(error: Error)

  /** All values present, or NaN as soon as one is missing. */
  function AllPresent<T>(s: seq<Option<T>>): (r: Option<seq<T>>)
    ensures r.Some? <==> forall k :: 0 <= k < |s| ==> s[k].Some?
    ensures r.Some? ==> |r.value| == |s| && forall k :: 0 <= k < |s| ==> s[k] == Some(r.value[k])
  {
    if s == [] then Some([])
    else
      var n := |s| - 1;
      var r := AllPresent(s[..n]);
      if r.Some? && s[n].Some? then
        assert forall k :: 0 <= k < n ==> s[..n][k] == s[k];
        Some(r.value + [s[n].value])
      else
        assert r.None? ==> exists k :: 0 <= k < n && s[..n][k].None?;
        None
  }
}
