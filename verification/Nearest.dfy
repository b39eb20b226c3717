/** The nearest edge holding an object, as placement gains and eviction costs between peers use it. */
module Nearest {
  import opened Types

  const UINT32_MAX: nat := 0xFFFF_FFFF

  /** The holder lies outside the excluded edges and the loop's starting latency does not hide it. */
  predicate Eligible(holders: seq<Edge>, excluded: set<Edge>, latency: Edge -> nat, h: Edge) {
    h in holders && h !in excluded && latency(h) < UINT32_MAX
  }

  /** The first eligible holder of least latency; no result is the failing assertion. */
  method NearestHolder(holders: seq<Edge>, excluded: set<Edge>, latency: Edge -> nat) returns (r: Option<Edge>)
    ensures r.None? <==> forall h: Edge :: !Eligible(holders, excluded, latency, h)
    ensures r.Some? ==> Eligible(holders, excluded, latency, r.value) &&
                        forall h :: h in holders && h !in excluded ==> latency(r.value) <= latency(h)
    ensures r.Some? ==> exists i :: 0 <= i < |holders| && holders[i] == r.value &&
                                    forall j :: 0 <= j < i && holders[j] !in excluded ==>
                                      latency(r.value) < latency(holders[j])
  {
    r := None;
    var least := UINT32_MAX;
    ghost var first := 0;
    for i := 0 to |holders|
      invariant r.None? ==> least == UINT32_MAX
      invariant r.Some? ==> Eligible(holders, excluded, latency, r.value) && least == latency(r.value)
      invariant forall j :: 0 <= j < i && holders[j] !in excluded ==> least <= latency(holders[j])
      invariant r.Some? ==> 0 <= first < i && holders[first] == r.value
      invariant r.Some? ==> forall j :: 0 <= j < first && holders[j] !in excluded ==> least < latency(holders[j])
    {
      var h := holders[i];
      if h !in excluded && latency(h) < least {
        r, least, first := Some(h), latency(h), i;
      }
    }
  }
}
