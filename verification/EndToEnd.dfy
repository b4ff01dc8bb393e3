/**
 * The two halves together: the integral program run on the cluster, whatever connects,
 * dies and disconnects while it runs.
 */
module EndToEnd {
  import opened Cluster
  import opened Theorems
  import opened Integral

  /** The computation every client runs; a step that is not positive never ends in the loop
      and is given no value here. */
  function Worker(t: TaskData): real {
    if t.step > 0.0 then Quadrature(t) else 0.0
  }

  /** When the server leaves its event loop, the results in the user's buffer add up to the
      integral within the bound, independently of how tasks were handed out and lost. */
  lemma IntegralOnCluster(a: real, b: real, d: real, n: nat, rets: seq<real>, maxClients: nat,
                          acts: seq<Action<TaskData, real>>, s: Cluster<TaskData, real>)
    requires n > 0 && a <= b && d > 0.0
    requires Reached(Worker, Tiles(a, b, d, n), rets, maxClients, acts, s) && s.phase == Finished
    ensures |s.server.rets| == n
    ensures Exact(a, b) <= Sum(s.server.rets)
    ensures Sum(s.server.rets) <= Exact(a, b) + TrapezoidError(b - a, d) + CutOff(n, d, Largest(a, b))
    ensures a >= 0.0 ==>
              var exact := (b * b * b - a * a * a) / 3.0;
              exact <= Sum(s.server.rets) <= exact + (b - a) * d * d / 6.0 + n as real * (d * (b * b))
  {
    hide Quadrature, Exact, TrapezoidError, CutOff, Largest, Sum, Knot, Reached;
    DistributedMap(Worker, Tiles(a, b, d, n), rets, maxClients, acts, s);
    forall i | 0 <= i < n ensures s.server.rets[i] == Quadrature(Tile(a, b, d, n, i)) {
      assert s.server.rets[i] == Worker(Tiles(a, b, d, n)[i]);
    }
    TotalBound(a, b, d, n, s.server.rets);
    if a >= 0.0 {
      TotalInNumbers(a, b, d, n, s.server.rets);
    }
  }
}
