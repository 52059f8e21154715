/**
 * How the Ganglia and HAProxy collectors pick the endpoint they read from.
 * A connection attempt is I/O: its outcome for each endpoint is a parameter.
 */
module Endpoints {
  import opened Strings

  /** What one connection attempt does. */
  datatype Attempt = Connects | IoFails | OtherFails

  /** Where an endpoint selection ends: a socket, or the exception that escapes. */
  datatype Connection = Connected(index: nat) | Failed(index: nat, cause: Attempt) | NoEndpoint(e: Thrown)

  /**
   * Ordered failover (`connect()` of the collectors): the endpoints are tried
   * in list order and the first that connects is used. An `IOException` moves
   * on to the next endpoint unless it came from the last one, where it is
   * rethrown; any other exception escapes at once; an empty list ends in
   * `IllegalStateException`.
   */
  method Failover<E>(endpoints: seq<E>, attempt: E -> Attempt) returns (r: Connection, tried: nat)
    ensures tried <= |endpoints|
    ensures r == NoEndpoint(IllegalState) <==> endpoints == []
    ensures r.NoEndpoint? ==> r == NoEndpoint(IllegalState) && tried == 0
    ensures forall j :: 0 <= j < tried - 1 ==> attempt(endpoints[j]) == IoFails
    ensures r.Connected? ==> r.index == tried - 1 && attempt(endpoints[r.index]) == Connects
    ensures r.Failed? ==> r.index == tried - 1 && attempt(endpoints[r.index]) == r.cause
    ensures r.Failed? ==> r.cause == OtherFails || (r.cause == IoFails && r.index == |endpoints| - 1)
    ensures r == FailoverOutcome(endpoints, attempt)
  {
    tried := 0;
    for i := 0 to |endpoints|
      invariant tried == i
      invariant i > 0 ==> i < |endpoints|
      invariant forall j :: 0 <= j < i ==> attempt(endpoints[j]) == IoFails
    {
      var outcome := attempt(endpoints[i]);
      tried := i + 1;
      if outcome == Connects {
        FailoverOutcomeFrom(endpoints, attempt, 0, i);
        return Connected(i), tried;
      }
      if outcome == OtherFails || i == |endpoints| - 1 {
        FailedFrom(endpoints, attempt, 0, i);
        return Failed(i, outcome), tried;
      }
    }
    return NoEndpoint(IllegalState), tried;
  }

  /** Failover uses the first endpoint that connects, whenever one does before an error escapes. */
  lemma FailoverFindsFirst<E>(endpoints: seq<E>, attempt: E -> Attempt, k: nat)
    requires k < |endpoints| && attempt(endpoints[k]) == Connects
    requires forall j :: 0 <= j < k ==> attempt(endpoints[j]) == IoFails
    ensures FailoverOutcome(endpoints, attempt) == Connected(k)
  {
    FailoverOutcomeFrom(endpoints, attempt, 0, k);
  }

  /** The outcome of `Failover`, as a function, for stating properties over it. */
  function FailoverOutcome<E>(endpoints: seq<E>, attempt: E -> Attempt): Connection
  {
    if endpoints == [] then NoEndpoint(IllegalState) else FailoverFrom(endpoints, attempt, 0)
  }

  function FailoverFrom<E>(endpoints: seq<E>, attempt: E -> Attempt, i: nat): Connection
    requires i < |endpoints|
    decreases |endpoints| - i
  {
    var outcome := attempt(endpoints[i]);
    if outcome == Connects then Connected(i)
    else if outcome == OtherFails || i == |endpoints| - 1 then Failed(i, outcome)
    else FailoverFrom(endpoints, attempt, i + 1)
  }

  lemma {:induction false} FailoverOutcomeFrom<E>(endpoints: seq<E>, attempt: E -> Attempt, i: nat, k: nat)
    requires i <= k < |endpoints| && attempt(endpoints[k]) == Connects
    requires forall j :: i <= j < k ==> attempt(endpoints[j]) == IoFails
    ensures FailoverFrom(endpoints, attempt, i) == Connected(k)
    decreases k - i
  {
    if i < k {
      FailoverOutcomeFrom(endpoints, attempt, i + 1, k);
    }
  }

  lemma {:induction false} FailedFrom<E>(endpoints: seq<E>, attempt: E -> Attempt, i: nat, k: nat)
    requires i <= k < |endpoints| && attempt(endpoints[k]) != Connects
    requires attempt(endpoints[k]) == OtherFails || k == |endpoints| - 1
    requires forall j :: i <= j < k ==> attempt(endpoints[j]) == IoFails
    ensures FailoverFrom(endpoints, attempt, i) == Failed(k, attempt(endpoints[k]))
    decreases k - i
  {
    if i < k {
      FailedFrom(endpoints, attempt, i + 1, k);
    }
  }

  /**
   * The Ganglia exporter's `export`: only the first configured endpoint is
   * used and whatever its connection throws escapes; an empty list ends in
   * `NoSuchElementException` from `first()`.
   */
  function FirstOnly<E>(endpoints: seq<E>, attempt: E -> Attempt): (r: Connection)
    ensures endpoints == [] <==> r.NoEndpoint?
    ensures r.Connected? || r.Failed? ==> r.index == 0
    ensures r.NoEndpoint? ==> r.e == NoSuchElement
  {
    if endpoints == [] then NoEndpoint(NoSuchElement)
    else if attempt(endpoints[0]) == Connects then Connected(0)
    else Failed(0, attempt(endpoints[0]))
  }

  /** With a reachable first endpoint, failover and the first-only exporter agree. */
  lemma FirstReachableAgrees<E>(endpoints: seq<E>, attempt: E -> Attempt)
    requires endpoints != [] && attempt(endpoints[0]) == Connects
    ensures FirstOnly(endpoints, attempt) == FailoverOutcome(endpoints, attempt) == Connected(0)
  {
  }

  /**
   * The HAProxy exporter's `export`: `configList.map { connect }.last()`. Every
   * endpoint is attempted in order and only the last outcome is kept, so the
   * last endpoint's `IOException` is thrown even when an earlier one
   * connected; a non-I/O exception escapes from the `map` at once; an empty
   * list ends in `NoSuchElementException` from `last()`. `connectedAt` lists the
   * endpoints that connected, every one of them but a kept last one is never
   * closed.
   */
  method KeepLast<E>(endpoints: seq<E>, attempt: E -> Attempt) returns (r: Connection, connectedAt: seq<nat>)
    ensures endpoints == [] ==> r == NoEndpoint(NoSuchElement)
    ensures (forall j :: 0 <= j < |endpoints| ==> attempt(endpoints[j]) != OtherFails) ==>
              r == KeepLastOutcome(endpoints, attempt)
    ensures r.Failed? && r.cause == OtherFails ==>
              r.index < |endpoints| && attempt(endpoints[r.index]) == OtherFails
              && forall j :: 0 <= j < r.index ==> attempt(endpoints[j]) != OtherFails
    ensures forall j :: j in connectedAt <==>
              (0 <= j < |endpoints| && attempt(endpoints[j]) == Connects && (r.Failed? && r.cause == OtherFails ==> j < r.index))
  {
    if endpoints == [] {
      return NoEndpoint(NoSuchElement), [];
    }
    connectedAt := [];
    var last := Failed(0, IoFails);
    for i := 0 to |endpoints|
      invariant forall j :: 0 <= j < i ==> attempt(endpoints[j]) != OtherFails
      invariant forall j :: j in connectedAt <==> 0 <= j < i && attempt(endpoints[j]) == Connects
      invariant i > 0 ==> last == (if attempt(endpoints[i - 1]) == Connects then Connected(i - 1) else Failed(i - 1, IoFails))
    {
      var outcome := attempt(endpoints[i]);
      if outcome == OtherFails {
        return Failed(i, OtherFails), connectedAt;
      }
      if outcome == Connects {
        connectedAt := connectedAt + [i];
        last := Connected(i);
      } else {
        last := Failed(i, IoFails);
      }
    }
    r := last;
  }

  /**
   * Where the first endpoint connects and the last does not, failover uses
   * the first while keep-last throws the last endpoint's `IOException`.
   */
  lemma KeepLastLosesReachable<E>(endpoints: seq<E>, attempt: E -> Attempt)
    requires |endpoints| >= 2 && attempt(endpoints[0]) == Connects && attempt(endpoints[|endpoints| - 1]) == IoFails
    ensures FailoverOutcome(endpoints, attempt) == Connected(0)
    ensures KeepLastOutcome(endpoints, attempt) == Failed(|endpoints| - 1, IoFails)
  {
  }

  /** The outcome of `KeepLast` when no attempt throws anything but an `IOException`. */
  function KeepLastOutcome<E>(endpoints: seq<E>, attempt: E -> Attempt): Connection
  {
    if endpoints == [] then NoEndpoint(NoSuchElement)
    else if attempt(endpoints[|endpoints| - 1]) == Connects then Connected(|endpoints| - 1)
    else Failed(|endpoints| - 1, IoFails)
  }
}
