/** The client's tally of results. */
module Metrics {
  datatype Outcome = Outcome(statusCode: int, latency: int, slaBreach: bool)

  datatype Class = Success200 | Pending202 | ClientError | ServerError

  function Classify(statusCode: int): Class {
    if statusCode == 200 then Success200
    else if statusCode == 202 then Pending202
    else if 400 <= statusCode < 500 then ClientError
    else ServerError
  }

  function CountClass(outcomes: seq<Outcome>, c: Class): nat {
    if outcomes == [] then 0
    else
      CountClass(outcomes[..|outcomes| - 1], c) + (if Classify(outcomes[|outcomes| - 1].statusCode) == c then 1 else 0)
  }

  function CountBreaches(outcomes: seq<Outcome>): nat {
    if outcomes == [] then 0
    else CountBreaches(outcomes[..|outcomes| - 1]) + (if outcomes[|outcomes| - 1].slaBreach then 1 else 0)
  }

  /** `history` is every result recorded so far, in order; Valid ties all counters to it. */
  class MetricsTracker {
    var latencies: seq<int>
    var total: nat
    var success200: nat
    var pending202: nat
    var clientErrors: nat
    var serverErrors: nat
    var slaBreaches: nat
    ghost var history: seq<Outcome>

    ghost predicate Valid()
      reads this
    {
      && total == |history| == |latencies|
      && (forall i :: 0 <= i < |history| ==> latencies[i] == history[i].latency)
      && success200 == CountClass(history, Success200)
      && pending202 == CountClass(history, Pending202)
      && clientErrors == CountClass(history, ClientError)
      && serverErrors == CountClass(history, ServerError)
      && slaBreaches == CountBreaches(history)
    }

    constructor ()
      ensures Valid() && history == []
    {
      latencies := [];
      total, success200, pending202, clientErrors, serverErrors, slaBreaches := 0, 0, 0, 0, 0, 0;
      history := [];
    }

    method Record(r: Outcome)
      requires Valid()
      modifies this
      ensures Valid() && history == old(history) + [r]
      ensures total == old(total) + 1 && latencies == old(latencies) + [r.latency]
      ensures success200 == old(success200) + (if r.statusCode == 200 then 1 else 0)
      ensures pending202 == old(pending202) + (if r.statusCode == 202 then 1 else 0)
      ensures clientErrors == old(clientErrors) + (if 400 <= r.statusCode <= 499 then 1 else 0)
      ensures serverErrors == old(serverErrors) + (if r.statusCode in {200, 202} || 400 <= r.statusCode <= 499 then 0 else 1)
      ensures slaBreaches == old(slaBreaches) + (if r.slaBreach then 1 else 0)
    {
      total := total + 1;
      latencies := latencies + [r.latency];
      if r.slaBreach {
        slaBreaches := slaBreaches + 1;
      }
      if r.statusCode == 200 {
        success200 := success200 + 1;
      } else if r.statusCode == 202 {
        pending202 := pending202 + 1;
      } else if r.statusCode >= 400 && r.statusCode < 500 {
        clientErrors := clientErrors + 1;
      } else {
        serverErrors := serverErrors + 1;
      }
      history := history + [r];
      assert history[..|history| - 1] == old(history);
    }
  }

  /** The four status counters always add up to the total, and breaches never exceed it. */
  lemma {:induction false} ClassesPartition(outcomes: seq<Outcome>)
    ensures CountClass(outcomes, Success200) + CountClass(outcomes, Pending202)
      + CountClass(outcomes, ClientError) + CountClass(outcomes, ServerError) == |outcomes|
    ensures CountBreaches(outcomes) <= |outcomes|
  {
    if outcomes != [] {
      ClassesPartition(outcomes[..|outcomes| - 1]);
    }
  }

  /** How many outcomes have a status from `low` to `high`. */
  function CountBetween(outcomes: seq<Outcome>, low: int, high: int): nat {
    if outcomes == [] then 0
    else
      CountBetween(outcomes[..|outcomes| - 1], low, high)
      + (if low <= outcomes[|outcomes| - 1].statusCode <= high then 1 else 0)
  }

  /** What each counter counts over a whole history, by status. */
  lemma {:induction false} ClassesByStatus(outcomes: seq<Outcome>)
    ensures CountClass(outcomes, Success200) == CountBetween(outcomes, 200, 200)
    ensures CountClass(outcomes, Pending202) == CountBetween(outcomes, 202, 202)
    ensures CountClass(outcomes, ClientError) == CountBetween(outcomes, 400, 499)
    ensures CountClass(outcomes, ServerError) == |outcomes|
      - CountBetween(outcomes, 200, 200) - CountBetween(outcomes, 202, 202) - CountBetween(outcomes, 400, 499)
  {
    if outcomes != [] {
      ClassesByStatus(outcomes[..|outcomes| - 1]);
    }
  }
}
