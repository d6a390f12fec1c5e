/** tryConnect: up to four dials, each to the next endpoint of the balancer. */
module Connecting {
  import opened Balancer
  import opened BalancerRuns

  /** endpointDialTimeout, in milliseconds: its length bounds the number of dials. */
  const DIAL_TIMEOUTS := [250, 500, 1000, 2000]

  /** What net.DialTimeout may come back with. */
  datatype Dial = Up | Down | TooManyFiles

  datatype Attempt = Attempt(protocol: string, endpoint: string, timeout: int, outcome: Dial)

  /** The network, which remembers every dial and how it went. */
  class Dialer {
    ghost var log: seq<Attempt>

    constructor ()
      ensures log == []
    {
      log := [];
    }

    /** net.DialTimeout */
    method DialTimeout(protocol: string, endpoint: string, timeout: int) returns (outcome: Dial)
      modifies this
      ensures log == old(log) + [Attempt(protocol, endpoint, timeout, outcome)]
    {
      outcome := *;
      log := log + [Attempt(protocol, endpoint, timeout, outcome)];
    }
  }

  datatype Outcome =
    | Connected(endpoint: string)
    | BalancerFailed(error: NextResult)
    | AllDialsFailed
    | Panicked

  predicate Servable(t: Table, name: ServicePortName) {
    name in t && t[name].Valid() && t[name].endpoints != []
  }

  /** Dials in rotation, with growing timeouts, of which all but the last failed. */
  ghost predicate DialsInTurn(e: Entry, protocol: string, attempts: seq<Attempt>)
    requires e.index < |e.endpoints|
  {
    && |attempts| <= 4
    && forall i :: 0 <= i < |attempts| ==>
         && attempts[i].endpoint == e.endpoints[Rotation(e.index, |e.endpoints|, i)]
         && attempts[i].protocol == protocol && attempts[i].timeout == [250, 500, 1000, 2000][i]
         && (i < |attempts| - 1 ==> attempts[i].outcome == Down)
  }

  /** Whether the outcome is what the last dial means for the connection. */
  predicate Concludes(last: Attempt, outcome: Outcome) {
    && (outcome.Connected? <==> last.outcome == Up) && (outcome.Connected? ==> outcome.endpoint == last.endpoint)
    && (outcome.Panicked? <==> last.outcome == TooManyFiles)
    && (outcome.AllDialsFailed? <==> last.outcome == Down)
  }

  /** What the dials and the outcome of a connection have to do with the list and its position. */
  ghost predicate Tried(t: Table, name: ServicePortName, protocol: string, attempts: seq<Attempt>, outcome: Outcome,
                        t': Table) {
    Servable(t, name) && attempts != [] &&
    var e := t[name];
    && DialsInTurn(e, protocol, attempts) && Concludes(attempts[|attempts| - 1], outcome)
    && t' == t[name := Entry(e.endpoints, Rotation(e.index, |e.endpoints|, |attempts|))]
    && (outcome.AllDialsFailed? ==> |attempts| == 4 && TriedEnough(e, attempts))
  }

  method TryConnect(lb: LoadBalancerRR, dialer: Dialer, name: ServicePortName, protocol: string)
    returns (outcome: Outcome)
    requires lb.Valid()
    modifies lb.Repr, dialer
    ensures lb.Valid() && old(dialer.log) <= dialer.log
    ensures outcome.BalancerFailed? <==> name !in old(lb.View()) || old(lb.View())[name].endpoints == []
    ensures outcome.BalancerFailed? ==>
      && dialer.log == old(dialer.log) && lb.View() == old(lb.View())
      && outcome.error == Upcoming(old(lb.View()), name)
    ensures !outcome.BalancerFailed? ==>
      Tried(old(lb.View()), name, protocol, dialer.log[|old(dialer.log)|..], outcome, lb.View())
  {
    ghost var before, logged, attempts := lb.View(), dialer.log, [];
    assert name in before ==> before[name] == lb.services[name].View();
    for i := 0 to |DIAL_TIMEOUTS|
      invariant lb.Valid() && |attempts| == i && dialer.log == logged + attempts
      invariant Trying(before, name, protocol, attempts, lb.View())
    {
      outcome, attempts := TryOnce(lb, dialer, name, protocol, i, before, logged, attempts);
      if !outcome.AllDialsFailed? {
        SinceLogged(logged, attempts);
        return;
      }
    }
    GivingUp(before, name, protocol, attempts, lb.View());
    SinceLogged(logged, attempts);
    outcome := AllDialsFailed;
  }

  /** One turn of the loop: AllDialsFailed here means that the next one is to come. */
  method TryOnce(lb: LoadBalancerRR, dialer: Dialer, name: ServicePortName, protocol: string, i: nat, ghost t: Table,
                 ghost logged: seq<Attempt>, ghost attempts: seq<Attempt>)
    returns (outcome: Outcome, ghost attempts': seq<Attempt>)
    requires lb.Valid() && i < |DIAL_TIMEOUTS| && |attempts| == i && dialer.log == logged + attempts
    requires Trying(t, name, protocol, attempts, lb.View()) && (name in t ==> t[name].Valid())
    modifies lb.Repr, dialer
    ensures lb.Valid() && dialer.log == logged + attempts'
    ensures outcome.BalancerFailed? <==> !Servable(t, name)
    ensures !outcome.BalancerFailed? ==> |attempts'| == i + 1
    ensures outcome.BalancerFailed? ==>
      attempts' == attempts && lb.View() == old(lb.View()) && outcome.error == Upcoming(t, name)
    ensures outcome.AllDialsFailed? ==> Trying(t, name, protocol, attempts', lb.View())
    ensures outcome.Connected? || outcome.Panicked? ==> Tried(t, name, protocol, attempts', outcome, lb.View())
  {
    attempts' := attempts;
    NextDial(t, name, i);
    var next, dial := NextDialled(lb, dialer, name, protocol, DIAL_TIMEOUTS[i]);
    if !next.Next? {
      return BalancerFailed(next), attempts;
    }
    ghost var attempt := Attempt(protocol, next.endpoint, DIAL_TIMEOUTS[i], dial);
    OneMoreDial(t, name, protocol, attempts, attempt, lb.View());
    attempts' := attempts + [attempt];
    match dial {
      case Up => outcome := Connected(next.endpoint);
      case TooManyFiles => outcome := Panicked;
      case Down => outcome := AllDialsFailed;
    }
  }

  lemma SinceLogged(logged: seq<Attempt>, attempts: seq<Attempt>)
    ensures logged <= logged + attempts && (logged + attempts)[|logged|..] == attempts
  {
  }

  lemma GivingUp(t: Table, name: ServicePortName, protocol: string, attempts: seq<Attempt>, t': Table)
    requires Trying(t, name, protocol, attempts, t') && |attempts| == 4
    ensures Tried(t, name, protocol, attempts, AllDialsFailed, t')
  {
    FailureTriesEnough(t[name], protocol, attempts);
  }

  /** So far every dial has failed. */
  ghost predicate Trying(t: Table, name: ServicePortName, protocol: string, attempts: seq<Attempt>, t': Table) {
    && t' == AfterDials(t, name, |attempts|)
    && (attempts != [] ==> Servable(t, name))
    && (Servable(t, name) ==> DialsInTurn(t[name], protocol, attempts))
    && forall i :: 0 <= i < |attempts| ==> attempts[i].outcome == Down
  }

  lemma OneMoreDial(t: Table, name: ServicePortName, protocol: string, attempts: seq<Attempt>, attempt: Attempt,
                    t': Table)
    requires |attempts| < |DIAL_TIMEOUTS| && Servable(t, name)
    requires Trying(t, name, protocol, attempts, AfterDials(t, name, |attempts|))
    requires var e, i := t[name], |attempts|;
      && attempt.protocol == protocol && attempt.timeout == DIAL_TIMEOUTS[i]
      && attempt.endpoint == e.endpoints[Rotation(e.index, |e.endpoints|, i)]
    requires t' == AfterDials(t, name, |attempts| + 1)
    ensures attempt.outcome == Down ==> Trying(t, name, protocol, attempts + [attempt], t')
    ensures forall outcome :: attempt.outcome != Down && Concludes(attempt, outcome) ==>
      Tried(t, name, protocol, attempts + [attempt], outcome, t')
  {
  }

  /** The dial of one turn, to the next endpoint if there is one. */
  method NextDialled(lb: LoadBalancerRR, dialer: Dialer, name: ServicePortName, protocol: string, timeout: int)
    returns (next: NextResult, dial: Dial)
    requires lb.Valid()
    modifies lb.Repr, dialer
    ensures lb.Valid() && next == Upcoming(old(lb.View()), name) && lb.View() == Advance(old(lb.View()), name)
    ensures dialer.log ==
      old(dialer.log) + if next.Next? then [Attempt(protocol, next.endpoint, timeout, dial)] else []
  {
    dial := Down;
    next := lb.NextEndpoint(name);
    assert unchanged(dialer);
    label balanced:
    if next.Next? {
      dial := dialer.DialTimeout(protocol, next.endpoint, timeout);
    }
    assert unchanged@balanced(lb) && unchanged@balanced(lb.Repr);
  }

  /** The table after some number of NextEndpoint calls. */
  ghost function AfterDials(t: Table, name: ServicePortName, m: nat): Table {
    if !Servable(t, name) then t
    else t[name := Entry(t[name].endpoints, Rotation(t[name].index, |t[name].endpoints|, m))]
  }

  lemma NextDial(t: Table, name: ServicePortName, m: nat)
    ensures AfterDials(t, name, 0) == t
    ensures name in t ==> t[name].Valid() ==> AfterDials(t, name, m + 1) == Advance(AfterDials(t, name, m), name)
    ensures Upcoming(AfterDials(t, name, m), name) ==
      if !Servable(t, name) then Upcoming(t, name)
      else Next(t[name].endpoints[Rotation(t[name].index, |t[name].endpoints|, m)])
  {
    if Servable(t, name) {
      RotationAdvances(t[name].index, |t[name].endpoints|, m);
    }
  }

  // ----- what a failure means -----

  /** The endpoints whose dials failed, in order. */
  function FailedEndpoints(attempts: seq<Attempt>): seq<string> {
    if attempts == [] then []
    else
      var last := attempts[|attempts| - 1];
      FailedEndpoints(attempts[..|attempts| - 1]) + if last.outcome == Down then [last.endpoint] else []
  }

  /** Up to four endpoints all failed at least once; of more, no position was dialled twice. */
  ghost predicate TriedEnough(e: Entry, attempts: seq<Attempt>) {
    var failed := multiset(FailedEndpoints(attempts));
    && |failed| == 4
    && (|e.endpoints| <= 4 ==> multiset(e.endpoints) <= failed)
    && (|e.endpoints| >= 4 ==> failed <= multiset(e.endpoints))
  }

  /** The list as round-robin goes through it. */
  function FromIndex(e: Entry): seq<string>
    requires e.index < |e.endpoints|
  {
    e.endpoints[e.index..] + e.endpoints[..e.index]
  }

  lemma FirstRound(start: nat, n: nat, steps: nat)
    requires start < n && steps < n
    ensures Rotation(start, n, steps) == if start + steps < n then start + steps else start + steps - n
  {
    assert steps % n == steps;
  }

  lemma FromIndexRotates(e: Entry)
    requires e.index < |e.endpoints|
    ensures |FromIndex(e)| == |e.endpoints|
    ensures forall j :: 0 <= j < |e.endpoints| ==>
      FromIndex(e)[j] == e.endpoints[Rotation(e.index, |e.endpoints|, j)]
  {
    forall j | 0 <= j < |e.endpoints|
      ensures FromIndex(e)[j] == e.endpoints[Rotation(e.index, |e.endpoints|, j)]
    {
      FirstRound(e.index, |e.endpoints|, j);
    }
  }

  lemma FromIndexPermutes(e: Entry)
    requires e.index < |e.endpoints|
    ensures multiset(FromIndex(e)) == multiset(e.endpoints)
  {
    assert e.endpoints == e.endpoints[..e.index] + e.endpoints[e.index..];
  }

  lemma PrefixContained(a: seq<string>, b: seq<string>)
    requires |a| <= |b| && forall j :: 0 <= j < |a| ==> a[j] == b[j]
    ensures multiset(a) <= multiset(b)
  {
    assert b == a + b[|a|..];
  }

  lemma {:induction false} FailedInTurn(e: Entry, protocol: string, attempts: seq<Attempt>, m: nat)
    requires e.index < |e.endpoints| && DialsInTurn(e, protocol, attempts) && m <= |attempts|
    requires forall j :: 0 <= j < m ==> attempts[j].outcome == Down
    ensures |FailedEndpoints(attempts[..m])| == m
    ensures forall j :: 0 <= j < m ==>
      FailedEndpoints(attempts[..m])[j] == e.endpoints[Rotation(e.index, |e.endpoints|, j)]
  {
    if m > 0 {
      FailedInTurn(e, protocol, attempts, m - 1);
      assert attempts[..m][..m - 1] == attempts[..m - 1];
    }
  }

  lemma FailedAreListed(e: Entry, protocol: string, attempts: seq<Attempt>)
    requires e.index < |e.endpoints| && DialsInTurn(e, protocol, attempts)
    requires forall i :: 0 <= i < |attempts| ==> attempts[i].outcome == Down
    ensures |FailedEndpoints(attempts)| == |attempts|
    ensures forall j :: 0 <= j < |attempts| && j < |e.endpoints| ==> FailedEndpoints(attempts)[j] == FromIndex(e)[j]
  {
    FailedInTurn(e, protocol, attempts, |attempts|);
    assert attempts[..|attempts|] == attempts;
    FromIndexRotates(e);
  }

  /** A tryConnect that gives up after all its dials has tried every endpoint of a list of at most
      four, each as often as it is listed, and four different positions of a longer one. */
  lemma FailureTriesEnough(e: Entry, protocol: string, attempts: seq<Attempt>)
    requires e.index < |e.endpoints| && DialsInTurn(e, protocol, attempts)
    requires |attempts| == 4 && forall i :: 0 <= i < |attempts| ==> attempts[i].outcome == Down
    ensures TriedEnough(e, attempts)
  {
    FailedAreListed(e, protocol, attempts);
    FromIndexPermutes(e);
    if |e.endpoints| <= 4 {
      PrefixContained(FromIndex(e), FailedEndpoints(attempts));
    }
    if |e.endpoints| >= 4 {
      PrefixContained(FailedEndpoints(attempts), FromIndex(e));
    }
  }
}
