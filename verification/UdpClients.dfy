/** The UDP client cache: ProxyLoop looks connections up or opens them (getBackendConn, under
    the cache's lock), and one goroutine per opened connection (proxyClient) reads from it,
    then deletes the client's address from the map, then closes the connection. Every locked
    section and every separate effect is one atomic step; a run is any interleaving. */
module UdpClients {
  import opened Basics

  /** Where a proxyClient goroutine is. */
  datatype Phase = Reading | Leaving | Deleted | Closed

  datatype Reader = Reader(addr: string, phase: Phase)

  /** Connections are numbered as they are opened; a reader is known by its connection. */
  datatype State = State(clients: map<string, nat>, readers: map<nat, Reader>, count: nat)

  const INITIAL := State(map[], map[], 0)

  datatype Step =
    | Found(addr: string)             // getBackendConn: the address is in the map
    | ConnectFails(addr: string)      // tryConnect fails
    | DeadlineFails(addr: string)     // connected, but SetDeadline fails: nothing is recorded
    | Opens(addr: string)             // connected: recorded, and its reader started
    | Copies(conn: nat)               // one more round of the read loop
    | LeavesLoop(conn: nat)           // a read, deadline or write error ends the loop
    | Deletes(conn: nat)              // delete(clients, addr), under the lock
    | Closes(conn: nat)               // the deferred Close

  predicate InPhase(st: State, conn: nat, phase: Phase) {
    conn in st.readers && st.readers[conn].phase == phase
  }

  predicate Enabled(st: State, step: Step) {
    match step
    case Found(addr) => addr in st.clients
    case ConnectFails(addr) => addr !in st.clients
    case DeadlineFails(addr) => addr !in st.clients
    case Opens(addr) => addr !in st.clients
    case Copies(conn) => InPhase(st, conn, Reading)
    case LeavesLoop(conn) => InPhase(st, conn, Reading)
    case Deletes(conn) => InPhase(st, conn, Leaving)
    case Closes(conn) => InPhase(st, conn, Deleted)
  }

  function Moved(st: State, conn: nat, phase: Phase): State
    requires conn in st.readers
  {
    st.(readers := st.readers[conn := st.readers[conn].(phase := phase)])
  }

  function Next(st: State, step: Step): State
    requires Enabled(st, step)
  {
    match step
    case Found(_) => st
    case ConnectFails(_) => st
    case DeadlineFails(_) => st.(count := st.count + 1)
    case Opens(addr) => State(st.clients[addr := st.count], st.readers[st.count := Reader(addr, Reading)], st.count + 1)
    case Copies(_) => st
    case LeavesLoop(conn) => Moved(st, conn, Leaving)
    case Deletes(conn) => Moved(st, conn, Deleted).(clients := st.clients - {st.readers[conn].addr})
    case Closes(conn) => Moved(st, conn, Closed)
  }

  /** The states a run goes through. */
  ghost predicate IsRun(states: seq<State>, steps: seq<Step>) {
    && |states| == |steps| + 1 && states[0] == INITIAL
    && forall i :: 0 <= i < |steps| ==> Enabled(states[i], steps[i]) && states[i + 1] == Next(states[i], steps[i])
  }

  /** The reader has not executed its delete yet. */
  predicate Undeleted(st: State, conn: nat) {
    InPhase(st, conn, Reading) || InPhase(st, conn, Leaving)
  }

  ghost predicate Invariant(st: State) {
    && (forall addr :: addr in st.clients ==>
          Undeleted(st, st.clients[addr]) && st.readers[st.clients[addr]].addr == addr)
    && (forall conn :: Undeleted(st, conn) ==>
          st.readers[conn].addr in st.clients && st.clients[st.readers[conn].addr] == conn)
    && (forall conn :: conn in st.readers ==> conn < st.count)
  }

  lemma OpeningKeepsInvariant(st: State, addr: string)
    requires Invariant(st) && Enabled(st, Opens(addr))
    ensures Invariant(Next(st, Opens(addr)))
  {
  }

  lemma DeletingKeepsInvariant(st: State, conn: nat)
    requires Invariant(st) && Enabled(st, Deletes(conn))
    ensures Invariant(Next(st, Deletes(conn)))
  {
  }

  /** A reader that moves on without deleting leaves everything else alone. */
  lemma MovingKeepsInvariant(st: State, conn: nat, phase: Phase)
    requires Invariant(st) && conn in st.readers
    requires (phase == Leaving && InPhase(st, conn, Reading)) || (phase == Closed && InPhase(st, conn, Deleted))
    ensures Invariant(Moved(st, conn, phase))
  {
  }

  lemma StepKeepsInvariant(st: State, step: Step)
    requires Invariant(st) && Enabled(st, step)
    ensures Invariant(Next(st, step))
  {
    match step
    case Deletes(conn) => DeletingKeepsInvariant(st, conn);
    case Opens(addr) => OpeningKeepsInvariant(st, addr);
    case LeavesLoop(conn) => MovingKeepsInvariant(st, conn, Leaving);
    case Closes(conn) => MovingKeepsInvariant(st, conn, Closed);
    case DeadlineFails(_) => assert forall c :: Undeleted(Next(st, step), c) <==> Undeleted(st, c);
    case _ =>
  }

  lemma {:induction false} InvariantInEveryRun(states: seq<State>, steps: seq<Step>, i: nat)
    requires IsRun(states, steps) && i <= |steps|
    ensures Invariant(states[i])
  {
    if i > 0 {
      InvariantInEveryRun(states, steps, i - 1);
      StepKeepsInvariant(states[i - 1], steps[i - 1]);
    }
  }

  /** Under every interleaving: an address is mapped exactly when one reader for it has not
      yet deleted, that reader is the only one, and the map holds its own connection, which
      it has not closed. */
  lemma MappedIffOneReader(states: seq<State>, steps: seq<Step>, i: nat, addr: string)
    requires IsRun(states, steps) && i <= |steps|
    ensures var st := states[i];
      && (addr in st.clients <==> exists conn :: Undeleted(st, conn) && st.readers[conn].addr == addr)
      && (forall conn :: Undeleted(st, conn) && st.readers[conn].addr == addr ==>
            addr in st.clients && st.clients[addr] == conn)
      && (addr in st.clients ==> !InPhase(st, st.clients[addr], Closed) && !InPhase(st, st.clients[addr], Deleted))
  {
    InvariantInEveryRun(states, steps, i);
    var st := states[i];
    if addr in st.clients {
      assert Undeleted(st, st.clients[addr]);
    }
  }

  /** A delete goes by address only, yet it always removes the deleting reader's own
      connection and never a newer one. */
  lemma DeleteRemovesOwnConnection(states: seq<State>, steps: seq<Step>, i: nat)
    requires IsRun(states, steps) && i < |steps| && steps[i].Deletes?
    ensures var conn, before, after := steps[i].conn, states[i].clients, states[i + 1].clients;
      var addr := states[i].readers[conn].addr;
      && addr in before && before[addr] == conn
      && after == before - {addr}
      && forall a :: a in after ==> after[a] == before[a] && after[a] != conn
  {
    InvariantInEveryRun(states, steps, i);
    assert Undeleted(states[i], steps[i].conn);
  }

  /** Once mapped, a connection stays under its address until its own reader deletes it. */
  lemma {:induction false} MappedUntilOwnDelete(states: seq<State>, steps: seq<Step>, i: nat, j: nat, addr: string)
    requires IsRun(states, steps) && i <= j <= |steps| && addr in states[i].clients
    requires forall k :: i <= k < j ==> steps[k] != Deletes(states[i].clients[addr])
    ensures addr in states[j].clients && states[j].clients[addr] == states[i].clients[addr]
    decreases j
  {
    if i < j {
      MappedUntilOwnDelete(states, steps, i, j - 1, addr);
      InvariantInEveryRun(states, steps, j - 1);
      if steps[j - 1].Deletes? {
        DeleteRemovesOwnConnection(states, steps, j - 1);
      }
    }
  }

  // ----- the map and the readers, read off the steps -----

  /** How many connections were made. */
  function Connections(steps: seq<Step>): nat {
    if steps == [] then 0
    else
      var last := steps[|steps| - 1];
      Connections(steps[..|steps| - 1]) + if last.Opens? || last.DeadlineFails? then 1 else 0
  }

  /** The address a connection was opened for, if it was recorded. */
  function OpenedFor(steps: seq<Step>, conn: nat): Option<string> {
    if steps == [] then None
    else
      var before, last := steps[..|steps| - 1], steps[|steps| - 1];
      if last.Opens? && Connections(before) == conn then Some(last.addr) else OpenedFor(before, conn)
  }

  /** The connection opened last for the address, unless its reader has deleted since. */
  function LatestOpen(steps: seq<Step>, addr: string): Option<nat> {
    if steps == [] then None
    else
      var before, last := steps[..|steps| - 1], steps[|steps| - 1];
      if last == Opens(addr) then Some(Connections(before))
      else if last.Deletes? && OpenedFor(before, last.conn) == Some(addr) then None
      else LatestOpen(before, addr)
  }

  /** How far the reader of a connection has come. */
  function Progress(steps: seq<Step>, conn: nat): Phase {
    if steps == [] then Reading
    else
      match steps[|steps| - 1]
      case LeavesLoop(c) => if c == conn then Leaving else Progress(steps[..|steps| - 1], conn)
      case Deletes(c) => if c == conn then Deleted else Progress(steps[..|steps| - 1], conn)
      case Closes(c) => if c == conn then Closed else Progress(steps[..|steps| - 1], conn)
      case _ => Progress(steps[..|steps| - 1], conn)
  }

  /** A connection not yet made has no steps. */
  lemma {:induction false} UnopenedIsUnmoved(states: seq<State>, steps: seq<Step>, i: nat, conn: nat)
    requires IsRun(states, steps) && i <= |steps| && conn >= Connections(steps[..i])
    ensures states[i].count == Connections(steps[..i]) && conn !in states[i].readers
    ensures OpenedFor(steps[..i], conn).None? && Progress(steps[..i], conn) == Reading
  {
    if i > 0 {
      assert steps[..i][..i - 1] == steps[..i - 1];
      UnopenedIsUnmoved(states, steps, i - 1, conn);
    }
  }

  /** Every reader there is was started by the Opens of its connection, for its address, and is as far
      as its own steps so far have taken it; every connection opened has one. */
  lemma {:induction false} ReadersFollowSteps(states: seq<State>, steps: seq<Step>, i: nat, conn: nat)
    requires IsRun(states, steps) && i <= |steps|
    ensures Get(states[i].readers, conn) == match OpenedFor(steps[..i], conn)
                                            case None => None
                                            case Some(addr) => Some(Reader(addr, Progress(steps[..i], conn)))
  {
    if i > 0 {
      var step := steps[i - 1];
      assert steps[..i][..i - 1] == steps[..i - 1];
      ReadersFollowSteps(states, steps, i - 1, conn);
      UnopenedIsUnmoved(states, steps, i - 1, Connections(steps[..i - 1]));
    }
  }

  /** An Opens maps the address to a connection of its own, whose reader starts reading. */
  lemma OpensIsRecorded(states: seq<State>, steps: seq<Step>, i: nat)
    requires IsRun(states, steps) && i < |steps| && steps[i].Opens?
    ensures var addr, c := steps[i].addr, Connections(steps[..i]);
      && states[i + 1].clients == states[i].clients[addr := c]
      && c !in states[i].readers && states[i + 1].readers == states[i].readers[c := Reader(addr, Reading)]
  {
    UnopenedIsUnmoved(states, steps, i, Connections(steps[..i]));
  }

  /** After every run the map is given by the steps alone: an address is mapped exactly while the
      latest Opens of it is later than the latest Deletes of a reader for it, and to that connection. */
  lemma {:induction false} MappedIffLatestOpens(states: seq<State>, steps: seq<Step>, i: nat, addr: string)
    requires IsRun(states, steps) && i <= |steps|
    ensures Get(states[i].clients, addr) == LatestOpen(steps[..i], addr)
  {
    if i > 0 {
      var step := steps[i - 1];
      assert steps[..i][..i - 1] == steps[..i - 1];
      MappedIffLatestOpens(states, steps, i - 1, addr);
      match step
      case Opens(_) => OpensIsRecorded(states, steps, i - 1);
      case Deletes(conn) =>
        ReadersFollowSteps(states, steps, i - 1, conn);
        assert states[i].clients == states[i - 1].clients - {states[i - 1].readers[conn].addr};
      case _ => assert states[i].clients == states[i - 1].clients;
    }
  }

  /** Between two Opens of one address, the reader of the first connection has deleted. */
  lemma DeletedBetweenOpens(states: seq<State>, steps: seq<Step>, i: nat, j: nat, addr: string)
    requires IsRun(states, steps) && i < j < |steps| && steps[i] == steps[j] == Opens(addr)
    ensures exists k :: i < k < j && steps[k] == Deletes(Connections(steps[..i]))
  {
    OpensIsRecorded(states, steps, i);
    assert Enabled(states[j], steps[j]) && addr !in states[j].clients;
    if forall k :: i < k < j ==> steps[k] != Deletes(Connections(steps[..i])) {
      MappedUntilOwnDelete(states, steps, i + 1, j, addr);
    }
  }

  /** A reader closes its connection after its delete, and only once. */
  lemma ClosesOnceAfterDelete(states: seq<State>, steps: seq<Step>, i: nat)
    requires IsRun(states, steps) && i < |steps| && steps[i].Closes?
    ensures exists k :: 0 <= k < i && steps[k] == Deletes(steps[i].conn)
    ensures forall k :: 0 <= k < |steps| && steps[k] == steps[i] ==> k == i
  {
    var conn := steps[i].conn;
    ReadersFollowSteps(states, steps, i, conn);
    DeletedByStep(steps[..i], conn);
    var k :| 0 <= k < |steps[..i]| && steps[..i][k] == Deletes(conn);
    assert steps[k] == Deletes(conn);
    forall k | 0 <= k < |steps| && steps[k] == steps[i] ensures k == i {
      if k < i {
        ClosedStaysClosed(states, steps, k, i);
      } else if i < k {
        ClosedStaysClosed(states, steps, i, k);
      }
    }
  }

  lemma {:induction false} DeletedByStep(steps: seq<Step>, conn: nat)
    requires Progress(steps, conn) == Deleted
    ensures exists k :: 0 <= k < |steps| && steps[k] == Deletes(conn)
  {
    var before := steps[..|steps| - 1];
    if steps[|steps| - 1] != Deletes(conn) {
      DeletedByStep(before, conn);
      var k :| 0 <= k < |before| && before[k] == Deletes(conn);
      assert steps[k] == Deletes(conn);
    }
  }

  lemma {:induction false} ClosedStaysClosed(states: seq<State>, steps: seq<Step>, i: nat, j: nat)
    requires IsRun(states, steps) && i < j <= |steps| && steps[i].Closes?
    ensures InPhase(states[j], steps[i].conn, Closed)
    decreases j
  {
    if i + 1 < j {
      ClosedStaysClosed(states, steps, i, j - 1);
      UnopenedIsUnmoved(states, steps, j - 1, Connections(steps[..j - 1]));
    }
  }
}
