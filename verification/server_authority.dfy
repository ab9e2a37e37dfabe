/** The server's acceptance of a client's move: Server_SendMove_Validate
    (GoKartReplicationComponent.cpp:59-77) and the accounting of
    ClientSimulatedTime that Server_SendMove_Implementation does for every
    accepted move (GoKartReplicationComponent.cpp:223). */
module ServerAuthority {
  import opened KartTypes

  /** The outcome of validation; each rejection is the one the source logs. */
  datatype Verdict = Accepted | ClientRunningTooFast | InvalidMove

  /** Server_SendMove_Validate: the running-ahead check first, then the move's
      own validity, stopping at the first failure. `isValid` stands for
      FGoKartMove::IsValid and `worldTime` for the server's world clock. */
  function Validate(clientSimulatedTime: real, worldTime: real, move: Move, isValid: Move -> bool): (v: Verdict)
    ensures v == Accepted <==> clientSimulatedTime + move.DeltaTime < worldTime && isValid(move)
    ensures v == ClientRunningTooFast <==> clientSimulatedTime + move.DeltaTime >= worldTime
    ensures v == InvalidMove <==> clientSimulatedTime + move.DeltaTime < worldTime && !isValid(move)
  {
    var proposedTime := clientSimulatedTime + move.DeltaTime;
    if !(proposedTime < worldTime) then ClientRunningTooFast
    else if !isValid(move) then InvalidMove
    else Accepted
  }

  /** ClientSimulatedTime after the server has handled `move`: it grows by the
      move's DeltaTime exactly when the move is accepted. */
  function SimulatedTimeAfter(clientSimulatedTime: real, worldTime: real, move: Move, isValid: Move -> bool): (t: real)
    ensures Validate(clientSimulatedTime, worldTime, move, isValid) == Accepted ==> t == clientSimulatedTime + move.DeltaTime && t < worldTime
    ensures Validate(clientSimulatedTime, worldTime, move, isValid) != Accepted ==> t == clientSimulatedTime
  {
    if Validate(clientSimulatedTime, worldTime, move, isValid) == Accepted then clientSimulatedTime + move.DeltaTime
    else clientSimulatedTime
  }

  /** A move as it reaches the server, with the server's world time at arrival. */
  datatype Request = Request(Move: Move, WorldTime: real)

  /** What the server has after a stream of requests: its ClientSimulatedTime
      and the moves it accepted, in arrival order. */
  datatype ServerLog = ServerLog(SimulatedTime: real, Accepted: seq<Move>)

  /** The server handling `requests` in order, starting from `simulatedTime`. */
  function Serve(simulatedTime: real, requests: seq<Request>, isValid: Move -> bool): ServerLog
    decreases |requests|
  {
    if requests == [] then ServerLog(simulatedTime, [])
    else
      var m := requests[0].Move;
      var ok := Validate(simulatedTime, requests[0].WorldTime, m, isValid) == Accepted;
      var rest := Serve(SimulatedTimeAfter(simulatedTime, requests[0].WorldTime, m, isValid), requests[1..], isValid);
      ServerLog(rest.SimulatedTime, (if ok then [m] else []) + rest.Accepted)
  }

  function SumDeltaTimes(moves: seq<Move>): real
  {
    if moves == [] then 0.0 else moves[0].DeltaTime + SumDeltaTimes(moves[1..])
  }

  /** ClientSimulatedTime grows by exactly the DeltaTimes of the accepted moves. */
  lemma {:induction false} ServeAccounting(simulatedTime: real, requests: seq<Request>, isValid: Move -> bool)
    ensures Serve(simulatedTime, requests, isValid).SimulatedTime
            == simulatedTime + SumDeltaTimes(Serve(simulatedTime, requests, isValid).Accepted)
    decreases |requests|
  {
    if requests != [] {
      var m := requests[0].Move;
      var ok := Validate(simulatedTime, requests[0].WorldTime, m, isValid) == Accepted;
      var next := if ok then simulatedTime + m.DeltaTime else simulatedTime;
      ServeAccounting(next, requests[1..], isValid);
      var rest := Serve(next, requests[1..], isValid);
      if ok {
        assert ([m] + rest.Accepted)[1..] == rest.Accepted;
        assert SumDeltaTimes([m] + rest.Accepted) == m.DeltaTime + SumDeltaTimes(rest.Accepted);
      } else {
        assert [] + rest.Accepted == rest.Accepted;
      }
    }
  }

  /** Only moves that pass IsValid are ever accepted. */
  lemma {:induction false} ServeAcceptsOnlyValid(simulatedTime: real, requests: seq<Request>, isValid: Move -> bool, m: Move)
    requires m in Serve(simulatedTime, requests, isValid).Accepted
    ensures isValid(m)
    decreases |requests|
  {
    var m0 := requests[0].Move;
    var ok := Validate(simulatedTime, requests[0].WorldTime, m0, isValid) == Accepted;
    var next := if ok then simulatedTime + m0.DeltaTime else simulatedTime;
    if m in Serve(next, requests[1..], isValid).Accepted {
      ServeAcceptsOnlyValid(next, requests[1..], isValid, m);
    }
  }

  /** The running-ahead check bounds the client: if the server's clock never
      read more than `bound` and the client's time started within it, the
      accumulated ClientSimulatedTime stays within it, whatever DeltaTimes the
      client claims. */
  lemma {:induction false} ServeBounded(simulatedTime: real, requests: seq<Request>, isValid: Move -> bool, bound: real)
    requires simulatedTime <= bound
    requires forall i :: 0 <= i < |requests| ==> requests[i].WorldTime <= bound
    ensures Serve(simulatedTime, requests, isValid).SimulatedTime <= bound
    decreases |requests|
  {
    if requests != [] {
      var m := requests[0].Move;
      var ok := Validate(simulatedTime, requests[0].WorldTime, m, isValid) == Accepted;
      var next := if ok then simulatedTime + m.DeltaTime else simulatedTime;
      assert requests[0].WorldTime <= bound;
      ServeBounded(next, requests[1..], isValid, bound);
    }
  }

  /** A rejected move changes nothing: the server continues as if it never arrived. */
  lemma RejectedIsSkipped(simulatedTime: real, r: Request, requests: seq<Request>, isValid: Move -> bool)
    requires Validate(simulatedTime, r.WorldTime, r.Move, isValid) != Accepted
    ensures Serve(simulatedTime, [r] + requests, isValid) == Serve(simulatedTime, requests, isValid)
  {
    assert ([r] + requests)[1..] == requests;
  }
}
