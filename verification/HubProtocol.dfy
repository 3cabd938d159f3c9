/**
 The hub as goroutines share it: one dispatches frames, snapshotting the
 clients of each and then writing to them one by one, while others connect,
 fail and are dropped. A client is an index into `clients`.
 */
module HubProtocol {
  import opened Wrappers
  import opened AccessPolicies
  import opened Hubs
  import Runs

  /** `since` is how many frames had been snapshotted when the client registered. */
  datatype ClientState = ClientState(principal: Principal, since: nat, registered: bool, open: bool,
                                     received: seq<Frame>)

  datatype Sending = Sending(frame: Frame, todo: set<nat>)

  datatype State = State(clients: seq<ClientState>, log: seq<Frame>, sending: Option<Sending>)

  datatype Action =
    | Register(p: Principal)
    | Snapshot(f: Frame)
    | Write(c: nat)
    | FinishDispatch
    | Break(c: nat)       // the peer goes away, or the session timer closes the connection
    | Disconnect(c: nat)  // the read loop ends

  const START := State([], [], None)

  ghost function Step(s: State, a: Action): State
  {
    match a
    case Register(p) => s.(clients := s.clients + [ClientState(p, |s.log|, true, true, [])])
    case Snapshot(f) =>
      if s.sending.Some? then s
      else s.(log := s.log + [f], sending := Some(Sending(f, set c | 0 <= c < |s.clients| && s.clients[c].registered)))
    case Write(c) =>
      if s.sending.None? || c !in s.sending.value.todo || c >= |s.clients| then s
      else s.(clients := s.clients[c := Written(s.clients[c], s.sending.value.frame)],
              sending := Some(s.sending.value.(todo := s.sending.value.todo - {c})))
    case FinishDispatch => if s.sending.Some? && s.sending.value.todo == {} then s.(sending := None) else s
    case Break(c) => if c < |s.clients| then s.(clients := s.clients[c := s.clients[c].(open := false)]) else s
    case Disconnect(c) =>
      if c < |s.clients| then s.(clients := s.clients[c := s.clients[c].(open := false, registered := false)]) else s
  }

  /** The policy check and `writeOrDrop`. */
  ghost function Written(c: ClientState, f: Frame): ClientState
  {
    if !Delivers(f, c.principal, true) then c
    else if c.open then c.(received := c.received + [f])
    else c.(registered := false)
  }

  /** How much of the log the hub has offered to a client. */
  function Offered(c: nat, log: seq<Frame>, sending: Option<Sending>): int
  {
    if sending.Some? && c in sending.value.todo then |log| - 1 else |log|
  }

  ghost predicate ClientOk(c: nat, client: ClientState, log: seq<Frame>, sending: Option<Sending>)
  {
    var upTo := Offered(c, log, sending);
    && client.since <= upTo
    && (client.open ==> client.registered)
    && (client.open ==> client.received == Visible(log[client.since..upTo], client.principal, true))
  }

  ghost predicate Inv(s: State)
  {
    && (s.sending.Some? ==> s.log != [] && s.log[|s.log| - 1] == s.sending.value.frame
                            && forall c :: c in s.sending.value.todo ==> c < |s.clients|)
    && (forall c :: 0 <= c < |s.clients| ==> ClientOk(c, s.clients[c], s.log, s.sending))
  }

  lemma SnapshotKeepsClient(c: nat, client: ClientState, log: seq<Frame>, f: Frame, todo: set<nat>)
    requires ClientOk(c, client, log, None) && (client.registered ==> c in todo)
    ensures ClientOk(c, client, log + [f], Some(Sending(f, todo)))
  {
    assert (log + [f])[client.since..|log|] == log[client.since..|log|];
    hide Visible;
  }

  lemma WriteKeepsClient(c: nat, client: ClientState, log: seq<Frame>, sending: Sending)
    requires ClientOk(c, client, log, Some(sending)) && c in sending.todo
    requires log != [] && log[|log| - 1] == sending.frame
    ensures ClientOk(c, Written(client, sending.frame), log, Some(sending.(todo := sending.todo - {c})))
  {
    var n := |log| - 1;
    assert log[client.since..n + 1] == log[client.since..n] + [log[n]];
    VisibleOne(log[client.since..n], log[n], client.principal, true);
    hide Visible, Delivers;
  }

  lemma StepKeepsClient(s: State, a: Action, c: nat)
    requires Inv(s) && c < |Step(s, a).clients|
    ensures var s' := Step(s, a); ClientOk(c, s'.clients[c], s'.log, s'.sending)
  {
    assert c < |s.clients| ==> ClientOk(c, s.clients[c], s.log, s.sending);
    match a
    case Snapshot(f) =>
      if s.sending.None? {
        SnapshotKeepsClient(c, s.clients[c], s.log, f, set i | 0 <= i < |s.clients| && s.clients[i].registered);
      }
      hide ClientOk;
    case Write(w) =>
      if s.sending.Some? && c == w && w in s.sending.value.todo {
        WriteKeepsClient(c, s.clients[c], s.log, s.sending.value);
      }
      hide Written;
    case Register(p) => assert s.log[|s.log|..|s.log|] == []; assert Visible([], p, true) == [];
    case _ => hide Written, Delivers;
  }

  lemma StepKeepsInv(s: State, a: Action)
    requires Inv(s)
    ensures Inv(Step(s, a))
  {
    var s' := Step(s, a);
    forall c | 0 <= c < |s'.clients| ensures ClientOk(c, s'.clients[c], s'.log, s'.sending) {
      StepKeepsClient(s, a, c);
    }
    hide ClientOk, Written;
  }

  lemma RunInv(acts: seq<Action>)
    ensures Inv(Runs.Exec(Step, START, acts))
  {
    forall s, a | Inv(s) ensures Inv(Step(s, a)) {
      StepKeepsInv(s, a);
    }
    hide Step, Runs.Exec;
    Runs.Invariance(Step, Inv, START, acts);
  }

  /**
   A client whose connection still works has got every frame meant for it since it registered, in
   order, and no other.
   */
  lemma ReceivedExactly(acts: seq<Action>, c: nat)
    ensures var s := Runs.Exec(Step, START, acts);
            c < |s.clients| && s.clients[c].open ==>
              var client := s.clients[c];
              && client.registered
              && client.since <= Offered(c, s.log, s.sending)
              && client.received == Visible(s.log[client.since..Offered(c, s.log, s.sending)], client.principal, true)
  {
    RunInv(acts);
    var s := Runs.Exec(Step, START, acts);
    assert c < |s.clients| ==> ClientOk(c, s.clients[c], s.log, s.sending);
    hide Runs.Exec, Step, Visible;
  }

  ghost predicate StillClosed(s: State, c: nat, received: seq<Frame>)
  {
    c < |s.clients| && !s.clients[c].open && s.clients[c].received == received
  }

  lemma StepKeepsClosed(s: State, a: Action, c: nat, received: seq<Frame>)
    requires StillClosed(s, c, received)
    ensures StillClosed(Step(s, a), c, received)
  {
    hide Delivers;
  }

  /** Once its connection is closed or the hub has dropped it, a client is sent nothing more, whatever happens. */
  lemma NothingAfterClose(acts: seq<Action>, more: seq<Action>, c: nat)
    ensures var s, s' := Runs.Exec(Step, START, acts), Runs.Exec(Step, START, acts + more);
            c < |s.clients| && (!s.clients[c].open || !s.clients[c].registered) ==>
                StillClosed(s', c, s.clients[c].received)
  {
    ReceivedExactly(acts, c);
    var s := Runs.Exec(Step, START, acts);
    Runs.Concat(Step, START, acts, more);
    if c < |s.clients| && !s.clients[c].open {
      hide Runs.Exec, Step, StillClosed;
      var inv := (x: State) => StillClosed(x, c, s.clients[c].received);
      forall x, a | inv(x) ensures inv(Step(x, a)) { StepKeepsClosed(x, a, c, s.clients[c].received); }
      Runs.Invariance(Step, inv, s, more);
    }
  }

  /** A dispatch ends once every client in it has been offered the frame, each once. */
  lemma DispatchEnds(s: State, c: nat)
    requires s.sending.Some? && c in s.sending.value.todo && c < |s.clients|
    ensures var s' := Step(s, Write(c));
            && s'.sending == Some(Sending(s.sending.value.frame, s.sending.value.todo - {c}))
            && (s.sending.value.todo == {c} ==> Step(s', FinishDispatch) == s'.(sending := None))
  {
    hide Written;
  }

  /** A connection that breaks takes no more frames; one that ends leaves the hub as well. */
  lemma ConnectionEnds(s: State, c: nat)
    requires c < |s.clients|
    ensures var broken, gone := Step(s, Break(c)), Step(s, Disconnect(c));
            && !broken.clients[c].open && !gone.clients[c].open && !gone.clients[c].registered
            && (forall d :: 0 <= d < |s.clients| && d != c ==>
                  broken.clients[d] == s.clients[d] && gone.clients[d] == s.clients[d])
  {
  }

  /** A client is what it registered as, from the frame that was current then. */
  ghost predicate RegisteredAs(s: State, c: nat, p: Principal, log: seq<Frame>)
  {
    c < |s.clients| && s.clients[c].principal == p && s.clients[c].since == |log| && log <= s.log
  }

  lemma StepKeepsRegistration(s: State, a: Action, c: nat, p: Principal, log: seq<Frame>)
    requires RegisteredAs(s, c, p, log)
    ensures RegisteredAs(Step(s, a), c, p, log)
  {
    hide Delivers;
  }

  /**
   A client that registers as `p` after any schedule and whose connection still works after any more
   has received exactly the frames for `p` dispatched since, in order.
   */
  lemma RegisteredReceives(acts: seq<Action>, p: Principal, more: seq<Action>)
    ensures var s, s' := Runs.Exec(Step, START, acts), Runs.Exec(Step, START, acts + [Register(p)] + more);
            var c := |s.clients|;
            && c < |s'.clients| && s.log <= s'.log
            && (s'.clients[c].open ==>
                  && |s.log| <= Offered(c, s'.log, s'.sending)
                  && s'.clients[c].received ==
                     Visible(s'.log[|s.log|..Offered(c, s'.log, s'.sending)], p, true))
  {
    var s, with := Runs.Exec(Step, START, acts), Runs.Exec(Step, START, acts + [Register(p)]);
    var c := |s.clients|;
    assert (acts + [Register(p)])[..|acts|] == acts;
    Runs.Concat(Step, START, acts + [Register(p)], more);
    assert RegisteredAs(with, c, p, s.log);
    ReceivedExactly(acts + [Register(p)] + more, c);
    hide Runs.Exec, Step, Visible;
    var inv := (x: State) => RegisteredAs(x, c, p, s.log);
    forall x, a | inv(x) ensures inv(Step(x, a)) { StepKeepsRegistration(x, a, c, p, s.log); }
    Runs.Invariance(Step, inv, with, more);
  }

  /**
   When the hub is idle, a dispatched frame is offered to every registered client. One that it is for
   gets it if its connection works, and is dropped if not; nothing happens to any other.
   */
  lemma DispatchReaches(s: State, f: Frame, c: nat)
    requires s.sending.None? && c < |s.clients| && s.clients[c].registered
    ensures var s' := Step(Step(s, Snapshot(f)), Write(c));
            var client, client' := s.clients[c], s'.clients[c];
            var meant := Delivers(f, client.principal, true);
            && s'.log == s.log + [f]
            && client'.received == client.received + (if meant && client.open then [f] else [])
            && client'.registered == (!meant || client.open) && client'.open == client.open
  {
    hide Delivers;
  }
}
