/**
 The daemon loop of `threaded_server` (src/threaded_server.c) as a deterministic state
 machine. Accepting a connection and spawning its worker thread are abstracted into one
 input per iteration, an `Outcome`; what remains is the slot offset arithmetic, the
 retry-the-same-slot rule on denial, the error budget and the sockets released.
 */
module ThreadedServer {
  import opened Maybe
  import opened Contexts

  /** `nb_authorised_errors` starts at 50. */
  const InitialBudget: nat := 50

  /** `count`, `offset` and `nb_cnx` are `unsigned int`. */
  const UIntRange: nat := 0x1_0000_0000

  /** What one iteration observes from `ipc_accept_connection` and `pthread_create`. */
  datatype Outcome =
    | Denied                      // no connection, or the peer was not authorised
    | SpawnFailed(socket: Socket) // accepted, but the worker thread could not be created
    | Spawned(socket: Socket)     // accepted and handed to a new worker thread

  /** The outcomes that cost one unit of the error budget. */
  predicate IsFailure(o: Outcome) {
    !o.Spawned?
  }

  /** An entry of `client_ctx`: never written, pointing at a live context, or pointing at a freed one. */
  datatype Slot = Unset | Holds(ctx: ThreadContext) | Released

  /** The loop's variables, plus the sockets released so far (in order). */
  datatype Loop = Loop(count: nat, budget: nat, slots: seq<Slot>, freed: seq<Socket>)

  predicate Valid(nb: nat, s: Loop) {
    0 < nb < UIntRange && s.count < UIntRange && |s.slots| == nb
  }

  /** The state on entry to the `while`: no connection counted, full budget, fresh slot array. */
  function Start(nb: nat): (s: Loop)
    requires 0 < nb < UIntRange
    ensures Valid(nb, s)
    ensures s.count == 0 && s.budget == InitialBudget && s.freed == []
    ensures forall i :: 0 <= i < nb ==> s.slots[i] == Unset
  {
    Loop(0, InitialBudget, seq(nb, _ => Unset), [])
  }

  /** `count++` on an `unsigned int`. */
  function Increment(c: nat): (r: nat)
    requires c < UIntRange
    ensures r < UIntRange
    ensures c + 1 < UIntRange ==> r == c + 1
    ensures c + 1 == UIntRange ==> r == 0
  {
    (c + 1) % UIntRange
  }

  /** `count--` on an `unsigned int`. */
  function Decrement(c: nat): (r: nat)
    requires c < UIntRange
    ensures r < UIntRange
    ensures Increment(r) == c
  {
    (c + UIntRange - 1) % UIntRange
  }

  /** The slot an iteration uses: `count % nb_cnx`, taken before the increment. */
  function Offset(nb: nat, count: nat): (off: nat)
    requires nb > 0
    ensures off < nb
  {
    count % nb
  }

  /** One iteration of the loop body, entered only while the budget is not exhausted. */
  function Step(server: ServerContext, nb: nat, s: Loop, outcome: Outcome): (r: Loop)
    requires Valid(nb, s) && s.budget > 0
    ensures Valid(nb, r)
  {
    var off := Offset(nb, s.count);
    var count := Increment(s.count);
    var ctx := MakeThreadContext(None, server);
    match outcome
    case Denied =>
      Loop(Decrement(count), s.budget - 1, s.slots[off := Released], s.freed + FreeThreadContext(ctx))
    case SpawnFailed(socket) =>
      Loop(count, s.budget - 1, s.slots[off := Released],
           s.freed + FreeThreadContext(ctx.(socket := Some(socket))))
    case Spawned(socket) =>
      Loop(count, s.budget, s.slots[off := Holds(ctx.(socket := Some(socket)))], s.freed)
  }

  /** A finished run: the last state, the offset each iteration used, and how many outcomes it consumed. */
  datatype Trace = Trace(final: Loop, offsets: seq<nat>, consumed: nat)

  /**
   The loop driven by a finite sequence of outcomes: it iterates while the budget is not
   zero and outcomes remain (with no outcome left, the daemon would be blocked in accept).
   */
  function Run(server: ServerContext, nb: nat, s: Loop, outcomes: seq<Outcome>): (t: Trace)
    requires Valid(nb, s)
    ensures Valid(nb, t.final)
    ensures t.consumed == |t.offsets| <= |outcomes|
    ensures forall i :: 0 <= i < |t.offsets| ==> t.offsets[i] < nb
    ensures t.final.budget <= s.budget
    ensures t.final.budget == 0 || t.consumed == |outcomes|
    decreases |outcomes|
  {
    if s.budget == 0 || |outcomes| == 0 then Trace(s, [], 0)
    else
      var t := Run(server, nb, Step(server, nb, s, outcomes[0]), outcomes[1..]);
      Trace(t.final, [Offset(nb, s.count)] + t.offsets, t.consumed + 1)
  }

  /** A run with budget and outcomes left is one iteration followed by the run from there. */
  lemma RunUnfold(server: ServerContext, nb: nat, s: Loop, outcomes: seq<Outcome>)
    requires Valid(nb, s) && s.budget > 0 && |outcomes| > 0
    ensures var rest := Run(server, nb, Step(server, nb, s, outcomes[0]), outcomes[1..]);
      Run(server, nb, s, outcomes) == Trace(rest.final, [Offset(nb, s.count)] + rest.offsets, rest.consumed + 1)
  {
  }

  /**
   One more iteration keeps the split of a whole run into the offsets already used and
   the run of the remaining outcomes.
   */
  lemma RunAdvance(server: ServerContext, nb: nat, s: Loop, outcomes: seq<Outcome>, i: nat, whole: Trace, offsets: seq<nat>)
    requires Valid(nb, s) && s.budget > 0 && i < |outcomes|
    requires var rest := Run(server, nb, s, outcomes[i..]);
      whole == Trace(rest.final, offsets + rest.offsets, i + rest.consumed)
    ensures var rest := Run(server, nb, Step(server, nb, s, outcomes[i]), outcomes[i + 1..]);
      whole == Trace(rest.final, (offsets + [Offset(nb, s.count)]) + rest.offsets, i + 1 + rest.consumed)
  {
    assert outcomes[i..][0] == outcomes[i] && outcomes[i..][1..] == outcomes[i + 1..];
    var rest := Run(server, nb, Step(server, nb, s, outcomes[i]), outcomes[i + 1..]);
    assert Run(server, nb, s, outcomes[i..]).offsets == [Offset(nb, s.count)] + rest.offsets;
    assert offsets + ([Offset(nb, s.count)] + rest.offsets) == (offsets + [Offset(nb, s.count)]) + rest.offsets;
  }

  /** The body of the `while` loop, written as statements over the loop's variables. */
  method Iteration(server: ServerContext, nb: nat, s: Loop, outcome: Outcome) returns (offset: nat, r: Loop)
    requires Valid(nb, s) && s.budget > 0
    ensures offset == Offset(nb, s.count)
    ensures r == Step(server, nb, s, outcome)
  {
    var count, budget, slots, freed := s.count, s.budget, s.slots, s.freed;
    offset := count % nb;
    count := Increment(count);
    slots := slots[offset := Holds(MakeThreadContext(None, server))];
    match outcome {
      case Denied =>
        count := Decrement(count);
        budget := budget - 1;
        freed := freed + FreeThreadContext(slots[offset].ctx);
        slots := slots[offset := Released];
      case SpawnFailed(socket) =>
        slots := slots[offset := Holds(slots[offset].ctx.(socket := Some(socket)))];
        freed := freed + FreeThreadContext(slots[offset].ctx);
        slots := slots[offset := Released];
        budget := budget - 1;
      case Spawned(socket) =>
        slots := slots[offset := Holds(slots[offset].ctx.(socket := Some(socket)))];
    }
    r := Loop(count, budget, slots, freed);
  }

  /** `threaded_server(ctx, nb_cnx)`: the `while (nb_authorised_errors)` loop over the outcomes. */
  method ThreadedServerLoop(server: ServerContext, nb: nat, outcomes: seq<Outcome>) returns (t: Trace)
    requires 0 < nb < UIntRange
    ensures t == Run(server, nb, Start(nb), outcomes)
  {
    var s := Start(nb);
    var offsets: seq<nat> := [];
    var i := 0;
    while s.budget != 0 && i < |outcomes|
      invariant 0 <= i <= |outcomes|
      invariant Valid(nb, s)
      invariant |offsets| == i
      invariant var rest := Run(server, nb, s, outcomes[i..]);
        Run(server, nb, Start(nb), outcomes) == Trace(rest.final, offsets + rest.offsets, i + rest.consumed)
      decreases |outcomes| - i
    {
      RunAdvance(server, nb, s, outcomes, i, Run(server, nb, Start(nb), outcomes), offsets);
      var offset;
      offset, s := Iteration(server, nb, s, outcomes[i]);
      offsets := offsets + [offset];
      i := i + 1;
    }
    assert offsets + [] == offsets;
    t := Trace(s, offsets, i);
  }
}
