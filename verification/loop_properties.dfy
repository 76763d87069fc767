/**
 Properties of the `threaded_server` loop: what each kind of iteration does to the
 counter, the budget, the slots and the released sockets; how a whole run accounts for
 its outcomes; when it stops; and the round-robin offsets it uses.
 */
module LoopProperties {
  import opened Maybe
  import opened Contexts
  import opened ThreadedServer

  /** Number of outcomes that cost budget (denials and failed spawns). */
  function Failures(os: seq<Outcome>): (n: nat)
    ensures n <= |os|
    decreases |os|
  {
    if |os| == 0 then 0 else (if IsFailure(os[0]) then 1 else 0) + Failures(os[1..])
  }

  /** Number of outcomes after which `count` keeps its increment (everything but denials). */
  function Advances(os: seq<Outcome>): (n: nat)
    ensures n <= |os|
    decreases |os|
  {
    if |os| == 0 then 0 else (if os[0].Denied? then 0 else 1) + Advances(os[1..])
  }

  /** The sockets of the failed spawns, in order. */
  function FailedSockets(os: seq<Outcome>): (sockets: seq<Socket>)
    ensures |sockets| <= Failures(os)
    decreases |os|
  {
    if |os| == 0 then []
    else (if os[0].SpawnFailed? then [os[0].socket] else []) + FailedSockets(os[1..])
  }

  /** Undoing `count++` with `count--` restores the counter, also across the 32-bit wrap. */
  lemma DecrementAfterIncrement(c: nat)
    requires c < UIntRange
    ensures Decrement(Increment(c)) == c
  {
    if c + 1 == UIntRange {
      assert Increment(c) == 0;
    } else {
      assert Increment(c) == c + 1;
    }
  }

  /** A positive multiple of `n` is at least `n`. */
  lemma {:induction false} MulAtLeast(d: int, n: int)
    requires d >= 1 && n >= 0
    ensures d * n >= n
    decreases d
  {
    if d > 1 {
      MulAtLeast(d - 1, n);
      assert d * n == (d - 1) * n + n;
    }
  }

  /** The remainder is determined by any quotient-remainder decomposition. */
  lemma ModUnique(x: int, n: int, q: int, r: int)
    requires n > 0 && 0 <= r < n && x == q * n + r
    ensures x % n == r
  {
    var q', r' := x / n, x % n;
    assert (q - q') * n == r' - r;
    if q' < q {
      MulAtLeast(q - q', n);
      assert false;
    } else if q < q' {
      MulAtLeast(q' - q, n);
      assert false;
    }
  }

  /** Without a wrap of `count`, the next offset is the following slot, cyclically. */
  lemma OffsetAdvances(nb: nat, c: nat)
    requires 0 < nb && c + 1 < UIntRange
    ensures Offset(nb, Increment(c)) == (Offset(nb, c) + 1) % nb
  {
    var q, r := c / nb, c % nb;
    assert c == q * nb + r;
    if r + 1 < nb {
      ModUnique(c + 1, nb, q, r + 1);
      ModUnique(r + 1, nb, 0, r + 1);
    } else {
      ModUnique(c + 1, nb, q + 1, 0);
      ModUnique(r + 1, nb, 1, 0);
    }
  }

  /**
   A denial returns `count` to its value before the iteration, so the next iteration
   reuses the same offset; it costs one unit of budget, leaves the slot pointing at a freed
   context, releases no socket (the context was built with a NULL socket) and touches no
   other slot.
   */
  lemma DeniedRetriesSameSlot(server: ServerContext, nb: nat, s: Loop)
    requires Valid(nb, s) && s.budget > 0
    ensures var r := Step(server, nb, s, Denied);
      && r.count == s.count
      && Offset(nb, r.count) == Offset(nb, s.count)
      && r.budget == s.budget - 1
      && r.slots[Offset(nb, s.count)] == Released
      && (forall i :: 0 <= i < nb && i != Offset(nb, s.count) ==> r.slots[i] == s.slots[i])
      && r.freed == s.freed
  {
    DecrementAfterIncrement(s.count);
  }

  /**
   A failed spawn costs one unit of budget but keeps the increment of `count`, so the next
   iteration moves on to the next slot; the slot's context is freed together with the
   socket just stored in it, and no other slot changes.
   */
  lemma SpawnFailedAdvances(server: ServerContext, nb: nat, s: Loop, socket: Socket)
    requires Valid(nb, s) && s.budget > 0
    ensures var r := Step(server, nb, s, SpawnFailed(socket));
      && r.count == Increment(s.count)
      && (s.count + 1 < UIntRange ==> Offset(nb, r.count) == (Offset(nb, s.count) + 1) % nb)
      && r.budget == s.budget - 1
      && r.slots[Offset(nb, s.count)] == Released
      && (forall i :: 0 <= i < nb && i != Offset(nb, s.count) ==> r.slots[i] == s.slots[i])
      && r.freed == s.freed + [socket]
  {
    if s.count + 1 < UIntRange {
      OffsetAdvances(nb, s.count);
    }
  }

  /**
   A successful spawn leaves the budget alone and advances `count`; the slot at the offset
   holds a context with the accepted socket and the server's log, and no other slot changes.
   */
  lemma SpawnedFillsSlot(server: ServerContext, nb: nat, s: Loop, socket: Socket)
    requires Valid(nb, s) && s.budget > 0
    ensures var r := Step(server, nb, s, Spawned(socket));
      && r.count == Increment(s.count)
      && (s.count + 1 < UIntRange ==> Offset(nb, r.count) == (Offset(nb, s.count) + 1) % nb)
      && r.budget == s.budget
      && r.slots[Offset(nb, s.count)] == Holds(ThreadContext(Some(socket), server.log))
      && (forall i :: 0 <= i < nb && i != Offset(nb, s.count) ==> r.slots[i] == s.slots[i])
      && r.freed == s.freed
  {
    if s.count + 1 < UIntRange {
      OffsetAdvances(nb, s.count);
    }
  }

  /** The counters of one iteration, as the accounting of a run adds them up. */
  lemma StepAccounting(server: ServerContext, nb: nat, s: Loop, o: Outcome)
    requires Valid(nb, s) && s.budget > 0
    ensures var r := Step(server, nb, s, o);
      && r.budget == s.budget - (if IsFailure(o) then 1 else 0)
      && r.count == (s.count + (if o.Denied? then 0 else 1)) % UIntRange
      && r.freed == s.freed + (if o.SpawnFailed? then [o.socket] else [])
  {
    match o
    case Denied => DeniedRetriesSameSlot(server, nb, s);
    case SpawnFailed(k) => SpawnFailedAdvances(server, nb, s, k);
    case Spawned(k) => SpawnedFillsSlot(server, nb, s, k);
  }

  /** The counts over the first `n + 1` outcomes are those of the first outcome plus those of the next `n`. */
  lemma CountsCons(os: seq<Outcome>, n: nat)
    requires n < |os|
    ensures Failures(os[..n + 1]) == (if IsFailure(os[0]) then 1 else 0) + Failures(os[1..][..n])
    ensures Advances(os[..n + 1]) == (if os[0].Denied? then 0 else 1) + Advances(os[1..][..n])
    ensures FailedSockets(os[..n + 1]) == (if os[0].SpawnFailed? then [os[0].socket] else []) + FailedSockets(os[1..][..n])
  {
    assert os[..n + 1][0] == os[0] && os[..n + 1][1..] == os[1..][..n];
  }

  /**
   Over a run the budget drops by exactly the number of failures consumed: successes
   never restore it.
   */
  lemma {:induction false} RunBudget(server: ServerContext, nb: nat, s: Loop, outcomes: seq<Outcome>)
    requires Valid(nb, s)
    ensures var t := Run(server, nb, s, outcomes);
      && Failures(outcomes[..t.consumed]) <= s.budget
      && t.final.budget == s.budget - Failures(outcomes[..t.consumed])
    decreases |outcomes|
  {
    var t := Run(server, nb, s, outcomes);
    if s.budget == 0 || |outcomes| == 0 {
      assert outcomes[..t.consumed] == [];
    } else {
      var s' := Step(server, nb, s, outcomes[0]);
      RunBudget(server, nb, s', outcomes[1..]);
      StepAccounting(server, nb, s, outcomes[0]);
      RunUnfold(server, nb, s, outcomes);
      CountsCons(outcomes, Run(server, nb, s', outcomes[1..]).consumed);
    }
  }

  /** Over a run `count` grows by the number of non-denied outcomes consumed, modulo 2^32. */
  lemma {:induction false} RunCount(server: ServerContext, nb: nat, s: Loop, outcomes: seq<Outcome>)
    requires Valid(nb, s)
    ensures var t := Run(server, nb, s, outcomes);
      t.final.count == (s.count + Advances(outcomes[..t.consumed])) % UIntRange
    decreases |outcomes|
  {
    var t := Run(server, nb, s, outcomes);
    if s.budget == 0 || |outcomes| == 0 {
      assert outcomes[..t.consumed] == [];
    } else {
      var o := outcomes[0];
      var s' := Step(server, nb, s, o);
      var n := Run(server, nb, s', outcomes[1..]).consumed;
      RunCount(server, nb, s', outcomes[1..]);
      StepAccounting(server, nb, s, o);
      RunUnfold(server, nb, s, outcomes);
      CountsCons(outcomes, n);
      AddMod(s.count, if o.Denied? then 0 else 1, Advances(outcomes[1..][..n]));
    }
  }

  /** The sockets released over a run are exactly those of the failed spawns consumed, in order. */
  lemma {:induction false} RunReleased(server: ServerContext, nb: nat, s: Loop, outcomes: seq<Outcome>)
    requires Valid(nb, s)
    ensures var t := Run(server, nb, s, outcomes);
      t.final.freed == s.freed + FailedSockets(outcomes[..t.consumed])
    decreases |outcomes|
  {
    var t := Run(server, nb, s, outcomes);
    if s.budget == 0 || |outcomes| == 0 {
      assert outcomes[..t.consumed] == [];
      assert s.freed + [] == s.freed;
    } else {
      var s' := Step(server, nb, s, outcomes[0]);
      var n := Run(server, nb, s', outcomes[1..]).consumed;
      RunReleased(server, nb, s', outcomes[1..]);
      StepAccounting(server, nb, s, outcomes[0]);
      RunUnfold(server, nb, s, outcomes);
      CountsCons(outcomes, n);
      assert s.freed + FailedSockets(outcomes[..n + 1])
        == (s.freed + (if outcomes[0].SpawnFailed? then [outcomes[0].socket] else [])) + FailedSockets(outcomes[1..][..n]);
    }
  }

  /** Counting over a longer sequence never counts fewer failures. */
  lemma {:induction false} FailuresOfPrefix(os: seq<Outcome>, k: nat)
    requires k <= |os|
    ensures Failures(os[..k]) <= Failures(os)
    decreases k
  {
    if k > 0 {
      FailuresOfPrefix(os[1..], k - 1);
      assert os[..k][1..] == os[1..][..k - 1];
    }
  }

  /** When a run exhausts the budget, the outcome that did it is a failure. */
  lemma {:induction false} LastConsumedIsFailure(server: ServerContext, nb: nat, s: Loop, outcomes: seq<Outcome>)
    requires Valid(nb, s) && s.budget > 0
    requires Run(server, nb, s, outcomes).final.budget == 0
    ensures Run(server, nb, s, outcomes).consumed > 0
    ensures IsFailure(outcomes[Run(server, nb, s, outcomes).consumed - 1])
    decreases |outcomes|
  {
    var s' := Step(server, nb, s, outcomes[0]);
    if s'.budget > 0 {
      LastConsumedIsFailure(server, nb, s', outcomes[1..]);
    } else {
      assert s'.budget < s.budget;
    }
  }

  /**
   The loop stops exactly at the failure that exhausts the budget, however many successes
   come in between: it stops iff the outcomes hold at least `budget` failures, and then the
   consumed outcomes hold exactly `budget` failures and end with one.
   */
  lemma StopsAtExhaustingFailure(server: ServerContext, nb: nat, s: Loop, outcomes: seq<Outcome>)
    requires Valid(nb, s) && s.budget > 0
    ensures var t := Run(server, nb, s, outcomes);
      && (t.final.budget == 0 <==> Failures(outcomes) >= s.budget)
      && (t.final.budget == 0 ==>
            && Failures(outcomes[..t.consumed]) == s.budget
            && t.consumed > 0
            && IsFailure(outcomes[t.consumed - 1]))
      && (t.final.budget > 0 ==> t.consumed == |outcomes| && t.final.budget == s.budget - Failures(outcomes))
  {
    var t := Run(server, nb, s, outcomes);
    RunBudget(server, nb, s, outcomes);
    FailuresOfPrefix(outcomes, t.consumed);
    if t.final.budget == 0 {
      LastConsumedIsFailure(server, nb, s, outcomes);
    } else {
      assert outcomes[..t.consumed] == outcomes;
    }
  }

  /** From a fresh start the daemon leaves its loop exactly at the 50th cumulative failure. */
  lemma ExitsAtFiftiethFailure(server: ServerContext, nb: nat, outcomes: seq<Outcome>)
    requires 0 < nb < UIntRange
    ensures var t := Run(server, nb, Start(nb), outcomes);
      && (t.final.budget == 0 <==> Failures(outcomes) >= 50)
      && (t.final.budget == 0 ==> Failures(outcomes[..t.consumed]) == 50 && IsFailure(outcomes[t.consumed - 1]))
  {
    StopsAtExhaustingFailure(server, nb, Start(nb), outcomes);
  }

  /** Adding modulo 2^32 in two steps is adding once. */
  lemma AddMod(c: nat, d: nat, e: nat)
    requires c < UIntRange
    ensures ((c + d) % UIntRange + e) % UIntRange == (c + d + e) % UIntRange
  {
    var q, r := (c + d) / UIntRange, (c + d) % UIntRange;
    var q2, r2 := (r + e) / UIntRange, (r + e) % UIntRange;
    assert c + d + e == (q + q2) * UIntRange + r2;
    ModUnique(c + d + e, UIntRange, q + q2, r2);
  }

  /** The counter before iteration `i` of a run, from the counter after its first iteration. */
  lemma CounterShift(c: nat, os: seq<Outcome>, i: nat)
    requires c < UIntRange && 0 < i <= |os|
    ensures ((c + (if os[0].Denied? then 0 else 1)) % UIntRange + Advances(os[1..][..i - 1])) % UIntRange
      == (c + Advances(os[..i])) % UIntRange
  {
    CountsCons(os, i - 1);
    AddMod(c, if os[0].Denied? then 0 else 1, Advances(os[1..][..i - 1]));
  }

  /** An offset of the run after the first iteration, as an offset of the whole run. */
  lemma OffsetShift(nb: nat, c: nat, c': nat, os: seq<Outcome>, i: nat, off: nat)
    requires 0 < nb && c < UIntRange && 0 < i <= |os|
    requires c' == (c + (if os[0].Denied? then 0 else 1)) % UIntRange
    requires off == Offset(nb, (c' + Advances(os[1..][..i - 1])) % UIntRange)
    ensures off == Offset(nb, (c + Advances(os[..i])) % UIntRange)
  {
    CounterShift(c, os, i);
  }

  /** The offsets of a run, from the offset of its first iteration and the offsets of the rest. */
  lemma OffsetsCons(nb: nat, c: nat, c': nat, os: seq<Outcome>, offsets: seq<nat>, rest: seq<nat>)
    requires 0 < nb && c < UIntRange && 0 < |os| && |rest| < |os|
    requires c' == (c + (if os[0].Denied? then 0 else 1)) % UIntRange
    requires offsets == [Offset(nb, c)] + rest
    requires forall j :: 0 <= j < |rest| ==> rest[j] == Offset(nb, (c' + Advances(os[1..][..j])) % UIntRange)
    ensures forall i :: 0 <= i < |offsets| ==> offsets[i] == Offset(nb, (c + Advances(os[..i])) % UIntRange)
  {
    forall i | 0 <= i < |offsets|
      ensures offsets[i] == Offset(nb, (c + Advances(os[..i])) % UIntRange)
    {
      if i == 0 {
        assert os[..0] == [];
        ModUnique(c, UIntRange, 0, c);
      } else {
        assert offsets[i] == rest[i - 1];
        OffsetShift(nb, c, c', os, i, rest[i - 1]);
      }
    }
  }

  /**
   Iteration `i` of a run uses the offset given by the outcomes before it: the starting
   counter plus the number of non-denied outcomes so far, taken modulo 2^32 and then
   modulo the slot count.
   */
  lemma {:induction false} RunOffsets(server: ServerContext, nb: nat, s: Loop, outcomes: seq<Outcome>)
    requires Valid(nb, s)
    ensures var t := Run(server, nb, s, outcomes);
      forall i :: 0 <= i < t.consumed ==>
        t.offsets[i] == Offset(nb, (s.count + Advances(outcomes[..i])) % UIntRange)
    decreases |outcomes|
  {
    if s.budget > 0 && |outcomes| > 0 {
      var s' := Step(server, nb, s, outcomes[0]);
      StepAccounting(server, nb, s, outcomes[0]);
      RunOffsets(server, nb, s', outcomes[1..]);
      var t' := Run(server, nb, s', outcomes[1..]);
      OffsetsCons(nb, s.count, s'.count, outcomes, Run(server, nb, s, outcomes).offsets, t'.offsets);
    }
  }

  /** The five iterations of the worked example below, one state at a time. */
  lemma ExampleSteps(server: ServerContext, a: Socket, b: Socket, c: Socket)
    ensures var A := Holds(ThreadContext(Some(a), server.log));
      var B := Holds(ThreadContext(Some(b), server.log));
      var C := Holds(ThreadContext(Some(c), server.log));
      && Step(server, 3, Start(3), Denied) == Loop(0, 49, [Released, Unset, Unset], [])
      && Step(server, 3, Loop(0, 49, [Released, Unset, Unset], []), Spawned(a)) == Loop(1, 49, [A, Unset, Unset], [])
      && Step(server, 3, Loop(1, 49, [A, Unset, Unset], []), Spawned(b)) == Loop(2, 49, [A, B, Unset], [])
      && Step(server, 3, Loop(2, 49, [A, B, Unset], []), Denied) == Loop(2, 48, [A, B, Released], [])
      && Step(server, 3, Loop(2, 48, [A, B, Released], []), Spawned(c)) == Loop(3, 48, [A, B, C], [])
  {
    assert Start(3).slots == [Unset, Unset, Unset];
    DeniedRetriesSameSlot(server, 3, Start(3));
    DeniedRetriesSameSlot(server, 3, Loop(2, 49, [Holds(ThreadContext(Some(a), server.log)), Holds(ThreadContext(Some(b), server.log)), Unset], []));
  }

  /** The last two iterations of the worked example below. */
  lemma ExampleTail(server: ServerContext, a: Socket, b: Socket, c: Socket)
    ensures var A := Holds(ThreadContext(Some(a), server.log));
      var B := Holds(ThreadContext(Some(b), server.log));
      var C := Holds(ThreadContext(Some(c), server.log));
      Run(server, 3, Loop(2, 49, [A, B, Unset], []), [Denied, Spawned(c)])
        == Trace(Loop(3, 48, [A, B, C], []), [2, 2], 2)
  {
    var A := Holds(ThreadContext(Some(a), server.log));
    var B := Holds(ThreadContext(Some(b), server.log));
    ExampleSteps(server, a, b, c);
    var s3 := Loop(2, 49, [A, B, Unset], []);
    var s4 := Loop(2, 48, [A, B, Released], []);
    RunUnfold(server, 3, s4, [Spawned(c)]);
    assert [Spawned(c)][1..] == [];
    RunUnfold(server, 3, s3, [Denied, Spawned(c)]);
    assert [Denied, Spawned(c)][1..] == [Spawned(c)];
  }

  /** The last three iterations of the worked example below. */
  lemma ExampleRest(server: ServerContext, a: Socket, b: Socket, c: Socket)
    ensures var A := Holds(ThreadContext(Some(a), server.log));
      var B := Holds(ThreadContext(Some(b), server.log));
      var C := Holds(ThreadContext(Some(c), server.log));
      Run(server, 3, Loop(1, 49, [A, Unset, Unset], []), [Spawned(b), Denied, Spawned(c)])
        == Trace(Loop(3, 48, [A, B, C], []), [1, 2, 2], 3)
  {
    var A := Holds(ThreadContext(Some(a), server.log));
    ExampleSteps(server, a, b, c);
    ExampleTail(server, a, b, c);
    var s2 := Loop(1, 49, [A, Unset, Unset], []);
    RunUnfold(server, 3, s2, [Spawned(b), Denied, Spawned(c)]);
    assert [Spawned(b), Denied, Spawned(c)][1..] == [Denied, Spawned(c)];
  }

  /**
   With three slots and outcomes deny, accept, accept, deny, accept the loop uses offsets
   0, 0, 1, 2, 2, spends two units of budget, releases no socket, and ends with each slot
   holding one of the three accepted sockets.
   */
  lemma WorkedExample(server: ServerContext, a: Socket, b: Socket, c: Socket)
    ensures var t := Run(server, 3, Start(3), [Denied, Spawned(a), Spawned(b), Denied, Spawned(c)]);
      && t.offsets == [0, 0, 1, 2, 2]
      && t.final.budget == 48
      && t.consumed == 5
      && t.final.freed == []
      && t.final.slots == [Holds(ThreadContext(Some(a), server.log)),
                           Holds(ThreadContext(Some(b), server.log)),
                           Holds(ThreadContext(Some(c), server.log))]
  {
    var A := Holds(ThreadContext(Some(a), server.log));
    var B := Holds(ThreadContext(Some(b), server.log));
    var C := Holds(ThreadContext(Some(c), server.log));
    ExampleSteps(server, a, b, c);
    var s1 := Loop(0, 49, [Released, Unset, Unset], []);
    ExampleRest(server, a, b, c);
    RunUnfold(server, 3, s1, [Spawned(a), Spawned(b), Denied, Spawned(c)]);
    assert [Spawned(a), Spawned(b), Denied, Spawned(c)][1..] == [Spawned(b), Denied, Spawned(c)];
    RunUnfold(server, 3, Start(3), [Denied, Spawned(a), Spawned(b), Denied, Spawned(c)]);
    assert [Denied, Spawned(a), Spawned(b), Denied, Spawned(c)][1..] == [Spawned(a), Spawned(b), Denied, Spawned(c)];
  }
}
