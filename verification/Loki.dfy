/** The Loki batcher: writers put entries into a bounded channel, and one goroutine takes
    them out, collects them and pushes them in batches. */
module Loki {
  import opened Wrappers

  datatype Entry = Entry(ts: int, line: seq<byte>)

  // ---------------------------------------------------------------- specification

  datatype Phase = Running | Draining | Exited

  /** `attempts` are the batches handed to push, whatever became of them; `accepted` are the
      entries the channel took. */
  datatype State = State(ch: seq<Entry>, batch: seq<Entry>, closed: bool, phase: Phase,
                         attempts: seq<seq<Entry>>, accepted: seq<Entry>)

  /** The atomic steps. Received, Ticked and SawDone are the cases of the loop's select;
      Drained is the select inside its last case. */
  datatype Event = Written(e: Entry) | Received | Ticked | Closed | SawDone | Drained

  const INIT := State([], [], false, Running, [], [])

  predicate Enabled(s: State, ev: Event) {
    match ev
    case Written(_) => true
    case Received => s.phase == Running && s.ch != []
    case Ticked => s.phase == Running
    case Closed => !s.closed
    case SawDone => s.phase == Running && s.closed
    case Drained => s.phase == Draining
  }

  function Flushed(s: State): State {
    if s.batch == [] then s else s.(attempts := s.attempts + [s.batch], batch := [])
  }

  function Step(s: State, ev: Event, batchSize: nat): State
    requires Enabled(s, ev)
  {
    match ev
    case Written(e) =>
      if |s.ch| < 2 * batchSize then s.(ch := s.ch + [e], accepted := s.accepted + [e]) else s
    case Received =>
      var t := s.(ch := s.ch[1..], batch := s.batch + [s.ch[0]]);
      if |t.batch| >= batchSize then Flushed(t) else t
    case Ticked => Flushed(s)
    case Closed => s.(closed := true)
    case SawDone => s.(phase := Draining)
    case Drained =>
      if s.ch != [] then s.(ch := s.ch[1..], batch := s.batch + [s.ch[0]])
      else Flushed(s).(phase := Exited)
  }

  /** `states` are the states of an interleaving of writers, ticker, closer and loop. */
  ghost predicate IsRun(states: seq<State>, events: seq<Event>, batchSize: nat) {
    && |states| == |events| + 1
    && states[0] == INIT
    && forall i :: 0 <= i < |events| ==> Enabled(states[i], events[i]) && states[i + 1] == Step(states[i], events[i], batchSize)
  }

  function Flatten(batches: seq<seq<Entry>>): seq<Entry> {
    if batches == [] then [] else Flatten(batches[..|batches| - 1]) + batches[|batches| - 1]
  }

  lemma FlattenMore(batches: seq<seq<Entry>>, batch: seq<Entry>)
    ensures Flatten(batches + [batch]) == Flatten(batches) + batch
  {
    assert (batches + [batch])[..|batches|] == batches;
  }

  /** Where the accepted entries are. */
  predicate Conserved(s: State) {
    s.accepted == Flatten(s.attempts) + (s.batch + s.ch)
  }

  lemma FlushConserves(s: State)
    requires Conserved(s)
    ensures Conserved(Flushed(s))
  {
    if s.batch != [] {
      FlattenMore(s.attempts, s.batch);
      assert Flatten(s.attempts) + s.batch + ([] + s.ch) == Flatten(s.attempts) + (s.batch + s.ch);
    }
  }

  lemma TakeConserves(s: State)
    requires Conserved(s) && s.ch != []
    ensures Conserved(s.(ch := s.ch[1..], batch := s.batch + [s.ch[0]]))
  {
    assert s.batch + [s.ch[0]] + s.ch[1..] == s.batch + s.ch;
  }

  lemma StepConserves(s: State, ev: Event, batchSize: nat)
    requires Enabled(s, ev) && Conserved(s)
    ensures Conserved(Step(s, ev, batchSize))
  {
    match ev
    case Written(e) =>
      assert Flatten(s.attempts) + (s.batch + s.ch) + [e] == Flatten(s.attempts) + (s.batch + (s.ch + [e]));
    case Received =>
      TakeConserves(s);
      FlushConserves(s.(ch := s.ch[1..], batch := s.batch + [s.ch[0]]));
    case Ticked =>
      FlushConserves(s);
    case Closed =>
    case SawDone =>
    case Drained =>
      if s.ch != [] {
        TakeConserves(s);
      } else {
        FlushConserves(s);
      }
  }

  /** In every interleaving the accepted entries are those pushed, then the batch, then the
      channel, in the order of acceptance and each once. */
  lemma {:induction false} Conservation(states: seq<State>, events: seq<Event>, batchSize: nat, n: nat)
    requires IsRun(states, events, batchSize) && n <= |events|
    ensures Conserved(states[n])
  {
    if n == 0 {
      assert Flatten([]) + ([] + []) == [];
    } else {
      Conservation(states, events, batchSize, n - 1);
      StepConserves(states[n - 1], events[n - 1], batchSize);
    }
  }

  predicate Sized(batches: seq<seq<Entry>>, batchSize: nat) {
    batches != [] ==>
      && 1 <= |batches[|batches| - 1]| <= batchSize
      && Sized(batches[..|batches| - 1], batchSize)
  }

  /** Only the push that ends the drain may be larger than a batch. */
  predicate Bounded(s: State, batchSize: nat) {
    && |s.ch| <= 2 * batchSize
    && (s.phase == Running ==> |s.batch| < batchSize)
    && (s.phase != Running ==> s.closed)
    && (s.phase != Exited ==> Sized(s.attempts, batchSize))
    && (s.phase == Exited ==>
          && s.batch == []
          && (Sized(s.attempts, batchSize) || Sized(s.attempts[..|s.attempts| - 1], batchSize)))
  }

  lemma SizedMore(batches: seq<seq<Entry>>, batch: seq<Entry>, batchSize: nat)
    requires Sized(batches, batchSize)
    ensures Sized(batches + [batch], batchSize) <==> 1 <= |batch| <= batchSize
    ensures (batches + [batch])[..|batches|] == batches
  {
    assert (batches + [batch])[..|batches|] == batches;
  }

  lemma StepBounded(s: State, ev: Event, batchSize: nat)
    requires batchSize > 0 && Enabled(s, ev) && Bounded(s, batchSize)
    ensures Bounded(Step(s, ev, batchSize), batchSize)
  {
    match ev
    case Received =>
      if |s.batch| + 1 >= batchSize {
        SizedMore(s.attempts, s.batch + [s.ch[0]], batchSize);
      }
    case Ticked =>
      if s.batch != [] {
        SizedMore(s.attempts, s.batch, batchSize);
      }
    case Drained =>
      if s.ch == [] && s.batch != [] {
        SizedMore(s.attempts, s.batch, batchSize);
      }
    case _ =>
  }

  lemma {:induction false} RunBounded(states: seq<State>, events: seq<Event>, batchSize: nat, n: nat)
    requires batchSize > 0 && IsRun(states, events, batchSize) && n <= |events|
    ensures Bounded(states[n], batchSize)
  {
    if n != 0 {
      RunBounded(states, events, batchSize, n - 1);
      StepBounded(states[n - 1], events[n - 1], batchSize);
    }
  }

  /** Every push made before shutdown holds between one entry and a full batch. */
  lemma PushesBeforeShutdown(states: seq<State>, events: seq<Event>, batchSize: nat, n: nat)
    requires batchSize > 0 && IsRun(states, events, batchSize) && n <= |events| && !states[n].closed
    ensures Sized(states[n].attempts, batchSize)
  {
    RunBounded(states, events, batchSize, n);
  }

  /** The number of entries accepted and not yet received. */
  function InFlight(s: State): int {
    |s.accepted| - |Flatten(s.attempts)| - |s.batch|
  }

  /** In every run, a write is accepted exactly if fewer than two batches of entries wait to be
      received, and an entry not accepted leaves no trace. */
  lemma DropsExactly(states: seq<State>, events: seq<Event>, batchSize: nat, n: nat, e: Entry)
    requires IsRun(states, events, batchSize) && n < |events| && events[n] == Written(e)
    ensures InFlight(states[n]) == |states[n].ch|
    ensures if InFlight(states[n]) < 2 * batchSize
            then states[n + 1] == states[n].(ch := states[n].ch + [e], accepted := states[n].accepted + [e])
            else states[n + 1] == states[n]
  {
    Conservation(states, events, batchSize, n);
    assert states[n + 1] == Step(states[n], events[n], batchSize);
  }

  /** In every run, receiving an entry pushes exactly when it fills a batch, a tick exactly when
      there is anything to push, and nothing else does but the exit. */
  lemma PushesExactly(states: seq<State>, events: seq<Event>, batchSize: nat, n: nat)
    requires batchSize > 0 && IsRun(states, events, batchSize) && n < |events|
    ensures var s, s' := states[n], states[n + 1];
            match events[n]
            case Received =>
              if |s.batch| + 1 == batchSize then s'.attempts == s.attempts + [s.batch + [s.ch[0]]] && s'.batch == []
              else s'.attempts == s.attempts && s'.batch == s.batch + [s.ch[0]]
            case Ticked => s'.batch == [] && s'.attempts == if s.batch == [] then s.attempts else s.attempts + [s.batch]
            case Drained =>
              if s.ch != [] then s'.attempts == s.attempts && s'.batch == s.batch + [s.ch[0]]
              else s'.batch == [] && s'.phase == Exited && s'.attempts == if s.batch == [] then s.attempts else s.attempts + [s.batch]
            case _ => s'.attempts == s.attempts && s'.batch == s.batch
  {
    RunBounded(states, events, batchSize, n);
    assert states[n + 1] == Step(states[n], events[n], batchSize);
  }

  /** Once the loop has exited, nothing is pushed any more. */
  lemma {:induction false} ExitedIsFinal(states: seq<State>, events: seq<Event>, batchSize: nat, m: nat, n: nat)
    requires IsRun(states, events, batchSize) && m <= n <= |events| && states[m].phase == Exited
    ensures states[n].phase == Exited && states[n].attempts == states[m].attempts && states[n].batch == states[m].batch
  {
    if m < n {
      ExitedIsFinal(states, events, batchSize, m, n - 1);
      assert states[n] == Step(states[n - 1], events[n - 1], batchSize);
    }
  }

  /** The exit leaves nothing behind: what was accepted until then has been handed to push,
      and what is accepted later stays in the channel for good. */
  lemma DrainLosesNothing(states: seq<State>, events: seq<Event>, batchSize: nat, m: nat, n: nat)
    requires batchSize > 0 && IsRun(states, events, batchSize) && m < n <= |events|
    requires states[m].phase != Exited && states[m + 1].phase == Exited
    ensures states[m + 1].accepted == Flatten(states[m + 1].attempts)
    ensures states[n].attempts == states[m + 1].attempts
    ensures states[n].accepted == states[m + 1].accepted + states[n].ch
  {
    assert events[m] == Drained && states[m].ch == [];
    Conservation(states, events, batchSize, m + 1);
    ExitedIsFinal(states, events, batchSize, m + 1, n);
    Conservation(states, events, batchSize, n);
    RunBounded(states, events, batchSize, m + 1);
    assert [] + states[n].ch == states[n].ch;
  }

  /** The loop taking entries until the channel is empty, nobody writing meanwhile. */
  function ReceiveAll(s: State, batchSize: nat): (r: State)
    requires s.phase == Running
    ensures r.phase == Running
    decreases |s.ch|
  {
    if s.ch == [] then s else ReceiveAll(Step(s, Received, batchSize), batchSize)
  }

  lemma {:induction false} ReceiveAllConserves(s: State, batchSize: nat)
    requires s.phase == Running && Conserved(s)
    ensures var t := ReceiveAll(s, batchSize); Conserved(t) && t.ch == [] && t.accepted == s.accepted
    decreases |s.ch|
  {
    if s.ch != [] {
      StepConserves(s, Received, batchSize);
      ReceiveAllConserves(Step(s, Received, batchSize), batchSize);
    }
  }

  /** A loop that has caught up pushes the rest at the next tick, and has room again. */
  lemma CatchesUp(s: State, batchSize: nat, e: Entry)
    requires batchSize > 0 && s.phase == Running && Conserved(s)
    ensures var t := Step(ReceiveAll(s, batchSize), Ticked, batchSize);
            && Flatten(t.attempts) == t.accepted == s.accepted && t.batch == [] && t.ch == []
            && Step(t, Written(e), batchSize).accepted == s.accepted + [e]
  {
    var r := ReceiveAll(s, batchSize);
    ReceiveAllConserves(s, batchSize);
    StepConserves(r, Ticked, batchSize);
    var t := Step(r, Ticked, batchSize);
    assert t.batch + t.ch == [];
    assert Flatten(t.attempts) + [] == Flatten(t.attempts);
  }

  // ---------------------------------------------------------------- the backend

  class LokiBackend {
    const batchSize: nat
    var ch: seq<Entry>
    var batch: seq<Entry>
    var closed: bool
    var phase: Phase
    var attempts: seq<seq<Entry>>
    ghost var accepted: seq<Entry>

    ghost function Abstract(): State
      reads this
    {
      State(ch, batch, closed, phase, attempts, accepted)
    }

    constructor (batchSize: int)
      ensures Abstract() == INIT
      ensures this.batchSize == if batchSize <= 0 then 100 else batchSize
    {
      this.batchSize := if batchSize <= 0 then 100 else batchSize;
      ch, batch, closed, phase, attempts := [], [], false, Running, [];
      accepted := [];
    }

    /** Never blocks: a full channel drops the entry. */
    method Write(e: Entry)
      modifies this
      ensures Abstract() == Step(old(Abstract()), Written(e), batchSize)
    {
      if |ch| < 2 * batchSize {
        ch := ch + [e];
        accepted := accepted + [e];
      }
    }

    method Flush()
      modifies this
      ensures Abstract() == Flushed(old(Abstract()))
    {
      if |batch| == 0 {
        return;
      }
      attempts := attempts + [batch];
      batch := [];
    }

    /** The loop's first case: an entry is ready. */
    method Receive()
      requires Enabled(Abstract(), Received)
      modifies this
      ensures Abstract() == Step(old(Abstract()), Received, batchSize)
    {
      batch := batch + [ch[0]];
      ch := ch[1..];
      if |batch| >= batchSize {
        Flush();
      }
    }

    method Tick()
      requires Enabled(Abstract(), Ticked)
      modifies this
      ensures Abstract() == Step(old(Abstract()), Ticked, batchSize)
    {
      Flush();
    }

    /** The first half of Close; the second waits for the loop to exit. */
    method CloseDone()
      requires Enabled(Abstract(), Closed)
      modifies this
      ensures Abstract() == Step(old(Abstract()), Closed, batchSize)
    {
      closed := true;
    }

    method SeeDone()
      requires Enabled(Abstract(), SawDone)
      modifies this
      ensures Abstract() == Step(old(Abstract()), SawDone, batchSize)
    {
      phase := Draining;
    }

    /** One turn of the draining loop. */
    method Drain()
      requires Enabled(Abstract(), Drained)
      modifies this
      ensures Abstract() == Step(old(Abstract()), Drained, batchSize)
    {
      if |ch| > 0 {
        batch := batch + [ch[0]];
        ch := ch[1..];
      } else {
        Flush();
        phase := Exited;
      }
    }
  }
}
