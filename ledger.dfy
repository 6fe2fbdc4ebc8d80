/**
  The ledger-update batch reassembler of the node bridge (pkg/nodebridge/ledger.go).

  The gRPC stream is a sequence of receive results, each paired with whether the caller's
  context reported an error when the receive returned. Reading past the end of the sequence
  behaves like `io.EOF`. Payloads of consumed and created items are opaque: the type
  parameters `S` (a spent output) and `C` (a created output).
*/
module LedgerUpdates {
  import opened Wrappers

  /** Milestone indices and declared counts are `uint32` on the wire. */
  const Uint32Modulus: int := 0x1_0000_0000
  type Uint32 = x: int | 0 <= x < Uint32Modulus

  /** Errors the loop can return. The first three are the package's sentinel errors;
      `External` stands for any transport or callback error, which is returned verbatim. */
  datatype Error =
    | TransactionAlreadyInProgress
    | InvalidOperation
    | EndedAbruptly
    | External(name: string)

  datatype MarkerType = Begin | End | UnknownMarker(code: int)

  datatype BatchMarker = BatchMarker(
    milestoneIndex: Uint32,
    markerType: MarkerType,
    consumedCount: Uint32,
    createdCount: Uint32)

  /** The `op` of a received record; `NoOp` is a missing or unrecognised oneof. */
  datatype Op<S, C> =
    | Marker(marker: BatchMarker)
    | Consumed(spent: S)
    | Created(output: C)
    | NoOp

  /** What `stream.Recv()` returned: a record, or an error classified as the loop classifies it. */
  datatype Received<S, C> =
    | Record(op: Op<S, C>)
    | EOF
    | Canceled
    | Failed(err: Error)

  /** One loop iteration's input: the receive result, and whether `ctx.Err()` was non-nil after it. */
  datatype Step<S, C> = Step(recv: Received<S, C>, ctxDone: bool)

  /** The batch accumulator, and the value handed to the callback. */
  datatype LedgerUpdate<S, C> = LedgerUpdate(milestoneIndex: Uint32, consumed: seq<S>, created: seq<C>)

  /** How one run of the loop ended: the returned error (None is Go's nil), every batch handed to
      the callback in order, and the position of the step at which the loop stopped reading. */
  datatype Outcome<S, C> = Outcome(err: Option<Error>, delivered: seq<LedgerUpdate<S, C>>, stoppedAt: nat)

  /** The effect of one step: keep looping with a new accumulator, or return; either may first
      have handed one batch to the callback (`handed` is empty or a single batch). */
  datatype Transition<S, C> =
    | Next(update: Option<LedgerUpdate<S, C>>, handed: seq<LedgerUpdate<S, C>>)
    | Stop(err: Option<Error>, handed: seq<LedgerUpdate<S, C>>)

  /** `uint32(n)`: the conversion keeps the low 32 bits. */
  function Truncate32(n: nat): (r: Uint32)
    ensures n < Uint32Modulus ==> r == n
  {
    n % Uint32Modulus
  }

  /** The END-marker check: both lengths (after truncation) and the milestone index agree. */
  predicate EndMatches<S, C>(u: LedgerUpdate<S, C>, m: BatchMarker) {
    && Truncate32(|u.consumed|) == m.consumedCount
    && Truncate32(|u.created|) == m.createdCount
    && u.milestoneIndex == m.milestoneIndex
  }

  /** The type switch on a record's op, given the open accumulator (None: no open batch). */
  function Dispatch<S, C>(update: Option<LedgerUpdate<S, C>>, op: Op<S, C>,
                          consume: LedgerUpdate<S, C> -> Option<Error>): (r: Transition<S, C>)
    ensures r.Stop? ==> r.err.Some?
    ensures r.handed != [] ==>
              && op.Marker? && op.marker.markerType == End && update.Some?
              && r.handed == [update.value] && EndMatches(update.value, op.marker)
    ensures r.Next? && update.None? ==>
              r.handed == [] && (r.update.Some? ==> r.update.value.consumed == [] && r.update.value.created == [])
    ensures r.Next? && update.Some? && r.update.Some? ==>
              && r.update.value.milestoneIndex == update.value.milestoneIndex
              && update.value.consumed <= r.update.value.consumed
              && update.value.created <= r.update.value.created
  {
    match op
    case Marker(m) =>
      (match m.markerType
       case Begin =>
         if update.Some? then Stop(Some(TransactionAlreadyInProgress), [])
         else Next(Some(LedgerUpdate(m.milestoneIndex, [], [])), [])
       case End =>
         if update.None? then Stop(Some(InvalidOperation), [])
         else if !EndMatches(update.value, m) then Stop(Some(EndedAbruptly), [])
         else
           var r := consume(update.value);
           if r.Some? then Stop(r, [update.value]) else Next(None, [update.value])
       case UnknownMarker(_) => Next(update, []))
    case Consumed(x) =>
      if update.None? then Stop(Some(InvalidOperation), [])
      else Next(Some(update.value.(consumed := update.value.consumed + [x])), [])
    case Created(y) =>
      if update.None? then Stop(Some(InvalidOperation), [])
      else Next(Some(update.value.(created := update.value.created + [y])), [])
    case NoOp => Next(update, [])
  }

  /** One iteration of the loop body: end-of-stream and cancellation first, then the context,
      then any other receive error, then the dispatch on the record. */
  function Receive<S, C>(update: Option<LedgerUpdate<S, C>>, step: Step<S, C>,
                         consume: LedgerUpdate<S, C> -> Option<Error>): (r: Transition<S, C>)
    ensures (r.Stop? && r.err.None?) <==> (step.recv.EOF? || step.recv.Canceled? || step.ctxDone)
    ensures step.recv.Failed? && !step.ctxDone ==> r == Stop(Some(step.recv.err), [])
    ensures r.handed != [] ==> !step.ctxDone && step.recv.Record?
  {
    if step.recv.EOF? || step.recv.Canceled? then Stop(None, [])
    else if step.ctxDone then Stop(None, [])
    else if step.recv.Failed? then Stop(Some(step.recv.err), [])
    else Dispatch(update, step.recv.op, consume)
  }

  /** The loop from position `i` with accumulator `update`, after `delivered` were handed over.
      Deliveries are only ever appended, and the loop stops at or after `i`. */
  function RunFrom<S, C>(stream: seq<Step<S, C>>, i: nat, update: Option<LedgerUpdate<S, C>>,
                         delivered: seq<LedgerUpdate<S, C>>,
                         consume: LedgerUpdate<S, C> -> Option<Error>): (r: Outcome<S, C>)
    requires i <= |stream|
    ensures i <= r.stoppedAt <= |stream|
    ensures delivered <= r.delivered
    ensures r.stoppedAt == |stream| ==> r.err == None
    decreases |stream| - i
  {
    if i == |stream| then Outcome(None, delivered, i)
    else
      match Receive(update, stream[i], consume)
      case Next(u, h) => RunFrom(stream, i + 1, u, delivered + h, consume)
      case Stop(e, h) => Outcome(e, delivered + h, i)
  }

  /** `ListenToLedgerUpdates` once the stream is open: no batch open, nothing delivered. */
  function Run<S, C>(stream: seq<Step<S, C>>, consume: LedgerUpdate<S, C> -> Option<Error>): Outcome<S, C> {
    RunFrom(stream, 0, None, [], consume)
  }

  /** The receive/dispatch loop, with the accumulator held in a local variable that each step reassigns. */
  method ListenToLedgerUpdates<S, C>(stream: seq<Step<S, C>>, consume: LedgerUpdate<S, C> -> Option<Error>)
    returns (err: Option<Error>, ghost delivered: seq<LedgerUpdate<S, C>>, ghost stoppedAt: nat)
    ensures err == Run(stream, consume).err
    ensures delivered == Run(stream, consume).delivered && stoppedAt == Run(stream, consume).stoppedAt
  {
    var update: Option<LedgerUpdate<S, C>> := None;
    delivered := [];
    var i := 0;
    while i < |stream|
      invariant i <= |stream|
      invariant RunFrom(stream, i, update, delivered, consume) == Run(stream, consume)
    {
      var step := stream[i];
      ghost var update0, delivered0 := update, delivered;
      if step.recv.EOF? || step.recv.Canceled? {
        break;
      }
      if step.ctxDone {
        return None, delivered, i;
      }
      if step.recv.Failed? {
        return Some(step.recv.err), delivered, i;
      }
      match step.recv.op {
        case Marker(m) =>
          match m.markerType {
            case Begin =>
              if update.Some? {
                return Some(TransactionAlreadyInProgress), delivered, i;
              }
              update := Some(LedgerUpdate(m.milestoneIndex, [], []));
            case End =>
              if update.None? {
                return Some(InvalidOperation), delivered, i;
              }
              if Truncate32(|update.value.consumed|) != m.consumedCount
                || Truncate32(|update.value.created|) != m.createdCount
                || update.value.milestoneIndex != m.milestoneIndex
              {
                return Some(EndedAbruptly), delivered, i;
              }
              var r := consume(update.value);
              delivered := delivered + [update.value];
              if r.Some? {
                return r, delivered, i;
              }
              update := None;
            case UnknownMarker(_) =>
          }
        case Consumed(x) =>
          if update.None? {
            return Some(InvalidOperation), delivered, i;
          }
          update := Some(update.value.(consumed := update.value.consumed + [x]));
        case Created(y) =>
          if update.None? {
            return Some(InvalidOperation), delivered, i;
          }
          update := Some(update.value.(created := update.value.created + [y]));
        case NoOp =>
      }
      assert Receive(update0, step, consume) == Next(update, delivered[|delivered0|..]);
      assert delivered == delivered0 + delivered[|delivered0|..];
      i := i + 1;
    }
    return None, delivered, i;
  }

  // ---------------------------------------------------------------------------
  // Shapes of input

  /** A record marker of the given type, received while the context is live. */
  predicate IsMarker<S, C>(step: Step<S, C>, t: MarkerType) {
    && !step.ctxDone && step.recv.Record? && step.recv.op.Marker?
    && step.recv.op.marker.markerType == t
  }

  /** A record the loop skips whatever its state: no op, or a marker of unknown type. */
  predicate IsSkip<S, C>(step: Step<S, C>) {
    && !step.ctxDone && step.recv.Record?
    && (step.recv.op.NoOp? || (step.recv.op.Marker? && step.recv.op.marker.markerType.UnknownMarker?))
  }

  /** A record an open batch absorbs: a consumed or created item, or a skipped record. */
  predicate IsItem<S, C>(step: Step<S, C>) {
    && !step.ctxDone && step.recv.Record?
    && (step.recv.op.Marker? ==> step.recv.op.marker.markerType.UnknownMarker?)
  }

  /** The payloads of the consumed items among `steps`, in arrival order. */
  function SpentIn<S, C>(steps: seq<Step<S, C>>): seq<S> {
    if steps == [] then []
    else
      (if steps[0].recv.Record? && steps[0].recv.op.Consumed? then [steps[0].recv.op.spent] else [])
      + SpentIn(steps[1..])
  }

  /** The payloads of the created items among `steps`, in arrival order. */
  function OutputsIn<S, C>(steps: seq<Step<S, C>>): seq<C> {
    if steps == [] then []
    else
      (if steps[0].recv.Record? && steps[0].recv.op.Created? then [steps[0].recv.op.output] else [])
      + OutputsIn(steps[1..])
  }

  /** The batch a BEGIN for `index` followed by `steps` builds. */
  function Collect<S, C>(index: Uint32, steps: seq<Step<S, C>>): LedgerUpdate<S, C> {
    LedgerUpdate(index, SpentIn(steps), OutputsIn(steps))
  }

  /** `u` after absorbing `steps`. */
  function Extend<S, C>(u: LedgerUpdate<S, C>, steps: seq<Step<S, C>>): LedgerUpdate<S, C> {
    u.(consumed := u.consumed + SpentIn(steps), created := u.created + OutputsIn(steps))
  }

  lemma {:induction false} SpentInConcat<S, C>(a: seq<Step<S, C>>, b: seq<Step<S, C>>)
    ensures SpentIn(a + b) == SpentIn(a) + SpentIn(b)
    ensures OutputsIn(a + b) == OutputsIn(a) + OutputsIn(b)
  {
    if a != [] {
      assert (a + b)[1..] == a[1..] + b;
      SpentInConcat(a[1..], b);
    } else {
      assert a + b == b;
    }
  }

  // ---------------------------------------------------------------------------
  // Runs of records

  /** An open batch absorbs one item: its payload goes to the end of the matching list. */
  lemma AbsorbItem<S, C>(u: LedgerUpdate<S, C>, step: Step<S, C>, consume: LedgerUpdate<S, C> -> Option<Error>)
    requires IsItem(step)
    ensures Receive(Some(u), step, consume) == Next(Some(Extend(u, [step])), [])
  {
    assert [step][1..] == [];
    assert u.consumed + [] == u.consumed && u.created + [] == u.created;
    match step.recv.op
    case Consumed(x) => assert SpentIn([step]) == [x] && OutputsIn([step]) == [];
    case Created(y) => assert SpentIn([step]) == [] && OutputsIn([step]) == [y];
    case _ => assert SpentIn([step]) == [] && OutputsIn([step]) == [];
  }

  /** Skipped records change nothing, with or without an open batch. */
  lemma {:induction false} SkipRun<S, C>(stream: seq<Step<S, C>>, i: nat, e: nat,
                                         update: Option<LedgerUpdate<S, C>>,
                                         delivered: seq<LedgerUpdate<S, C>>,
                                         consume: LedgerUpdate<S, C> -> Option<Error>)
    requires i <= e <= |stream|
    requires forall k | i <= k < e :: IsSkip(stream[k])
    ensures RunFrom(stream, i, update, delivered, consume) == RunFrom(stream, e, update, delivered, consume)
    decreases e - i
  {
    if i < e {
      assert Receive(update, stream[i], consume) == Next(update, []);
      assert delivered + [] == delivered;
      SkipRun(stream, i + 1, e, update, delivered, consume);
    }
  }

  /** While a batch is open, consumed and created items are appended, in arrival order, to the
      batch's own two lists; nothing is delivered and the loop keeps reading. */
  lemma {:induction false} OpenRun<S, C>(stream: seq<Step<S, C>>, i: nat, e: nat, u: LedgerUpdate<S, C>,
                                         delivered: seq<LedgerUpdate<S, C>>,
                                         consume: LedgerUpdate<S, C> -> Option<Error>)
    requires i <= e <= |stream|
    requires forall k | i <= k < e :: IsItem(stream[k])
    ensures RunFrom(stream, i, Some(u), delivered, consume)
         == RunFrom(stream, e, Some(Extend(u, stream[i..e])), delivered, consume)
    decreases e - i
  {
    if i == e {
      assert stream[i..e] == [];
      assert Extend(u, []) == u;
    } else {
      var u1 := Extend(u, [stream[i]]);
      calc {
        RunFrom(stream, i, Some(u), delivered, consume);
        { AbsorbItem(u, stream[i], consume); }
        RunFrom(stream, i + 1, Some(u1), delivered + [], consume);
        { assert delivered + [] == delivered; }
        RunFrom(stream, i + 1, Some(u1), delivered, consume);
        { OpenRun(stream, i + 1, e, u1, delivered, consume); }
        RunFrom(stream, e, Some(Extend(u1, stream[i + 1..e])), delivered, consume);
        { ExtendConcat(u, [stream[i]], stream[i + 1..e]);
          assert [stream[i]] + stream[i + 1..e] == stream[i..e]; }
        RunFrom(stream, e, Some(Extend(u, stream[i..e])), delivered, consume);
      }
    }
  }

  lemma ExtendConcat<S, C>(u: LedgerUpdate<S, C>, a: seq<Step<S, C>>, b: seq<Step<S, C>>)
    ensures Extend(Extend(u, a), b) == Extend(u, a + b)
  {
    SpentInConcat(a, b);
    assert u.consumed + SpentIn(a) + SpentIn(b) == u.consumed + SpentIn(a + b);
    assert u.created + OutputsIn(a) + OutputsIn(b) == u.created + OutputsIn(a + b);
  }

  /** A BEGIN, items, and an END: the batch handed over holds the BEGIN's index and exactly the
      items between, consumed and created kept apart in arrival order. It is delivered only when the
      END's counts and index agree; otherwise the loop fails with EndedAbruptly and delivers nothing.
      A callback error is returned unchanged and nothing after the END is read. */
  lemma {:induction false} CompleteBatch<S, C>(stream: seq<Step<S, C>>, i: nat, e: nat,
                                               delivered: seq<LedgerUpdate<S, C>>,
                                               consume: LedgerUpdate<S, C> -> Option<Error>)
    requires i < e < |stream|
    requires IsMarker(stream[i], Begin) && IsMarker(stream[e], End)
    requires forall k | i < k < e :: IsItem(stream[k])
    ensures var b := Collect(stream[i].recv.op.marker.milestoneIndex, stream[i + 1..e]);
            RunFrom(stream, i, None, delivered, consume) ==
              if !EndMatches(b, stream[e].recv.op.marker) then Outcome(Some(EndedAbruptly), delivered, e)
              else if consume(b).Some? then Outcome(consume(b), delivered + [b], e)
              else RunFrom(stream, e + 1, None, delivered + [b], consume)
  {
    var u0 := LedgerUpdate(stream[i].recv.op.marker.milestoneIndex, [], []);
    assert Receive(None, stream[i], consume) == Next(Some(u0), []);
    assert delivered + [] == delivered;
    OpenRun(stream, i + 1, e, u0, delivered, consume);
    assert Extend(u0, stream[i + 1..e]) == Collect(u0.milestoneIndex, stream[i + 1..e]);
  }

  /** A well-formed batch whose END declares its true counts is handed over exactly once. */
  lemma WellFormedBatchDelivered<S, C>(stream: seq<Step<S, C>>, i: nat, e: nat,
                                       delivered: seq<LedgerUpdate<S, C>>,
                                       consume: LedgerUpdate<S, C> -> Option<Error>)
    requires i < e < |stream|
    requires IsMarker(stream[i], Begin) && IsMarker(stream[e], End)
    requires forall k | i < k < e :: IsItem(stream[k])
    requires stream[e].recv.op.marker.milestoneIndex == stream[i].recv.op.marker.milestoneIndex
    requires stream[e].recv.op.marker.consumedCount == |SpentIn(stream[i + 1..e])|
    requires stream[e].recv.op.marker.createdCount == |OutputsIn(stream[i + 1..e])|
    ensures var b := Collect(stream[i].recv.op.marker.milestoneIndex, stream[i + 1..e]);
            var o := RunFrom(stream, i, None, delivered, consume);
            && delivered + [b] <= o.delivered
            && (consume(b).Some? ==> o == Outcome(consume(b), delivered + [b], e))
  {
    CompleteBatch(stream, i, e, delivered, consume);
    var b := Collect(stream[i].recv.op.marker.milestoneIndex, stream[i + 1..e]);
    if consume(b).None? {
      assert (delivered + [b]) <= RunFrom(stream, e + 1, None, delivered + [b], consume).delivered;
    }
  }

  /** Two consecutive well-formed batches are delivered in the order of their END markers,
      each with only its own items. */
  lemma TwoBatchesInOrder<S, C>(stream: seq<Step<S, C>>, i: nat, e1: nat, e2: nat,
                                delivered: seq<LedgerUpdate<S, C>>,
                                consume: LedgerUpdate<S, C> -> Option<Error>)
    requires i < e1 && e1 + 1 < e2 < |stream|
    requires IsMarker(stream[i], Begin) && IsMarker(stream[e1], End)
    requires IsMarker(stream[e1 + 1], Begin) && IsMarker(stream[e2], End)
    requires forall k | i < k < e1 :: IsItem(stream[k])
    requires forall k | e1 + 1 < k < e2 :: IsItem(stream[k])
    requires EndMatches(Collect(stream[i].recv.op.marker.milestoneIndex, stream[i + 1..e1]), stream[e1].recv.op.marker)
    requires EndMatches(Collect(stream[e1 + 1].recv.op.marker.milestoneIndex, stream[e1 + 2..e2]), stream[e2].recv.op.marker)
    requires consume(Collect(stream[i].recv.op.marker.milestoneIndex, stream[i + 1..e1])).None?
    requires consume(Collect(stream[e1 + 1].recv.op.marker.milestoneIndex, stream[e1 + 2..e2])).None?
    ensures RunFrom(stream, i, None, delivered, consume)
         == RunFrom(stream, e2 + 1, None,
                    delivered + [Collect(stream[i].recv.op.marker.milestoneIndex, stream[i + 1..e1]),
                                 Collect(stream[e1 + 1].recv.op.marker.milestoneIndex, stream[e1 + 2..e2])],
                    consume)
  {
    var b1 := Collect(stream[i].recv.op.marker.milestoneIndex, stream[i + 1..e1]);
    var b2 := Collect(stream[e1 + 1].recv.op.marker.milestoneIndex, stream[e1 + 2..e2]);
    CompleteBatch(stream, i, e1, delivered, consume);
    CompleteBatch(stream, e1 + 1, e2, delivered + [b1], consume);
    assert delivered + [b1] + [b2] == delivered + [b1, b2];
  }

  /** A second BEGIN while a batch is open fails with TransactionAlreadyInProgress; the open batch
      is never delivered. */
  lemma {:induction false} SecondBeginRejected<S, C>(stream: seq<Step<S, C>>, i: nat, e: nat,
                                                     delivered: seq<LedgerUpdate<S, C>>,
                                                     consume: LedgerUpdate<S, C> -> Option<Error>)
    requires i < e < |stream|
    requires IsMarker(stream[i], Begin) && IsMarker(stream[e], Begin)
    requires forall k | i < k < e :: IsItem(stream[k])
    ensures RunFrom(stream, i, None, delivered, consume) == Outcome(Some(TransactionAlreadyInProgress), delivered, e)
  {
    var u0 := LedgerUpdate(stream[i].recv.op.marker.milestoneIndex, [], []);
    assert Receive(None, stream[i], consume) == Next(Some(u0), []);
    assert delivered + [] == delivered;
    OpenRun(stream, i + 1, e, u0, delivered, consume);
  }

  /** With no batch open, an END, a consumed item or a created item fails with InvalidOperation,
      however many skipped records came before it. */
  lemma {:induction false} OrphanRejected<S, C>(stream: seq<Step<S, C>>, i: nat, e: nat,
                                                delivered: seq<LedgerUpdate<S, C>>,
                                                consume: LedgerUpdate<S, C> -> Option<Error>)
    requires i <= e < |stream|
    requires forall k | i <= k < e :: IsSkip(stream[k])
    requires IsMarker(stream[e], End) || (IsItem(stream[e]) && (stream[e].recv.op.Consumed? || stream[e].recv.op.Created?))
    ensures RunFrom(stream, i, None, delivered, consume) == Outcome(Some(InvalidOperation), delivered, e)
  {
    SkipRun(stream, i, e, None, delivered, consume);
    assert delivered + [] == delivered;
  }

  /** End of stream, a Canceled status, or a cancelled context in the middle of a batch ends the
      loop with nil; the partial batch is never delivered. */
  lemma {:induction false} StreamEndDropsOpenBatch<S, C>(stream: seq<Step<S, C>>, i: nat, e: nat,
                                                         delivered: seq<LedgerUpdate<S, C>>,
                                                         consume: LedgerUpdate<S, C> -> Option<Error>)
    requires i < e <= |stream|
    requires IsMarker(stream[i], Begin)
    requires forall k | i < k < e :: IsItem(stream[k])
    requires e < |stream| ==> stream[e].recv.EOF? || stream[e].recv.Canceled? || stream[e].ctxDone
    ensures RunFrom(stream, i, None, delivered, consume) == Outcome(None, delivered, e)
  {
    var u0 := LedgerUpdate(stream[i].recv.op.marker.milestoneIndex, [], []);
    assert Receive(None, stream[i], consume) == Next(Some(u0), []);
    assert delivered + [] == delivered;
    OpenRun(stream, i + 1, e, u0, delivered, consume);
  }

  /** Any other receive error is returned verbatim, also in the middle of a batch, which is dropped. */
  lemma {:induction false} TransportErrorReturned<S, C>(stream: seq<Step<S, C>>, i: nat, e: nat,
                                                        delivered: seq<LedgerUpdate<S, C>>,
                                                        consume: LedgerUpdate<S, C> -> Option<Error>)
    requires i < e < |stream|
    requires IsMarker(stream[i], Begin)
    requires forall k | i < k < e :: IsItem(stream[k])
    requires stream[e].recv.Failed? && !stream[e].ctxDone
    ensures RunFrom(stream, i, None, delivered, consume) == Outcome(Some(stream[e].recv.err), delivered, e)
  {
    var u0 := LedgerUpdate(stream[i].recv.op.marker.milestoneIndex, [], []);
    assert Receive(None, stream[i], consume) == Next(Some(u0), []);
    assert delivered + [] == delivered;
    OpenRun(stream, i + 1, e, u0, delivered, consume);
  }

  // ---------------------------------------------------------------------------
  // Every delivered batch, over a whole run

  /** Positions `j < e` frame batch `b`: a BEGIN for `b`'s index at `j`, only items strictly
      between, an END at `e` whose counts and index `b` matches, and `b` holds exactly the items
      between. */
  ghost predicate Frames<S, C>(stream: seq<Step<S, C>>, j: nat, e: nat, b: LedgerUpdate<S, C>) {
    && j < e < |stream|
    && IsMarker(stream[j], Begin) && stream[j].recv.op.marker.milestoneIndex == b.milestoneIndex
    && (forall k | j < k < e :: IsItem(stream[k]))
    && IsMarker(stream[e], End) && EndMatches(b, stream[e].recv.op.marker)
    && b == Collect(b.milestoneIndex, stream[j + 1..e])
  }

  ghost predicate EndsBatch<S, C>(stream: seq<Step<S, C>>, e: nat, b: LedgerUpdate<S, C>) {
    exists j: nat :: Frames(stream, j, e, b)
  }

  /** The batch open at position `i` was begun at `j` and holds the items since. */
  ghost predicate OpenSince<S, C>(stream: seq<Step<S, C>>, j: nat, i: nat, u: LedgerUpdate<S, C>) {
    && j < i <= |stream|
    && IsMarker(stream[j], Begin) && stream[j].recv.op.marker.milestoneIndex == u.milestoneIndex
    && (forall k | j < k < i :: IsItem(stream[k]))
    && u == Collect(u.milestoneIndex, stream[j + 1..i])
  }

  ghost predicate OpenAt<S, C>(stream: seq<Step<S, C>>, i: nat, u: LedgerUpdate<S, C>) {
    exists j: nat :: OpenSince(stream, j, i, u)
  }

  /** `ends[k]` is the END position of the k-th delivered batch: END positions strictly increase,
      and every batch but one whose callback failed was accepted by the callback. */
  ghost predicate DeliveryLog<S, C>(stream: seq<Step<S, C>>, o: Outcome<S, C>, ends: seq<nat>,
                                    consume: LedgerUpdate<S, C> -> Option<Error>)
  {
    && |ends| == |o.delivered|
    && (forall k | 0 <= k < |ends| :: ends[k] <= o.stoppedAt && EndsBatch(stream, ends[k], o.delivered[k]))
    && (forall k, l | 0 <= k < l < |ends| :: ends[k] < ends[l])
    && (forall k | 0 <= k < |ends| :: consume(o.delivered[k]).Some? ==>
          k == |ends| - 1 && ends[k] == o.stoppedAt && o.err == consume(o.delivered[k]))
  }

  lemma {:induction false} OpenSinceStep<S, C>(stream: seq<Step<S, C>>, j: nat, i: nat, u: LedgerUpdate<S, C>,
                                               consume: LedgerUpdate<S, C> -> Option<Error>)
    requires OpenSince(stream, j, i, u) && i < |stream| && IsItem(stream[i])
    ensures var t := Receive(Some(u), stream[i], consume);
            t.Next? && t.handed == [] && t.update.Some? && OpenSince(stream, j, i + 1, t.update.value)
  {
    AbsorbItem(u, stream[i], consume);
    var a := stream[j + 1..i];
    assert stream[j + 1..i + 1] == a + [stream[i]];
    SpentInConcat(a, [stream[i]]);
    assert Extend(u, [stream[i]]) == Collect(u.milestoneIndex, a + [stream[i]]);
  }

  /** A step that keeps looping without a delivery keeps the open batch (if any) framed since its BEGIN. */
  lemma StepKeepsOpen<S, C>(stream: seq<Step<S, C>>, i: nat, update: Option<LedgerUpdate<S, C>>,
                            consume: LedgerUpdate<S, C> -> Option<Error>)
    requires i < |stream|
    requires update.Some? ==> OpenAt(stream, i, update.value)
    requires Receive(update, stream[i], consume).Next? && Receive(update, stream[i], consume).handed == []
    ensures var t := Receive(update, stream[i], consume);
            t.update.Some? ==> OpenAt(stream, i + 1, t.update.value)
  {
    var t := Receive(update, stream[i], consume);
    if t.update.Some? {
      if update.Some? {
        var j: nat :| OpenSince(stream, j, i, update.value);
        OpenSinceStep(stream, j, i, update.value, consume);
        assert OpenSince(stream, j, i + 1, t.update.value);
      } else {
        assert stream[i + 1..i + 1] == [];
        assert OpenSince(stream, i, i + 1, t.update.value);
      }
    }
  }

  /** A step that hands a batch over is an END that frames the open batch. */
  lemma HandedBatchFramed<S, C>(stream: seq<Step<S, C>>, i: nat, update: Option<LedgerUpdate<S, C>>,
                                consume: LedgerUpdate<S, C> -> Option<Error>)
    requires i < |stream|
    requires update.Some? ==> OpenAt(stream, i, update.value)
    requires Receive(update, stream[i], consume).handed != []
    ensures var t := Receive(update, stream[i], consume);
            && update.Some? && t.handed == [update.value] && EndsBatch(stream, i, update.value)
            && (t.Stop? ==> t.err == consume(update.value) && t.err.Some?)
            && (t.Next? ==> t.update == None && consume(update.value).None?)
  {
    var j: nat :| OpenSince(stream, j, i, update.value);
    assert Frames(stream, j, i, update.value);
  }

  /** Appending a batch delivered at END position `i` extends the log. */
  lemma LogAppend<S, C>(stream: seq<Step<S, C>>, delivered: seq<LedgerUpdate<S, C>>, ends: seq<nat>,
                        b: LedgerUpdate<S, C>, i: nat, o: Outcome<S, C>,
                        consume: LedgerUpdate<S, C> -> Option<Error>)
    requires DeliveryLog(stream, Outcome(None, delivered, i), ends, consume)
    requires forall k | 0 <= k < |ends| :: ends[k] < i && consume(delivered[k]).None?
    requires EndsBatch(stream, i, b)
    requires o.delivered == delivered + [b] && i <= o.stoppedAt
    requires consume(b).Some? ==> o.stoppedAt == i && o.err == consume(b)
    ensures DeliveryLog(stream, o, ends + [i], consume)
  {
  }

  /** One step of `RunFrom`, unfolded. */
  lemma RunFromUnfold<S, C>(stream: seq<Step<S, C>>, i: nat, update: Option<LedgerUpdate<S, C>>,
                            delivered: seq<LedgerUpdate<S, C>>, consume: LedgerUpdate<S, C> -> Option<Error>)
    requires i < |stream|
    ensures var t := Receive(update, stream[i], consume);
            RunFrom(stream, i, update, delivered, consume) ==
              if t.Next? then RunFrom(stream, i + 1, t.update, delivered + t.handed, consume)
              else Outcome(t.err, delivered + t.handed, i)
  {
  }

  /** Stopping without a delivery keeps the log, whatever the error. */
  lemma LogStop<S, C>(stream: seq<Step<S, C>>, delivered: seq<LedgerUpdate<S, C>>, ends: seq<nat>,
                      i: nat, err: Option<Error>, consume: LedgerUpdate<S, C> -> Option<Error>)
    requires DeliveryLog(stream, Outcome(None, delivered, i), ends, consume)
    requires forall k | 0 <= k < |ends| :: consume(delivered[k]).None?
    ensures DeliveryLog(stream, Outcome(err, delivered, i), ends, consume)
  {
  }

  /** From any reachable state, the rest of the run keeps the delivery log. */
  lemma {:induction false} RunFromLogged<S, C>(stream: seq<Step<S, C>>, i: nat, update: Option<LedgerUpdate<S, C>>,
      delivered: seq<LedgerUpdate<S, C>>, ends: seq<nat>, consume: LedgerUpdate<S, C> -> Option<Error>)
    requires i <= |stream|
    requires DeliveryLog(stream, Outcome(None, delivered, i), ends, consume)
    requires forall k | 0 <= k < |ends| :: ends[k] < i && consume(delivered[k]).None?
    requires update.Some? ==> OpenAt(stream, i, update.value)
    ensures exists ends': seq<nat> :: DeliveryLog(stream, RunFrom(stream, i, update, delivered, consume), ends', consume)
    decreases |stream| - i, 1
  {
    if i == |stream| {
      assert RunFrom(stream, i, update, delivered, consume) == Outcome(None, delivered, i);
    } else if Receive(update, stream[i], consume).handed == [] {
      StepWithoutDelivery(stream, i, update, delivered, ends, consume);
    } else {
      StepWithDelivery(stream, i, update, delivered, ends, consume);
    }
  }

  lemma {:induction false} StepWithoutDelivery<S, C>(stream: seq<Step<S, C>>, i: nat, update: Option<LedgerUpdate<S, C>>,
      delivered: seq<LedgerUpdate<S, C>>, ends: seq<nat>, consume: LedgerUpdate<S, C> -> Option<Error>)
    requires i < |stream| && Receive(update, stream[i], consume).handed == []
    requires DeliveryLog(stream, Outcome(None, delivered, i), ends, consume)
    requires forall k | 0 <= k < |ends| :: ends[k] < i && consume(delivered[k]).None?
    requires update.Some? ==> OpenAt(stream, i, update.value)
    ensures exists ends': seq<nat> :: DeliveryLog(stream, RunFrom(stream, i, update, delivered, consume), ends', consume)
    decreases |stream| - i, 0
  {
    var t := Receive(update, stream[i], consume);
    RunFromUnfold(stream, i, update, delivered, consume);
    assert delivered + [] == delivered;
    if t.Stop? {
      LogStop(stream, delivered, ends, i, t.err, consume);
    } else {
      StepKeepsOpen(stream, i, update, consume);
      RunFromLogged(stream, i + 1, t.update, delivered, ends, consume);
    }
  }

  lemma {:induction false} StepWithDelivery<S, C>(stream: seq<Step<S, C>>, i: nat, update: Option<LedgerUpdate<S, C>>,
      delivered: seq<LedgerUpdate<S, C>>, ends: seq<nat>, consume: LedgerUpdate<S, C> -> Option<Error>)
    requires i < |stream| && Receive(update, stream[i], consume).handed != []
    requires DeliveryLog(stream, Outcome(None, delivered, i), ends, consume)
    requires forall k | 0 <= k < |ends| :: ends[k] < i && consume(delivered[k]).None?
    requires update.Some? ==> OpenAt(stream, i, update.value)
    ensures exists ends': seq<nat> :: DeliveryLog(stream, RunFrom(stream, i, update, delivered, consume), ends', consume)
    decreases |stream| - i, 0
  {
    var t := Receive(update, stream[i], consume);
    RunFromUnfold(stream, i, update, delivered, consume);
    HandedBatchFramed(stream, i, update, consume);
    var b := update.value;
    if t.Stop? {
      LogAppend(stream, delivered, ends, b, i, Outcome(consume(b), delivered + [b], i), consume);
    } else {
      LogAppend(stream, delivered, ends, b, i, Outcome(None, delivered + [b], i + 1), consume);
      RunFromLogged(stream, i + 1, None, delivered + [b], ends + [i], consume);
    }
  }

  /** Over a whole run, each delivered batch is framed by its own BEGIN and END with matching index
      and counts, holds exactly the items between them, and batches are delivered in the order of
      their END markers, at most once per END. Only the last may have been refused by the callback,
      and then its error is what the loop returned, at that END. */
  lemma DeliveredBatchesAreFramed<S, C>(stream: seq<Step<S, C>>, consume: LedgerUpdate<S, C> -> Option<Error>)
    ensures exists ends: seq<nat> :: DeliveryLog(stream, Run(stream, consume), ends, consume)
  {
    RunFromLogged(stream, 0, None, [], [], consume);
    assert Run(stream, consume) == RunFrom(stream, 0, None, [], consume);
  }
}
