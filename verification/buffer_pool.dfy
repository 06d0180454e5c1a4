/**
 * The download buffer pool (`BufferPool`, `BufferGuard`) as a state machine.
 *
 * The pool is a bounded channel of buffers. A live guard owns one buffer and
 * gives it back when dropped or released; `into_inner` hands the buffer to
 * the caller instead. The conservation invariant counts where the buffers
 * are: queued, in flight back to the channel, held by guards, taken out by
 * the caller, or dropped on a closed channel, always `capacity` in all.
 */
module BufferPool {
  import opened Wrappers

  type Buffer = seq<bv8>

  /**
   * The channel: its bound, the buffers queued in it, whether every receiver
   * is gone, and the sends spawned or awaited but not yet delivered.
   */
  datatype Channel = Channel(capacity: nat, queue: seq<Buffer>, closed: bool, pending: seq<Buffer>)

  datatype TrySend = Sent(ch: Channel) | Full(back: Buffer) | Closed(back: Buffer)

  /** `Sender::try_send` on a bounded channel. */
  function TrySendTo(ch: Channel, b: Buffer): (r: TrySend)
    ensures r.Sent? <==> !ch.closed && |ch.queue| < ch.capacity
    ensures r.Sent? ==> r.ch == ch.(queue := ch.queue + [b])
    ensures r.Full? ==> r.back == b
  {
    if ch.closed then Closed(b)
    else if |ch.queue| >= ch.capacity then Full(b)
    else Sent(ch.(queue := ch.queue + [b]))
  }

  /** `vec![0u8; size]` */
  function Zeroed(size: nat): (b: Buffer)
    ensures |b| == size
    ensures forall i :: 0 <= i < size ==> b[i] == 0
  {
    seq(size, _ => 0)
  }

  /**
   * `BufferPool::new`: a channel bounded at `capacity`, filled with
   * `capacity` zeroed buffers of `bufSize` bytes. Every initial `try_send`
   * succeeds, so the `expect` never fires. `bounded(0)` panics, hence the
   * precondition.
   */
  method New(capacity: nat, bufSize: nat) returns (ch: Channel)
    requires capacity > 0
    ensures ch.capacity == capacity && !ch.closed && ch.pending == []
    ensures |ch.queue| == capacity
    ensures forall i :: 0 <= i < capacity ==> ch.queue[i] == Zeroed(bufSize)
    ensures Conserved(World(ch, [], [], []))
  {
    ch := Channel(capacity, [], false, []);
    var i := 0;
    while i < capacity
      invariant i <= capacity
      invariant ch.capacity == capacity && !ch.closed && ch.pending == []
      invariant |ch.queue| == i
      invariant forall k :: 0 <= k < i ==> ch.queue[k] == Zeroed(bufSize)
    {
      var r := TrySendTo(ch, Zeroed(bufSize));
      if !r.Sent? {
        assert false;
      }
      ch := r.ch;
      i := i + 1;
    }
  }

  /**
   * Everything that holds buffers: the channel, the live guards (a live
   * guard's `buf` is always Some, since only its consuming methods and its
   * drop take it), buffers taken out by `into_inner`, and buffers dropped
   * because the channel was closed.
   */
  datatype World = World(ch: Channel, held: seq<Buffer>, outside: seq<Buffer>, lost: seq<Buffer>)

  /** Every buffer the pool was created with is in exactly one place. */
  predicate Conserved(w: World) {
    |w.ch.queue| + |w.ch.pending| + |w.held| + |w.outside| + |w.lost| == w.ch.capacity
  }

  /** The steps the pool's users can take. */
  datatype Event =
    | Acquire                // `BufferPool::acquire`
    | DropGuard(g: nat)      // a guard goes out of scope
    | Release(g: nat)        // `BufferGuard::release`, then its drop
    | IntoInner(g: nat)      // `BufferGuard::into_inner`, then its drop
    | SendBack(k: nat)       // the caller sends an `into_inner` buffer back
    | Deliver                // a spawned or awaited send completes
    | ClosePool              // the last receiver goes away: the pool itself is dropped, so no acquire follows

  /**
   * `Drop for BufferGuard` once the buffer is taken: `try_send` queues it
   * when there is room, leaves it to a spawned send when the channel is
   * full, and drops it when the channel is closed.
   */
  function GiveBack(w: World, b: Buffer): (r: World)
    ensures r.ch.capacity == w.ch.capacity && r.held == w.held && r.outside == w.outside
    ensures |r.ch.queue| + |r.ch.pending| + |r.lost| == |w.ch.queue| + |w.ch.pending| + |w.lost| + 1
    ensures !w.ch.closed && |w.ch.queue| < w.ch.capacity ==> r.ch == w.ch.(queue := w.ch.queue + [b])
    ensures w.ch.closed ==> r.ch == w.ch && r.lost == w.lost + [b]
  {
    match TrySendTo(w.ch, b)
    case Sent(ch) => w.(ch := ch)
    case Full(b) => w.(ch := w.ch.(pending := w.ch.pending + [b]))
    case Closed(b) => w.(lost := w.lost + [b])
  }

  /**
   * `BufferGuard::release` followed by the guard's drop: the buffer is sent
   * back with `send(..).await`, which waits for room instead of spawning
   * (so it queues the buffer or waits in `pending`) and drops it on a closed
   * channel; the drop then finds the guard empty and returns nothing.
   */
  function ReleaseBack(w: World, b: Buffer): (r: World)
    ensures r.ch.capacity == w.ch.capacity && r.held == w.held && r.outside == w.outside
    ensures |r.ch.queue| + |r.ch.pending| + |r.lost| == |w.ch.queue| + |w.ch.pending| + |w.lost| + 1
  {
    if w.ch.closed then w.(lost := w.lost + [b])
    else if |w.ch.queue| < w.ch.capacity then w.(ch := w.ch.(queue := w.ch.queue + [b]))
    else w.(ch := w.ch.(pending := w.ch.pending + [b]))
  }

  function Without(s: seq<Buffer>, i: nat): (r: seq<Buffer>)
    requires i < |s|
    ensures |r| == |s| - 1
    ensures forall k :: 0 <= k < i ==> r[k] == s[k]
    ensures forall k :: i <= k < |r| ==> r[k] == s[k + 1]
  {
    s[..i] + s[i + 1..]
  }

  /**
   * One step, or None when it cannot happen yet (`acquire` waits for a
   * buffer, a send waits for room) or names no guard.
   */
  function Step(w: World, e: Event): Option<World> {
    match e
    case Acquire =>
      if |w.ch.queue| == 0 then None
      else Some(w.(ch := w.ch.(queue := w.ch.queue[1..]), held := w.held + [w.ch.queue[0]]))
    case DropGuard(g) =>
      if g >= |w.held| then None
      else Some(GiveBack(w.(held := Without(w.held, g)), w.held[g]))
    case Release(g) =>
      if g >= |w.held| then None
      else Some(ReleaseBack(w.(held := Without(w.held, g)), w.held[g]))
    case IntoInner(g) =>
      if g >= |w.held| then None
      else Some(w.(held := Without(w.held, g), outside := w.outside + [w.held[g]]))
    case SendBack(k) =>
      if k >= |w.outside| then None
      else Some(ReleaseBack(w.(outside := Without(w.outside, k)), w.outside[k]))
    case Deliver =>
      if |w.ch.pending| == 0 then None
      else if w.ch.closed then
        Some(w.(ch := w.ch.(pending := w.ch.pending[1..]), lost := w.lost + [w.ch.pending[0]]))
      else if |w.ch.queue| >= w.ch.capacity then None
      else Some(w.(ch := w.ch.(queue := w.ch.queue + [w.ch.pending[0]], pending := w.ch.pending[1..])))
    case ClosePool =>
      Some(w.(ch := w.ch.(closed := true)))
  }

  /** Every step keeps the buffers' count: none is made and none vanishes. */
  lemma StepConserves(w: World, e: Event)
    requires Conserved(w) && Step(w, e).Some?
    ensures Conserved(Step(w, e).value)
    ensures Step(w, e).value.ch.capacity == w.ch.capacity
  {
  }

  /** Acquiring takes the oldest queued buffer into a new guard. */
  lemma AcquireTakesOldest(w: World)
    requires |w.ch.queue| > 0
    ensures var w' := Step(w, Acquire).value;
      w'.held == w.held + [w.ch.queue[0]] && w'.ch.queue == w.ch.queue[1..]
      && |w'.ch.queue| + |w'.held| == |w.ch.queue| + |w.held|
      && AsMutSlice(w', |w.held|) == w.ch.queue[0]
  {
  }

  /**
   * While the channel is open and nothing is in flight, returning a buffer
   * always finds room: the `Full` branch of the drop (the spawned send) is
   * never taken, and nothing is left pending.
   */
  lemma NeverFull(w: World, e: Event)
    requires Conserved(w) && !w.ch.closed && w.ch.pending == [] && Step(w, e).Some?
    ensures Step(w, e).value.ch.pending == []
  {
    match e
    case DropGuard(g) =>
      assert |w.ch.queue| < w.ch.capacity;
    case Release(g) =>
      assert |w.ch.queue| < w.ch.capacity;
    case SendBack(k) =>
      assert |w.ch.queue| < w.ch.capacity;
    case _ =>
  }

  /** On an open pool, dropping a guard puts its buffer at the back of the queue. */
  lemma DropReturnsBuffer(w: World, g: nat)
    requires Conserved(w) && !w.ch.closed && g < |w.held|
    ensures var w' := Step(w, DropGuard(g)).value;
      w'.ch.queue == w.ch.queue + [AsMutSlice(w, g)] && |w'.held| == |w.held| - 1
  {
  }

  /**
   * `release` returns the buffer once: the guard is gone afterwards, so the
   * pool gains exactly one buffer and its later drop adds nothing.
   */
  lemma ReleaseReturnsOnce(w: World, g: nat)
    requires Conserved(w) && !w.ch.closed && g < |w.held|
    ensures var w' := Step(w, Release(g)).value;
      w'.ch.queue == w.ch.queue + [AsMutSlice(w, g)] && w'.held == Without(w.held, g)
      && w'.ch.pending == w.ch.pending
  {
  }

  /** After `into_inner` the pool is one buffer short until the caller sends it back. */
  lemma IntoInnerLeavesPoolShort(w: World, g: nat)
    requires Conserved(w) && g < |w.held|
    ensures var w' := Step(w, IntoInner(g)).value;
      |w'.ch.queue| + |w'.ch.pending| + |w'.held| == |w.ch.queue| + |w.ch.pending| + |w.held| - 1
      && w'.outside == w.outside + [AsMutSlice(w, g)]
  {
  }

  /** On a closed channel a returned buffer is dropped, not queued. */
  lemma ClosedDropsBuffer(w: World, g: nat)
    requires w.ch.closed && g < |w.held|
    ensures var w' := Step(w, DropGuard(g)).value;
      w'.ch == w.ch && w'.lost == w.lost + [AsMutSlice(w, g)]
  {
  }

  /** `BufferGuard::as_mut_slice` / `deref`: the buffer of live guard `g`. */
  function AsMutSlice(w: World, g: nat): (r: Buffer)
    requires g < |w.held|
    ensures r in w.held
  {
    w.held[g]
  }

  /** Runs a sequence of steps, stopping at the first that cannot happen. */
  function Run(w: World, es: seq<Event>): (r: World)
    decreases |es|
  {
    if |es| == 0 then w
    else match Step(w, es[0])
      case None => w
      case Some(w') => Run(w', es[1..])
  }

  /** From a fresh pool, any run keeps every buffer accounted for. */
  lemma {:induction false} RunConserves(w: World, es: seq<Event>)
    requires Conserved(w)
    ensures Conserved(Run(w, es)) && Run(w, es).ch.capacity == w.ch.capacity
    decreases |es|
  {
    if |es| > 0 {
      match Step(w, es[0])
      case None =>
      case Some(w') =>
        StepConserves(w, es[0]);
        RunConserves(w', es[1..]);
    }
  }

  /** While the pool stays open, no run ever needs the spawned fallback send. */
  lemma {:induction false} RunNeverFull(w: World, es: seq<Event>)
    requires Conserved(w) && !w.ch.closed && w.ch.pending == []
    requires forall i :: 0 <= i < |es| ==> es[i] != ClosePool
    ensures Run(w, es).ch.pending == [] && !Run(w, es).ch.closed
    decreases |es|
  {
    if |es| > 0 {
      match Step(w, es[0])
      case None =>
      case Some(w') =>
        StepConserves(w, es[0]);
        NeverFull(w, es[0]);
        assert !w'.ch.closed;
        RunNeverFull(w', es[1..]);
    }
  }
}
