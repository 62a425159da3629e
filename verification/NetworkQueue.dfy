/**
 The queue between the user-interface thread and the network thread: a ring buffer with one
 producer and one consumer. First push and pop as the source writes them, run one at a
 time; then the same code cut into its single loads and stores, in every interleaving.
 */
module NetworkQueues {
  import opened Wrappers

  function Increment(idx: nat, capacity: nat): nat
    requires capacity > 0
  {
    (idx + 1) % capacity
  }

  lemma IncrementWraps(idx: nat, capacity: nat)
    requires idx < capacity
    ensures Increment(idx, capacity) == if idx + 1 == capacity then 0 else idx + 1
  {
  }

  /** The slot d places after start. */
  function Slot(start: nat, d: nat, capacity: nat): (r: nat)
    requires start < capacity && d <= capacity
    ensures r < capacity
  {
    if start + d < capacity then start + d else start + d - capacity
  }

  lemma SlotNext(start: nat, d: nat, capacity: nat)
    requires start < capacity && d < capacity
    ensures Slot(start, d + 1, capacity) == Increment(Slot(start, d, capacity), capacity)
    ensures d + 1 < capacity ==> Slot(Increment(start, capacity), d, capacity) == Slot(start, d + 1, capacity)
  {
    IncrementWraps(start, capacity);
    IncrementWraps(Slot(start, d, capacity), capacity);
  }

  /** The n items from slot tail on. */
  function Window<T>(buffer: seq<T>, tail: nat, n: nat): (w: seq<T>)
    requires tail < |buffer| && n <= |buffer|
    ensures |w| == n && forall i :: 0 <= i < n ==> w[i] == buffer[Slot(tail, i, |buffer|)]
  {
    seq(n, i requires 0 <= i < n => buffer[Slot(tail, i, |buffer|)])
  }

  /** Writing the free slot after the window leaves the window and lengthens it. */
  lemma {:induction false} WindowWrite<T>(buffer: seq<T>, tail: nat, n: nat, item: T)
    requires tail < |buffer| && n < |buffer|
    ensures var next := buffer[Slot(tail, n, |buffer|) := item];
            Window(next, tail, n) == Window(buffer, tail, n) && Window(next, tail, n + 1) == Window(buffer, tail, n) + [item]
  {
  }

  /** Dropping the first item moves the window one slot on. */
  lemma {:induction false} WindowDrop<T>(buffer: seq<T>, tail: nat, n: nat)
    requires tail < |buffer| && 0 < n <= |buffer|
    ensures Window(buffer, Increment(tail, |buffer|), n - 1) == Window(buffer, tail, n)[1..]
  {
    forall i | 0 <= i < n - 1
      ensures Slot(Increment(tail, |buffer|), i, |buffer|) == Slot(tail, i + 1, |buffer|)
    {
      SlotNext(tail, i, |buffer|);
    }
  }

  // ---------- one call at a time ----------

  class NetworkQueue<T(0)> {
    const m_buffer: array<T>
    var m_head: nat
    var m_tail: nat

    ghost predicate Valid()
      reads this
    {
      m_head < m_buffer.Length && m_tail < m_buffer.Length
    }

    ghost function Count(): (n: nat)
      requires Valid()
      reads this
      ensures n < m_buffer.Length && Slot(m_tail, n, m_buffer.Length) == m_head
    {
      if m_head >= m_tail then m_head - m_tail else m_head + m_buffer.Length - m_tail
    }

    /** The items in the queue, oldest first. */
    ghost function Contents(): seq<T>
      requires Valid()
      reads this, m_buffer
    {
      Window(m_buffer[..], m_tail, Count())
    }

    constructor (capacity: nat)
      requires capacity > 0
      ensures Valid() && fresh(m_buffer) && m_buffer.Length == capacity && Contents() == []
    {
      m_buffer := new T[capacity];
      m_head, m_tail := 0, 0;
    }

    /** Refused exactly when capacity - 1 items are in the queue. */
    method Push(item: T) returns (ok: bool)
      requires Valid()
      modifies this`m_head, m_buffer
      ensures Valid()
      ensures ok <==> |old(Contents())| < m_buffer.Length - 1
      ensures Contents() == if ok then old(Contents()) + [item] else old(Contents())
    {
      var head := m_head;
      var nextHead := Increment(head, m_buffer.Length);
      IncrementWraps(head, m_buffer.Length);
      if nextHead == m_tail {
        return false;
      }
      ghost var n := Count();
      WindowWrite(m_buffer[..], m_tail, n, item);
      m_buffer[head] := item;
      m_head := nextHead;
      return true;
    }

    /** Nothing exactly when the queue is empty, otherwise the oldest item. */
    method Pop() returns (r: Option<T>)
      requires Valid()
      modifies this`m_tail
      ensures Valid()
      ensures r == if old(Contents()) == [] then None else Some(old(Contents())[0])
      ensures Contents() == if old(Contents()) == [] then [] else old(Contents())[1..]
    {
      var tail := m_tail;
      if tail == m_head {
        return None;
      }
      var item := m_buffer[tail];
      WindowDrop(m_buffer[..], tail, Count());
      IncrementWraps(tail, m_buffer.Length);
      m_tail := Increment(tail, m_buffer.Length);
      return Some(item);
    }
  }

  // ---------- two threads ----------

  /** Where the producer is in push. */
  datatype Producer<T> =
    | Outside
    | LoadedHead(item: T, head: nat)
    | FoundRoom(item: T, head: nat)
    | Wrote(item: T, head: nat)

  /** Where the consumer is in pop. */
  datatype Consumer<T> =
    | Away
    | LoadedTail(tail: nat)
    | FoundItem(tail: nat)
    | Read(tail: nat, item: T)

  /** The shared memory, the two threads, and all items that were pushed and popped so far. */
  datatype Shared<T> = Shared(
    buffer: seq<T>, head: nat, tail: nat, producer: Producer<T>, consumer: Consumer<T>,
    pushed: seq<T>, popped: seq<T>)

  /** One load, store or buffer access. */
  datatype Access<T> =
    | LoadHead(item: T) | LoadTailAndCompare | WriteSlot | StoreHead
    | LoadTail | LoadHeadAndCompare | ReadSlot | StoreTail

  ghost predicate Enabled<T>(s: Shared<T>, a: Access<T>) {
    match a
    case LoadHead(_) => s.producer.Outside?
    case LoadTailAndCompare => s.producer.LoadedHead?
    case WriteSlot => s.producer.FoundRoom? && s.producer.head < |s.buffer|
    case StoreHead => s.producer.Wrote?
    case LoadTail => s.consumer.Away?
    case LoadHeadAndCompare => s.consumer.LoadedTail?
    case ReadSlot => s.consumer.FoundItem? && s.consumer.tail < |s.buffer|
    case StoreTail => s.consumer.Read?
  }

  function Next<T>(s: Shared<T>, a: Access<T>): Shared<T>
    requires Enabled(s, a) && s.buffer != []
  {
    match a
    case LoadHead(item) => s.(producer := LoadedHead(item, s.head))
    case LoadTailAndCompare =>
      s.(producer := if Increment(s.producer.head, |s.buffer|) == s.tail then Outside
                     else FoundRoom(s.producer.item, s.producer.head))
    case WriteSlot =>
      s.(buffer := s.buffer[s.producer.head := s.producer.item],
         producer := Wrote(s.producer.item, s.producer.head))
    case StoreHead =>
      s.(head := Increment(s.producer.head, |s.buffer|), producer := Outside,
         pushed := s.pushed + [s.producer.item])
    case LoadTail => s.(consumer := LoadedTail(s.tail))
    case LoadHeadAndCompare =>
      s.(consumer := if s.consumer.tail == s.head then Away else FoundItem(s.consumer.tail))
    case ReadSlot => s.(consumer := Read(s.consumer.tail, s.buffer[s.consumer.tail]))
    case StoreTail =>
      s.(tail := Increment(s.consumer.tail, |s.buffer|), consumer := Away,
         popped := s.popped + [s.consumer.item])
  }

  ghost predicate Initial<T>(s: Shared<T>) {
    && s.buffer != [] && s.head == s.tail == 0 && s.producer == Outside && s.consumer == Away
    && s.pushed == s.popped == []
  }

  ghost predicate IsRun<T>(states: seq<Shared<T>>, accesses: seq<Access<T>>) {
    && |states| == |accesses| + 1 && Initial(states[0])
    && forall i :: 0 <= i < |accesses| ==>
         Enabled(states[i], accesses[i]) && states[i].buffer != [] && states[i + 1] == Next(states[i], accesses[i])
  }

  // ---------- the invariant ----------

  ghost function InFlight<T>(s: Shared<T>): int {
    |s.pushed| - |s.popped|
  }

  /** The items pushed and not popped lie in the slots from tail on, and nowhere else. */
  ghost predicate Holds<T>(s: Shared<T>) {
    && s.tail < |s.buffer| && 0 <= InFlight(s) < |s.buffer| && s.popped <= s.pushed
    && s.head == Slot(s.tail, InFlight(s), |s.buffer|)
    && Window(s.buffer, s.tail, InFlight(s)) == s.pushed[|s.popped|..]
  }

  ghost predicate ProducerKnows<T>(s: Shared<T>)
    requires s.head < |s.buffer|
  {
    match s.producer
    case Outside => true
    case LoadedHead(_, head) => head == s.head
    case FoundRoom(_, head) => head == s.head && InFlight(s) < |s.buffer| - 1
    case Wrote(item, head) => head == s.head && InFlight(s) < |s.buffer| - 1 && s.buffer[head] == item
  }

  ghost predicate ConsumerKnows<T>(s: Shared<T>)
    requires s.popped <= s.pushed
  {
    match s.consumer
    case Away => true
    case LoadedTail(tail) => tail == s.tail
    case FoundItem(tail) => tail == s.tail && InFlight(s) > 0
    case Read(tail, item) => tail == s.tail && InFlight(s) > 0 && item == s.pushed[|s.popped|]
  }

  ghost predicate Invariant<T>(s: Shared<T>) {
    Holds(s) && ProducerKnows(s) && ConsumerKnows(s)
  }

  lemma {:induction false} FreeSlotIsNotHeld(tail: nat, n: nat, capacity: nat, i: nat)
    requires tail < capacity && i < n < capacity
    ensures Slot(tail, i, capacity) != Slot(tail, n, capacity)
  {
  }

  lemma {:induction false} CompareTailKeeps<T>(s: Shared<T>)
    requires Invariant(s) && Enabled(s, LoadTailAndCompare)
    ensures Invariant(Next(s, LoadTailAndCompare))
    ensures Next(s, LoadTailAndCompare).producer.Outside? <==> InFlight(s) == |s.buffer| - 1
  {
    IncrementWraps(s.head, |s.buffer|);
  }

  lemma {:induction false} WriteSlotKeeps<T>(s: Shared<T>)
    requires Invariant(s) && Enabled(s, WriteSlot)
    ensures Invariant(Next(s, WriteSlot))
  {
    WindowWrite(s.buffer, s.tail, InFlight(s), s.producer.item);
  }

  lemma {:induction false} StoreHeadKeeps<T>(s: Shared<T>)
    requires Invariant(s) && Enabled(s, StoreHead)
    ensures Invariant(Next(s, StoreHead))
  {
    var n, item := InFlight(s), s.producer.item;
    SlotNext(s.tail, n, |s.buffer|);
    WindowWrite(s.buffer, s.tail, n, item);
    assert s.buffer[s.head := item] == s.buffer;
    assert (s.pushed + [item])[|s.popped|..] == s.pushed[|s.popped|..] + [item];
  }

  lemma {:induction false} CompareHeadKeeps<T>(s: Shared<T>)
    requires Invariant(s) && Enabled(s, LoadHeadAndCompare)
    ensures Invariant(Next(s, LoadHeadAndCompare))
    ensures Next(s, LoadHeadAndCompare).consumer.Away? <==> InFlight(s) == 0
  {
  }

  lemma {:induction false} ReadSlotKeeps<T>(s: Shared<T>)
    requires Invariant(s) && Enabled(s, ReadSlot)
    ensures Invariant(Next(s, ReadSlot))
  {
    assert Window(s.buffer, s.tail, InFlight(s))[0] == s.buffer[s.tail];
  }

  lemma {:induction false} NextOfPrefix<T>(popped: seq<T>, pushed: seq<T>)
    requires popped < pushed
    ensures popped + [pushed[|popped|]] <= pushed
    ensures pushed[|popped|..][1..] == pushed[|popped| + 1..]
  {
  }

  lemma {:induction false} StoreTailKeeps<T>(s: Shared<T>)
    requires Invariant(s) && Enabled(s, StoreTail)
    ensures Invariant(Next(s, StoreTail))
  {
    var n := InFlight(s);
    WindowDrop(s.buffer, s.tail, n);
    SlotNext(s.tail, n - 1, |s.buffer|);
    IncrementWraps(s.tail, |s.buffer|);
    NextOfPrefix(s.popped, s.pushed);
  }

  lemma {:induction false} StepKeeps<T>(s: Shared<T>, a: Access<T>)
    requires Invariant(s) && Enabled(s, a)
    ensures Invariant(Next(s, a))
  {
    match a
    case LoadHead(_) =>
    case LoadTailAndCompare => CompareTailKeeps(s);
    case WriteSlot => WriteSlotKeeps(s);
    case StoreHead => StoreHeadKeeps(s);
    case LoadTail =>
    case LoadHeadAndCompare => CompareHeadKeeps(s);
    case ReadSlot => ReadSlotKeeps(s);
    case StoreTail => StoreTailKeeps(s);
  }

  lemma {:induction false} RunKeeps<T>(states: seq<Shared<T>>, accesses: seq<Access<T>>, k: nat)
    requires IsRun(states, accesses) && k < |states|
    ensures Invariant(states[k])
  {
    if k == 0 {
    } else {
      RunKeeps(states, accesses, k - 1);
      StepKeeps(states[k - 1], accesses[k - 1]);
    }
  }

  // ---------- the guarantees ----------

  /**
   In every interleaving the popped items are a prefix of the pushed ones: in order, none
   lost, none repeated; and the rest, at most capacity - 1 of them, is in the buffer.
   */
  lemma {:induction false} PoppedIsPrefix<T>(states: seq<Shared<T>>, accesses: seq<Access<T>>, k: nat)
    requires IsRun(states, accesses) && k < |states|
    ensures states[k].popped <= states[k].pushed
    ensures |states[k].pushed| - |states[k].popped| < |states[k].buffer|
  {
    RunKeeps(states, accesses, k);
  }

  /** When the producer is about to write a slot, the consumer is not about to read that slot. */
  lemma {:induction false} SlotsNeverConflict<T>(states: seq<Shared<T>>, accesses: seq<Access<T>>, k: nat, i: nat)
    requires IsRun(states, accesses) && k < |states|
    requires states[k].producer.FoundRoom? && i < |states[k].pushed| - |states[k].popped|
    ensures var s := states[k];
            && s.tail < |s.buffer| && i < |s.buffer|
            && s.producer.head != Slot(s.tail, i, |s.buffer|)
            && (s.consumer.FoundItem? ==> s.producer.head != s.consumer.tail)
  {
    RunKeeps(states, accesses, k);
    var s := states[k];
    FreeSlotIsNotHeld(s.tail, InFlight(s), |s.buffer|, i);
    FreeSlotIsNotHeld(s.tail, InFlight(s), |s.buffer|, 0);
  }

  /** Neither thread ever has to wait for the other, and no access misses the buffer. */
  lemma {:induction false} NeverBlocked<T>(states: seq<Shared<T>>, accesses: seq<Access<T>>, k: nat, item: T)
    requires IsRun(states, accesses) && k < |states|
    ensures var s := states[k];
            && s.buffer != []
            && Enabled(s, match s.producer case Outside => LoadHead(item) case LoadedHead(_, _) => LoadTailAndCompare
                                           case FoundRoom(_, _) => WriteSlot case Wrote(_, _) => StoreHead)
            && Enabled(s, match s.consumer case Away => LoadTail case LoadedTail(_) => LoadHeadAndCompare
                                           case FoundItem(_) => ReadSlot case Read(_, _) => StoreTail)
  {
    RunKeeps(states, accesses, k);
  }

  /** What a caller of the queue can observe at each access. */
  datatype Event<T> = Internal | Enqueued(item: T) | Full | Dequeued(item: T) | Empty

  ghost function Observed<T>(s: Shared<T>, a: Access<T>): Event<T>
    requires Enabled(s, a) && s.buffer != []
  {
    match a
    case LoadTailAndCompare => if Next(s, a).producer.Outside? then Full else Internal
    case StoreHead => Enqueued(s.producer.item)
    case LoadHeadAndCompare => if Next(s, a).consumer.Away? then Empty else Internal
    case StoreTail => Dequeued(s.consumer.item)
    case _ => Internal
  }

  /** A first-in first-out queue of bounded length, all of whose operations are atomic. */
  ghost predicate FifoStep<T>(q: seq<T>, bound: nat, e: Event<T>, next: seq<T>) {
    match e
    case Internal => next == q
    case Enqueued(item) => |q| < bound && next == q + [item]
    case Full => |q| == bound && next == q
    case Dequeued(item) => q != [] && item == q[0] && next == q[1..]
    case Empty => q == [] && next == q
  }

  ghost function Items<T>(s: Shared<T>): seq<T>
    requires |s.popped| <= |s.pushed|
  {
    s.pushed[|s.popped|..]
  }

  /**
   Refinement: in every interleaving each access of the ring buffer is a step of the atomic
   queue. In particular push reports full only if capacity - 1 items were present when it
   read m_tail, and pop reports empty only if none was when it read m_head.
   */
  lemma {:induction false} RefinesFifo<T>(states: seq<Shared<T>>, accesses: seq<Access<T>>, k: nat)
    requires IsRun(states, accesses) && k < |accesses|
    ensures |states[k].popped| <= |states[k].pushed| && |states[k + 1].popped| <= |states[k + 1].pushed|
    ensures states[k].buffer != [] && FifoStep(Items(states[k]), |states[k].buffer| - 1,
                                               Observed(states[k], accesses[k]), Items(states[k + 1]))
  {
    RunKeeps(states, accesses, k);
    RunKeeps(states, accesses, k + 1);
    StepRefines(states[k], accesses[k]);
  }

  lemma {:induction false} StepRefines<T>(s: Shared<T>, a: Access<T>)
    requires Invariant(s) && Enabled(s, a) && Invariant(Next(s, a))
    ensures FifoStep(Items(s), |s.buffer| - 1, Observed(s, a), Items(Next(s, a)))
  {
    match a
    case LoadTailAndCompare => CompareTailKeeps(s);
    case LoadHeadAndCompare => CompareHeadKeeps(s);
    case StoreHead => assert (s.pushed + [s.producer.item])[|s.popped|..] == Items(s) + [s.producer.item];
    case StoreTail => assert Items(s)[1..] == s.pushed[|s.popped| + 1..];
    case _ =>
  }

  /** A push that no pop interrupts does what the method Push does. */
  lemma {:induction false} UninterruptedPush<T>(s: Shared<T>, item: T)
    requires Invariant(s) && s.producer.Outside?
    ensures var s2 := Next(Next(s, LoadHead(item)), LoadTailAndCompare);
            if |Items(s)| == |s.buffer| - 1 then s2.producer.Outside? && Items(s2) == Items(s)
            else Enabled(s2, WriteSlot) && Items(Next(Next(s2, WriteSlot), StoreHead)) == Items(s) + [item]
  {
    var s1 := Next(s, LoadHead(item));
    CompareTailKeeps(s1);
    assert (s.pushed + [item])[|s.popped|..] == Items(s) + [item];
  }

  /** A pop that no push interrupts does what the method Pop does. */
  lemma {:induction false} UninterruptedPop<T>(s: Shared<T>)
    requires Invariant(s) && s.consumer.Away?
    ensures var s2 := Next(Next(s, LoadTail), LoadHeadAndCompare);
            if Items(s) == [] then s2.consumer.Away? && Items(s2) == []
            else Enabled(s2, ReadSlot) && Next(s2, ReadSlot).consumer.item == Items(s)[0]
                 && Items(Next(Next(s2, ReadSlot), StoreTail)) == Items(s)[1..]
  {
  }
}
