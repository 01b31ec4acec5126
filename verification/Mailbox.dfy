/** Three bounded queues and one counting semaphore: a sender files an item and then gives
    the semaphore, a receiver takes it and then polls the queues one after the other. The
    drivers use it for received frames and, in the SPI driver, for frames to send. */
module Mailbox {
  import opened Transport

  datatype Box<T> = Box(size: nat, queues: seq<seq<T>>, sem: nat)

  /** Whether a receiver has taken the semaphore, and which queue it polls next. */
  datatype Fetch = NotFetching | Polls(cls: Class)

  predicate Shaped<T>(m: Box<T>) { m.size >= 1 && |m.queues| == 3 }

  function Total<T>(m: Box<T>): nat
    requires Shaped(m)
  {
    |m.queues[SERIAL]| + |m.queues[BT]| + |m.queues[OTHERS]|
  }

  function Empty<T>(size: nat): Box<T> { Box(size, [[], [], []], 0) }

  function Put<T>(m: Box<T>, c: Class, x: T): Box<T>
    requires Shaped(m)
  {
    m.(queues := m.queues[c := m.queues[c] + [x]])
  }

  /** The semaphore is created with room for three times the queue size. */
  function Give<T>(m: Box<T>): Box<T>
  {
    m.(sem := if m.sem < 3 * m.size then m.sem + 1 else m.sem)
  }

  function Take<T>(m: Box<T>): Box<T>
    requires m.sem > 0
  {
    m.(sem := m.sem - 1)
  }

  function Drop<T>(m: Box<T>, c: Class): Box<T>
    requires Shaped(m) && m.queues[c] != []
  {
    m.(queues := m.queues[c := m.queues[c][1..]])
  }

  /** Every item is announced by the semaphore, or is about to be announced by one of the
      `giving` senders, or is the one a receiver is fetching; and the queues a receiver has
      polled already cannot be where that one is. */
  predicate Accounts<T>(m: Box<T>, giving: nat, f: Fetch)
  {
    && Shaped(m)
    && |m.queues[SERIAL]| <= m.size && |m.queues[BT]| <= m.size && |m.queues[OTHERS]| <= m.size
    && Total(m) == m.sem + giving + (if f.Polls? then 1 else 0)
    && (f == Polls(BT) ==> |m.queues[BT]| + |m.queues[OTHERS]| > 0)
    && (f == Polls(OTHERS) ==> |m.queues[OTHERS]| > 0)
  }

  lemma PutKeeps<T>(m: Box<T>, giving: nat, f: Fetch, c: Class, x: T)
    requires Accounts(m, giving, f) && |m.queues[c]| < m.size
    ensures Accounts(Put(m, c, x), giving + 1, f)
  {
  }

  /** Giving never meets a full semaphore. */
  lemma GiveKeeps<T>(m: Box<T>, giving: nat, f: Fetch)
    requires Accounts(m, giving, f) && giving > 0
    ensures m.sem < 3 * m.size && Accounts(Give(m), giving - 1, f)
  {
  }

  lemma TakeKeeps<T>(m: Box<T>, giving: nat)
    requires Accounts(m, giving, NotFetching) && m.sem > 0
    ensures Accounts(Take(m), giving, Polls(SERIAL))
  {
  }

  /** The last poll always finds something. */
  lemma PollKeeps<T>(m: Box<T>, giving: nat, c: Class)
    requires Accounts(m, giving, Polls(c))
    ensures if m.queues[c] == [] then c < OTHERS && Accounts(m, giving, Polls(c + 1))
            else Accounts(Drop(m, c), giving, NotFetching)
  {
  }
}
