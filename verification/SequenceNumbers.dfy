/** Task sequence numbers: a wrapping 64-bit counter that skips zero, compared by a wrapping difference. */
module SequenceNumbers {

  const TWO_63: int := 0x8000_0000_0000_0000
  const TWO_64: int := 0x1_0000_0000_0000_0000

  /** The int64 that n wraps around to. */
  function Wrap64(n: int): (r: int)
    ensures -TWO_63 <= r < TWO_63
  {
    var m := n % TWO_64;
    if m < TWO_63 then m else m - TWO_64
  }

  /** nextSequenceNumber: increments the int64 counter until the result is not zero. */
  function NextSequenceNumber(counter: int): (seqno: int)
    ensures seqno != 0
    decreases if Wrap64(counter + 1) == 0 then 1 else 0
  {
    var seqno := Wrap64(counter + 1);
    if seqno == 0 then NextSequenceNumber(seqno) else seqno
  }

  /** The Less function of the insertion-order queue. */
  predicate SeqLess(a: int, b: int) {
    Wrap64(a - b) < 0
  }

  /** A ticket counts increments without wrapping; a task's sequence number is its ticket wrapped. */
  function NextTicket(ticket: nat): (r: nat)
    ensures ticket < r && Wrap64(r) != 0
  {
    if Wrap64(ticket + 1) == 0 then ticket + 2 else ticket + 1
  }

  lemma WrapsTo(n: int, m: int)
    ensures Wrap64(n) == Wrap64(m) <==> (n - m) % TWO_64 == 0
  {
  }

  /** The wrapped ticket follows the wrapping counter. */
  lemma TicketFollowsCounter(ticket: nat)
    ensures NextSequenceNumber(Wrap64(ticket)) == Wrap64(NextTicket(ticket))
  {
    WrapNext(ticket);
    WrapNext(ticket + 1);
  }

  lemma WrapNext(n: int)
    ensures Wrap64(Wrap64(n) + 1) == Wrap64(n + 1)
  {
    WrapsTo(Wrap64(n) + 1, n + 1);
  }

  lemma WrapShift(n: int, k: int)
    ensures Wrap64(n + k * TWO_64) == Wrap64(n)
  {
    WrapsTo(n + k * TWO_64, n);
  }

  /** How many times 2^64 the wrapping takes off. */
  function Turns(n: int): (k: int)
    ensures Wrap64(n) == n - k * TWO_64
  {
    if n % TWO_64 < TWO_63 then n / TWO_64 else n / TWO_64 + 1
  }

  lemma WrappedDifference(a: int, b: int)
    ensures Wrap64(Wrap64(a) - Wrap64(b)) == Wrap64(a - b)
  {
    WrapShift(a - b, Turns(b) - Turns(a));
  }

  /** How the wrapping comparison relates any two tickets. */
  lemma SeqLessByDistance(a: nat, b: nat)
    ensures SeqLess(Wrap64(a), Wrap64(b)) <==> 0 < (b - a) % TWO_64 <= TWO_63
    ensures SeqLess(Wrap64(b), Wrap64(a)) <==> TWO_63 <= (b - a) % TWO_64
  {
    WrappedDifference(a, b);
    WrappedDifference(b, a);
    OppositeRemainder(b - a);
  }

  lemma OppositeRemainder(n: int)
    ensures (-n) % TWO_64 == if n % TWO_64 == 0 then 0 else TWO_64 - n % TWO_64
  {
    var q, r := n / TWO_64, n % TWO_64;
    assert n == q * TWO_64 + r;
    if r == 0 {
      RemainderOf(-q, 0);
    } else {
      RemainderOf(-q - 1, TWO_64 - r);
    }
  }

  lemma RemainderOf(q: int, r: int)
    requires 0 <= r < TWO_64
    ensures (q * TWO_64 + r) % TWO_64 == r
  {
  }

  /**
   * The wrapping comparison puts one ticket before another, and not also behind it, exactly when the way
   * from the first to the second is less than 2^63, modulo 2^64.
   */
  lemma SeqLessIsTicketOrderIff(a: nat, b: nat)
    ensures SeqLess(Wrap64(a), Wrap64(b)) && !SeqLess(Wrap64(b), Wrap64(a)) <==> 0 < (b - a) % TWO_64 < TWO_63
  {
    SeqLessByDistance(a, b);
  }

  lemma SeqLessClose(a: nat, b: nat)
    requires -TWO_63 < a - b < TWO_63
    ensures SeqLess(Wrap64(a), Wrap64(b)) <==> a < b
  {
    if a < b {
      SeqLessByDistance(a, b);
    } else if b < a {
      SeqLessByDistance(b, a);
    }
  }

  /** Two tickets 2^63 apart are each below the other. */
  lemma SeqLessBreaksDown()
    ensures SeqLess(Wrap64(1), Wrap64(1 + TWO_63)) && SeqLess(Wrap64(1 + TWO_63), Wrap64(1))
  {
    SeqLessByDistance(1, 1 + TWO_63);
  }

  /** The n-th ticket ever drawn, counting from one. */
  function Ticket(n: nat): nat {
    if n == 0 then 0 else NextTicket(Ticket(n - 1))
  }

  lemma NextTicketSkipsZero(t: nat)
    requires t == 0 || t % TWO_64 != 0
    ensures NextTicket(t) % TWO_64 != 0
    ensures NextTicket(t) - NextTicket(t) / TWO_64 == t - t / TWO_64 + 1
  {
    assert Wrap64(t + 1) == 0 <==> (t + 1) % TWO_64 == 0;
  }

  /** Tickets run ahead of draws by the multiples of 2^64 that were skipped. */
  lemma {:induction false} TicketsSkipZero(n: nat)
    ensures Ticket(n) == n + Ticket(n) / TWO_64
    ensures 0 < n ==> Ticket(n) % TWO_64 != 0
  {
    if 0 < n {
      TicketsSkipZero(n - 1);
      NextTicketSkipsZero(Ticket(n - 1));
    }
  }

  lemma {:induction false} TicketsIncrease(m: nat, n: nat)
    requires m < n
    ensures Ticket(m) < Ticket(n)
  {
    if m < n - 1 {
      TicketsIncrease(m, n - 1);
    }
  }

  /**
   * Among any fewer than 2^63 consecutive draws the wrapping comparison of sequence numbers is the
   * order of drawing: a strict total order.
   */
  lemma SequenceOrderIsDrawOrder(first: nat, m: nat, n: nat)
    requires 0 < first <= m && first <= n && m - first < TWO_63 - 1 && n - first < TWO_63 - 1
    ensures SeqLess(Wrap64(Ticket(m)), Wrap64(Ticket(n))) <==> m < n
  {
    if m < n {
      DrawsApart(m, n);
    } else if n < m {
      DrawsApart(n, m);
    }
    SeqLessClose(Ticket(m), Ticket(n));
  }

  lemma DrawsApart(m: nat, n: nat)
    requires m < n && n - m < TWO_63 - 1
    ensures 0 < Ticket(n) - Ticket(m) < TWO_63
  {
    TicketsIncrease(m, n);
    TicketsSkipZero(m);
    TicketsSkipZero(n);
  }
}
