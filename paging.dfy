/**
 * The address arithmetic of BSP_QSPI_Write: how a write of `size` bytes at
 * `writeAddr` is cut into page-program chunks. `ChunksFrom` is the sequence
 * of (address, NbData) pairs the do-while loop hands to the program
 * command; the lemmas state that the chunks stay inside one page each, are
 * contiguous, and cover [writeAddr, writeAddr + size) exactly.
 */
module Paging {
  import opened FlashConfig

  /** One program command: the address it carries and its NbData. */
  datatype Chunk = Chunk(addr: nat, size: nat)

  /**
   * The first chunk: the room left in the page of `writeAddr`, or the whole
   * write when that is smaller (source lines 191-196).
   */
  function FirstChunkSize(writeAddr: nat, size: nat, page: nat): (n: nat)
    requires page > 0
    ensures n <= size
    ensures writeAddr % page + n <= page
    ensures n == size || writeAddr % page + n == page
  {
    var room := page - writeAddr % page;
    if room > size then size else room
  }

  /**
   * Every later chunk: a whole page, or what is left before `end` when that
   * is less (source lines 244-246, with the comparison done without
   * wrap-around; see NextChunkSizeAsWritten).
   */
  function NextChunkSize(cur: nat, end: nat, page: nat): (n: nat)
    requires cur <= end
    ensures n <= page && cur + n <= end
    ensures n == page || cur + n == end
  {
    if cur + page > end then end - cur else page
  }

  /**
   * Lines 244-246 exactly as written: `current_addr + MX25L512_PAGE_SIZE`
   * is computed in 32 bits and wraps to a small number near the top of the
   * address space. It agrees with NextChunkSize whenever that sum fits.
   */
  function NextChunkSizeAsWritten(cur: nat, end: nat, page: nat): (n: nat)
    requires cur <= end < U32_LIMIT && page < U32_LIMIT
    ensures cur + page < U32_LIMIT ==> n == NextChunkSize(cur, end, page)
  {
    if (cur + page) % U32_LIMIT > end then end - cur else page
  }

  /**
   * The wrap-around in NextChunkSizeAsWritten lets a chunk overrun the end
   * of the write: with 256-byte pages, a write of 0x170 bytes at
   * 0xFFFF_FE80 (so end_addr = 0xFFFF_FFF0 fits in 32 bits) programs its
   * second chunk at 0xFFFF_FF00 with NbData = 256, 16 bytes past the end,
   * and then `current_addr` wraps to 0, which is below end_addr, so the loop
   * goes on programming from address 0.
   */
  lemma AsWrittenOverrunsEnd()
    ensures FirstChunkSize(0xFFFF_FE80, 0x170, 256) == 0x80
    ensures var cur, end := 0xFFFF_FE80 + 0x80, 0xFFFF_FE80 + 0x170;
      && NextChunkSizeAsWritten(cur, end, 256) == 256
      && cur + 256 > end
      && (cur + 256) % U32_LIMIT == 0 < end
  {
  }

  /**
   * The chunks the do-while loop issues, starting with a chunk of `n` bytes
   * at `cur`, for a write that ends at `end`. The loop runs its body once
   * before testing `current_addr < end_addr`, so there is always a first
   * chunk, even an empty one.
   */
  function ChunksFrom(cur: nat, n: nat, end: nat, page: nat): (cs: seq<Chunk>)
    requires page > 0 && cur + n <= end && (n == 0 ==> cur == end)
    decreases end - cur
  {
    var next := cur + n;
    [Chunk(cur, n)]
      + (if next < end then ChunksFrom(next, NextChunkSize(next, end, page), end, page) else [])
  }

  /** One turn of the do-while loop: the first chunk, then the chunks from where it ends. */
  lemma ChunksFromStep(cur: nat, n: nat, end: nat, page: nat)
    requires page > 0 && cur + n <= end && (n == 0 ==> cur == end)
    ensures ChunksFrom(cur, n, end, page)
            == [Chunk(cur, n)] + (if cur + n < end
                                  then ChunksFrom(cur + n, NextChunkSize(cur + n, end, page), end, page)
                                  else [])
  {
  }

  /**
   * The plan seen from inside the loop: when the chunks still to issue are
   * those from Chunk(cur, n) on, issuing it leaves the chunks from the next
   * address on, or none when it ended the write.
   */
  lemma PlanStep(plan: seq<Chunk>, done: seq<Chunk>, cur: nat, n: nat, end: nat, page: nat)
    requires page > 0 && cur + n <= end && (n == 0 ==> cur == end)
    requires plan == done + ChunksFrom(cur, n, end, page)
    ensures cur + n < end ==>
      plan == (done + [Chunk(cur, n)]) + ChunksFrom(cur + n, NextChunkSize(cur + n, end, page), end, page)
    ensures cur + n == end ==> plan == done + [Chunk(cur, n)]
  {
    var next := cur + n;
    ChunksFromStep(cur, n, end, page);
    if next < end {
      ChunksAssoc(done, [Chunk(cur, n)], ChunksFrom(next, NextChunkSize(next, end, page), end, page));
    } else {
      assert ChunksFrom(cur, n, end, page) == [Chunk(cur, n)] + [];
      assert [Chunk(cur, n)] + [] == [Chunk(cur, n)];
    }
  }

  /**
   * The write loop's bookkeeping after a pass: with Chunk(cur0, n0) moved to
   * the chunks done, the plan is the chunks done followed by the chunks from
   * the next address on, whose first has the next chunk size.
   */
  lemma PlanAdvance(plan: seq<Chunk>, done0: seq<Chunk>, cur0: nat, n0: nat, end: nat, page: nat,
                    done: seq<Chunk>, cur: nat, n: nat)
    requires page > 0 && cur0 + n0 <= end && (n0 == 0 ==> cur0 == end)
    requires plan == done0 + ChunksFrom(cur0, n0, end, page)
    requires done == done0 + [Chunk(cur0, n0)] && cur == cur0 + n0 && cur < end
    requires n == NextChunkSize(cur, end, page)
    ensures plan == done + ChunksFrom(cur, n, end, page)
  {
    PlanStep(plan, done0, cur0, n0, end, page);
  }

  /** The chunks BSP_QSPI_Write issues for `size` bytes at `writeAddr`. */
  function Plan(writeAddr: nat, size: nat, page: nat): seq<Chunk>
    requires page > 0
  {
    ChunksFrom(writeAddr, FirstChunkSize(writeAddr, size, page), writeAddr + size, page)
  }

  function SumSizes(cs: seq<Chunk>): nat
  {
    if cs == [] then 0 else cs[0].size + SumSizes(cs[1..])
  }

  /** No chunk crosses a page boundary: it starts and ends inside one page. */
  predicate WithinPage(c: Chunk, page: nat)
    requires page > 0
  {
    c.addr % page + c.size <= page
  }

  /** Each chunk starts where the previous one ended. */
  predicate Contiguous(cs: seq<Chunk>)
  {
    forall i | 0 <= i < |cs| - 1 :: cs[i + 1].addr == cs[i].addr + cs[i].size
  }

  lemma MulAtLeast(k: int, p: int)
    requires k >= 1 && p > 0
    ensures k * p >= p
  {
    assert k * p == (k - 1) * p + p;
    assert (k - 1) * p >= 0;
  }

  /** Quotient and remainder are unique. */
  lemma DivModUnique(a: int, p: int, q: int, r: int)
    requires p > 0 && 0 <= r < p && a == q * p + r
    ensures a % p == r && a / p == q
  {
    var q', r' := a / p, a % p;
    assert a == q' * p + r';
    if q' < q {
      assert (q - q') * p == r' - r;
      MulAtLeast(q - q', p);
    } else if q' > q {
      assert (q' - q) * p == r - r';
      MulAtLeast(q' - q, p);
    }
  }

  lemma AlignedStep(x: nat, page: nat)
    requires page > 0 && x % page == 0
    ensures (x + page) % page == 0
  {
    assert x == (x / page) * page;
    DivModUnique(x + page, page, x / page + 1, 0);
  }

  /** The chunks start with Chunk(cur, n) and the last one ends exactly at `end`. */
  lemma {:induction false} ChunksFromEnds(cur: nat, n: nat, end: nat, page: nat)
    requires page > 0 && cur + n <= end && (n == 0 ==> cur == end)
    ensures var cs := ChunksFrom(cur, n, end, page);
      && |cs| > 0 && cs[0] == Chunk(cur, n)
      && cs[|cs| - 1].addr + cs[|cs| - 1].size == end
    decreases end - cur
  {
    var next := cur + n;
    if next < end {
      var m := NextChunkSize(next, end, page);
      ChunksFromEnds(next, m, end, page);
      var rest := ChunksFrom(next, m, end, page);
      assert ChunksFrom(cur, n, end, page) == [Chunk(cur, n)] + rest;
    }
  }

  /** Each chunk starts where the previous one ended. */
  lemma {:induction false} ChunksFromContiguous(cur: nat, n: nat, end: nat, page: nat)
    requires page > 0 && cur + n <= end && (n == 0 ==> cur == end)
    ensures Contiguous(ChunksFrom(cur, n, end, page))
    decreases end - cur
  {
    var cs := ChunksFrom(cur, n, end, page);
    var next := cur + n;
    if next < end {
      var m := NextChunkSize(next, end, page);
      var rest := ChunksFrom(next, m, end, page);
      ChunksFromContiguous(next, m, end, page);
      ChunksFromEnds(next, m, end, page);
      assert cs == [Chunk(cur, n)] + rest;
      forall i | 0 <= i < |cs| - 1
        ensures cs[i + 1].addr == cs[i].addr + cs[i].size
      {
        if i > 0 {
          assert cs[i] == rest[i - 1] && cs[i + 1] == rest[i];
        }
      }
    }
  }

  /** The sizes of the chunks add up to `end - cur`. */
  lemma {:induction false} ChunksFromSum(cur: nat, n: nat, end: nat, page: nat)
    requires page > 0 && cur + n <= end && (n == 0 ==> cur == end)
    ensures SumSizes(ChunksFrom(cur, n, end, page)) == end - cur
    decreases end - cur
  {
    var cs := ChunksFrom(cur, n, end, page);
    var next := cur + n;
    if next < end {
      var m := NextChunkSize(next, end, page);
      var rest := ChunksFrom(next, m, end, page);
      ChunksFromSum(next, m, end, page);
      assert cs == [Chunk(cur, n)] + rest;
      assert cs[1..] == rest;
    } else {
      assert cs == [Chunk(cur, n)];
      assert cs[1..] == [];
    }
  }

  /**
   * Every chunk after the first is non-empty and has the size the loop's
   * update computes from its own address.
   */
  lemma {:induction false} ChunksFromSizes(cur: nat, n: nat, end: nat, page: nat)
    requires page > 0 && cur + n <= end && (n == 0 ==> cur == end)
    ensures var cs := ChunksFrom(cur, n, end, page);
      forall i | 0 < i < |cs| ::
        cs[i].size > 0 && cs[i].addr <= end
        && cs[i].size == NextChunkSize(cs[i].addr, end, page)
    decreases end - cur
  {
    var cs := ChunksFrom(cur, n, end, page);
    var next := cur + n;
    if next < end {
      var m := NextChunkSize(next, end, page);
      ChunksFromSizes(next, m, end, page);
      ChunksFromEnds(next, m, end, page);
      var rest := ChunksFrom(next, m, end, page);
      assert cs == [Chunk(cur, n)] + rest;
      forall i | 0 < i < |cs|
        ensures cs[i].size > 0 && cs[i].addr <= end
        ensures cs[i].size == NextChunkSize(cs[i].addr, end, page)
      {
        assert cs[i] == rest[i - 1];
      }
    } else {
      assert cs == [Chunk(cur, n)];
    }
  }

  /**
   * No chunk crosses a page boundary, given that the first chunk does not
   * and that it ends at a page boundary or at the end of the write.
   */
  lemma {:induction false} ChunksFromWithinPages(cur: nat, n: nat, end: nat, page: nat)
    requires page > 0 && cur + n <= end && (n == 0 ==> cur == end)
    requires cur % page + n <= page
    requires cur + n < end ==> (cur + n) % page == 0
    ensures forall c | c in ChunksFrom(cur, n, end, page) :: WithinPage(c, page)
    decreases end - cur
  {
    var cs := ChunksFrom(cur, n, end, page);
    var next := cur + n;
    if next < end {
      var m := NextChunkSize(next, end, page);
      if next + m < end {
        assert m == page;
        AlignedStep(next, page);
      }
      ChunksFromWithinPages(next, m, end, page);
      var rest := ChunksFrom(next, m, end, page);
      assert cs == [Chunk(cur, n)] + rest;
      assert WithinPage(Chunk(cur, n), page);
    } else {
      assert cs == [Chunk(cur, n)];
    }
  }

  /**
   * The write plan covers the write exactly: it starts with the first chunk
   * (from `writeAddr` to the end of that page or of the write), its chunks
   * are contiguous, the last ends at `writeAddr + size`, and the sizes add
   * up to `size`.
   */
  lemma PlanCovers(writeAddr: nat, size: nat, page: nat)
    requires page > 0
    ensures var cs := Plan(writeAddr, size, page);
      && |cs| > 0
      && cs[0] == Chunk(writeAddr, FirstChunkSize(writeAddr, size, page))
      && Contiguous(cs)
      && cs[|cs| - 1].addr + cs[|cs| - 1].size == writeAddr + size
      && SumSizes(cs) == size
  {
    var n, end := FirstChunkSize(writeAddr, size, page), writeAddr + size;
    ChunksFromEnds(writeAddr, n, end, page);
    ChunksFromContiguous(writeAddr, n, end, page);
    ChunksFromSum(writeAddr, n, end, page);
  }

  /** The chunks of the plan hold `size` bytes in all. */
  lemma PlanSum(writeAddr: nat, size: nat, page: nat)
    requires page > 0
    ensures SumSizes(Plan(writeAddr, size, page)) == size
  {
    ChunksFromSum(writeAddr, FirstChunkSize(writeAddr, size, page), writeAddr + size, page);
  }

  /** Every chunk of the plan after the first is non-empty and is a whole page or the remainder. */
  lemma PlanSizes(writeAddr: nat, size: nat, page: nat)
    requires page > 0
    ensures var cs := Plan(writeAddr, size, page);
      forall i | 0 < i < |cs| ::
        cs[i].size > 0 && cs[i].addr <= writeAddr + size
        && cs[i].size == NextChunkSize(cs[i].addr, writeAddr + size, page)
  {
    var n, end := FirstChunkSize(writeAddr, size, page), writeAddr + size;
    ChunksFromSizes(writeAddr, n, end, page);
    assert Plan(writeAddr, size, page) == ChunksFrom(writeAddr, n, end, page);
  }

  /** No chunk of the plan crosses a page boundary. */
  lemma PlanWithinPages(writeAddr: nat, size: nat, page: nat)
    requires page > 0
    ensures forall c | c in Plan(writeAddr, size, page) :: WithinPage(c, page)
  {
    FirstChunkAligned(writeAddr, size, page);
    ChunksFromWithinPages(writeAddr, FirstChunkSize(writeAddr, size, page), writeAddr + size, page);
  }

  /** A first chunk that stops short of the end of the write stops at a page boundary. */
  lemma FirstChunkAligned(writeAddr: nat, size: nat, page: nat)
    requires page > 0
    ensures var n := FirstChunkSize(writeAddr, size, page);
      n < size ==> (writeAddr + n) % page == 0
  {
    var n := FirstChunkSize(writeAddr, size, page);
    if n < size {
      assert writeAddr == (writeAddr / page) * page + writeAddr % page;
      DivModUnique(writeAddr + n, page, writeAddr / page + 1, 0);
    }
  }

  /** An empty write still issues exactly one (empty) program command. */
  lemma EmptyWritePlan(writeAddr: nat, page: nat)
    requires page > 0
    ensures Plan(writeAddr, 0, page) == [Chunk(writeAddr, 0)]
  {
  }

  /**
   * The data pointer advances in step with the address: the chunks before
   * chunk k hold exactly `cs[k].addr - writeAddr` bytes, so chunk k transmits
   * pData[cs[k].addr - writeAddr ..][.. cs[k].size].
   */
  lemma {:induction false} OffsetsFollowAddresses(cs: seq<Chunk>, start: nat, k: nat)
    requires |cs| > 0 && cs[0].addr == start && Contiguous(cs) && k < |cs|
    ensures cs[k].addr == start + SumSizes(cs[..k])
  {
    if k > 0 {
      OffsetsFollowAddresses(cs, start, k - 1);
      SumSizesSnoc(cs[..k - 1], cs[k - 1]);
      assert cs[..k] == cs[..k - 1] + [cs[k - 1]];
    }
  }

  /** Joining chunk lists does not depend on how they are grouped. */
  lemma ChunksAssoc(a: seq<Chunk>, b: seq<Chunk>, c: seq<Chunk>)
    ensures a + (b + c) == (a + b) + c
  {
  }

  lemma {:induction false} SumSizesAppend(a: seq<Chunk>, b: seq<Chunk>)
    ensures SumSizes(a + b) == SumSizes(a) + SumSizes(b)
  {
    if a == [] {
      assert a + b == b;
    } else {
      assert (a + b)[1..] == a[1..] + b;
      SumSizesAppend(a[1..], b);
    }
  }

  lemma {:induction false} SumSizesSnoc(cs: seq<Chunk>, c: Chunk)
    ensures SumSizes(cs + [c]) == SumSizes(cs) + c.size
  {
    if cs != [] {
      assert (cs + [c])[1..] == cs[1..] + [c];
      SumSizesSnoc(cs[1..], c);
    }
  }
}
