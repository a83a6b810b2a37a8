/** The bump allocator behind the network card's DMA buffers. */
module DmaArena {
  import opened Wrappers
  import opened Protocol
  import opened Frames

  const PAGE_SIZE: nat := 4096
  const ARENA_PAGES: nat := 64

  // ── the counter ────────────────────────────────────────────────────────

  /** The sum of the page counter and a request leaves 64 bits. */
  predicate Wraps(next: u64, pages: u64) {
    next + pages >= 0x1_0000_0000_0000_0000
  }

  /** 64-bit sum. */
  function Bumped(next: u64, pages: u64): u64 {
    (next + pages) % 0x1_0000_0000_0000_0000
  }

  /** What the assertion lets through; a build with overflow checks also stops
      at the sum itself. */
  predicate Accepts(checked: bool, next: u64, pages: u64) {
    !(checked && Wraps(next, pages)) && Bumped(next, pages) <= ARENA_PAGES
  }

  /** The pages are there. */
  predicate Fits(next: u64, pages: u64) {
    next + pages <= ARENA_PAGES
  }

  /** The assertion lets through exactly the requests that fit and, in a build
      without overflow checks, those whose sum wraps to a small one. */
  lemma AcceptsExactly(checked: bool, next: u64, pages: u64)
    requires next <= ARENA_PAGES
    ensures Accepts(checked, next, pages) <==>
      Fits(next, pages) || (!checked && Wraps(next, pages))
  {
    if Wraps(next, pages) {
      assert Bumped(next, pages) == next + pages - 0x1_0000_0000_0000_0000;
    } else {
      assert Bumped(next, pages) == next + pages;
    }
  }

  /** So accepted requests fit exactly when the sum does not wrap. */
  lemma AcceptedFitsUnlessWrapped(next: u64, pages: u64)
    requires next <= ARENA_PAGES && Accepts(false, next, pages)
    ensures Fits(next, pages) <==> !Wraps(next, pages)
  {
    AcceptsExactly(false, next, pages);
  }

  /** Such a request exists. */
  lemma WrappedRequestExists()
    ensures Accepts(false, 10, 0xFFFF_FFFF_FFFF_FFFB) && !Fits(10, 0xFFFF_FFFF_FFFF_FFFB)
    ensures Bumped(10, 0xFFFF_FFFF_FFFF_FFFB) == 5
  {
  }

  // ── grants ─────────────────────────────────────────────────────────────

  /** A range of pages handed out. */
  datatype Grant = Grant(page: nat, pages: nat)
  {
    function Low(): nat {
      page * PAGE_SIZE
    }

    function High(): nat {
      (page + pages) * PAGE_SIZE
    }
  }

  /** Each grant begins where the one before it ends, and `next` is the end of
      the last. */
  predicate Consecutive(grants: seq<Grant>, next: nat) {
    if grants == [] then next == 0
    else
      var n := |grants| - 1;
      grants[n].page + grants[n].pages == next && Consecutive(grants[..n], grants[n].page)
  }

  lemma {:induction false} GrantsLieBelow(grants: seq<Grant>, next: nat, i: nat)
    requires Consecutive(grants, next) && i < |grants|
    ensures grants[i].page + grants[i].pages <= next
    decreases |grants|
  {
    var n := |grants| - 1;
    if i < n {
      GrantsLieBelow(grants[..n], grants[n].page, i);
    }
  }

  /** All grants of a run are pairwise disjoint, in increasing order, and inside
      the arena. */
  lemma {:induction false} GrantsAreDisjoint(grants: seq<Grant>, next: nat, i: nat, j: nat)
    requires Consecutive(grants, next) && next <= ARENA_PAGES && i < j < |grants|
    ensures grants[i].High() <= grants[j].Low() <= grants[j].High() <= 64 * 4096
    decreases |grants|
  {
    var n := |grants| - 1;
    GrantsLieBelow(grants, next, j);
    if j < n {
      GrantsAreDisjoint(grants[..n], grants[n].page, i, j);
    } else {
      GrantsLieBelow(grants[..n], grants[n].page, i);
    }
  }

  /** Every page below the counter has an owner. */
  lemma {:induction false} PageHasOwner(grants: seq<Grant>, next: nat, page: nat) returns (i: nat)
    requires Consecutive(grants, next) && page < next
    ensures i < |grants| && grants[i].page <= page < grants[i].page + grants[i].pages
    decreases |grants|
  {
    var n := |grants| - 1;
    if page < grants[n].page {
      i := PageHasOwner(grants[..n], grants[n].page, page);
    } else {
      i := n;
    }
  }

  /** A wrapped request takes the counter backwards: the next request for one
      page is accepted, and is given a page that an earlier grant owns. */
  lemma WrappedRequestTakesPagesBack(grants: seq<Grant>, next: u64, pages: u64) returns (i: nat)
    requires Consecutive(grants, next) && next <= ARENA_PAGES
    requires Accepts(false, next, pages) && Wraps(next, pages)
    ensures Accepts(false, Bumped(next, pages), 1)
    ensures i < |grants| && grants[i].page <= Bumped(next, pages) < grants[i].page + grants[i].pages
  {
    assert Bumped(next, pages) == next + pages - 0x1_0000_0000_0000_0000;
    i := PageHasOwner(grants, next, Bumped(next, pages));
  }

  function PagesGranted(grants: seq<Grant>): nat {
    if grants == [] then 0 else PagesGranted(grants[..|grants| - 1]) + grants[|grants| - 1].pages
  }

  /** Nothing is lost between grants: the counter is the number of pages
      granted. */
  lemma {:induction false} CounterIsPagesGranted(grants: seq<Grant>, next: nat)
    requires Consecutive(grants, next)
    ensures next == PagesGranted(grants)
  {
    if grants == [] {
    } else {
      var n := |grants| - 1;
      CounterIsPagesGranted(grants[..n], grants[n].page);
    }
  }

  /** `DMA_ARENA` and `DMA_NEXT`. `base` is the arena's address and `checked`
      says whether the build traps arithmetic overflow. */
  class DmaArena {
    const base: nat
    const checked: bool
    const memory: array<byte>
    var next: u64
    ghost var grants: seq<Grant>

    ghost predicate Valid()
      reads this, memory
    {
      && base > 0 && base % PAGE_SIZE == 0
      && memory.Length == ARENA_PAGES * PAGE_SIZE
      && next <= ARENA_PAGES && Consecutive(grants, next)
      && forall i :: next * PAGE_SIZE <= i < memory.Length ==> memory[i] == 0
    }

    constructor (base: nat, checked: bool)
      requires base > 0 && base % PAGE_SIZE == 0
      ensures Valid() && grants == [] && next == 0 && memory.Length == 64 * 4096
      ensures this.base == base && this.checked == checked && fresh(memory)
    {
      this.base, this.checked := base, checked;
      memory := new byte[ARENA_PAGES * PAGE_SIZE](_ => 0);
      next, grants := 0, [];
    }

    /** `dma_alloc`: the counter moves before the assertion looks at it. A
        request that returns without having wrapped is granted fresh pages:
        page-aligned, past every earlier grant, and still zero. */
    method DmaAlloc(pages: u64) returns (address: Outcome<nat>)
      requires Valid()
      modifies `next, `grants
      ensures next == Bumped(old(next), pages)
      ensures address.Returned? <==> Accepts(checked, old(next), pages)
      ensures address.Returned? && !Wraps(old(next), pages) ==>
        var g := Grant(old(next), pages);
        && Valid() && grants == old(grants) + [g]
        && address.value == base + g.page * 4096 && address.value % 4096 == 0
        && g.High() <= memory.Length
        && forall i :: g.Low() <= i < g.High() ==> memory[i] == 0
    {
      var start: u64 := next;
      next := (next + pages) % 0x1_0000_0000_0000_0000;
      if checked && start + pages >= 0x1_0000_0000_0000_0000 {
        return Panicked(ArithmeticOverflow);
      }
      var sum: u64 := (start + pages) % 0x1_0000_0000_0000_0000;
      if sum > ARENA_PAGES {
        return Panicked(ArenaExhausted);
      }
      AcceptsExactly(checked, start, pages);
      grants := grants + [Grant(start, pages)];
      return Returned(base + start * PAGE_SIZE);
    }

    /** `dma_dealloc` leaks by design. */
    method DmaDealloc(address: nat, pages: u64) returns (status: int)
      requires Valid()
      ensures Valid() && status == 0
    {
      status := 0;
    }

    /** The owner of a grant writes within it. */
    method Store(ghost owner: nat, at: nat, v: byte)
      requires Valid() && owner < |grants| && grants[owner].Low() <= at < grants[owner].High()
      modifies memory
      ensures Valid()
      ensures at < memory.Length && memory[..] == old(memory[..])[at := v]
    {
      GrantsLieBelow(grants, next, owner);
      memory[at] := v;
    }
  }

  /** A write within one grant is not seen through any other. */
  lemma OwnersDoNotInterfere(grants: seq<Grant>, next: nat, i: nat, j: nat, memory: Bytes, at: nat, v: byte)
    requires Consecutive(grants, next) && next <= ARENA_PAGES && |memory| == ARENA_PAGES * PAGE_SIZE
    requires i < |grants| && j < |grants| && i != j && grants[i].Low() <= at < grants[i].High() <= |memory|
    requires grants[j].High() <= |memory|
    ensures memory[at := v][grants[j].Low()..grants[j].High()]
         == memory[grants[j].Low()..grants[j].High()]
  {
    GrantsAreDisjoint(grants, next, if i < j then i else j, if i < j then j else i);
  }
}
