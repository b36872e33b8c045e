/** Pool blocks behind `WdkAllocator` (`allocator.rs`): blocks aligned beyond what the pool
  * gives carry a hidden header in front, from which free recovers what the pool handed out. */
module PoolHeap {
  import opened Basics
  import opened BitMask

  const POOL_ALIGNMENT := 16
  const WORD := 8
  const MAGIC := 0x4B43_4F4D
  const DANGLING := 1

  /** How the crate is built: without the alignment feature, with it, and with it and debug
    * assertions, where every block gets a header of three words. */
  datatype Build = Simple | Release | Debug

  function HeaderSize(b: Build): nat {
    if b.Debug? then 3 * WORD else WORD
  }

  predicate NeedsOveraligned(b: Build, align: nat) {
    b.Debug? || (b.Release? && align > POOL_ALIGNMENT)
  }

  /** The bytes from the header to the user's first byte. */
  function Header(b: Build, base: nat, align: nat): (s: seq<byte>)
    ensures |s| == HeaderSize(b)
  {
    if b.Debug? then Bytes(MAGIC, WORD) + Bytes(base, WORD) + Bytes(align, WORD) else Bytes(base, WORD)
  }

  /** A block as its user asked for it: what the pool handed out, and the layout. */
  datatype Block = Block(base: nat, size: nat, align: nat)

  ghost predicate Disjoint(a: nat, m: nat, b: nat, n: nat) {
    a + m <= b || b + n <= a
  }

  /** A live user block: it lies inside its pool block with its header in front, at a
    * multiple of its alignment, and the header still names the pool block. */
  ghost predicate Sound(b: Build, mem: Memory, pool: map<nat, nat>, p: nat, k: Block) {
    && k.base in pool && PowerOfTwo(k.align) && k.size > 0
    && Aligned(p, k.align)
    && p + k.size <= k.base + pool[k.base]
    && if NeedsOveraligned(b, k.align) then
         var h := HeaderSize(b);
         k.base + h <= p && (p - h) % WORD == 0 && Read(mem, p - h, h) == Header(b, k.base, k.align)
       else p == k.base && k.align <= POOL_ALIGNMENT
  }

  /** The kernel's side: pool blocks are aligned to 16 and do not overlap. */
  ghost predicate PoolSound(pool: map<nat, nat>) {
    && (forall b :: b in pool ==> 0 < b < USIZE_MODULUS && b % POOL_ALIGNMENT == 0)
    && (forall b, c :: b in pool && c in pool && b != c ==> Disjoint(b, pool[b], c, pool[c]))
  }

  /** What the pool may answer to a request: null, or a block apart from the others. */
  ghost predicate MayAnswer(pool: map<nat, nat>, base: nat, total: nat) {
    base != 0 ==>
      && base < USIZE_MODULUS && base % POOL_ALIGNMENT == 0 && base !in pool
      && forall c :: c in pool ==> Disjoint(base, total, c, pool[c])
  }

  /** Memory outside a range is as it was. */
  ghost predicate SameOutside(m: Memory, m': Memory, from: nat, n: nat) {
    forall x: nat :: x < from || from + n <= x ==> m'(x) == m(x)
  }

  lemma SameOutsideMore(m: Memory, m': Memory, from: nat, n: nat, from': nat, n': nat)
    requires SameOutside(m, m', from, n) && from' <= from && from + n <= from' + n'
    ensures SameOutside(m, m', from', n')
  {
  }

  lemma ThreeWrites(m: Memory, at: nat, a: seq<byte>, b: seq<byte>, c: seq<byte>)
    requires |a| == |b| == |c| == WORD
    ensures var m' := Write(Write(Write(m, at, a), at + WORD, b), at + 2 * WORD, c);
            Read(m', at, 3 * WORD) == a + b + c && SameOutside(m, m', at, 3 * WORD)
  {
    var m' := Write(Write(Write(m, at, a), at + WORD, b), at + 2 * WORD, c);
    forall i | 0 <= i < 3 * WORD ensures Read(m', at, 3 * WORD)[i] == (a + b + c)[i] {}
  }

  /** Nothing that happens outside its pool block disturbs a block. */
  lemma SoundKept(b: Build, mem: Memory, pool: map<nat, nat>, mem': Memory, pool': map<nat, nat>,
                  from: nat, n: nat, p: nat, k: Block)
    requires Sound(b, mem, pool, p, k) && SameOutside(mem, mem', from, n)
    requires k.base in pool' && pool'[k.base] == pool[k.base]
    requires Disjoint(from, n, k.base, pool[k.base])
    ensures Sound(b, mem', pool', p, k)
    ensures Read(mem', p, k.size) == Read(mem, p, k.size)
  {
  }

  /** A user who writes inside a block leaves that block's own header alone too. */
  lemma SoundInside(b: Build, mem: Memory, pool: map<nat, nat>, mem': Memory, from: nat, n: nat, p: nat, k: Block)
    requires Sound(b, mem, pool, p, k) && SameOutside(mem, mem', from, n) && p <= from
    ensures Sound(b, mem', pool, p, k)
  {
  }

  /** What free reads from the header: the pool's address, and in a debug build the words
    * that it checks first. */
  function BaseIn(b: Build, s: seq<byte>): nat
    requires |s| == HeaderSize(b)
  {
    if b.Debug? then Word(s[WORD..2 * WORD]) else Word(s)
  }

  predicate Passes(b: Build, s: seq<byte>, align: nat)
    requires |s| == HeaderSize(b)
  {
    b.Debug? ==> Word(s[..WORD]) == MAGIC && Word(s[2 * WORD..]) == align
  }

  /** The words of the header: the pool's address alone, or the magic, the address and the
    * alignment. */
  lemma HeaderLayout(b: Build, base: nat, align: nat)
    requires base < USIZE_MODULUS && align < USIZE_MODULUS
    ensures var s := Header(b, base, align);
            if b.Debug? then
              |s| == 24 && Word(s[..8]) == 0x4B43_4F4D && Word(s[8..16]) == base && Word(s[16..]) == align
            else |s| == 8 && Word(s) == base
  {
    WordRoundTrip(base);
    if b.Debug? {
      WordRoundTrip(align);
      WordRoundTrip(MAGIC);
      var s := Header(b, base, align);
      assert s[..WORD] == Bytes(MAGIC, WORD);
      assert s[WORD..2 * WORD] == Bytes(base, WORD);
      assert s[2 * WORD..] == Bytes(align, WORD);
    }
  }

  /** The header that alloc writes passes the checks and names what the pool handed out. */
  lemma HeaderNamesBase(b: Build, base: nat, align: nat)
    requires base < USIZE_MODULUS && align < USIZE_MODULUS
    ensures BaseIn(b, Header(b, base, align)) == base && Passes(b, Header(b, base, align), align)
  {
    HeaderLayout(b, base, align);
  }

  lemma WordRoundTrip(w: nat)
    requires w < USIZE_MODULUS
    ensures Word(Bytes(w, WORD)) == w
  {
    var n := WORD;
    assert Pow2(8 * n) == USIZE_MODULUS by {
      var width := WordWidth();
    }
    WordOfBytes(w, n);
  }

  lemma AlignedToWord(v: nat)
    ensures PowerOfTwo(WORD) && (Aligned(v, WORD) <==> v % WORD == 0)
  {
    assert Aligned(v, 8) <==> v % 2 == 0 && Aligned(v / 2, 4);
    assert Aligned(v / 2, 4) <==> v / 2 % 2 == 0 && Aligned(v / 2 / 2, 2);
    assert Aligned(v / 2 / 2, 2) <==> v / 2 / 2 % 2 == 0;
  }

  lemma AlignedToPool(v: nat)
    ensures PowerOfTwo(POOL_ALIGNMENT) && (Aligned(v, POOL_ALIGNMENT) <==> v % POOL_ALIGNMENT == 0)
  {
    AlignedToWord(v / 2);
  }

  /** Rounding up from a word boundary ends on one, whatever the alignment asked for. */
  lemma RoundedOnWord(start: nat, align: nat, p: nat)
    requires start % WORD == 0 && PowerOfTwo(align)
    requires Aligned(p, align) && start <= p < start + align
    ensures p % WORD == 0
  {
    AlignedToWord(start);
    AlignedToWord(p);
    AlignedBelow(start, p, align, WORD);
  }

  lemma WordsBelow(base: nat, h: nat)
    requires base % POOL_ALIGNMENT == 0 && h % WORD == 0
    ensures (base + h) % WORD == 0
  {
    assert base + h == (2 * (base / POOL_ALIGNMENT) + h / WORD) * WORD;
  }

  lemma WordsApart(p: nat, h: nat)
    requires p % WORD == 0 && h % WORD == 0
    ensures (p - h) % WORD == 0
  {
    assert p - h == (p / WORD - h / WORD) * WORD;
  }

  /** So the header sits on a word boundary. */
  lemma HeaderOnWord(base: nat, h: nat, align: nat, p: nat)
    requires base % POOL_ALIGNMENT == 0 && h % WORD == 0 && PowerOfTwo(align)
    requires Aligned(p, align) && base + h <= p < base + h + align
    ensures (p - h) % WORD == 0
  {
    WordsBelow(base, h);
    RoundedOnWord(base + h, align, p);
    WordsApart(p, h);
  }

  /** Where the user's bytes go in a pool block, unless the address overflows a word. */
  function UserAddress(base: nat, h: nat, align: nat): Option<nat>
    requires 0 < align <= USIZE_MODULUS
  {
    match CheckedAdd(base, h)
    case None => None
    case Some(start) =>
      match CheckedAdd(start, align - 1)
      case None => None
      case Some(last) => Some(And(last, Not64(align - 1)))
  }

  /** The address exists exactly when rounding up cannot overflow; it is aligned, it leaves
    * room for the header, and the block that was asked for contains all of it. */
  lemma UserAddressFits(base: nat, h: nat, align: nat)
    requires base % POOL_ALIGNMENT == 0 && h % WORD == 0 && PowerOfTwo(align) && align <= USIZE_MODULUS
    ensures UserAddress(base, h, align).Some? <==> base + h + align - 1 < USIZE_MODULUS
    ensures UserAddress(base, h, align).Some? ==>
              var p := UserAddress(base, h, align).value;
              Aligned(p, align) && base + h <= p < base + h + align && (p - h) % WORD == 0
  {
    if base + h + align - 1 < USIZE_MODULUS {
      var p := UserAddress(base, h, align).value;
      UserAddressRounds(base + h, align, p);
      HeaderOnWord(base, h, align, p);
    }
  }

  lemma UserAddressRounds(start: nat, align: nat, p: nat)
    requires PowerOfTwo(align) && start + align - 1 < USIZE_MODULUS && align <= USIZE_MODULUS
    requires p == And(start + align - 1, Not64(align - 1))
    ensures Aligned(p, align) && start <= p < start + align
  {
    MaskRoundsUp(start, align);
  }

  /** What `alloc` asks the pool for, and what it returns when the pool answers `base`. */
  function PoolRequest(b: Build, size: nat, align: nat): nat {
    if NeedsOveraligned(b, align) then size + align + HeaderSize(b) else size
  }

  function Returned(b: Build, size: nat, align: nat, base: nat): nat
    requires 0 < align <= USIZE_MODULUS
  {
    if size == 0 then DANGLING
    else if !NeedsOveraligned(b, align) then (if b.Simple? && align > POOL_ALIGNMENT then 0 else base)
    else if base == 0 || PoolRequest(b, size, align) >= USIZE_MODULUS then 0
    else
      match UserAddress(base, HeaderSize(b), align)
      case None => 0
      case Some(p) => p
  }

  /** The crate was built to put a header in front of this block, and how long it is. */
  predicate HasHeader(b: Build, align: nat) {
    b.Debug? || (b.Release? && align > 16)
  }

  function HeaderLength(b: Build): nat {
    if b.Debug? then 24 else 8
  }

  /** When a request is answered with null: never for an empty layout; otherwise exactly when the
    * pool refuses, or the build cannot align that far, or a size or address would not fit a word. */
  predicate NullExactly(b: Build, size: nat, align: nat, base: nat, p: nat) {
    var limit, h := 0x1_0000_0000_0000_0000, HeaderLength(b);
    p == 0 <==>
      size > 0 && (base == 0 || (b.Simple? && align > 16)
                   || (HasHeader(b, align) && (size + align + h >= limit || base + h + align - 1 >= limit)))
  }

  /** Where a served request lies and what was asked of the pool for it. */
  predicate Served(b: Build, size: nat, align: nat, base: nat, p: nat, total: nat) {
    if HasHeader(b, align) then
      var h := HeaderLength(b);
      base + h <= p < base + h + align && total == size + align + h
    else p == base && total == size
  }

  lemma AnswerExactly(b: Build, size: nat, align: nat, base: nat, p: nat)
    requires PowerOfTwo(align) && align < USIZE_MODULUS && base % POOL_ALIGNMENT == 0
    requires p == Returned(b, size, align, base)
    ensures NullExactly(b, size, align, base, p)
    ensures size > 0 && p != 0 ==> Served(b, size, align, base, p, PoolRequest(b, size, align))
  {
    UserAddressFits(base, HeaderSize(b), align);
  }

  /** All the blocks that users hold, each in a pool block of its own. */
  ghost predicate AllSound(b: Build, mem: Memory, pool: map<nat, nat>, live: map<nat, Block>) {
    && PoolSound(pool)
    && (forall p :: p in live ==> Sound(b, mem, pool, p, live[p]))
    && (forall p, q :: p in live && q in live && p != q ==> live[p].base != live[q].base)
  }

  /** A new pool block, and writes inside it alone, leave all the older blocks sound. */
  lemma OlderBlocksKept(b: Build, mem: Memory, pool: map<nat, nat>, live: map<nat, Block>,
                        mem': Memory, base: nat, total: nat)
    requires AllSound(b, mem, pool, live) && base != 0 && MayAnswer(pool, base, total)
    requires SameOutside(mem, mem', base, total)
    ensures PoolSound(pool[base := total])
    ensures forall p :: p in live ==> live[p].base != base && Sound(b, mem', pool[base := total], p, live[p])
    ensures forall p :: p in live ==> Read(mem', p, live[p].size) == Read(mem, p, live[p].size)
  {
    forall p | p in live
      ensures live[p].base != base && Sound(b, mem', pool[base := total], p, live[p])
      ensures Read(mem', p, live[p].size) == Read(mem, p, live[p].size)
    {
      assert Sound(b, mem, pool, p, live[p]);
      SoundKept(b, mem, pool, mem', pool[base := total], base, total, p, live[p]);
    }
  }

  lemma PlacedSound(b: Build, mem: Memory, pool: map<nat, nat>, p: nat, k: Block)
    requires k.base in pool && pool[k.base] == k.size + k.align + HeaderSize(b)
    requires k.size > 0 && PowerOfTwo(k.align) && NeedsOveraligned(b, k.align)
    requires Aligned(p, k.align) && k.base + HeaderSize(b) <= p < k.base + HeaderSize(b) + k.align
    requires (p - HeaderSize(b)) % WORD == 0
    requires Read(mem, p - HeaderSize(b), HeaderSize(b)) == Header(b, k.base, k.align)
    ensures Sound(b, mem, pool, p, k)
  {
  }

  /** Blocks in different pool blocks have different addresses. */
  lemma SoundApart(b: Build, mem: Memory, pool: map<nat, nat>, q: nat, j: Block,
                   mem': Memory, pool': map<nat, nat>, p: nat, k: Block)
    requires Sound(b, mem, pool, q, j) && Sound(b, mem', pool', p, k)
    requires Disjoint(k.base, pool'[k.base], j.base, pool[j.base])
    ensures p != q
  {
  }

  lemma NewAddress(b: Build, mem: Memory, pool: map<nat, nat>, live: map<nat, Block>,
                   mem': Memory, pool': map<nat, nat>, p: nat, k: Block)
    requires AllSound(b, mem, pool, live) && Sound(b, mem', pool', p, k)
    requires forall c :: c in pool ==> Disjoint(k.base, pool'[k.base], c, pool[c])
    ensures p !in live
  {
    forall q | q in live ensures q != p {
      assert Sound(b, mem, pool, q, live[q]);
      SoundApart(b, mem, pool, q, live[q], mem', pool', p, k);
    }
  }

  /** With that, a new block in the new pool block makes all the blocks sound. */
  lemma NewBlockSound(b: Build, mem: Memory, pool: map<nat, nat>, live: map<nat, Block>,
                      mem': Memory, pool': map<nat, nat>, live': map<nat, Block>, total: nat, p: nat, k: Block)
    requires AllSound(b, mem, pool, live) && k.base != 0 && MayAnswer(pool, k.base, total)
    requires pool' == pool[k.base := total] && live' == live[p := k]
    requires SameOutside(mem, mem', k.base, total)
    requires Sound(b, mem', pool', p, k)
    ensures p !in live && AllSound(b, mem', pool', live')
    ensures forall q :: q in live ==> Read(mem', q, live[q].size) == Read(mem, q, live[q].size)
  {
    OlderBlocksKept(b, mem, pool, live, mem', k.base, total);
    NewAddress(b, mem, pool, live, mem', pool', p, k);
    forall q | q in live' ensures Sound(b, mem', pool', q, live'[q]) {
      if q != p {
        assert q in live;
      }
    }
  }

  /** A header in front of the user's bytes, and writes to these two alone. */
  lemma PlacedBlock(b: Build, mem: Memory, pool: map<nat, nat>, live: map<nat, Block>, mem': Memory,
                    pool': map<nat, nat>, live': map<nat, Block>, p: nat, k: Block)
    requires AllSound(b, mem, pool, live) && k.base != 0
    requires pool' == pool[k.base := k.size + k.align + HeaderSize(b)] && live' == live[p := k]
    requires MayAnswer(pool, k.base, k.size + k.align + HeaderSize(b))
    requires k.size > 0 && PowerOfTwo(k.align) && NeedsOveraligned(b, k.align)
    requires Aligned(p, k.align) && k.base + HeaderSize(b) <= p < k.base + HeaderSize(b) + k.align
    requires (p - HeaderSize(b)) % WORD == 0
    requires Read(mem', p - HeaderSize(b), HeaderSize(b)) == Header(b, k.base, k.align)
    requires SameOutside(mem, mem', p - HeaderSize(b), HeaderSize(b) + k.size)
    ensures p !in live && AllSound(b, mem', pool', live')
    ensures forall q :: q in live ==> Read(mem', q, live[q].size) == Read(mem, q, live[q].size)
  {
    var total := k.size + k.align + HeaderSize(b);
    SameOutsideMore(mem, mem', p - HeaderSize(b), HeaderSize(b) + k.size, k.base, total);
    PlacedSound(b, mem', pool', p, k);
    NewBlockSound(b, mem, pool, live, mem', pool', live', total, p, k);
  }

  /** Giving back the pool block of one user block leaves the others sound. */
  lemma OthersKept(b: Build, mem: Memory, pool: map<nat, nat>, live: map<nat, Block>, p: nat)
    requires AllSound(b, mem, pool, live) && p in live
    ensures AllSound(b, mem, pool - {live[p].base}, live - {p})
  {
    var pool', live' := pool - {live[p].base}, live - {p};
    forall q | q in live' ensures Sound(b, mem, pool', q, live'[q]) {
      assert Sound(b, mem, pool, q, live[q]);
    }
  }

  /** No two live blocks overlap, and neither do their headers: nothing that one user may
    * write is anything that another user or the allocator reads. */
  lemma LiveBlocksDisjoint(h: Heap, p: nat, q: nat)
    requires h.Valid() && p in h.live && q in h.live && p != q
    ensures var a, b := h.live[p], h.live[q];
            var f := HeaderSize(h.build);
            && Disjoint(p, a.size, q, b.size)
            && (NeedsOveraligned(h.build, b.align) ==> f <= q && Disjoint(p, a.size, q - f, f + b.size))
  {
    assert Sound(h.build, h.mem, h.pool, p, h.live[p]);
    assert Sound(h.build, h.mem, h.pool, q, h.live[q]);
    assert Disjoint(h.live[p].base, h.pool[h.live[p].base], h.live[q].base, h.pool[h.live[q].base]);
  }

  class Heap {
    const build: Build
    var mem: Memory
    var pool: map<nat, nat>          // what the kernel has handed out: base to size
    ghost var live: map<nat, Block>  // what users hold: address to block

    ghost predicate Valid()
      reads this
    {
      AllSound(build, mem, pool, live)
    }

    constructor (build: Build)
      ensures Valid() && this.build == build && pool == map[] && live == map[]
    {
      this.build, mem, pool, live := build, (x: nat) => 0, map[], map[];
    }

    /** The stores into the header, word by word. */
    method WriteHeader(at: nat, base: nat, align: nat)
      modifies this`mem
      ensures Read(mem, at, HeaderSize(build)) == Header(build, base, align)
      ensures SameOutside(old(mem), mem, at, HeaderSize(build))
    {
      if build.Debug? {
        ThreeWrites(mem, at, Bytes(MAGIC, WORD), Bytes(base, WORD), Bytes(align, WORD));
        mem := Write(mem, at, Bytes(MAGIC, WORD));
        mem := Write(mem, at + WORD, Bytes(base, WORD));
        mem := Write(mem, at + 2 * WORD, Bytes(align, WORD));
      } else {
        ReadWrite(mem, at, Bytes(base, WORD));
        mem := Write(mem, at, Bytes(base, WORD));
      }
    }

    /** The header, and the zeroes if they are wanted: nothing else changes. */
    method Fill(p: nat, base: nat, size: nat, align: nat, zeroed: bool)
      requires HeaderSize(build) <= p
      modifies this`mem
      ensures Read(mem, p - HeaderSize(build), HeaderSize(build)) == Header(build, base, align)
      ensures SameOutside(old(mem), mem, p - HeaderSize(build), HeaderSize(build) + size)
      ensures zeroed ==> forall x: nat :: p <= x < p + size ==> mem(x) == 0
    {
      var h := HeaderSize(build);
      WriteHeader(p - h, base, align);
      if zeroed {
        ReadElsewhere(mem, p, seq(size, (i: nat) => 0), p - h, h);
        mem := Write(mem, p, seq(size, (i: nat) => 0));
      }
    }

    /** A user block in a pool block that has just been handed out. */
    method Place(ghost before: map<nat, nat>, p: nat, base: nat, size: nat, align: nat, zeroed: bool)
      requires AllSound(build, mem, before, live) && base != 0 && base < USIZE_MODULUS
      requires pool == before[base := size + align + HeaderSize(build)]
      requires MayAnswer(before, base, size + align + HeaderSize(build))
      requires size > 0 && PowerOfTwo(align) && NeedsOveraligned(build, align)
      requires Aligned(p, align) && base + HeaderSize(build) <= p < base + HeaderSize(build) + align
      requires (p - HeaderSize(build)) % WORD == 0
      modifies this`mem, this`live
      ensures Valid()
      ensures p !in old(live) && live == old(live)[p := Block(base, size, align)]
      ensures forall q :: q in old(live) ==> Read(mem, q, old(live)[q].size) == old(Read(mem, q, live[q].size))
      ensures zeroed ==> forall x: nat :: p <= x < p + size ==> mem(x) == 0
    {
      Fill(p, base, size, align, zeroed);
      ghost var k := Block(base, size, align);
      live := live[p := k];
      PlacedBlock(build, old(mem), before, old(live), mem, pool, live, p, k);
    }

    /** `alloc_overaligned`, given what the pool answers to the request it makes. */
    method AllocOveraligned(size: nat, align: nat, zeroed: bool, base: nat) returns (p: nat)
      requires Valid() && size > 0 && PowerOfTwo(align) && align < USIZE_MODULUS
      requires NeedsOveraligned(build, align)
      requires MayAnswer(pool, base, size + align + HeaderSize(build))
      modifies this
      ensures Valid() && p == Returned(build, size, align, base)
      ensures p == 0 <==> base == 0 || size + align + HeaderSize(build) >= USIZE_MODULUS
                          || base + HeaderSize(build) + align - 1 >= USIZE_MODULUS
      ensures p == 0 ==> live == old(live) && pool == old(pool) && mem == old(mem)
      ensures p != 0 ==> p !in old(live) && live == old(live)[p := Block(base, size, align)]
      ensures p != 0 ==> pool == old(pool)[base := size + align + HeaderSize(build)]
      ensures forall q :: q in old(live) ==> Read(mem, q, old(live)[q].size) == old(Read(mem, q, live[q].size))
      ensures p != 0 && zeroed ==> forall x: nat :: p <= x < p + size ==> mem(x) == 0
    {
      var h := HeaderSize(build);
      var total := match CheckedAdd(size, align) case None => None case Some(v) => CheckedAdd(v, h);
      if total.None? || base == 0 {
        return 0;
      }
      pool := pool[base := total.value];
      UserAddressFits(base, h, align);
      var address := UserAddress(base, h, align);
      if address.None? {
        pool := pool - {base};
        assert pool == old(pool);
        return 0;
      }
      p := address.value;
      Place(old(pool), p, base, size, align, zeroed);
    }

    /** `dealloc_overaligned`: the pool gets back exactly what it handed out, and in a debug
      * build the header passes its checks. */
    method DeallocOveraligned(p: nat, align: nat) returns (passed: bool)
      requires Valid() && p in live && live[p].align == align && align < USIZE_MODULUS
      requires NeedsOveraligned(build, align)
      modifies this
      ensures Valid() && passed && mem == old(mem)
      ensures pool == old(pool) - {old(live)[p].base} && live == old(live) - {p}
    {
      assert Sound(build, mem, pool, p, live[p]);
      HeaderNamesBase(build, live[p].base, align);
      OthersKept(build, mem, pool, live, p);
      var h := HeaderSize(build);
      var s := Read(mem, p - h, h);
      passed := Passes(build, s, align);
      pool := pool - {BaseIn(build, s)};
      live := live - {p};
    }

    /** What `alloc` asks the pool for. */
    function Request(size: nat, align: nat): nat {
      PoolRequest(build, size, align)
    }

    /** `alloc` and `alloc_zeroed`. A block that is handed out begins at a multiple of its
      * alignment, lies in the pool block, and leaves every other block as it was. An empty
      * layout gets the address 1 and no block. */
    method Alloc(size: nat, align: nat, zeroed: bool, base: nat) returns (p: nat)
      requires Valid() && PowerOfTwo(align) && align < USIZE_MODULUS
      requires MayAnswer(pool, base, Request(size, align))
      modifies this
      ensures Valid() && p == Returned(build, size, align, base)
      ensures NullExactly(build, size, align, base, p)
      ensures size > 0 && p != 0 ==> base in pool && Served(build, size, align, base, p, pool[base])
      ensures p != 0 ==> (p % align == 0 <==> size > 0 || align == 1)
      ensures size == 0 ==> p == DANGLING
      ensures size == 0 || p == 0 ==> live == old(live) && pool == old(pool) && mem == old(mem)
      ensures size > 0 && p != 0 ==> p !in old(live) && live == old(live)[p := Block(base, size, align)]
      ensures size > 0 && p != 0 ==> pool == old(pool)[base := Request(size, align)]
      ensures forall q :: q in old(live) ==> Read(mem, q, old(live)[q].size) == old(Read(mem, q, live[q].size))
      ensures size > 0 && p != 0 && zeroed ==> forall x: nat :: p <= x < p + size ==> mem(x) == 0
    {
      if size == 0 {
        OneIsNoMultiple(align);
        return DANGLING;
      }
      if NeedsOveraligned(build, align) {
        p := AllocOveraligned(size, align, zeroed, base);
        if p != 0 {
          assert Sound(build, mem, pool, p, live[p]);
          AlignedIsMultiple(p, align);
        }
        AnswerExactly(build, size, align, base, p);
        return;
      }
      AnswerExactly(build, size, align, base, Returned(build, size, align, base));
      if (build.Simple? && align > POOL_ALIGNMENT) || base == 0 {
        return 0;
      }
      p := AllocPlain(size, align, zeroed, base);
      AlignedIsMultiple(p, align);
    }

    /** The pool's own block, which is aligned enough. */
    method AllocPlain(size: nat, align: nat, zeroed: bool, base: nat) returns (p: nat)
      requires Valid() && size > 0 && base != 0 && PowerOfTwo(align) && align <= POOL_ALIGNMENT
      requires !NeedsOveraligned(build, align) && MayAnswer(pool, base, size)
      modifies this
      ensures Valid() && p == base && Aligned(p, align)
      ensures p !in old(live) && live == old(live)[p := Block(base, size, align)] && pool == old(pool)[base := size]
      ensures forall q :: q in old(live) ==> Read(mem, q, old(live)[q].size) == old(Read(mem, q, live[q].size))
      ensures zeroed ==> forall x: nat :: p <= x < p + size ==> mem(x) == 0
    {
      pool := pool[base := size];
      if zeroed {
        mem := Write(mem, base, seq(size, (i: nat) => 0));
      }
      p := base;
      AlignedToPool(base);
      AlignedLess(base, align, POOL_ALIGNMENT);
      ghost var k := Block(base, size, align);
      live := live[p := k];
      NewBlockSound(build, old(mem), old(pool), old(live), mem, pool, live, size, p, k);
    }

    /** `dealloc`, with the layout of the allocation. */
    method Dealloc(p: nat, size: nat, align: nat) returns (passed: bool)
      requires Valid()
      requires size > 0 ==> p in live && live[p].size == size && live[p].align == align && align < USIZE_MODULUS
      modifies this
      ensures Valid() && passed && mem == old(mem)
      ensures size == 0 ==> pool == old(pool) && live == old(live)
      ensures size > 0 ==> pool == old(pool) - {old(live)[p].base} && live == old(live) - {p}
    {
      if size == 0 {
        return true;
      }
      if NeedsOveraligned(build, align) {
        passed := DeallocOveraligned(p, align);
        return;
      }
      assert Sound(build, mem, pool, p, live[p]);
      OthersKept(build, mem, pool, live, p);
      pool := pool - {p};
      live := live - {p};
      passed := true;
    }

    /** A user writes inside a block of its own: no other block sees it. */
    method UserWrite(p: nat, offset: nat, data: seq<byte>)
      requires Valid() && p in live && offset + |data| <= live[p].size
      modifies this`mem
      ensures Valid() && SameOutside(old(mem), mem, p + offset, |data|)
      ensures Read(mem, p + offset, |data|) == data
      ensures forall q :: q in live && q != p ==> Read(mem, q, live[q].size) == old(Read(mem, q, live[q].size))
    {
      mem := Write(mem, p + offset, data);
      UserWriteKeeps(build, old(mem), pool, live, p, offset, data);
    }

    /** One call keeps the books. */
    method Perform(c: Call, ghost k: Books)
      requires Valid() && Kept(k) && AfterCall(build, k, c).Some?
      modifies this
      ensures Valid() && Kept(AfterCall(build, k, c).value)
    {
      match c {
        case AllocCall(size, align, zeroed, base) =>
          PerformAlloc(size, align, zeroed, base, k);
        case FreeCall(p, size, align) =>
          var _ := Dealloc(p, size, align);
        case WriteCall(p, offset, data) =>
          PerformWrite(p, offset, data, k);
      }
    }

    method PerformAlloc(size: nat, align: nat, zeroed: bool, base: nat, ghost k: Books)
      requires Valid() && Kept(k) && AfterCall(build, k, AllocCall(size, align, zeroed, base)).Some?
      modifies this
      ensures Valid() && Kept(AfterCall(build, k, AllocCall(size, align, zeroed, base)).value)
    {
      ghost var k' := AfterCall(build, k, AllocCall(size, align, zeroed, base)).value;
      var p := Alloc(size, align, zeroed, base);
      if size != 0 && p != 0 {
        AllocRemembers(old(mem), mem, k, k', p, size, zeroed);
      }
    }

    method PerformWrite(p: nat, offset: nat, data: seq<byte>, ghost k: Books)
      requires Valid() && Kept(k) && AfterCall(build, k, WriteCall(p, offset, data)).Some?
      modifies this`mem
      ensures Valid() && Kept(AfterCall(build, k, WriteCall(p, offset, data)).value)
    {
      ghost var k' := AfterCall(build, k, WriteCall(p, offset, data)).value;
      UserWrite(p, offset, data);
      WriteRemembers(old(mem), mem, k, k', p, offset, data);
    }

    /** The heap agrees with the books of its users. */
    ghost predicate Kept(k: Books)
      reads this
    {
      pool == k.pool && live == k.live && Remembers(mem, k)
    }

    /** Over any sequence of allocations, frees and writes that the users have a right to, the
      * heap does what their books say: blocks are where the books have them, each sound, each
      * free hands back what its allocation received, and every byte that a user wrote, or asked
      * to be zero, is there until that user overwrites it or frees the block. */
    method Run(calls: seq<Call>, ghost k: Books)
      requires Valid() && Kept(k) && AfterCalls(build, k, calls).Some?
      modifies this
      ensures Valid() && Kept(AfterCalls(build, k, calls).value)
    {
      ghost var now := k;
      for n := 0 to |calls|
        invariant Valid() && Kept(now)
        invariant AfterCalls(build, now, calls[n..]) == AfterCalls(build, k, calls)
      {
        assert calls[n..][0] == calls[n] && calls[n..][1..] == calls[n + 1..];
        Perform(calls[n], now);
        now := AfterCall(build, now, calls[n]).value;
      }
      assert calls[|calls|..] == [];
    }
  }

  // ---- the users' books ----

  datatype Call =
    | AllocCall(size: nat, align: nat, zeroed: bool, base: nat)
    | FreeCall(p: nat, size: nat, align: nat)
    | WriteCall(p: nat, offset: nat, data: seq<byte>)

  /** What the pool has handed out, what the users hold, and the bytes they know: those that
    * they wrote into each block or had zeroed. */
  datatype Books = Books(pool: map<nat, nat>, live: map<nat, Block>, known: map<nat, seq<Option<byte>>>)

  ghost predicate BlockRemembers(mem: Memory, p: nat, known: seq<Option<byte>>, size: nat) {
    |known| == size && forall o :: 0 <= o < size && known[o].Some? ==> mem(p + o) == known[o].value
  }

  ghost predicate Remembers(mem: Memory, k: Books) {
    && k.known.Keys == k.live.Keys
    && forall p :: p in k.live ==> BlockRemembers(mem, p, k.known[p], k.live[p].size)
  }

  function Fresh(size: nat, zeroed: bool): (known: seq<Option<byte>>)
    ensures |known| == size
  {
    seq(size, _ => if zeroed then Some(0) else None)
  }

  function Written(known: seq<Option<byte>>, offset: nat, data: seq<byte>): (r: seq<Option<byte>>)
    ensures |r| == |known|
  {
    seq(|known|, (o: nat) requires o < |known| =>
      if offset <= o < offset + |data| then Some(data[o - offset]) else known[o])
  }

  /** The books after a call, or nothing when the call is not the user's right, or the pool would
    * answer what it may not. */
  ghost function AfterCall(b: Build, k: Books, c: Call): Option<Books> {
    match c
    case AllocCall(size, align, zeroed, base) =>
      if !PowerOfTwo(align) || align >= USIZE_MODULUS || !MayAnswer(k.pool, base, PoolRequest(b, size, align)) then None
      else
        var p := Returned(b, size, align, base);
        if size == 0 || p == 0 then Some(k)
        else Some(Books(k.pool[base := PoolRequest(b, size, align)], k.live[p := Block(base, size, align)],
                        k.known[p := Fresh(size, zeroed)]))
    case FreeCall(p, size, align) =>
      if size == 0 then Some(k)
      else if p !in k.live || k.live[p].size != size || k.live[p].align != align || align >= USIZE_MODULUS then None
      else Some(Books(k.pool - {k.live[p].base}, k.live - {p}, k.known - {p}))
    case WriteCall(p, offset, data) =>
      if p !in k.live || p !in k.known || offset + |data| > k.live[p].size then None
      else Some(k.(known := k.known[p := Written(k.known[p], offset, data)]))
  }

  ghost function AfterCalls(b: Build, k: Books, calls: seq<Call>): Option<Books>
    decreases |calls|
  {
    if calls == [] then Some(k)
    else
      match AfterCall(b, k, calls[0])
      case None => None
      case Some(k') => AfterCalls(b, k', calls[1..])
  }

  /** A block whose contents read the same is remembered the same. */
  lemma SameRemembers(mem: Memory, mem': Memory, p: nat, known: seq<Option<byte>>, size: nat)
    requires BlockRemembers(mem, p, known, size) && Read(mem', p, size) == Read(mem, p, size)
    ensures BlockRemembers(mem', p, known, size)
  {
    forall o | 0 <= o < size && known[o].Some? ensures mem'(p + o) == known[o].value {
      assert Read(mem', p, size)[o] == Read(mem, p, size)[o];
    }
  }

  lemma WriterRemembers(
    mem: Memory, mem': Memory, p: nat, known: seq<Option<byte>>, size: nat, offset: nat, data: seq<byte>)
    requires BlockRemembers(mem, p, known, size) && SameOutside(mem, mem', p + offset, |data|)
    requires Read(mem', p + offset, |data|) == data
    ensures BlockRemembers(mem', p, Written(known, offset, data), size)
  {
    var r := Written(known, offset, data);
    forall o | 0 <= o < size && r[o].Some? ensures mem'(p + o) == r[o].value {
      if offset <= o < offset + |data| {
        assert Read(mem', p + offset, |data|)[o - offset] == data[o - offset];
      }
    }
  }

  lemma AllocRemembers(mem: Memory, mem': Memory, k: Books, k': Books, p: nat, size: nat, zeroed: bool)
    requires Remembers(mem, k) && p !in k.live
    requires p in k'.live && k'.live == k.live[p := k'.live[p]] && k'.live[p].size == size
    requires k'.known == k.known[p := Fresh(size, zeroed)]
    requires forall q :: q in k.live ==> Read(mem', q, k.live[q].size) == Read(mem, q, k.live[q].size)
    requires zeroed ==> forall x: nat :: p <= x < p + size ==> mem'(x) == 0
    ensures Remembers(mem', k')
  {
    forall q | q in k'.live ensures BlockRemembers(mem', q, k'.known[q], k'.live[q].size) {
      if q != p {
        SameRemembers(mem, mem', q, k.known[q], k.live[q].size);
      }
    }
  }

  lemma WriteRemembers(mem: Memory, mem': Memory, k: Books, k': Books, p: nat, offset: nat, data: seq<byte>)
    requires Remembers(mem, k) && p in k.live
    requires k' == k.(known := k.known[p := Written(k.known[p], offset, data)])
    requires SameOutside(mem, mem', p + offset, |data|) && Read(mem', p + offset, |data|) == data
    requires forall q :: q in k.live && q != p ==> Read(mem', q, k.live[q].size) == Read(mem, q, k.live[q].size)
    ensures Remembers(mem', k')
  {
    forall q | q in k'.live ensures BlockRemembers(mem', q, k'.known[q], k'.live[q].size) {
      if q == p {
        WriterRemembers(mem, mem', p, k.known[p], k.live[p].size, offset, data);
      } else {
        SameRemembers(mem, mem', q, k.known[q], k.live[q].size);
      }
    }
  }

  lemma OneIsNoMultiple(align: nat)
    requires PowerOfTwo(align)
    ensures DANGLING % align == 0 <==> align == 1
  {
  }

  lemma UserWriteKeeps(b: Build, mem: Memory, pool: map<nat, nat>, live: map<nat, Block>,
                       p: nat, offset: nat, data: seq<byte>)
    requires AllSound(b, mem, pool, live) && p in live && offset + |data| <= live[p].size
    ensures var mem' := Write(mem, p + offset, data);
            && AllSound(b, mem', pool, live)
            && forall q :: q in live && q != p ==> Read(mem', q, live[q].size) == Read(mem, q, live[q].size)
  {
    var mem' := Write(mem, p + offset, data);
    var k := live[p];
    assert Sound(b, mem, pool, p, k);
    SoundInside(b, mem, pool, mem', p + offset, |data|, p, k);
    forall q | q in live && q != p
      ensures Sound(b, mem', pool, q, live[q]) && Read(mem', q, live[q].size) == Read(mem, q, live[q].size)
    {
      assert Sound(b, mem, pool, q, live[q]);
      assert Disjoint(k.base, pool[k.base], live[q].base, pool[live[q].base]);
      SoundKept(b, mem, pool, mem', pool, p + offset, |data|, q, live[q]);
    }
  }
}
