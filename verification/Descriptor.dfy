/** The 64-bit descriptor words of arch/arm64/mmu.c (section D8.3 of the Arm Architecture Reference
    Manual for A-profile, DDI 0487): how mapping packs them and how a query unpacks them. */
module Descriptor {
  import opened Wrappers

  const TYPE_MASK: bv64 := 3
  const BLOCK: bv64 := 1
  const TABLE_OR_PAGE: bv64 := 3
  const ADDR_MASK: bv64 := 0x0000_ffff_ffff_f000

  const UXN: bv64 := 1 << 54
  const PXN: bv64 := 1 << 53
  const AF: bv64 := 1 << 10
  const SH_INNER: bv64 := 3 << 8
  const AP_P_RW_U_NA: bv64 := 0 << 6
  const AP_P_RW_U_RW: bv64 := 1 << 6
  const AP_P_RO_U_NA: bv64 := 2 << 6
  const AP_P_RO_U_RO: bv64 := 3 << 6
  const AP_MASK: bv64 := 3 << 6
  const NON_SECURE: bv64 := 1 << 5
  const STRONGLY_ORDERED: bv64 := 0 << 2
  const DEVICE: bv64 := 1 << 2
  const NORMAL: bv64 := 2 << 2
  const INDEX_MASK: bv64 := 7 << 2

  const CACHE_MASK: bv64 := 3
  const CACHED: bv64 := 0
  const UNCACHED: bv64 := 1
  const UNCACHED_DEVICE: bv64 := 2
  const USER: bv64 := 1 << 2
  const READ_ONLY: bv64 := 1 << 3
  const NO_EXECUTE: bv64 := 1 << 4
  const NS: bv64 := 1 << 5
  const FLAGS_MASK: bv64 := 0x3f

  /** ERR_INVALID_ARGS, -8, as the unsigned descriptor word it is returned as. */
  const INVALID_ARGS_WORD: bv64 := 0xffff_ffff_ffff_fff8

  /** Attributes leave the type bits of a descriptor alone. */
  type Attr = a: bv64 | a & TYPE_MASK == 0

  /** mmu_flags_to_pte_attr */
  function FlagsToAttr(flags: bv64): Attr
  {
    var cache := flags & CACHE_MASK;
    if cache == 3 then INVALID_ARGS_WORD else
    var memory := if cache == CACHED then NORMAL | SH_INNER else if cache == UNCACHED then STRONGLY_ORDERED else DEVICE;
    var perm := flags & (USER | READ_ONLY);
    var ap := if perm == 0 then AP_P_RW_U_NA
              else if perm == READ_ONLY then AP_P_RO_U_NA
              else if perm == USER then AP_P_RW_U_RW
              else AP_P_RO_U_RO;
    var xn := if flags & NO_EXECUTE != 0 then UXN | PXN else if flags & USER != 0 then PXN else UXN;
    AF | memory | ap | xn | (if flags & NS != 0 then NON_SECURE else 0)
  }

  /** The word arm64_mmu_map_pt and arm64_mmu_get_page_table store. */
  function Pack(paddr: bv64, attrs: bv64, kind: bv64): bv64
  {
    paddr | attrs | kind
  }

  /** The flags arch_mmu_query reports; None where it panics. */
  function QueryFlags(pte: bv64): Option<bv64>
  {
    var index := pte & INDEX_MASK;
    if index != STRONGLY_ORDERED && index != DEVICE && index != NORMAL then None else
    var ns := if pte & NON_SECURE != 0 then NS else 0;
    var cache := if index == STRONGLY_ORDERED then UNCACHED else if index == DEVICE then UNCACHED_DEVICE else CACHED;
    var ap := pte & AP_MASK;
    var perm := if ap == AP_P_RW_U_NA then 0
                else if ap == AP_P_RW_U_RW then USER
                else if ap == AP_P_RO_U_NA then READ_ONLY
                else USER | READ_ONLY;
    var nx := if perm & USER != 0 then pte & UXN != 0 else pte & PXN != 0;
    Some(ns | cache | perm | (if nx then NO_EXECUTE else 0))
  }

  /** Frames an output address can name: the addresses within ADDR_MASK. */
  const FRAMES: nat := 0x10_0000_0000

  /** The 64-bit address of a frame of 4 KiB. */
  function AddressOf(frame: nat): bv64
  {
    if frame < FRAMES then Address(0, frame) else Address(frame / FRAMES % 0x1_0000, frame % FRAMES)
  }

  function Address(high: nat, low: nat): bv64
    requires high < 0x1_0000 && low < FRAMES
  {
    ((high as bv16 as bv64) << 48) | ((low as bv36 as bv64) << 12)
  }

  /** The frame a stored word names. */
  function FrameOf(pte: bv64): (f: nat)
    ensures f < FRAMES
  {
    ((pte & ADDR_MASK) >> 12) as bv36 as nat
  }

  // ---------- numbers and words ----------

  lemma Bits3(x: nat)
    requires x < 8
    ensures x as bv3 as nat == x
  {
  }

  lemma Join6(h: bv3, l: bv3)
    ensures (((h as bv6) << 3) | (l as bv6)) as nat == (h as nat) * 8 + (l as nat)
  {
  }

  lemma Join12(h: bv6, l: bv6)
    ensures (((h as bv12) << 6) | (l as bv12)) as nat == (h as nat) * 0x40 + (l as nat)
  {
  }

  lemma Join24(h: bv12, l: bv12)
    ensures (((h as bv24) << 12) | (l as bv24)) as nat == (h as nat) * 0x1000 + (l as nat)
  {
  }

  lemma Join36(h: bv24, l: bv12)
    ensures (((h as bv36) << 12) | (l as bv36)) as nat == (h as nat) * 0x1000 + (l as nat)
  {
  }

  lemma Bits6(x: nat)
    requires x < 0x40
    ensures x as bv6 as nat == x
  {
    Bits3(x / 8);
    Bits3(x % 8);
    var h, l := (x / 8) as bv3, (x % 8) as bv3;
    Join6(h, l);
    Only6(x, ((h as bv6) << 3) | (l as bv6));
  }

  lemma Bits12(x: nat)
    requires x < 0x1000
    ensures x as bv12 as nat == x
  {
    Bits6(x / 0x40);
    Bits6(x % 0x40);
    var h, l := (x / 0x40) as bv6, (x % 0x40) as bv6;
    Join12(h, l);
    Only12(x, ((h as bv12) << 6) | (l as bv12));
  }

  lemma Bits24(x: nat)
    requires x < 0x100_0000
    ensures x as bv24 as nat == x
  {
    Bits12(x / 0x1000);
    Bits12(x % 0x1000);
    var h, l := (x / 0x1000) as bv12, (x % 0x1000) as bv12;
    Join24(h, l);
    Only24(x, ((h as bv24) << 12) | (l as bv24));
  }

  /** A frame number survives the trip through 36 bits. */
  lemma FrameBits(x: nat)
    requires x < FRAMES
    ensures x as bv36 as nat == x
  {
    Bits24(x / 0x1000);
    Bits12(x % 0x1000);
    var h, l := (x / 0x1000) as bv24, (x % 0x1000) as bv12;
    Join36(h, l);
    Only36(x, ((h as bv36) << 12) | (l as bv36));
  }

  lemma Only6(x: nat, b: bv6)
    requires b as nat == x
    ensures x as bv6 == b
  {
  }

  lemma Only12(x: nat, b: bv12)
    requires b as nat == x
    ensures x as bv12 == b
  {
  }

  lemma Only24(x: nat, b: bv24)
    requires b as nat == x
    ensures x as bv24 == b
  {
  }

  lemma Only36(x: nat, b: bv36)
    requires b as nat == x
    ensures x as bv36 == b
  {
  }

  /** An address is page-aligned, and one without bits above 47 names its frame. */
  lemma AddressIs(frame: nat)
    ensures AddressOf(frame) & 0xfff == 0
    ensures frame < FRAMES ==> AddressOf(frame) & !ADDR_MASK == 0 && FrameOf(AddressOf(frame)) == frame
  {
    if frame < FRAMES {
      AddressParts(0, frame);
    } else {
      AddressParts(frame / FRAMES % 0x1_0000, frame % FRAMES);
    }
  }

  lemma AddressParts(high: nat, low: nat)
    requires high < 0x1_0000 && low < FRAMES
    ensures Address(high, low) & 0xfff == 0 && FrameOf(Address(high, low)) == low
    ensures high == 0 ==> Address(high, low) & !ADDR_MASK == 0
  {
    AddressBits(high as bv16, low as bv36);
    FrameBits(low);
  }

  lemma AddressBits(h: bv16, l: bv36)
    ensures var p := ((h as bv64) << 48) | ((l as bv64) << 12);
            p & 0xfff == 0 && ((p & ADDR_MASK) >> 12) as bv36 == l && (h == 0 ==> p & !ADDR_MASK == 0)
  {
  }

  /** The address of a frame is 4096 times its number. */
  lemma AddressNumber(frame: nat)
    requires frame < 0x10_0000_0000_0000
    ensures AddressOf(frame) as nat == 0x1000 * frame
  {
    hide Address, AddressOf;
    AddressSplit(frame);
    var high, low := frame / FRAMES, frame % FRAMES;
    Halves(frame, high, low);
    AddressSum(high, low);
  }

  lemma Halves(frame: nat, high: nat, low: nat)
    requires frame < 0x10_0000_0000_0000 && high == frame / FRAMES && low == frame % FRAMES
    ensures high < 0x1_0000 && frame / FRAMES % 0x1_0000 == high
    ensures 0x1_0000_0000_0000 * high + 0x1000 * low == 0x1000 * frame
  {
  }

  /** It is taken in 64 bits. */
  lemma AddressWraps(frame: nat)
    ensures AddressOf(frame + 0x10_0000_0000_0000) == AddressOf(frame)
  {
    hide Address, AddressOf;
    AddressSplit(frame);
    AddressSplit(frame + 0x10_0000_0000_0000);
  }

  lemma AddressSplit(frame: nat)
    ensures AddressOf(frame) == Address(frame / FRAMES % 0x1_0000, frame % FRAMES)
  {
    hide Address;
  }

  lemma AddressSum(high: nat, low: nat)
    requires high < 0x1_0000 && low < FRAMES
    ensures Address(high, low) as nat == 0x1_0000_0000_0000 * high + 0x1000 * low
  {
    hide Address;
    HighBits(high);
    FrameBits(low);
    var h, l := high as bv16, low as bv36;
    AddressWord(high, low, h, l);
    AddressJoin(h, l);
  }

  lemma AddressWord(high: nat, low: nat, h: bv16, l: bv36)
    requires high < 0x1_0000 && low < FRAMES && h == high as bv16 && l == low as bv36
    ensures Address(high, low) == ((h as bv64) << 48) | ((l as bv64) << 12)
  {
  }

  lemma AddressJoin(h: bv16, l: bv36)
    ensures (((h as bv64) << 48) | ((l as bv64) << 12)) as nat == 0x1_0000_0000_0000 * (h as nat) + 0x1000 * (l as nat)
  {
  }

  lemma HighBits(x: nat)
    requires x < 0x1_0000
    ensures x as bv16 as nat == x
  {
    Bits12(x / 0x10);
    Bits4(x % 0x10);
    var h, l := (x / 0x10) as bv12, (x % 0x10) as bv4;
    Join16(h, l);
    Only16(x, ((h as bv16) << 4) | (l as bv16));
  }

  lemma Bits4(x: nat)
    requires x < 0x10
    ensures x as bv4 as nat == x
  {
  }

  lemma Join16(h: bv12, l: bv4)
    ensures (((h as bv16) << 4) | (l as bv16)) as nat == (h as nat) * 0x10 + (l as nat)
  {
  }

  lemma Only16(x: nat, b: bv16)
    requires b as nat == x
    ensures x as bv16 == b
  {
  }

  // ---------- what is stored and what is read back ----------

  /** The type of a stored word is read back whatever address and attributes it holds, so no leaf is taken for
      a table or for an empty slot. */
  lemma TypeBack(frame: nat, attrs: Attr, kind: bv64)
    requires kind == BLOCK || kind == TABLE_OR_PAGE
    ensures Pack(AddressOf(frame), attrs, kind) & TYPE_MASK == kind && Pack(AddressOf(frame), attrs, kind) != 0
  {
    AddressIs(frame);
    TypeBits(AddressOf(frame), attrs, kind);
  }

  lemma TypeBits(p: bv64, attrs: Attr, kind: bv64)
    requires p & 0xfff == 0 && (kind == BLOCK || kind == TABLE_OR_PAGE)
    ensures Pack(p, attrs, kind) & TYPE_MASK == kind && Pack(p, attrs, kind) != 0
  {
  }

  /** A pointer to a table below 2^48 bytes leads to that table. */
  lemma TableBack(frame: nat)
    requires frame < FRAMES
    ensures FrameOf(Pack(AddressOf(frame), 0, TABLE_OR_PAGE)) == frame
  {
    AddressIs(frame);
    TableBits(AddressOf(frame));
  }

  lemma TableBits(p: bv64)
    ensures FrameOf(Pack(p, 0, TABLE_OR_PAGE)) == FrameOf(p)
  {
    assert Pack(p, 0, TABLE_OR_PAGE) & ADDR_MASK == p & ADDR_MASK;
  }

  /** Mapping with any flags at any page-aligned address and querying gives the same flags back exactly when the
      flags name a cache mode the code has a case for, and the address does not set the bit that stands for no
      execution on a page that may be executed. */
  lemma FlagsRoundTrip(flags: bv64, paddr: bv64, kind: bv64)
    requires paddr & 0xfff == 0 && (kind == BLOCK || kind == TABLE_OR_PAGE)
    ensures QueryFlags(Pack(paddr, FlagsToAttr(flags), kind)) == Some(flags & FLAGS_MASK) <==>
            && flags & CACHE_MASK != 3
            && (flags & NO_EXECUTE != 0 || paddr & (if flags & USER != 0 then UXN else PXN) == 0)
    ensures flags & CACHE_MASK == 3 <==> QueryFlags(Pack(paddr, FlagsToAttr(flags), kind)) == None
  {
  }

  /** The masks recover any page-aligned address exactly when it has no bit above 47 and the flags have a cache
      mode, or it has every bit from 12 to 47 set anyway. */
  lemma AddressRoundTrip(flags: bv64, paddr: bv64, kind: bv64)
    requires paddr & 0xfff == 0 && (kind == BLOCK || kind == TABLE_OR_PAGE)
    ensures Pack(paddr, FlagsToAttr(flags), kind) & TYPE_MASK == kind
    ensures Pack(paddr, FlagsToAttr(flags), kind) & ADDR_MASK == paddr <==>
            paddr & !ADDR_MASK == 0 && (flags & CACHE_MASK != 3 || paddr == ADDR_MASK)
  {
  }

  // ---------- what the bits of a stored word mean ----------

  /** The lower attributes of section D8.3 of the Arm manual, by their bit numbers, are what the flags ask for:
      bit 7 read-only, bit 6 open to user code, bit 10 the access flag, bits 8 and 9 shareability, bits 2 to 4 the
      memory type and bit 5 non-secure. */
  ghost predicate SaysAccess(w: bv64, flags: bv64)
  {
    && (w & (1 << 7) != 0 <==> flags & (1 << 3) != 0)
    && (w & (1 << 6) != 0 <==> flags & (1 << 2) != 0)
    && w & (1 << 10) != 0
    && w & (3 << 8) == (if flags & 3 == 0 then 3 << 8 else 0)
    && w & (7 << 2) == (if flags & 3 == 0 then 2 << 2 else if flags & 3 == 1 then 0 else 1 << 2)
    && (w & (1 << 5) != 0 <==> flags & (1 << 5) != 0)
  }

  /** The upper ones: bit 54 forbids execution to user code and bit 53 to the kernel, each forbidden what the other
      may execute; no other bit above the address is set, nor bit 11. */
  ghost predicate SaysExecute(w: bv64, flags: bv64)
  {
    && (w & (1 << 54) != 0 <==> flags & (1 << 4) != 0 || flags & (1 << 2) == 0)
    && (w & (1 << 53) != 0 <==> flags & (1 << 4) != 0 || flags & (1 << 2) != 0)
    && w & 0xff9f_0000_0000_0800 == 0
  }

  /** Word w maps this frame with these flags. */
  ghost predicate WordFor(w: bv64, frame: nat, flags: bv64)
  {
    Says(w, AddressOf(frame), frame < FRAMES, flags)
  }

  /** Word w is a block or a page at address p with these flags; only an address below 2^48 leaves all bits alone,
      and the cache mode that is none sets nearly all of them. */
  ghost predicate Says(w: bv64, p: bv64, low: bool, flags: bv64)
  {
    && (w & 3 == 1 || w & 3 == 3)
    && (flags & 3 != 3 ==> SaysAccess(w, flags))
    && (flags & 3 != 3 && low ==> SaysExecute(w, flags) && w & 0xffff_ffff_f000 == p)
    && (flags & 3 == 3 ==> w & 0xffff_ffff_ffff_fffc == 0xffff_ffff_ffff_fff8)
  }

  /** Every stored leaf is the word the flags and the frame ask for. */
  lemma LeafWord(frame: nat, flags: bv64, kind: bv64)
    requires kind == BLOCK || kind == TABLE_OR_PAGE
    ensures WordFor(Pack(AddressOf(frame), FlagsToAttr(flags), kind), frame, flags)
  {
    hide AddressOf, FlagsToAttr, Pack, Says, FrameOf;
    AddressIs(frame);
    LeafSays(AddressOf(frame), frame < FRAMES, flags, kind);
  }

  lemma LeafSays(p: bv64, low: bool, flags: bv64, kind: bv64)
    requires p & 0xfff == 0 && (kind == BLOCK || kind == TABLE_OR_PAGE) && (low ==> p & !ADDR_MASK == 0)
    ensures Says(Pack(p, FlagsToAttr(flags), kind), p, low, flags)
  {
    hide FlagsToAttr, Pack, SaysAccess, SaysExecute;
    LeafKind(p, flags, kind);
    if flags & 3 != 3 {
      LeafAccess(p, flags, kind);
      if low {
        LeafExecute(p, flags, kind);
      }
    }
  }

  lemma LeafKind(p: bv64, flags: bv64, kind: bv64)
    requires p & 0xfff == 0 && (kind == BLOCK || kind == TABLE_OR_PAGE)
    ensures Pack(p, FlagsToAttr(flags), kind) & 3 == kind
    ensures flags & 3 == 3 ==>
              Pack(p, FlagsToAttr(flags), kind) & 0xffff_ffff_ffff_fffc == 0xffff_ffff_ffff_fff8
  {
  }

  lemma LeafAccess(p: bv64, flags: bv64, kind: bv64)
    requires p & 0xfff == 0 && (kind == BLOCK || kind == TABLE_OR_PAGE) && flags & 3 != 3
    ensures SaysAccess(Pack(p, FlagsToAttr(flags), kind), flags)
  {
  }

  lemma LeafExecute(p: bv64, flags: bv64, kind: bv64)
    requires p & !ADDR_MASK == 0 && (kind == BLOCK || kind == TABLE_OR_PAGE) && flags & 3 != 3
    ensures SaysExecute(Pack(p, FlagsToAttr(flags), kind), flags)
    ensures Pack(p, FlagsToAttr(flags), kind) & 0xffff_ffff_f000 == p
  {
  }

  /** The page at 4096 bytes, mapped with no flags: normal memory, for the kernel to read, write and execute. */
  lemma PlainPage()
    ensures Pack(AddressOf(1), FlagsToAttr(0), TABLE_OR_PAGE) == 0x0040_0000_0000_170b
  {
    assert AddressOf(1) == 0x1000;
  }

  /** What a query makes of a stored word. */
  function Decode(pte: bv64): (nat, Option<bv64>)
  {
    (FrameOf(pte), QueryFlags(pte))
  }

  /** A query gives back the frame and the flags of a mapping exactly when the frame is below 2^48 bytes and the
      flags have a cache mode. */
  lemma EntryBack(frame: nat, flags: bv64, kind: bv64)
    requires kind == BLOCK || kind == TABLE_OR_PAGE
    ensures Decode(Pack(AddressOf(frame), FlagsToAttr(flags), kind)) == (frame, Some(flags & FLAGS_MASK)) <==>
            frame < FRAMES && flags & CACHE_MASK != 3
  {
    AddressIs(frame);
    EntryBits(AddressOf(frame), frame, flags, kind);
  }

  lemma EntryBits(p: bv64, frame: nat, flags: bv64, kind: bv64)
    requires p & 0xfff == 0 && (kind == BLOCK || kind == TABLE_OR_PAGE)
    requires frame < FRAMES ==> p & !ADDR_MASK == 0 && FrameOf(p) == frame
    ensures Decode(Pack(p, FlagsToAttr(flags), kind)) == (frame, Some(flags & FLAGS_MASK)) <==>
            frame < FRAMES && flags & CACHE_MASK != 3
  {
    if flags & CACHE_MASK == 3 {
      NoFlags(p, flags, kind);
    } else if frame < FRAMES {
      LowEntry(p, flags, kind);
    }
  }

  lemma NoFlags(p: bv64, flags: bv64, kind: bv64)
    requires flags & CACHE_MASK == 3
    ensures QueryFlags(Pack(p, FlagsToAttr(flags), kind)) == None
  {
  }

  lemma LowEntry(p: bv64, flags: bv64, kind: bv64)
    requires p & !ADDR_MASK == 0 && flags & CACHE_MASK != 3 && (kind == BLOCK || kind == TABLE_OR_PAGE)
    ensures Decode(Pack(p, FlagsToAttr(flags), kind)) == (FrameOf(p), Some(flags & FLAGS_MASK))
  {
    hide FlagsToAttr, Pack, QueryFlags, FrameOf;
    LowFlags(p, flags, kind);
    LowFrame(p, flags, kind);
  }

  lemma LowFlags(p: bv64, flags: bv64, kind: bv64)
    requires p & !ADDR_MASK == 0 && flags & CACHE_MASK != 3 && (kind == BLOCK || kind == TABLE_OR_PAGE)
    ensures QueryFlags(Pack(p, FlagsToAttr(flags), kind)) == Some(flags & FLAGS_MASK)
  {
    hide FlagsToAttr, Pack, QueryFlags;
    LowBits(p);
    FlagsRoundTrip(flags, p, kind);
  }

  lemma LowFrame(p: bv64, flags: bv64, kind: bv64)
    requires p & !ADDR_MASK == 0 && flags & CACHE_MASK != 3 && (kind == BLOCK || kind == TABLE_OR_PAGE)
    ensures FrameOf(Pack(p, FlagsToAttr(flags), kind)) == FrameOf(p)
  {
    hide FlagsToAttr, Pack, FrameOf;
    LowBits(p);
    AddressRoundTrip(flags, p, kind);
    SameFrame(Pack(p, FlagsToAttr(flags), kind), p);
  }

  lemma LowBits(p: bv64)
    requires p & !ADDR_MASK == 0
    ensures p & 0xfff == 0 && p & ADDR_MASK == p && p & UXN == 0 && p & PXN == 0
  {
  }

  lemma SameFrame(w: bv64, p: bv64)
    requires w & ADDR_MASK == p & ADDR_MASK
    ensures FrameOf(w) == FrameOf(p)
  {
  }

  /** The type does not enter into what is read back. */
  lemma KindFree(paddr: bv64, attrs: bv64)
    ensures Decode(Pack(paddr, attrs, BLOCK)) == Decode(Pack(paddr, attrs, TABLE_OR_PAGE))
  {
    SameFrame(Pack(paddr, attrs, BLOCK), Pack(paddr, attrs, TABLE_OR_PAGE));
  }

  /** The page at 2^53 bytes, mapped with no flags, is read back as the page at 0, and as not executable. */
  lemma HighAddressLost()
    ensures Decode(Pack(AddressOf(0x200_0000_0000), FlagsToAttr(0), BLOCK)) == (0, Some(NO_EXECUTE))
  {
    assert AddressOf(0x200_0000_0000) == Address(32, 0);
  }

  /** The page at 4096 bytes, mapped with the cache mode that is none, is read back as the last page there is. */
  lemma CacheModeLost()
    ensures Decode(Pack(AddressOf(1), FlagsToAttr(3), BLOCK)) == (FRAMES - 1, None)
  {
    assert Pack(AddressOf(1), FlagsToAttr(3), BLOCK) & ADDR_MASK == ADDR_MASK;
  }
}
