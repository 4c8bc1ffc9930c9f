/**
 * `kdumptool calibrate`: the estimate of the crash kernel reservation.
 *
 * Calibrate::execute adds up what the kdump kernel needs at boot and at run
 * time (kernel, initramfs, framebuffer, constant slab caches, user space),
 * scales the sum up for dirty page cache, large kernel hashes and the memory
 * map, never goes below the boot size, falls back to the architecture's
 * default reservation when an error reaches it, and prints the result in MiB
 * rounded up.
 *
 * All sizes are in KiB and unbounded: the machine words of the source never
 * wrap in this model (see README).  The page size, the RAM size, the
 * configuration and the contents of the files it reads are inputs.
 */
module Calibrate {

  import opened Outcomes
  import opened StdStream
  import SystemCpu
  import Framebuffers
  import opened SlabInfos

  // ---------------------------------------------------------------------------
  // Per-architecture constants

  /** The architectures calibrate.cc has a reservation table for. */
  datatype Arch = X86_64 | I386 | PPC64 | PPC | S390X | S390 | IA64 | AArch64 | Arm

  /** MiB to KiB. */
  function MB(x: nat): nat { x * 1024 }

  /** DEF_RESERVE_KB: the reservation when the estimate cannot be made. */
  function DefReserveKb(arch: Arch): nat {
    match arch
    case PPC64 => MB(256)
    case IA64 => MB(512)
    case _ => MB(128)
  }

  /** KERNEL_KB: kernel image text, data and bss. */
  function KernelKb(arch: Arch): nat {
    match arch
    case X86_64 => MB(16)
    case I386 => MB(14)
    case PPC64 => MB(16)
    case PPC => MB(12)
    case S390X => MB(13)
    case S390 => MB(12)
    case IA64 => MB(32)
    case AArch64 => MB(10)
    case Arm => MB(12)
  }

  /** INIT_KB: the unpacked basic initramfs. */
  function InitKb(arch: Arch): nat {
    match arch
    case X86_64 => MB(34)
    case I386 => MB(29)
    case PPC64 => MB(58)
    case PPC => MB(34)
    case S390X => MB(34)
    case S390 => MB(29)
    case IA64 => MB(44)
    case AArch64 => MB(29)
    case Arm => MB(29)
  }

  /** INIT_NET_KB: what network support adds to the initramfs. */
  function InitNetKb(arch: Arch): nat {
    match arch
    case X86_64 => MB(3)
    case PPC64 => MB(4)
    case IA64 => MB(4)
    case _ => MB(2)
  }

  /** SIZE_STRUCT_PAGE: bytes of `struct page` per page frame. */
  function SizeStructPage(arch: Arch): nat {
    match arch
    case PPC64 => 64
    case I386 => 32
    case PPC => 32
    case S390 => 32
    case Arm => 32
    case _ => 56
  }

  /** KDUMP_PHYS_LOAD: memory below the load address that must be accounted for. */
  function KdumpPhysLoad(arch: Arch): nat {
    if arch == PPC64 || arch == PPC then MB(128) else 0
  }

  /** CAN_REDUCE_CPUS: whether the kdump kernel can run on fewer CPUs. */
  predicate CanReduceCpus(arch: Arch) {
    arch != PPC64 && arch != PPC
  }

  /** sizeof(long) on the architecture. */
  function SizeofLong(arch: Arch): nat {
    if arch == I386 || arch == PPC || arch == S390 || arch == Arm then 4 else 8
  }

  /** DEF_FRAMEBUFFER_KB: 1024x768 at 32 bpp, nothing on the mainframe. */
  function DefFramebufferKb(arch: Arch): nat {
    if arch == S390 || arch == S390X then 0 else 768 * 4
  }

  /** KERNEL_HASH_PER_MB: bytes of large kernel hashes per MiB of RAM. */
  function KernelHashPerMb(arch: Arch): nat { 232 * SizeofLong(arch) }

  const INITRD_COMPRESS: nat := 50
  const KERNEL_DYNAMIC_KB: nat := MB(4)
  const BUF_PER_DIRTY_MB: nat := 64
  const DIRTY_RATIO: nat := 20
  const USER_BASE_KB: nat := MB(26)
  const USER_NET_KB: nat := MB(7)
  const MAX_BITMAP_KB: nat := MB(32)

  // ---------------------------------------------------------------------------
  // shr_round_up

  function Pow2(n: nat): (r: nat)
    ensures r >= 1
  {
    if n == 0 then 1 else 2 * Pow2(n - 1)
  }

  /** shr_round_up(n, amt): n shifted right by amt bits, rounding up. */
  function ShrRoundUp(n: nat, amt: nat): nat {
    (n + Pow2(amt) - 1) / Pow2(amt)
  }

  /** shr_round_up is the ceiling of n / 2^amt: the least r with r * 2^amt >= n. */
  lemma {:induction false} ShrRoundUpIsCeiling(n: nat, amt: nat)
    ensures ShrRoundUp(n, amt) * Pow2(amt) >= n
    ensures ShrRoundUp(n, amt) == 0 || (ShrRoundUp(n, amt) - 1) * Pow2(amt) < n
  {
    CeilingDivision(n, Pow2(amt));
  }

  lemma {:induction false} CeilingDivision(n: nat, p: nat)
    requires p >= 1
    ensures (n + p - 1) / p * p >= n
    ensures (n + p - 1) / p == 0 || ((n + p - 1) / p - 1) * p < n
  {
    var a := n + p - 1;
    var q := a / p;
    assert a == q * p + a % p;
    assert (q - 1) * p == q * p - p;
  }

  lemma {:induction false} Pow2Ten()
    ensures Pow2(10) == 1024
  {
    assert Pow2(1) == 2;
    assert Pow2(2) == 4;
    assert Pow2(3) == 8;
    assert Pow2(4) == 16;
    assert Pow2(5) == 32;
    assert Pow2(6) == 64;
    assert Pow2(7) == 128;
    assert Pow2(8) == 256;
    assert Pow2(9) == 512;
  }

  /** A whole number of MiB prints as itself. */
  lemma {:induction false} ShrRoundUpMiB(x: nat)
    ensures ShrRoundUp(MB(x), 10) == x
  {
    Pow2Ten();
    assert MB(x) + 1023 == x * 1024 + 1023;
  }

  // ---------------------------------------------------------------------------
  // align_memmap

  /**
   * The memory map granule in pages: s390 and s390x allocate the memory map
   * for whole sections (2^(SECTION_SIZE_BITS - PAGE_SHIFT - 10) KiB-scaled
   * page frames), the other architectures frame by frame.
   */
  function MemmapGranule(arch: Arch): (g: nat)
    ensures g >= 1
  {
    match arch
    case S390X => 64
    case S390 => 8
    case _ => 1
  }

  /** `y | (g - 1)` for a power of two g: y with its low bits all set. */
  function SetLowBits(y: nat, g: nat): nat
    requires g >= 1
  {
    y - y % g + (g - 1)
  }

  // Two steps of 64-bit arithmetic for each mask: or-ing the low bits adds
  // them to the value with its low bits cleared, and clearing them
  // subtracts them.  The low bits `y & (g - 1)` are `y % g`.

  lemma {:induction false} OrLow3(y: bv64) ensures y | 7 == (y & !7) + 7 {}
  lemma {:induction false} ClearLow3(y: bv64) ensures y & !7 == y - (y & 7) {}
  lemma {:induction false} LowBitsAreRemainder3(y: bv64) ensures y & 7 == y % 8 {}
  lemma {:induction false} OrLow6(y: bv64) ensures y | 63 == (y & !63) + 63 {}
  lemma {:induction false} ClearLow6(y: bv64) ensures y & !63 == y - (y & 63) {}
  lemma {:induction false} LowBitsAreRemainder6(y: bv64) ensures y & 63 == y % 64 {}

  /** The s390 mask, in the source's 64-bit arithmetic, sets the low bits as SetLowBits does. */
  lemma {:induction false} S390MaskSetsLowBits(y: bv64)
    ensures y | ((1 << (25 - 12 - 10)) - 1) == y - (y & 7) + 7
  {
    OrLow3(y);
    ClearLow3(y);
  }

  /** The s390x mask, in the source's 64-bit arithmetic, sets the low bits as SetLowBits does. */
  lemma {:induction false} S390XMaskSetsLowBits(y: bv64)
    ensures y | ((1 << (28 - 12 - 10)) - 1) == y - (y & 63) + 63
  {
    OrLow6(y);
    ClearLow6(y);
  }

  /**
   * align_memmap(maxpfn): the identity except on s390 and s390x, where
   * `((maxpfn - 1) | mask) + 1` rounds up to a whole granule.  For
   * maxpfn == 0 the subtraction wraps to ULONG_MAX, the mask keeps it and
   * the addition wraps back to 0.
   */
  function AlignMemmap(arch: Arch, maxpfn: nat): nat {
    if arch != S390X && arch != S390 then maxpfn
    else if maxpfn == 0 then 0
    else SetLowBits(maxpfn - 1, MemmapGranule(arch)) + 1
  }

  /** align_memmap rounds up to the next multiple of the granule, and no further. */
  lemma {:induction false} AlignMemmapRoundsUp(arch: Arch, maxpfn: nat)
    ensures AlignMemmap(arch, maxpfn) % MemmapGranule(arch) == 0
    ensures maxpfn <= AlignMemmap(arch, maxpfn) < maxpfn + MemmapGranule(arch)
  {
    var g := MemmapGranule(arch);
    if (arch == S390X || arch == S390) && maxpfn > 0 {
      var y := maxpfn - 1;
      var q := y / g;
      assert y == q * g + y % g;
      assert AlignMemmap(arch, maxpfn) == (q + 1) * g;
    }
  }

  // ---------------------------------------------------------------------------
  // The steps of the estimate

  /** The scaling steps multiply by num / den >= 1 and so never shrink. */
  lemma {:induction false} ScaleUp(x: nat, num: nat, den: nat)
    requires 0 < den <= num
    ensures x * num / den >= x
  {
    var q := x * num / den;
    assert x * num == q * den + x * num % den;
    assert x * num - x * den == x * (num - den);
    assert (q - x + 1) * den == q * den - x * den + den;
    PositiveFactor(q - x + 1, den);
  }

  lemma {:induction false} PositiveFactor(a: int, b: int)
    requires b > 0 && a * b > 0
    ensures a > 0
  {
  }

  /** The unpacked initramfs: INIT_KB, plus INIT_NET_KB when the network is needed. */
  function RamfsKb(arch: Arch, needsNetwork: bool): nat {
    InitKb(arch) + (if needsNetwork then InitNetKb(arch) else 0)
  }

  /** Memory needed at boot: the kernel, the compressed and the unpacked initramfs. */
  function BootKb(arch: Arch, needsNetwork: bool): nat {
    var ramfs := RamfsKb(arch, needsNetwork);
    KernelKb(arch) + ramfs * INITRD_COMPRESS / 100 + ramfs
  }

  /** The makedumpfile bitmap: one bit per RAM page, at most MAX_BITMAP_KB. */
  function BitmapKb(memTotal: nat, pagesize: nat): (r: nat)
    requires pagesize > 0
    ensures r <= MAX_BITMAP_KB
    ensures r == MAX_BITMAP_KB || r * 4 >= memTotal / pagesize
  {
    var bits := ShrRoundUp(memTotal / pagesize, 2);
    ShrRoundUpIsCeiling(memTotal / pagesize, 2);
    assert Pow2(2) == 4;
    if bits > MAX_BITMAP_KB then MAX_BITMAP_KB else bits
  }

  /**
   * User space: USER_BASE_KB, USER_NET_KB with the network, and with
   * makedumpfile its bitmap and 96 bytes for every started 128 MiB of RAM.
   */
  function UserKb(needsNetwork: bool, needsMakedumpfile: bool, memTotal: nat, pagesize: nat): (r: nat)
    requires pagesize > 0
    ensures r >= USER_BASE_KB
    ensures r <= USER_BASE_KB + USER_NET_KB + MAX_BITMAP_KB + 96 * ShrRoundUp(memTotal, 20 + 7)
    ensures !needsMakedumpfile ==> r == USER_BASE_KB + (if needsNetwork then USER_NET_KB else 0)
  {
    var user := USER_BASE_KB + (if needsNetwork then USER_NET_KB else 0);
    if needsMakedumpfile then user + BitmapKb(memTotal, pagesize) + 96 * ShrRoundUp(memTotal, 20 + 7)
    else user
  }

  /**
   * Room for dirty page cache and in-flight I/O: the total t solves
   * t = x + t * DIRTY_RATIO / 100 * (1 + BUF_PER_DIRTY_MB / 1024).
   */
  function DirtyStep(x: nat): (r: nat)
    ensures r >= x
  {
    ScaleUp(x, MB(100), MB(100) - MB(DIRTY_RATIO) - DIRTY_RATIO * BUF_PER_DIRTY_MB);
    x * MB(100) / (MB(100) - MB(DIRTY_RATIO) - DIRTY_RATIO * BUF_PER_DIRTY_MB)
  }

  /** Room for the large kernel hashes, KERNEL_HASH_PER_MB bytes per MiB. */
  function HashStep(arch: Arch, x: nat): (r: nat)
    ensures r >= x
  {
    ScaleUp(x, MB(1024), MB(1024) - KernelHashPerMb(arch));
    x * MB(1024) / (MB(1024) - KernelHashPerMb(arch))
  }

  /** The memory map scaled up from x: x * pagesize / (pagesize - SIZE_STRUCT_PAGE). */
  function MemmapScaled(arch: Arch, x: nat, pagesize: nat): (r: nat)
    requires pagesize > SizeStructPage(arch)
    ensures r >= x
  {
    ScaleUp(x, pagesize, pagesize - SizeStructPage(arch));
    x * pagesize / (pagesize - SizeStructPage(arch))
  }

  /** Room for the memory map: its page frame count, aligned, times SIZE_STRUCT_PAGE. */
  function MemmapStep(arch: Arch, x: nat, pagesize: nat): nat
    requires pagesize > SizeStructPage(arch)
  {
    var maxpfn := (MemmapScaled(arch, x, pagesize) - x) / SizeStructPage(arch);
    x + AlignMemmap(arch, maxpfn) * SizeStructPage(arch)
  }

  /** The memory map step keeps x and comes within SIZE_STRUCT_PAGE of the scaled-up size. */
  lemma {:induction false} MemmapStepCovers(arch: Arch, x: nat, pagesize: nat)
    requires pagesize > SizeStructPage(arch)
    ensures MemmapStep(arch, x, pagesize) >= x
    ensures MemmapStep(arch, x, pagesize) + SizeStructPage(arch) > MemmapScaled(arch, x, pagesize)
  {
    var sp := SizeStructPage(arch);
    var d := MemmapScaled(arch, x, pagesize) - x;
    var maxpfn := d / sp;
    AlignMemmapRoundsUp(arch, maxpfn);
    assert d == maxpfn * sp + d % sp;
    MulMonotone(maxpfn, AlignMemmap(arch, maxpfn), sp);
  }

  lemma {:induction false} MulMonotone(a: nat, b: nat, c: nat)
    requires a <= b
    ensures a * c <= b * c
  {
    assert b * c - a * c == (b - a) * c;
  }

  /** On s390 and s390x the memory map step adds whole granules of page frames. */
  lemma {:induction false} MemmapStepWholeGranules(arch: Arch, x: nat, pagesize: nat)
    requires pagesize > SizeStructPage(arch)
    ensures (MemmapStep(arch, x, pagesize) - x) % (MemmapGranule(arch) * SizeStructPage(arch)) == 0
  {
    var sp := SizeStructPage(arch);
    var maxpfn := (MemmapScaled(arch, x, pagesize) - x) / sp;
    AlignMemmapRoundsUp(arch, maxpfn);
    WholeGranules(AlignMemmap(arch, maxpfn), MemmapGranule(arch), sp);
  }

  /** A count of whole granules of page frames, times the size of a page struct, is a whole number of granule sizes. */
  lemma {:induction false} WholeGranules(aligned: nat, g: nat, sp: nat)
    requires g > 0 && sp > 0 && aligned % g == 0
    ensures (aligned * sp) % (g * sp) == 0
  {
    var k := aligned / g;
    assert aligned == k * g;
    assert aligned * sp == k * g * sp;
    MultipleMod(k, g, sp);
  }

  lemma {:induction false} MultipleMod(k: nat, g: nat, sp: nat)
    requires g * sp > 0
    ensures (k * g * sp) % (g * sp) == 0
  {
    var m := g * sp;
    assert k * g * sp == k * m;
    var q := (k * m) / m;
    var r := (k * m) % m;
    assert k * m == q * m + r;
    assert (k - q) * m == r;
    if k > q {
      MulMonotone(1, k - q, m);
    }
  }

  // ---------------------------------------------------------------------------
  // Framebuffers and slab caches

  /** Framebuffer memory: what Framebuffers::size finds, or DEF_FRAMEBUFFER_KB when it fails. */
  function FramebufferKb(arch: Arch, listing: Result<seq<seq<char>>>, device: seq<char> -> Framebuffers.FbDevice): nat {
    match Framebuffers.FbDirTotal(listing, device)
    case Ok(bytes) => bytes / 1024
    case Err(_) => DefFramebufferKb(arch)
  }

  /** The caches that never shrink: those named Acpi-* and ftrace_*. */
  predicate IsConstantCache(name: seq<char>) {
    StartsWith(name, "Acpi-") || StartsWith(name, "ftrace_")
  }

  /** What one cache adds: its slabs times pages per slab, in KiB, if it is constant. */
  function CacheKb(name: seq<char>, si: SlabInfo, pagesize: nat): nat {
    if IsConstantCache(name) && si.Slab? then si.numSlabs * si.pagesPerSlab * pagesize / 1024 else 0
  }

  /** Some cache of a non-empty map: the one the sum below visits first. */
  ghost function AnyName(info: map<seq<char>, SlabInfo>): (name: seq<char>)
    requires |info| != 0
    ensures name in info
  {
    var name :| name in info; name
  }

  /** The sum of CacheKb over all caches of the map. */
  ghost function SlabExtraKb(info: map<seq<char>, SlabInfo>, pagesize: nat): nat
    decreases |info|
  {
    if |info| == 0 then 0
    else
      var name := AnyName(info);
      CacheKb(name, info[name], pagesize) + SlabExtraKb(info - {name}, pagesize)
  }

  /** The sum does not depend on the order the caches are visited in: any one may go first. */
  lemma {:induction false} SlabExtraRemove(info: map<seq<char>, SlabInfo>, name: seq<char>, pagesize: nat)
    requires name in info
    ensures SlabExtraKb(info, pagesize) == CacheKb(name, info[name], pagesize) + SlabExtraKb(info - {name}, pagesize)
    decreases |info|
  {
    var first := AnyName(info);
    if first != name {
      SlabExtraRemove(info - {first}, name, pagesize);
      SlabExtraRemove(info - {name}, first, pagesize);
      assert info - {first} - {name} == info - {name} - {first};
    }
  }

  /** Caches that are not constant add nothing. */
  lemma {:induction false} SlabExtraOnlyConstant(info: map<seq<char>, SlabInfo>, pagesize: nat)
    requires forall name :: name in info ==> !IsConstantCache(name)
    ensures SlabExtraKb(info, pagesize) == 0
    decreases |info|
  {
    if |info| != 0 {
      var name := AnyName(info);
      SlabExtraRemove(info, name, pagesize);
      SlabExtraOnlyConstant(info - {name}, pagesize);
    }
  }

  /** A constant cache adds its slabs times pages per slab. */
  lemma {:induction false} SlabExtraAdds(info: map<seq<char>, SlabInfo>, name: seq<char>, pagesize: nat)
    requires name in info && IsConstantCache(name) && info[name].Slab?
    ensures SlabExtraKb(info, pagesize) ==
      info[name].numSlabs * info[name].pagesPerSlab * pagesize / 1024 + SlabExtraKb(info - {name}, pagesize)
  {
    SlabExtraRemove(info, name, pagesize);
  }

  /** Slab memory: the constant caches of /proc/slabinfo, nothing when it cannot be read. */
  ghost function SlabKb(slabinfo: FileContent, pagesize: nat): nat {
    match SlabMap(slabinfo)
    case Ok(info) => SlabExtraKb(info, pagesize)
    case Err(_) => 0
  }

  /** The loop over the caches of the map. */
  method AddSlabs(info: map<seq<char>, SlabInfo>, pagesize: nat) returns (extra: nat)
    ensures extra == SlabExtraKb(info, pagesize)
  {
    extra := 0;
    var rest := info;
    while rest != map[]
      invariant extra + SlabExtraKb(rest, pagesize) == SlabExtraKb(info, pagesize)
      decreases |rest|
    {
      var name :| name in rest;
      SlabExtraRemove(rest, name, pagesize);
      extra := extra + CacheKb(name, rest[name], pagesize);
      rest := rest - {name};
    }
    assert |rest| == 0;
  }

  // ---------------------------------------------------------------------------
  // Calibrate::execute

  /** What calibrate reads from the system and its configuration. */
  datatype Host = Host(
    pagesize: nat,                                   // sysconf(_SC_PAGESIZE)
    memTotal: Result<nat>,                           // Util::getMemorySize, in KiB
    needsNetwork: bool,                              // Configuration::needsNetwork
    needsMakedumpfile: bool,                         // Configuration::needsMakedumpfile
    kdumpCpus: nat,                                  // KDUMP_CPUS
    fbEntries: Result<seq<seq<char>>>,               // the entries of /sys/class/graphics, or why listDir failed
    fbDevice: seq<char> -> Framebuffers.FbDevice,    // the files of each entry
    slabinfo: FileContent,                           // /proc/slabinfo
    cpusOnline: FileContent,                         // /sys/devices/system/cpu/online
    cpusOffline: FileContent)                        // /sys/devices/system/cpu/offline

  /** The run-time requirement before scaling: kernel, initramfs, dynamic data, framebuffer, slabs, user space. */
  ghost function RuntimeKb(arch: Arch, host: Host, memTotal: nat): nat
    requires host.pagesize > 0
  {
    KernelKb(arch) + RamfsKb(arch, host.needsNetwork) + KERNEL_DYNAMIC_KB
      + FramebufferKb(arch, host.fbEntries, host.fbDevice)
      + SlabKb(host.slabinfo, host.pagesize)
      + UserKb(host.needsNetwork, host.needsMakedumpfile, memTotal, host.pagesize)
  }

  /** The runtime requirement scaled up for dirty pages, the load offset, hashes and the memory map. */
  ghost function ScaledKb(arch: Arch, host: Host, memTotal: nat): nat
    requires host.pagesize > SizeStructPage(arch)
  {
    ScaleKb(arch, RuntimeKb(arch, host, memTotal), host.pagesize)
  }

  /** A run-time requirement scaled up for dirty pages, the load offset, hashes and the memory map. */
  function ScaleKb(arch: Arch, runtime: nat, pagesize: nat): nat
    requires pagesize > SizeStructPage(arch)
  {
    MemmapStep(arch, HashStep(arch, DirtyStep(runtime) + KdumpPhysLoad(arch)), pagesize)
  }

  /**
   * The body of the outer try block: the estimate in KiB, or the error that
   * ends it (the RAM size, or on architectures that cannot reduce CPUs the
   * CPU counts).  Framebuffer and slab errors are absorbed.
   */
  ghost function Required(arch: Arch, host: Host): (r: Result<nat>)
    requires host.pagesize > SizeStructPage(arch)
    ensures r.Err? <==> host.memTotal.Err? || CpuError(arch, host).Some?
    ensures r.Ok? ==> r.value >= BootKb(arch, host.needsNetwork)
  {
    match host.memTotal
    case Err(e) => Err(e)
    case Ok(memTotal) =>
      match CpuError(arch, host)
      case Some(e) => Err(e)
      case Nothing =>
        var required := ScaledKb(arch, host, memTotal);
        Ok(if required < BootKb(arch, host.needsNetwork) then BootKb(arch, host.needsNetwork) else required)
  }

  /**
   * The error counting the CPUs throws: only where the CPUs cannot be
   * reduced, the online list first, then the offline list.
   */
  function CpuError(arch: Arch, host: Host): (e: Option<Error>)
    ensures e.Some? <==>
      !CanReduceCpus(arch) && (SystemCpu.CpuCount(host.cpusOnline).Err? || SystemCpu.CpuCount(host.cpusOffline).Err?)
  {
    if CanReduceCpus(arch) then Nothing
    else if SystemCpu.CpuCount(host.cpusOnline).Err? then Some(SystemCpu.CpuCount(host.cpusOnline).error)
    else if SystemCpu.CpuCount(host.cpusOffline).Err? then Some(SystemCpu.CpuCount(host.cpusOffline).error)
    else Nothing
  }

  /**
   * The CPU count of the outer try block: KDUMP_CPUS, or the online and
   * offline CPUs counted from their lists.  Only its error is used.
   */
  method CountCpus(arch: Arch, host: Host) returns (cpus: int, e: Option<Error>)
    ensures e == CpuError(arch, host)
    ensures e.Nothing? && !CanReduceCpus(arch) ==>
      cpus == SystemCpu.CpuCount(host.cpusOnline).value + SystemCpu.CpuCount(host.cpusOffline).value
  {
    e := Nothing;
    if CanReduceCpus(arch) {
      cpus := host.kdumpCpus;
    } else {
      var online := SystemCpu.Count(host.cpusOnline);
      if online.Err? {
        return 0, Some(online.error);
      }
      var offline := SystemCpu.Count(host.cpusOffline);
      if offline.Err? {
        return 0, Some(offline.error);
      }
      cpus := online.value + offline.value;
    }
  }

  /** What calibrate prints: the estimate, or DEF_RESERVE_KB after an error, in MiB rounded up. */
  ghost function ReservationMiB(arch: Arch, host: Host): nat
    requires host.pagesize > SizeStructPage(arch)
  {
    var required := match Required(arch, host) case Ok(kb) => kb case Err(_) => DefReserveKb(arch);
    ShrRoundUp(required, 10)
  }

  /** The run-time requirement as the outer try block adds it up, before any scaling. */
  method RuntimeEstimate(arch: Arch, host: Host, memtotal: nat) returns (required: nat)
    requires host.pagesize > 0
    ensures required == RuntimeKb(arch, host, memtotal)
  {
    var ramfs := InitKb(arch);
    if host.needsNetwork {
      ramfs := ramfs + InitNetKb(arch);
    }
    required := KernelKb(arch) + ramfs + KERNEL_DYNAMIC_KB;
    var fb := FramebufferEstimate(arch, host.fbEntries, host.fbDevice);
    required := required + fb;
    var slabs := SlabEstimate(host.slabinfo, host.pagesize);
    required := required + slabs;
    var user := UserEstimate(host.needsNetwork, host.needsMakedumpfile, memtotal, host.pagesize);
    required := required + user;
  }

  /** The framebuffer part of the outer try block, with its own catch. */
  method FramebufferEstimate(arch: Arch, listing: Result<seq<seq<char>>>, device: seq<char> -> Framebuffers.FbDevice)
    returns (kb: nat)
    ensures kb == FramebufferKb(arch, listing, device)
  {
    var fb := Framebuffers.FramebuffersSize(listing, device);
    if fb.Ok? {
      kb := fb.value / 1024;
    } else {
      kb := DefFramebufferKb(arch);
    }
  }

  /** The constant slab caches part of the outer try block, with its own catch. */
  method SlabEstimate(slabinfo: FileContent, pagesize: nat) returns (kb: nat)
    ensures kb == SlabKb(slabinfo, pagesize)
  {
    kb := 0;
    var slab := new SlabInfos();
    var info := slab.GetInfo(slabinfo);
    if info.Ok? {
      var extra := AddSlabs(info.value, pagesize);
      kb := kb + extra;
    }
  }

  /** The user-space requirements as the outer try block adds them up. */
  method UserEstimate(needsNetwork: bool, needsMakedumpfile: bool, memtotal: nat, pagesize: nat) returns (user: nat)
    requires pagesize > 0
    ensures user == UserKb(needsNetwork, needsMakedumpfile, memtotal, pagesize)
  {
    user := USER_BASE_KB;
    if needsNetwork {
      user := user + USER_NET_KB;
    }
    if needsMakedumpfile {
      var bitmapsz := ShrRoundUp(memtotal / pagesize, 2);
      if bitmapsz > MAX_BITMAP_KB {
        bitmapsz := MAX_BITMAP_KB;
      }
      user := user + bitmapsz;
      user := user + 96 * ShrRoundUp(memtotal, 20 + 7);
    }
  }

  /**
   * The outer try block of Calibrate::execute.  The CPU count is taken from
   * KDUMP_CPUS or from the online and offline lists; it only decides whether
   * an error ends the block.
   */
  method Estimate(arch: Arch, host: Host) returns (r: Result<nat>)
    requires host.pagesize > SizeStructPage(arch)
    ensures r == Required(arch, host)
  {
    var pagesize := host.pagesize;
    if host.memTotal.Err? {
      return Err(host.memTotal.error);
    }
    var memtotal := host.memTotal.value;

    var bootsize := BootEstimate(arch, host.needsNetwork);

    var required := RuntimeEstimate(arch, host, memtotal);

    var cpus, e := CountCpus(arch, host);
    if e.Some? {
      return Err(e.value);
    }

    required := ScaleEstimate(arch, required, pagesize);

    if required < bootsize {
      required := bootsize;
    }
    return Ok(required);
  }

  /** The boot-time size: the kernel, the compressed initramfs and the unpacked one. */
  method BootEstimate(arch: Arch, needsNetwork: bool) returns (bootsize: nat)
    ensures bootsize == BootKb(arch, needsNetwork)
  {
    var ramfs := InitKb(arch);
    if needsNetwork {
      ramfs := ramfs + InitNetKb(arch);
    }
    var initrd := ramfs * INITRD_COMPRESS / 100;
    bootsize := KernelKb(arch) + initrd + ramfs;
  }

  /** The scaling steps of the outer try block. */
  method ScaleEstimate(arch: Arch, runtime: nat, pagesize: nat) returns (required: nat)
    requires pagesize > SizeStructPage(arch)
    ensures required == ScaleKb(arch, runtime, pagesize)
  {
    required := DirtyStep(runtime);
    required := required + KdumpPhysLoad(arch);
    required := HashStep(arch, required);
    required := AddMemmap(arch, required, pagesize);
  }

  /** The memory map step of the outer try block. */
  method AddMemmap(arch: Arch, required: nat, pagesize: nat) returns (r: nat)
    requires pagesize > SizeStructPage(arch)
    ensures r == MemmapStep(arch, required, pagesize)
  {
    var prev := required;
    r := MemmapScaled(arch, required, pagesize);
    var maxpfn: nat := (r - prev) / SizeStructPage(arch);
    var pages: nat := AlignMemmap(arch, maxpfn);
    r := prev + pages * SizeStructPage(arch);
  }

  /** Calibrate::execute: the reservation in MiB that it prints. */
  method Execute(arch: Arch, host: Host) returns (mib: nat)
    requires host.pagesize > SizeStructPage(arch)
    ensures mib == ReservationMiB(arch, host)
  {
    var required: nat;
    var r := Estimate(arch, host);
    if r.Ok? {
      required := r.value;
    } else {
      required := DefReserveKb(arch);
    }
    mib := ShrRoundUp(required, 10);
  }

  // ---------------------------------------------------------------------------
  // Properties of the estimate

  /** The estimate never goes below what is needed at boot, nor below the unscaled run-time need. */
  lemma {:induction false} RequiredCoversNeeds(arch: Arch, host: Host)
    requires host.pagesize > SizeStructPage(arch)
    requires Required(arch, host).Ok?
    ensures Required(arch, host).value >= BootKb(arch, host.needsNetwork)
    ensures Required(arch, host).value >= RuntimeKb(arch, host, host.memTotal.value) + KdumpPhysLoad(arch)
  {
    var runtime := RuntimeKb(arch, host, host.memTotal.value);
    ScaleKbCovers(arch, runtime, host.pagesize);
    var scaled := ScaledKb(arch, host, host.memTotal.value);
    assert scaled == ScaleKb(arch, runtime, host.pagesize);
    assert Required(arch, host).value == if scaled < BootKb(arch, host.needsNetwork) then BootKb(arch, host.needsNetwork) else scaled;
  }

  /** Scaling never loses any of the run-time need, nor the load offset added to it. */
  lemma {:induction false} ScaleKbCovers(arch: Arch, runtime: nat, pagesize: nat)
    requires pagesize > SizeStructPage(arch)
    ensures ScaleKb(arch, runtime, pagesize) >= runtime + KdumpPhysLoad(arch)
  {
    var hashed := HashStep(arch, DirtyStep(runtime) + KdumpPhysLoad(arch));
    MemmapStepCovers(arch, hashed, pagesize);
  }

  /** The estimate is exactly the boot size or the scaled run-time need, whichever is larger. */
  lemma {:induction false} RequiredIsMax(arch: Arch, host: Host)
    requires host.pagesize > SizeStructPage(arch)
    requires host.memTotal.Ok? && CpuError(arch, host).Nothing?
    ensures var scaled := ScaledKb(arch, host, host.memTotal.value);
      Required(arch, host) == Ok(if scaled < BootKb(arch, host.needsNetwork) then BootKb(arch, host.needsNetwork) else scaled)
  {
  }

  /** An error that reaches the outer catch yields the default reservation. */
  lemma {:induction false} ErrorFallsBack(arch: Arch, host: Host)
    requires host.pagesize > SizeStructPage(arch)
    requires host.memTotal.Err? ||
      (!CanReduceCpus(arch) && (SystemCpu.CpuCount(host.cpusOnline).Err? || SystemCpu.CpuCount(host.cpusOffline).Err?))
    ensures ReservationMiB(arch, host) * 1024 == DefReserveKb(arch)
  {
    assert Required(arch, host).Err?;
    match arch {
      case PPC64 => ShrRoundUpMiB(256);
      case IA64 => ShrRoundUpMiB(512);
      case _ => ShrRoundUpMiB(128);
    }
  }

  /** The printed MiB cover the estimate, and by less than one MiB too much. */
  lemma {:induction false} ReservationCovers(arch: Arch, host: Host)
    requires host.pagesize > SizeStructPage(arch)
    requires Required(arch, host).Ok?
    ensures ReservationMiB(arch, host) * 1024 >= Required(arch, host).value
    ensures ReservationMiB(arch, host) * 1024 < Required(arch, host).value + 1024
  {
    Pow2Ten();
    ShrRoundUpIsCeiling(Required(arch, host).value, 10);
  }

  /** Framebuffer errors are absorbed: the default framebuffer size is used instead. */
  lemma {:induction false} FramebufferFallsBack(arch: Arch, listing: Result<seq<seq<char>>>, device: seq<char> -> Framebuffers.FbDevice)
    requires listing.Err? || Framebuffers.FbTotal(Framebuffers.ListFramebuffers(listing.value), device).Err?
    ensures FramebufferKb(arch, listing, device) == DefFramebufferKb(arch)
    ensures arch == S390 || arch == S390X ==> FramebufferKb(arch, listing, device) == 0
  {
  }
}
