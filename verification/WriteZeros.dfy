/** Filling a device with zeros: the implicit file position stays with the block index. */
module WriteZeros {
  import opened CopyTypes
  import opened ReadTestScan

  /** Position, counters and device content; `offset` is the file position in bytes. */
  datatype Fill = Fill(index: int, toProcess: int, num: int, offset: int, device: seq<Content>)

  function Begin(start: int, device: seq<Content>): Fill {
    Fill(0, |device| - start, 0, 512 * start, device)
  }

  function BlockSize(f: Fill): int {
    if f.toProcess < SECTORS_AT_ONCE then f.toProcess else SECTORS_AT_ONCE
  }

  /** Zero `n` sectors from `lba` on. */
  function Zeroed(device: seq<Content>, lba: int, n: int): (r: seq<Content>)
    requires 0 <= lba && 0 <= n && lba + n <= |device|
    ensures |r| == |device|
    ensures forall k | 0 <= k < |device| :: r[k] == if lba <= k < lba + n then 0 else device[k]
  {
    device[..lba] + seq(n, _ => 0) + device[lba + n..]
  }

  /** The sectors a write that returned `ret` has put on the device. */
  function Landed(ret: int, sectors: int): int {
    if ret < 0 then 0 else if ret / 512 < sectors then ret / 512 else sectors
  }

  /** The file position belongs to the block about to be written. */
  predicate InStep(start: int, f: Fill) {
    && 0 <= start && 0 <= f.toProcess && 0 <= f.index
    && (f.toProcess > 0 ==> f.offset == 512 * (start + SECTORS_AT_ONCE * f.index)
                            && start + SECTORS_AT_ONCE * f.index == |f.device| - f.toProcess)
  }

  /** One block; `ret` is what the write returns: all bytes, fewer, or -1. */
  function FillBlock(start: int, f: Fill, ret: int): Fill
    requires InStep(start, f) && f.toProcess > 0
  {
    var n := BlockSize(f);
    Fill(f.index + 1, f.toProcess - n, f.num + 1,
         if ret != 512 * n then 512 * start + 512 * SECTORS_AT_ONCE * (f.index + 1) else f.offset + ret,
         Zeroed(f.device, f.offset / 512, Landed(ret, n)))
  }

  /** After any mix of whole, short and failed writes the position still belongs to the next
      block, and the write went to the sectors the report names. */
  lemma StaysInStep(start: int, f: Fill, ret: int)
    requires InStep(start, f) && f.toProcess > 0
    ensures InStep(start, FillBlock(start, f, ret)) && |FillBlock(start, f, ret).device| == |f.device|
    ensures f.offset / 512 == start + SECTORS_AT_ONCE * f.index
  {
  }

  /** A write that put `ret` bytes on the device has zeroed the sectors of the block it covered whole, and
      no others; a failed one none. */
  lemma BlockZeroed(start: int, f: Fill, ret: int)
    requires InStep(start, f) && f.toProcess > 0
    ensures var g, lba := FillBlock(start, f, ret), start + 256 * f.index;
            && |g.device| == |f.device| && 0 <= lba && lba + BlockSize(f) <= |f.device|
            && forall k | 0 <= k < |f.device| ::
                 g.device[k] == if lba <= k < lba + BlockSize(f) && 512 * (k - lba + 1) <= ret then 0 else f.device[k]
  {
  }

  class Procedure {
    const start: int
    const device: array<Content>
    var index: int
    var toProcess: int
    var num: int
    var den: int
    var offset: int
    var lba: int         // of the report
    var sectors: int
    var failed: bool

    ghost function Abs(): Fill
      reads this, device
    {
      Fill(index, toProcess, num, offset, device[..])
    }

    /** `Open`; the caller gives a start inside the device. */
    constructor (start: int, device: array<Content>)
      requires 0 <= start <= device.Length
      ensures this.start == start && this.device == device
      ensures Abs() == Begin(start, device[..]) && den == Needed(SECTORS_AT_ONCE, device.Length - start)
    {
      this.start, this.device := start, device;
      index, num := 0, 0;
      toProcess := device.Length - start;
      den := (device.Length - start) / SECTORS_AT_ONCE +
          if (device.Length - start) % SECTORS_AT_ONCE != 0 then 1 else 0;
      offset := 512 * start;
      lba, sectors, failed := 0, 0, false;
    }

    /** `Perform`. */
    method Perform(ret: int)
      requires InStep(start, Abs()) && toProcess > 0
      modifies this, device
      ensures Abs() == FillBlock(start, old(Abs()), ret) && den == old(den)
      ensures lba == start + SECTORS_AT_ONCE * old(index) && sectors == BlockSize(old(Abs()))
      ensures failed <==> ret != 512 * sectors
    {
      ghost var f := Abs();
      sectors := if toProcess < SECTORS_AT_ONCE then toProcess else SECTORS_AT_ONCE;
      lba := start + SECTORS_AT_ONCE * index;
      failed := false;
      index := index + 1;
      StaysInStep(start, f, ret);
      var landed := Landed(ret, sectors);
      var at := offset / 512;
      forall k | at <= k < at + landed { device[k] := 0; }
      assert device[..] == Zeroed(f.device, at, landed);
      offset := offset + ret;
      if ret != sectors * 512 {
        offset := 512 * start + 512 * SECTORS_AT_ONCE * index;
        failed := true;
      }
      num := num + 1;
      toProcess := toProcess - sectors;
    }
  }

  // ----- whole runs -----

  function FillAll(start: int, f: Fill, rets: seq<int>): Fill
    requires InStep(start, f)
    decreases |rets|
  {
    if rets == [] || f.toProcess <= 0 then f
    else
      StaysInStep(start, f, rets[0]);
      FillAll(start, FillBlock(start, f, rets[0]), rets[1..])
  }

  /** The whole fill: it takes as many blocks as the range needs, touches nothing outside what
      was left to do, and every block whose write was whole is zero. */
  lemma {:induction false} FillExact(start: int, f: Fill, rets: seq<int>)
    requires InStep(start, f)
    ensures var g := FillAll(start, f, rets); var blocks := Needed(SECTORS_AT_ONCE, f.toProcess);
            && InStep(start, g) && |g.device| == |f.device|
            && g.num - f.num == (if |rets| < blocks then |rets| else blocks)
            && (g.toProcess == 0 <==> blocks <= |rets|)
            && (forall k | 0 <= k < |f.device| - f.toProcess :: g.device[k] == f.device[k])
            && (forall k | 0 <= k < |f.device| :: g.device[k] == f.device[k] || g.device[k] == 0)
    ensures WholeWritesZero(start, f, rets, FillAll(start, f, rets).device)
    decreases |rets|
  {
    NeededZero(SECTORS_AT_ONCE, f.toProcess);
    if rets != [] && f.toProcess > 0 {
      StaysInStep(start, f, rets[0]);
      NeededStep(SECTORS_AT_ONCE, f.toProcess);
      var f' := FillBlock(start, f, rets[0]);
      FillExact(start, f', rets[1..]);
    }
  }

  /** Each block of the run whose write returned its full length is zero at the end. */
  predicate WholeWritesZero(start: int, f: Fill, rets: seq<int>, device: seq<Content>)
    requires InStep(start, f) && |device| == |f.device|
    decreases |rets|
  {
    if rets == [] || f.toProcess <= 0 then true
    else
      StaysInStep(start, f, rets[0]);
      var n, at := BlockSize(f), |f.device| - f.toProcess;
      && (rets[0] == 512 * n ==> forall k | at <= k < at + n && 0 <= k < |device| :: device[k] == 0)
      && WholeWritesZero(start, FillBlock(start, f, rets[0]), rets[1..], device)
  }

  /** Every write of the run put its whole block on the device. */
  predicate AllWhole(start: int, f: Fill, rets: seq<int>)
    requires InStep(start, f)
    decreases |rets|
  {
    rets == [] || f.toProcess <= 0 ||
    (StaysInStep(start, f, rets[0]);
     rets[0] == 512 * BlockSize(f) && AllWhole(start, FillBlock(start, f, rets[0]), rets[1..]))
  }

  /** A fill that goes to the end without a failed or short write leaves zeros everywhere from where it
      began, and nothing else changed. */
  lemma {:induction false} WholeFill(start: int, f: Fill, rets: seq<int>)
    requires InStep(start, f) && AllWhole(start, f, rets) && Needed(SECTORS_AT_ONCE, f.toProcess) <= |rets|
    requires f.toProcess <= |f.device|
    ensures var g := FillAll(start, f, rets).device;
            && |g| == |f.device|
            && forall k | 0 <= k < |g| :: g[k] == if k < |f.device| - f.toProcess then f.device[k] else 0
    decreases |rets|
  {
    NeededZero(SECTORS_AT_ONCE, f.toProcess);
    FillExact(start, f, rets);
    if f.toProcess > 0 {
      StaysInStep(start, f, rets[0]);
      NeededStep(SECTORS_AT_ONCE, f.toProcess);
      BlockZeroed(start, f, rets[0]);
      var next := FillBlock(start, f, rets[0]);
      FillExact(start, next, rets[1..]);
      WholeFill(start, next, rets[1..]);
    }
  }

  /** From the beginning: the device from `start` to its end. */
  lemma DeviceZeroed(start: int, device: seq<Content>, rets: seq<int>)
    requires 0 <= start <= |device|
    ensures InStep(start, Begin(start, device))
    ensures AllWhole(start, Begin(start, device), rets) && Needed(256, |device| - start) <= |rets| ==>
              FillAll(start, Begin(start, device), rets).device == device[..start] + seq(|device| - start, _ => 0)
  {
    if AllWhole(start, Begin(start, device), rets) && Needed(256, |device| - start) <= |rets| {
      WholeFill(start, Begin(start, device), rets);
    }
  }
}
