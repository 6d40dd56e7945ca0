/** Values shared by the model of the device-copy procedure. */
module CopyTypes {

  datatype Option<+T> = None | Some(value: T)

  datatype Strategy = Plain | Smart | SmartNoReverse | Skipfail | SkipfailNoReverse

  /** One journal byte. */
  datatype SectorStatus = Unread | ReadOk | BlockReadError | SectorReadError

  predicate IsError(status: SectorStatus) {
    status == BlockReadError || status == SectorReadError
  }

  /** The journal of a disk nothing has been read of. */
  function Blank(size: nat): seq<SectorStatus> {
    seq(size, _ => Unread)
  }

  /** An extent of sectors nobody has tried to read; `end` is exclusive. */
  datatype Zone = Zone(begin: int, end: int, beginBad: bool, endBad: bool)

  function Length(z: Zone): int {
    z.end - z.begin
  }

  /** A block the strategy asks the procedure to read. */
  datatype Task = Task(lba: int, sectors: int)

  predicate InTask(t: Task, k: int) {
    t.lba <= k < t.lba + t.sectors
  }

  const SECTORS_AT_ONCE := 256
  const INDIVISIBLE_DEFECT_ZONE_SIZE_SECTORS := 1000 * 1000
  const MAX_ZONES := 1000

  /** How many blocks of `size` sectors it takes to hold so many sectors. */
  function Needed(size: int, sectors: int): int
    requires size != 0
  {
    sectors / size + if sectors % size != 0 then 1 else 0
  }

  /** A list without its `i`-th element. */
  function Without<T>(s: seq<T>, i: nat): seq<T>
    requires i < |s|
  {
    s[..i] + s[i + 1..]
  }

  /** What a sector holds; only equality matters. */
  type Content = int

  datatype Config = Config(strategy: Strategy, skipBlocks: int, source: seq<Content>)

  /** What the outside world does during one block: the read fails, the block is copied,
      or it is read but the destination takes only its first `written` sectors. */
  datatype Outcome = ReadFailed | Copied | WrittenShort(written: nat)

  /** What the scheduler keeps between two calls: zone list, current zone
      (a position in the list), reading direction and smart's stage. */
  datatype Sched = Sched(zones: seq<Zone>, current: Option<nat>, reverse: bool, stage: int)
}
