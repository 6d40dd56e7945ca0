/** The access-time tiers shared by the read test and the renderers. */
module VisThresholds {

  const TIERS := 5
  const BASE: seq<int> := [3000, 10000, 50000, 150000, 500000]
  const BASE_SECTORS := 256

  /** Tier limits in microseconds for blocks of `sectors` sectors. */
  function Thresholds(sectors: int): seq<int> {
    seq(TIERS, i requires 0 <= i < TIERS => BASE[i] * sectors / BASE_SECTORS)
  }

  /** `dc_get_vis_thresholds`. */
  method GetVisThresholds(sectors: int, out: array<int>)
    requires out.Length == TIERS
    modifies out
    ensures out[..] == Thresholds(sectors)
    ensures forall i | 0 <= i < 5 && sectors > 0 ::
              256 * out[i] <= [3000, 10000, 50000, 150000, 500000][i] * sectors < 256 * (out[i] + 1)
  {
    for i := 0 to TIERS
      invariant forall j | 0 <= j < i :: out[j] == BASE[j] * sectors / BASE_SECTORS
    {
      out[i] := BASE[i] * sectors / BASE_SECTORS;
    }
  }

  /** The tier of an access time: the first limit it stays below, or the last tier. */
  function TierFrom(limits: seq<int>, time: int, i: nat): nat
    decreases |limits| - i
  {
    if i >= |limits| || time < limits[i] then i else TierFrom(limits, time, i + 1)
  }

  function Tier(sectors: int, time: int): nat {
    TierFrom(Thresholds(sectors), time, 0)
  }

  /** At 256 sectors the limits are 3, 10, 50, 150 and 500 milliseconds; at every other size they are
      in proportion, rounded down to a microsecond. */
  lemma LimitsOutright(sectors: int)
    requires sectors > 0
    ensures Thresholds(256) == [3000, 10000, 50000, 150000, 500000]
    ensures var t := Thresholds(sectors);
            && |t| == 5
            && 256 * t[0] <= 3000 * sectors < 256 * (t[0] + 1)
            && 256 * t[1] <= 10000 * sectors < 256 * (t[1] + 1)
            && 256 * t[2] <= 50000 * sectors < 256 * (t[2] + 1)
            && 256 * t[3] <= 150000 * sectors < 256 * (t[3] + 1)
            && 256 * t[4] <= 500000 * sectors < 256 * (t[4] + 1)
  {
    forall i | 0 <= i < TIERS ensures Thresholds(256)[i] == BASE[i] {}
  }

  /** The limits grow strictly for every block size. */
  lemma LimitsAscend(sectors: int)
    requires sectors > 0
    ensures var t := Thresholds(sectors); 0 < t[0] < t[1] < t[2] < t[3] < t[4]
  {
  }

  lemma {:induction false} TierFromExact(limits: seq<int>, time: int, i: nat)
    requires i <= |limits| && forall a, b | 0 <= a < b < |limits| :: limits[a] < limits[b]
    requires i > 0 ==> limits[i - 1] <= time
    ensures var r := TierFrom(limits, time, i);
            && i <= r <= |limits|
            && (r > 0 ==> limits[r - 1] <= time)
            && (r < |limits| ==> time < limits[r])
    decreases |limits| - i
  {
    if i < |limits| && time >= limits[i] { TierFromExact(limits, time, i + 1); }
  }

  /** A time is in tier `i` exactly when it lies between the limits around `i`. */
  lemma TierExact(sectors: int, time: int, i: nat)
    requires sectors > 0 && i <= TIERS
    ensures Tier(sectors, time) <= TIERS
    ensures var t := Thresholds(sectors);
            Tier(sectors, time) == i <==> (i == 0 || t[i - 1] <= time) && (i == TIERS || time < t[i])
  {
    LimitsAscend(sectors);
    TierFromExact(Thresholds(sectors), time, 0);
  }

  /** Scaling block size and time together keeps the tier: the tiers are rates per byte. */
  lemma TierIsARate(m: int, time: int)
    requires m > 0
    ensures Tier(BASE_SECTORS * m, m * time) == Tier(BASE_SECTORS, time)
  {
    var a, b := Thresholds(BASE_SECTORS * m), Thresholds(BASE_SECTORS);
    forall i | 0 <= i < TIERS ensures a[i] == m * b[i] && (m * time < a[i] <==> time < b[i]) {
      assert BASE[i] * (BASE_SECTORS * m) == BASE_SECTORS * (m * BASE[i]);
      ScaledLess(m, time, BASE[i]);
    }
    SameTier(a, b, m * time, time, 0);
  }

  lemma ScaledLess(m: int, x: int, y: int)
    requires m > 0
    ensures m * x < m * y <==> x < y
  {
    if x < y {
      assert m * y - m * x == m * (y - x);
    } else {
      assert m * x - m * y == m * (x - y);
    }
  }

  lemma {:induction false} SameTier(a: seq<int>, b: seq<int>, s: int, t: int, i: nat)
    requires |a| == |b| && forall j | 0 <= j < |a| :: s < a[j] <==> t < b[j]
    ensures TierFrom(a, s, i) == TierFrom(b, t, i)
    decreases |a| - i
  {
    if i < |a| && s >= a[i] { SameTier(a, b, s, t, i + 1); }
  }
}
