/** internal/media/generator.go: synthetic frames whose sizes average out to a bitrate. */
module Generator {
  import opened Basics

  const NOISE: nat := 4 * 0x10_0000

  /** A configuration after the constructor has replaced values it does not accept. */
  datatype Config = Config(fps: nat, groupFrames: nat, keyframeMul: real)

  predicate Normal(c: Config) { c.fps > 0 && c.groupFrames > 1 && c.keyframeMul > 1.0 }

  function Normalised(fps: int, groupFrames: int, keyframeMul: real): (c: Config)
    ensures Normal(c)
  {
    Config(if fps <= 0 then 30 else fps, if groupFrames <= 1 then 30 else groupFrames,
           if keyframeMul <= 1.0 then 4.0 else keyframeMul)
  }

  function Average(c: Config, kbps: int): real
    requires Normal(c)
  {
    kbps as real * 1000.0 / 8.0 / c.fps as real
  }

  function KeyBytes(c: Config, kbps: int): real
    requires Normal(c)
  {
    Average(c, kbps) * c.keyframeMul
  }

  function DeltaBytes(c: Config, kbps: int): real
    requires Normal(c)
  {
    Share(Average(c, kbps), c.groupFrames as real, KeyBytes(c, kbps))
  }

  /** What is left of n average frames beside a key frame, for each of the n - 1 others. */
  function Share(avg: real, n: real, key: real): real
    requires n > 1.0
  {
    (avg * n - key) / (n - 1.0)
  }

  function Clamped(size: int): nat {
    if size < 64 then 64 else if size > NOISE / 2 then NOISE / 2 else size
  }

  /** Where in the noise a frame's payload begins; the arithmetic is that of uint64. */
  function Offset(group: nat, index: nat, size: nat): (off: nat)
    requires size <= NOISE / 2
    ensures off + size <= NOISE
  {
    (group * 7919 + index * 131) % 0x1_0000_0000_0000_0000 % (NOISE - size)
  }

  /** A frame's payload begins 7919 bytes further in the noise for each group and 131 for each frame, wrapped so that it
      fits. */
  lemma OffsetWraps(group: nat, index: nat, size: nat) returns (turns: nat)
    requires size <= NOISE / 2 && 7919 * group + 131 * index < 0x1_0000_0000_0000_0000
    ensures 7919 * group + 131 * index == Offset(group, index, size) + turns * (0x40_0000 - size)
  {
    var x, m := 7919 * group + 131 * index, 0x40_0000 - size;
    Turns(x, m);
    turns := x / m;
    assert x == group * 7919 + index * 131 == x % 0x1_0000_0000_0000_0000;
  }

  lemma Turns(x: nat, m: nat)
    requires m > 0
    ensures x == x % m + (x / m) * m && x / m >= 0
  {
  }

  /** The payload size of frame `index` of a group. */
  function Size(c: Config, kbps: int, index: nat): (size: nat)
    requires Normal(c)
    ensures 64 <= size <= NOISE / 2
  {
    Clamped(Truncated(if index == 0 then KeyBytes(c, kbps) else DeltaBytes(c, kbps)))
  }

  function GroupBytes(c: Config, kbps: int, frames: nat): nat
    requires Normal(c)
  {
    if frames == 0 then 0 else GroupBytes(c, kbps, frames - 1) + Size(c, kbps, frames - 1)
  }

  /** No frame of the group needs clamping. */
  predicate Unclamped(c: Config, kbps: int)
    requires Normal(c)
  {
    64.0 <= KeyBytes(c, kbps) && KeyBytes(c, kbps) < (NOISE / 2 + 1) as real
    && 64.0 <= DeltaBytes(c, kbps) && DeltaBytes(c, kbps) < (NOISE / 2 + 1) as real
  }

  lemma OneMore(k: int, s: int)
    ensures k * s + s == (k + 1) * s
  {
  }

  lemma {:induction false} GroupBytesOf(c: Config, kbps: int, frames: nat)
    requires Normal(c) && frames > 0
    ensures GroupBytes(c, kbps, frames) == Size(c, kbps, 0) + (frames - 1) * Size(c, kbps, 1)
  {
    assert frames > 1 ==> Size(c, kbps, frames - 1) == Size(c, kbps, 1);
    hide Size;
    if frames == 1 {
      assert GroupBytes(c, kbps, 0) == 0;
    } else {
      GroupBytesOf(c, kbps, frames - 1);
      OneMore(frames - 2, Size(c, kbps, 1));
    }
  }

  /** The split of a group's budget over its frames. */
  lemma Split(c: Config, kbps: int)
    requires Normal(c)
    ensures KeyBytes(c, kbps) + Product((c.groupFrames - 1) as real, DeltaBytes(c, kbps)) == Budget(c, kbps)
  {
    hide Average, KeyBytes;
    var n := c.groupFrames as real;
    Divides(Average(c, kbps) * n - KeyBytes(c, kbps), n - 1.0);
    assert (c.groupFrames - 1) as real == n - 1.0;
  }

  lemma Divides(a: real, b: real)
    requires b > 0.0
    ensures b * (a / b) == a
  {
  }

  function Product(m: real, x: real): real { m * x }

  /** Rounding down each of m equal parts loses less than m. */
  lemma RoundedParts(m: real, part: real, floor: real)
    requires m >= 1.0 && floor <= part < floor + 1.0
    ensures Product(m, floor) <= Product(m, part) < Product(m, floor) + m
  {
    hide Product;
    ProductNext(m, floor);
    if part > floor {
      ProductGrows(m, floor, part);
    }
    ProductGrows(m, part, floor + 1.0);
  }

  lemma ProductNext(m: real, x: real)
    ensures Product(m, x + 1.0) == Product(m, x) + m
  {
  }

  lemma ProductGrows(m: real, x: real, y: real)
    requires m > 0.0 && x < y
    ensures Product(m, x) < Product(m, y)
  {
    var d := y - x;
    assert m * d > 0.0;
    assert y == x + d;
  }

  lemma WholeProduct(m: nat, x: int)
    ensures (m * x) as real == Product(m as real, x as real)
  {
  }

  lemma RoundedGroup(n: nat, key: real, delta: real, budget: real, f0: int, f1: int, bytes: nat)
    requires n > 1 && f0 as real <= key < f0 as real + 1.0 && f1 as real <= delta < f1 as real + 1.0
    requires key + Product((n - 1) as real, delta) == budget && bytes == f0 + (n - 1) * f1
    ensures budget - n as real < bytes as real <= budget
  {
    hide Product;
    var rest := (n - 1) * f1;
    WholeProduct(n - 1, f1);
    RoundedParts((n - 1) as real, delta, f1 as real);
    assert (n - 1) as real == n as real - 1.0;
    assert bytes as real == f0 as real + rest as real;
  }

  /** The bytes a group should have. */
  function Budget(c: Config, kbps: int): real
    requires Normal(c)
  {
    Average(c, kbps) * c.groupFrames as real
  }

  /** At a fixed bitrate without clamping, a whole group is within a byte per frame of its budget, from below. */
  lemma GroupBudget(c: Config, kbps: int)
    requires Normal(c) && Unclamped(c, kbps)
    ensures Budget(c, kbps) - c.groupFrames as real < GroupBytes(c, kbps, c.groupFrames) as real <= Budget(c, kbps)
  {
    hide Budget, Average, KeyBytes, DeltaBytes, Size, Unclamped, GroupBytes;
    var key, delta := KeyBytes(c, kbps), DeltaBytes(c, kbps);
    GroupBytesOf(c, kbps, c.groupFrames);
    Split(c, kbps);
    SizesUnclamped(c, kbps);
    RoundedGroup(c.groupFrames, key, delta, Budget(c, kbps), key.Floor, delta.Floor,
                 GroupBytes(c, kbps, c.groupFrames));
  }

  /** Each size is the frame's share rounded down, as far as it lies between 64 bytes and 2 MiB, and otherwise the
      nearer of the two. */
  lemma SizeIsTheShare(c: Config, kbps: int, index: nat)
    requires Normal(c)
    ensures var share, size := if index == 0 then KeyBytes(c, kbps) else DeltaBytes(c, kbps), Size(c, kbps, index);
            if share < 64.0 then size == 64
            else if share >= 2_097_152.0 then size == 2_097_152
            else size as real <= share < size as real + 1.0
  {
    hide KeyBytes, DeltaBytes;
  }

  /** The budget is what the bitrate allows in the time of a group's frames, and a key frame is `keyframeMul` times the
      average frame. */
  lemma BudgetIsTheBitrate(c: Config, kbps: int)
    requires Normal(c)
    ensures 8.0 * (Budget(c, kbps) * c.fps as real) == 1000.0 * (kbps as real * c.groupFrames as real)
    ensures KeyBytes(c, kbps) * c.groupFrames as real == c.keyframeMul * Budget(c, kbps)
  {
    var avg, n, fps := Average(c, kbps), c.groupFrames as real, c.fps as real;
    Divides(kbps as real * 1000.0 / 8.0, fps);
    Exchange(avg, n, fps);
    Exchange(avg, c.keyframeMul, n);
    Thousand(kbps as real, n);
    assert fps * avg == avg * fps;
    assert c.keyframeMul * (avg * n) == (avg * n) * c.keyframeMul;
  }

  lemma Exchange(a: real, b: real, c: real)
    ensures (a * b) * c == (a * c) * b
  {
  }

  lemma Thousand(k: real, n: real)
    ensures 8.0 * ((k * 1000.0 / 8.0) * n) == 1000.0 * (k * n)
  {
  }

  /** The constructor keeps what it accepts, and puts the default for each value it does not. */
  lemma NormalisedKeeps(fps: int, groupFrames: int, keyframeMul: real)
    ensures var c := Normalised(fps, groupFrames, keyframeMul);
            && (if fps > 0 then c.fps == fps else c.fps == 30)
            && (if groupFrames > 1 then c.groupFrames == groupFrames else c.groupFrames == 30)
            && (if keyframeMul > 1.0 then c.keyframeMul == keyframeMul else c.keyframeMul == 4.0)
  {
  }

  lemma SizesUnclamped(c: Config, kbps: int)
    requires Normal(c) && Unclamped(c, kbps)
    ensures Size(c, kbps, 0) == KeyBytes(c, kbps).Floor && Size(c, kbps, 1) == DeltaBytes(c, kbps).Floor
  {
    hide KeyBytes, DeltaBytes, Clamped, Truncated;
    Unrounded(KeyBytes(c, kbps));
    Unrounded(DeltaBytes(c, kbps));
  }

  lemma Unrounded(x: real)
    requires 64.0 <= x < (NOISE / 2 + 1) as real
    ensures Clamped(Truncated(x)) == x.Floor
  {
  }

  /** The order in which Next clamps makes no difference. */
  lemma SizeSteps(c: Config, kbps: int, index: nat, size: int)
    requires Normal(c)
    requires var delta := DeltaBytes(c, kbps);
             var raw := Truncated(if index == 0 then KeyBytes(c, kbps) else if delta < 64.0 then 64.0 else delta);
             size == if raw < 64 then 64 else if raw > NOISE / 2 then NOISE / 2 else raw
    ensures size == Size(c, kbps, index)
  {
    hide KeyBytes, DeltaBytes;
  }

  // ---------- The generator ----------

  datatype Frame = Frame(group: nat, index: nat, keyframe: bool, pts: int, size: nat)

  /** Where the generator stands. */
  datatype Position = Position(group: nat, index: nat)

  /** The position after the next frame. */
  function After(c: Config, p: Position): Position {
    if p.index + 1 >= c.groupFrames then Position(p.group + 1, 0) else Position(p.group, p.index + 1)
  }

  function FrameAt(c: Config, kbps: int, p: Position, now: int): Frame
    requires Normal(c)
  {
    Frame(p.group, p.index, p.index == 0, now, Size(c, kbps, p.index))
  }

  class Generator {
    const config: Config
    const rnd: seq<byte>
    var kbps: int
    var group: nat
    var index: nat

    predicate Valid()
      reads this
    {
      Normal(config) && |rnd| == NOISE && index < config.groupFrames
    }

    function Where(): Position
      reads this
    {
      Position(group, index)
    }

    constructor (fps: int, groupFrames: int, keyframeMul: real, bitrate: int, noise: seq<byte>)
      requires |noise| == NOISE
      ensures Valid() && config == Normalised(fps, groupFrames, keyframeMul) && rnd == noise
      ensures kbps == bitrate && Where() == Position(0, 0)
    {
      config := Normalised(fps, groupFrames, keyframeMul);
      rnd, kbps, group, index := noise, bitrate, 0, 0;
    }

    /** How large Next makes its frame. */
    method FrameSize() returns (size: int)
      requires Valid()
      ensures size == Size(config, kbps, index)
    {
      var keyframe := index == 0;
      var avg := kbps as real * 1000.0 / 8.0 / config.fps as real;
      var n := config.groupFrames as real;
      var keyBytes := avg * config.keyframeMul;
      var deltaBytes := Share(avg, n, keyBytes);
      assert avg == Average(config, kbps);
      assert keyBytes == KeyBytes(config, kbps);
      hide Average, KeyBytes, Share, Size, Truncated, Clamped;
      assert deltaBytes == DeltaBytes(config, kbps);
      hide DeltaBytes;
      if deltaBytes < 64.0 {
        deltaBytes := 64.0;
      }
      size := Truncated(deltaBytes);
      if keyframe {
        size := Truncated(keyBytes);
      }
      if size < 64 {
        size := 64;
      }
      if size > |rnd| / 2 {
        size := |rnd| / 2;
      }
      SizeSteps(config, kbps, index, size);
    }

    /** The next frame and its payload. */
    method Next(now: int) returns (f: Frame, payload: seq<byte>)
      requires Valid()
      modifies this`group, this`index
      ensures Valid() && Where() == After(config, old(Where()))
      ensures f == FrameAt(config, kbps, old(Where()), now) && |payload| == f.size
      ensures var off := Offset(f.group, f.index, f.size); payload == rnd[off..off + f.size]
    {
      hide Size;
      var size := FrameSize();
      var off := (group * 7919 + index * 131) % 0x1_0000_0000_0000_0000 % (|rnd| - size);
      f := Frame(group, index, index == 0, now, size);
      payload := rnd[off..off + size];
      index := index + 1;
      if index >= config.groupFrames {
        group, index := group + 1, 0;
      }
    }
  }
}
