/** Usage samples, their hour, day and month rollups, and the two quota checks that
    read the rollups. */
module Usage {
  import opened Domain
  import opened Calendar

  datatype Bucket = HourBucket | DayBucket | MonthBucket

  datatype Sample = Sample(node: string, credential: Option<string>, up: int, down: int, at: int)

  datatype Key = Key(credential: Option<string>, bucket: Bucket, start: int)

  datatype Rollup = Rollup(up: int, down: int)

  /** What is being added up. */
  datatype Measure = Uplink | Downlink | Both

  const MaxI64: int := 0x7fff_ffff_ffff_ffff
  const TwoTo64: int := 0x1_0000_0000_0000_0000

  function BucketStart(bucket: Bucket, t: int): int {
    match bucket
    case HourBucket => HourStart(t)
    case DayBucket => DayStart(t)
    case MonthBucket => MonthStart(t)
  }

  function KeyOf(s: Sample, bucket: Bucket): Key {
    Key(s.credential, bucket, BucketStart(bucket, s.at))
  }

  function Amount(m: Measure, r: Rollup): int {
    match m
    case Uplink => r.up
    case Downlink => r.down
    case Both => r.up + r.down
  }

  function Traffic(s: Sample): Rollup {
    Rollup(s.up, s.down)
  }

  // ---------------------------------------------------------------------------
  // Rollups
  // ---------------------------------------------------------------------------

  predicate IsI64(x: int) {
    -MaxI64 - 1 <= x <= MaxI64
  }

  /** The signed 64-bit value an integer wraps to, as in release builds. */
  function Wrap64(x: int): int {
    (x + MaxI64 + 1) % TwoTo64 - MaxI64 - 1
  }

  /** In numbers: what is left of an integer in 64 bits of two's complement. */
  lemma WrapIsTwosComplement(x: int)
    ensures -9223372036854775808 <= Wrap64(x) <= 9223372036854775807
    ensures (x - Wrap64(x)) % 18446744073709551616 == 0
  {
  }

  lemma WrapFits(x: int)
    requires IsI64(x)
    ensures Wrap64(x) == x
  {
  }

  lemma WrapAdds(a: int, b: int)
    ensures Wrap64(Wrap64(a) + b) == Wrap64(a + b) && Wrap64(a + Wrap64(b)) == Wrap64(a + b)
  {
  }

  function Current(rollups: map<Key, Rollup>, k: Key): Rollup {
    if k in rollups then rollups[k] else Rollup(0, 0)
  }

  function Bump64(rollups: map<Key, Rollup>, k: Key, r: Rollup): map<Key, Rollup> {
    rollups[k := Rollup(Wrap64(Current(rollups, k).up + r.up), Wrap64(Current(rollups, k).down + r.down))]
  }

  /** What `record_usage_sample` does to the rollups. */
  function Record64(rollups: map<Key, Rollup>, s: Sample): map<Key, Rollup> {
    var hour := Bump64(rollups, KeyOf(s, HourBucket), Traffic(s));
    var day := Bump64(hour, KeyOf(s, DayBucket), Traffic(s));
    Bump64(day, KeyOf(s, MonthBucket), Traffic(s))
  }

  function Rollups64(samples: seq<Sample>): map<Key, Rollup> {
    if samples == [] then map[] else Record64(Rollups64(samples[..|samples|-1]), samples[|samples|-1])
  }

  /** The same with unbounded integers. */
  function Bump(rollups: map<Key, Rollup>, k: Key, r: Rollup): map<Key, Rollup> {
    rollups[k := Rollup(Current(rollups, k).up + r.up, Current(rollups, k).down + r.down)]
  }

  function Record(rollups: map<Key, Rollup>, s: Sample): map<Key, Rollup> {
    var hour := Bump(rollups, KeyOf(s, HourBucket), Traffic(s));
    var day := Bump(hour, KeyOf(s, DayBucket), Traffic(s));
    Bump(day, KeyOf(s, MonthBucket), Traffic(s))
  }

  function Rollups(samples: seq<Sample>): map<Key, Rollup> {
    if samples == [] then map[] else Record(Rollups(samples[..|samples|-1]), samples[|samples|-1])
  }

  // ---------------------------------------------------------------------------
  // Sums over rollups, and over raw samples
  // ---------------------------------------------------------------------------

  ghost function SumKeys(m: Measure, rollups: map<Key, Rollup>, keys: set<Key>): int
    requires keys <= rollups.Keys
  {
    if keys == {} then 0
    else
      var k :| k in keys;
      Amount(m, rollups[k]) + SumKeys(m, rollups, keys - {k})
  }

  ghost function Selected(rollups: map<Key, Rollup>, pick: Key -> bool): set<Key> {
    set k | k in rollups && pick(k)
  }

  /** Sum of the selected rollups. */
  ghost function SumIf(m: Measure, rollups: map<Key, Rollup>, pick: Key -> bool): int {
    SumKeys(m, rollups, Selected(rollups, pick))
  }

  /** How many of a sample's three keys are selected. */
  function Hits(s: Sample, pick: Key -> bool): nat {
    (if pick(KeyOf(s, HourBucket)) then 1 else 0) + (if pick(KeyOf(s, DayBucket)) then 1 else 0)
        + (if pick(KeyOf(s, MonthBucket)) then 1 else 0)
  }

  /** Sum over raw samples, each weighted by its hits. */
  function RawIf(m: Measure, samples: seq<Sample>, pick: Key -> bool): int {
    if samples == [] then 0
    else
      var s := samples[|samples|-1];
      RawIf(m, samples[..|samples|-1], pick) + Amount(m, Traffic(s)) * Hits(s, pick)
  }

  /** Sum over the raw samples that satisfy a condition. */
  function Raw(m: Measure, samples: seq<Sample>, when: Sample -> bool): int {
    if samples == [] then 0
    else
      var s := samples[|samples|-1];
      Raw(m, samples[..|samples|-1], when) + (if when(s) then Amount(m, Traffic(s)) else 0)
  }

  /** The order in which rollups are added does not matter. */
  lemma {:induction false} SumPick(m: Measure, rollups: map<Key, Rollup>, keys: set<Key>, k: Key)
    requires keys <= rollups.Keys && k in keys
    ensures SumKeys(m, rollups, keys) == Amount(m, rollups[k]) + SumKeys(m, rollups, keys - {k})
    decreases |keys|
  {
    var j :| j in keys && SumKeys(m, rollups, keys) == Amount(m, rollups[j]) + SumKeys(m, rollups, keys - {j});
    if j != k {
      SumPick(m, rollups, keys - {j}, k);
      SumPick(m, rollups, keys - {k}, j);
      assert keys - {j} - {k} == keys - {k} - {j};
    }
  }

  /** Sums only look at the keys they sum over. */
  lemma {:induction false} SumSame(m: Measure, a: map<Key, Rollup>, b: map<Key, Rollup>, keys: set<Key>)
    requires keys <= a.Keys && keys <= b.Keys && forall k :: k in keys ==> a[k] == b[k]
    ensures SumKeys(m, a, keys) == SumKeys(m, b, keys)
    decreases |keys|
  {
    if keys != {} {
      var k :| k in keys;
      SumPick(m, a, keys, k);
      SumPick(m, b, keys, k);
      SumSame(m, a, b, keys - {k});
    }
  }

  /** One bump moves every sum that selects its key, and no other. */
  lemma BumpSum(m: Measure, rollups: map<Key, Rollup>, k: Key, r: Rollup, pick: Key -> bool)
    ensures SumIf(m, Bump(rollups, k, r), pick) == SumIf(m, rollups, pick) + (if pick(k) then Amount(m, r) else 0)
  {
    var after := Bump(rollups, k, r);
    var old_keys, new_keys := Selected(rollups, pick), Selected(after, pick);
    var rest := old_keys - {k};
    SumSame(m, rollups, after, rest);
    if pick(k) {
      assert new_keys - {k} == rest;
      SumPick(m, after, new_keys, k);
      if k in rollups {
        SumPick(m, rollups, old_keys, k);
      } else {
        assert old_keys == rest;
      }
    } else {
      assert new_keys == old_keys == rest;
    }
  }

  /** Any selection of rollups adds up to the raw samples behind it. */
  lemma {:induction false} RollupsConserve(m: Measure, samples: seq<Sample>, pick: Key -> bool)
    ensures SumIf(m, Rollups(samples), pick) == RawIf(m, samples, pick)
    decreases |samples|
  {
    if samples == [] {
      assert Selected(Rollups(samples), pick) == {};
    } else {
      var s := samples[|samples|-1];
      var before := Rollups(samples[..|samples|-1]);
      RollupsConserve(m, samples[..|samples|-1], pick);
      var h := Bump(before, KeyOf(s, HourBucket), Traffic(s));
      var d := Bump(h, KeyOf(s, DayBucket), Traffic(s));
      BumpSum(m, before, KeyOf(s, HourBucket), Traffic(s), pick);
      BumpSum(m, h, KeyOf(s, DayBucket), Traffic(s), pick);
      BumpSum(m, d, KeyOf(s, MonthBucket), Traffic(s), pick);
      WeightIsRepetition(Amount(m, Traffic(s)), pick(KeyOf(s, HourBucket)), pick(KeyOf(s, DayBucket)),
          pick(KeyOf(s, MonthBucket)));
    }
  }

  lemma WeightIsRepetition(v: int, a: bool, b: bool, c: bool)
    ensures v * ((if a then 1 else 0) + (if b then 1 else 0) + (if c then 1 else 0))
         == (if a then v else 0) + (if b then v else 0) + (if c then v else 0)
  {
  }

  lemma Weigh(weight: int, total: int, v: int, hit: bool)
    ensures weight * total + v * (if hit then weight else 0) == weight * (total + (if hit then v else 0))
  {
  }

  /** A selection that hits every sample of some kind `weight` times, and no other. */
  lemma {:induction false} RawIfIsRaw(m: Measure, samples: seq<Sample>, pick: Key -> bool, when: Sample -> bool,
                                      weight: nat)
    requires forall s :: Hits(s, pick) == if when(s) then weight else 0
    ensures RawIf(m, samples, pick) == weight * Raw(m, samples, when)
    decreases |samples|
  {
    if samples != [] {
      var s, front := samples[|samples|-1], samples[..|samples|-1];
      RawIfIsRaw(m, front, pick, when, weight);
      assert Hits(s, pick) == if when(s) then weight else 0;
      Weigh(weight, Raw(m, front, when), Amount(m, Traffic(s)), when(s));
    }
  }

  // ---------------------------------------------------------------------------
  // Conservation
  // ---------------------------------------------------------------------------

  function InBucket(k: Key): Sample -> bool {
    (s: Sample) => s.credential == k.credential && BucketStart(k.bucket, s.at) == k.start
  }

  function HoursOf(credential: Option<string>, day: int): Key -> bool {
    (k: Key) => k.credential == credential && k.bucket == HourBucket && DayStart(k.start) == day
  }

  function DaysOf(credential: Option<string>, month: int): Key -> bool {
    (k: Key) => k.credential == credential && k.bucket == DayBucket && MonthStart(k.start) == month
  }

  /** Each rollup is the sum of the raw samples of its credential that fall in its bucket. */
  lemma {:induction false} EachRollupIsItsSamples(m: Measure, samples: seq<Sample>, k: Key)
    ensures Amount(m, Current(Rollups(samples), k))
         == Raw(m, samples, InBucket(k))
  {
    var pick := (x: Key) => x == k;
    var when := InBucket(k);
    RollupsConserve(m, samples, pick);
    RawIfIsRaw(m, samples, pick, when, 1);
    var r := Rollups(samples);
    if k in r {
      assert Selected(r, pick) == {k};
      SumPick(m, r, {k}, k);
      assert {k} - {k} == {};
    } else {
      assert Selected(r, pick) == {};
    }
  }

  /** Bytes up and bytes down of the samples of one kind. */
  function UpAndDown(samples: seq<Sample>, when: Sample -> bool): Rollup {
    if samples == [] then Rollup(0, 0)
    else
      var front, s := UpAndDown(samples[..|samples|-1], when), samples[|samples|-1];
      if when(s) then Rollup(front.up + s.up, front.down + s.down) else front
  }

  lemma {:induction false} RawByDirection(samples: seq<Sample>, when: Sample -> bool)
    ensures UpAndDown(samples, when).up == Raw(Uplink, samples, when)
    ensures UpAndDown(samples, when).down == Raw(Downlink, samples, when)
    decreases |samples|
  {
    if samples != [] {
      RawByDirection(samples[..|samples|-1], when);
    }
  }

  /** Up stays up and down stays down. */
  lemma {:induction false} DirectionsAreKept(samples: seq<Sample>, k: Key)
    ensures Current(Rollups(samples), k) == UpAndDown(samples, InBucket(k))
  {
    RawByDirection(samples, InBucket(k));
    EachRollupIsItsSamples(Uplink, samples, k);
    EachRollupIsItsSamples(Downlink, samples, k);
  }

  /** A rollup exists exactly for the buckets some sample falls in. */
  lemma {:induction false} RollupExists(samples: seq<Sample>, k: Key)
    ensures k in Rollups(samples) <==> exists i :: 0 <= i < |samples| && KeyOf(samples[i], k.bucket) == k
    decreases |samples|
  {
    if samples != [] {
      var front := samples[..|samples|-1];
      RollupExists(front, k);
      assert forall i :: 0 <= i < |front| ==> front[i] == samples[i];
    }
  }

  /** A day's rollup is the sum of the hour rollups inside it. */
  lemma {:induction false} DayIsSumOfHours(m: Measure, samples: seq<Sample>, credential: Option<string>, day: int)
    ensures Amount(m, Current(Rollups(samples), Key(credential, DayBucket, day)))
         == SumIf(m, Rollups(samples), HoursOf(credential, day))
  {
    var pick := HoursOf(credential, day);
    var when := (s: Sample) => s.credential == credential && DayStart(s.at) == day;
    forall s: Sample
      ensures Hits(s, pick) == if when(s) then 1 else 0
    {
      StartsAreNested(s.at);
    }
    RollupsConserve(m, samples, pick);
    RawIfIsRaw(m, samples, pick, when, 1);
    var k := Key(credential, DayBucket, day);
    EachRollupIsItsSamples(m, samples, k);
    RawCongruence(m, samples, when, InBucket(k));
  }

  /** A month's rollup is the sum of the day rollups inside it. */
  lemma {:induction false} MonthIsSumOfDays(m: Measure, samples: seq<Sample>, credential: Option<string>, month: int)
    ensures Amount(m, Current(Rollups(samples), Key(credential, MonthBucket, month)))
         == SumIf(m, Rollups(samples), DaysOf(credential, month))
  {
    var pick := DaysOf(credential, month);
    var when := (s: Sample) => s.credential == credential && MonthStart(s.at) == month;
    forall s: Sample
      ensures Hits(s, pick) == if when(s) then 1 else 0
    {
      StartsAreNested(s.at);
    }
    RollupsConserve(m, samples, pick);
    RawIfIsRaw(m, samples, pick, when, 1);
    var k := Key(credential, MonthBucket, month);
    EachRollupIsItsSamples(m, samples, k);
    RawCongruence(m, samples, when, InBucket(k));
  }

  lemma {:induction false} RawCongruence(m: Measure, samples: seq<Sample>, a: Sample -> bool, b: Sample -> bool)
    requires forall s :: a(s) == b(s)
    ensures Raw(m, samples, a) == Raw(m, samples, b)
    decreases |samples|
  {
    if samples != [] {
      RawCongruence(m, samples[..|samples|-1], a, b);
    }
  }

  // ---------------------------------------------------------------------------
  // Sixty-four bits are enough when the totals fit
  // ---------------------------------------------------------------------------

  /** All traffic ever reported for a credential. */
  function Total(samples: seq<Sample>, credential: Option<string>): int {
    Raw(Both, samples, (s: Sample) => s.credential == credential)
  }

  ghost predicate NonNegative(samples: seq<Sample>) {
    forall i :: 0 <= i < |samples| ==> samples[i].up >= 0 && samples[i].down >= 0
  }

  ghost predicate TotalsFit(samples: seq<Sample>) {
    forall c :: Total(samples, c) <= MaxI64
  }

  lemma {:induction false} RawBounds(m: Measure, samples: seq<Sample>, a: Sample -> bool, b: Sample -> bool)
    requires NonNegative(samples) && forall s :: a(s) ==> b(s)
    ensures 0 <= Raw(m, samples, a) <= Raw(Both, samples, b)
    decreases |samples|
  {
    if samples != [] {
      RawBounds(m, samples[..|samples|-1], a, b);
    }
  }

  lemma {:induction false} TotalGrows(samples: seq<Sample>, credential: Option<string>)
    requires samples != [] && NonNegative(samples)
    ensures 0 <= Total(samples[..|samples|-1], credential) <= Total(samples, credential)
  {
    var when := (s: Sample) => s.credential == credential;
    RawBounds(Both, samples[..|samples|-1], when, when);
  }

  /** No rollup ever exceeds what its credential has used in all. */
  lemma {:induction false} RollupFits(samples: seq<Sample>, k: Key)
    requires NonNegative(samples)
    ensures var r := Current(Rollups(samples), k);
            0 <= r.up && 0 <= r.down && r.up + r.down <= Total(samples, k.credential)
  {
    var when := InBucket(k);
    var all := (s: Sample) => s.credential == k.credential;
    EachRollupIsItsSamples(Uplink, samples, k);
    EachRollupIsItsSamples(Downlink, samples, k);
    EachRollupIsItsSamples(Both, samples, k);
    RawBounds(Uplink, samples, when, all);
    RawBounds(Downlink, samples, when, all);
    RawBounds(Both, samples, when, all);
  }

  function Wrapped(r: Rollup): Rollup {
    Rollup(Wrap64(r.up), Wrap64(r.down))
  }

  ghost predicate WrapsTo(machine: map<Key, Rollup>, exact: map<Key, Rollup>) {
    machine.Keys == exact.Keys && forall k :: k in exact ==> machine[k] == Wrapped(exact[k])
  }

  lemma BumpWraps(machine: map<Key, Rollup>, exact: map<Key, Rollup>, k: Key, r: Rollup)
    requires WrapsTo(machine, exact)
    ensures WrapsTo(Bump64(machine, k, r), Bump(exact, k, r))
  {
    var c := Current(exact, k);
    WrapAdds(c.up, r.up);
    WrapAdds(c.down, r.down);
  }

  /** Whatever is reported, the 64-bit rollups are the exact sums modulo 2^64. */
  lemma {:induction false} RollupsWrap(samples: seq<Sample>)
    ensures WrapsTo(Rollups64(samples), Rollups(samples))
    decreases |samples|
  {
    if samples != [] {
      var front, s := samples[..|samples|-1], samples[|samples|-1];
      RollupsWrap(front);
      var m0, e0 := Rollups64(front), Rollups(front);
      BumpWraps(m0, e0, KeyOf(s, HourBucket), Traffic(s));
      var m1, e1 := Bump64(m0, KeyOf(s, HourBucket), Traffic(s)), Bump(e0, KeyOf(s, HourBucket), Traffic(s));
      BumpWraps(m1, e1, KeyOf(s, DayBucket), Traffic(s));
      var m2, e2 := Bump64(m1, KeyOf(s, DayBucket), Traffic(s)), Bump(e1, KeyOf(s, DayBucket), Traffic(s));
      BumpWraps(m2, e2, KeyOf(s, MonthBucket), Traffic(s));
    }
  }

  /** With non-negative samples and fitting totals the 64-bit rollups are exact. */
  lemma {:induction false} NoOverflow(samples: seq<Sample>)
    requires NonNegative(samples) && TotalsFit(samples)
    ensures Rollups64(samples) == Rollups(samples)
  {
    RollupsWrap(samples);
    forall k | k in Rollups(samples)
      ensures Wrapped(Rollups(samples)[k]) == Rollups(samples)[k]
    {
      RollupFits(samples, k);
      assert Total(samples, k.credential) <= MaxI64;
      WrapFits(Rollups(samples)[k].up);
      WrapFits(Rollups(samples)[k].down);
    }
  }

  /** No earlier state of such a run overflows either: every prefix has smaller totals. */
  lemma {:induction false} PrefixesFit(samples: seq<Sample>, n: nat)
    requires NonNegative(samples) && TotalsFit(samples) && n <= |samples|
    ensures NonNegative(samples[..n]) && TotalsFit(samples[..n])
    decreases |samples|
  {
    if n == |samples| {
      assert samples[..n] == samples;
    } else {
      var front := samples[..|samples|-1];
      forall c
        ensures Total(front, c) <= MaxI64
      {
        TotalGrows(samples, c);
        assert Total(samples, c) <= MaxI64;
      }
      PrefixesFit(front, n);
      assert front[..n] == samples[..n];
    }
  }

  // ---------------------------------------------------------------------------
  // What the two quota checks add up, in 64 bits
  // ---------------------------------------------------------------------------

  lemma WrapSum(a: int, b: int, c: int, d: int)
    requires Wrap64(a) == Wrap64(c) && Wrap64(b) == Wrap64(d)
    ensures Wrap64(a + b) == Wrap64(c + d)
  {
    WrapAdds(a, b);
    WrapAdds(Wrap64(a), b);
    WrapAdds(c, d);
    WrapAdds(Wrap64(c), d);
  }

  lemma WrapTwice(x: int)
    ensures Wrap64(Wrap64(x)) == Wrap64(x)
  {
    WrapAdds(x, 0);
  }

  lemma AmountWraps(m: Measure, r: Rollup)
    ensures Wrap64(Amount(m, Wrapped(r))) == Wrap64(Amount(m, r))
  {
    WrapTwice(r.up);
    WrapTwice(r.down);
    WrapSum(Wrap64(r.up), Wrap64(r.down), r.up, r.down);
  }

  /** Sums over 64-bit rollups are the exact sums modulo 2^64. */
  lemma {:induction false} SumWraps(m: Measure, machine: map<Key, Rollup>, exact: map<Key, Rollup>, keys: set<Key>)
    requires WrapsTo(machine, exact) && keys <= exact.Keys
    ensures Wrap64(SumKeys(m, machine, keys)) == Wrap64(SumKeys(m, exact, keys))
    decreases |keys|
  {
    if keys != {} {
      var k :| k in keys;
      SumPick(m, machine, keys, k);
      SumPick(m, exact, keys, k);
      SumWraps(m, machine, exact, keys - {k});
      AmountWraps(m, exact[k]);
      WrapSum(Amount(m, machine[k]), SumKeys(m, machine, keys - {k}), Amount(m, exact[k]),
          SumKeys(m, exact, keys - {k}));
    }
  }

  lemma {:induction false} SumIfWraps(samples: seq<Sample>, pick: Key -> bool)
    ensures Wrap64(SumIf(Both, Rollups64(samples), pick)) == Wrap64(SumIf(Both, Rollups(samples), pick))
  {
    RollupsWrap(samples);
    assert Selected(Rollups64(samples), pick) == Selected(Rollups(samples), pick);
    SumWraps(Both, Rollups64(samples), Rollups(samples), Selected(Rollups(samples), pick));
  }

  function HoursFor(credential: string): Key -> bool {
    (k: Key) => k.credential == Some(credential) && k.bucket == HourBucket
  }

  function AllFor(credential: string): Key -> bool {
    (k: Key) => k.credential == Some(credential)
  }

  /** `used_bytes` of the quota decision: the hour rollups of the credential. */
  ghost function HourTotal(rollups: map<Key, Rollup>, credential: string): int {
    Wrap64(SumIf(Both, rollups, HoursFor(credential)))
  }

  /** What the subscription filter adds up: every rollup of the credential. */
  ghost function FilterTotal(rollups: map<Key, Rollup>, credential: string): int {
    Wrap64(SumIf(Both, rollups, AllFor(credential)))
  }

  /** The decision's `used_bytes` is the raw total modulo 2^64, so the raw total itself
      whenever that fits. */
  lemma {:induction false} DecisionIsRawTotal(samples: seq<Sample>, credential: string)
    ensures var u := Total(samples, Some(credential));
            && HourTotal(Rollups64(samples), credential) == Wrap64(u)
            && (IsI64(u) ==> HourTotal(Rollups64(samples), credential) == u)
  {
    var u := Total(samples, Some(credential));
    var when := (s: Sample) => s.credential == Some(credential);
    SumIfWraps(samples, HoursFor(credential));
    RollupsConserve(Both, samples, HoursFor(credential));
    RawIfIsRaw(Both, samples, HoursFor(credential), when, 1);
    if IsI64(u) {
      WrapFits(u);
    }
  }

  /** The subscription filter counts every byte three times, modulo 2^64. */
  lemma {:induction false} FilterIsThreeTimesRaw(samples: seq<Sample>, credential: string)
    ensures var u := Total(samples, Some(credential));
            && FilterTotal(Rollups64(samples), credential) == Wrap64(3 * u)
            && (IsI64(3 * u) ==> FilterTotal(Rollups64(samples), credential) == 3 * u)
  {
    var u := Total(samples, Some(credential));
    var when := (s: Sample) => s.credential == Some(credential);
    SumIfWraps(samples, AllFor(credential));
    RollupsConserve(Both, samples, AllFor(credential));
    RawIfIsRaw(Both, samples, AllFor(credential), when, 3);
    if IsI64(3 * u) {
      WrapFits(3 * u);
    }
  }

  // ---------------------------------------------------------------------------
  // The implementation
  // ---------------------------------------------------------------------------

  class UsageStore {
    var nodes: set<string>
    var samples: seq<Sample>
    var rollups: map<Key, Rollup>
    var quotas: map<string, int>

    ghost predicate Valid()
      reads this
    {
      rollups == Rollups64(samples)
    }

    constructor (nodes: set<string>)
      ensures Valid() && this.nodes == nodes && samples == [] && quotas == map[]
    {
      this.nodes, samples, rollups, quotas := nodes, [], map[], map[];
    }

    method RecordUsageSample(s: Sample) returns (ok: bool)
      requires Valid()
      modifies this`samples, this`rollups
      ensures Valid()
      ensures ok <==> s.node in nodes
      ensures samples == (if ok then old(samples) + [s] else old(samples))
    {
      if s.node !in nodes {
        return false;
      }
      var buckets := [HourBucket, DayBucket, MonthBucket];
      for i := 0 to 3
        invariant samples == old(samples)
        invariant i == 0 ==> rollups == old(rollups)
        invariant i == 1 ==> rollups == Bump64(old(rollups), KeyOf(s, HourBucket), Traffic(s))
        invariant i == 2 ==>
            rollups == Bump64(Bump64(old(rollups), KeyOf(s, HourBucket), Traffic(s)), KeyOf(s, DayBucket), Traffic(s))
        invariant i == 3 ==> rollups == Record64(old(rollups), s)
      {
        var key := Key(s.credential, buckets[i], BucketStart(buckets[i], s.at));
        if key !in rollups {
          rollups := rollups[key := Rollup(0, 0)];
        }
        rollups := rollups[key := Rollup(Wrap64(rollups[key].up + s.up), Wrap64(rollups[key].down + s.down))];
      }
      samples := samples + [s];
      assert samples[..|samples|-1] == old(samples);
      return true;
    }

    /** Adds up the selected rollups in whatever order the map yields them. */
    method SumRollups(pick: Key -> bool) returns (total: int)
      ensures total == Wrap64(SumIf(Both, rollups, pick))
    {
      total := 0;
      var rest := set k | k in rollups && pick(k);
      ghost var done := 0;
      while rest != {}
        invariant rest <= rollups.Keys
        invariant done + SumKeys(Both, rollups, rest) == SumIf(Both, rollups, pick)
        invariant total == Wrap64(done)
        decreases rest
      {
        var k :| k in rest;
        SumPick(Both, rollups, rest, k);
        var one := Wrap64(rollups[k].up + rollups[k].down);
        WrapAdds(done, one);
        WrapAdds(done, rollups[k].up + rollups[k].down);
        total := Wrap64(total + one);
        done := done + Amount(Both, rollups[k]);
        rest := rest - {k};
      }
    }

    method SetCredentialQuota(credential: string, quota: int)
      modifies this`quotas
      ensures quotas == old(quotas)[credential := quota]
    {
      quotas := quotas[credential := quota];
    }

    /** The quota decision: unknown without a quota; otherwise by `used`, which is the
        raw total modulo 2^64. */
    method CredentialQuotaDecision(credential: string) returns (decision: Option<(int, bool)>)
      requires Valid()
      ensures decision.Some? <==> credential in quotas
      ensures decision.Some? ==>
                && decision.value.0 == HourTotal(rollups, credential) == Wrap64(Total(samples, Some(credential)))
                && decision.value.1 == (decision.value.0 <= quotas[credential])
    {
      if credential !in quotas {
        return None;
      }
      var used := SumRollups(HoursFor(credential));
      DecisionIsRawTotal(samples, credential);
      decision := Some((used, used <= quotas[credential]));
    }

    /** The filter the subscription applies: by three times the raw total modulo 2^64. */
    method QuotaExceededInMemory(credential: string) returns (exceeded: bool)
      requires Valid()
      ensures exceeded <==> credential in quotas && FilterTotal(rollups, credential) > quotas[credential]
      ensures exceeded <==> credential in quotas && Wrap64(3 * Total(samples, Some(credential))) > quotas[credential]
    {
      if credential !in quotas {
        return false;
      }
      var used := SumRollups(AllFor(credential));
      FilterIsThreeTimesRaw(samples, credential);
      exceeded := used > quotas[credential];
    }
  }
}
