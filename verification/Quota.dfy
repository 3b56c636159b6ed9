/** What the quota decision and the subscription's quota filter mean for a credential, as
    the 64-bit code computes them. */
module Quota {
  import opened Domain
  import opened Usage

  predicate QuotaAllows(quota: int, used: int) {
    used <= quota
  }

  /** What the credential has used in all. */
  function UsedBy(samples: seq<Sample>, credential: string): int {
    Total(samples, Some(credential))
  }

  ghost predicate Allowed(samples: seq<Sample>, credential: string, quota: int) {
    QuotaAllows(quota, HourTotal(Rollups64(samples), credential))
  }

  ghost predicate Advertised(samples: seq<Sample>, credential: string, quota: int) {
    QuotaAllows(quota, FilterTotal(Rollups64(samples), credential))
  }

  // ---------------------------------------------------------------------------
  // Where decision and filter part ways
  // ---------------------------------------------------------------------------

  /** Whatever was reported: exactly when one of the two wrapped sums is over the quota and
      the other is not. While three times the usage fits, that is when the quota is not yet
      exceeded but a third of it is. */
  lemma DecisionAndFilterDisagreeIff(samples: seq<Sample>, credential: string, quota: int)
    ensures var u := UsedBy(samples, credential);
            && (Allowed(samples, credential, quota) != Advertised(samples, credential, quota)
                <==> Wrap64(3 * u) > quota >= Wrap64(u) || Wrap64(u) > quota >= Wrap64(3 * u))
            && (0 <= u && 3 * u <= MaxI64 ==>
                  (Allowed(samples, credential, quota) != Advertised(samples, credential, quota)
                   <==> 3 * u > quota >= u))
  {
    DecisionIsRawTotal(samples, credential);
    FilterIsThreeTimesRaw(samples, credential);
  }

  ghost predicate DisagreesAsExpected(samples: seq<Sample>, credential: string, quota: int) {
    var u := UsedBy(samples, credential);
    Allowed(samples, credential, quota) != Advertised(samples, credential, quota) <==> 3 * u > quota >= u
  }

  lemma WrapsAround(x: int)
    requires MaxI64 < x < MaxI64 + TwoTo64
    ensures Wrap64(x) == x - TwoTo64
  {
  }

  /** The short condition is right for every quota if and only if three times the usage
      still fits 64 bits. */
  lemma ThirdOfQuotaIff(samples: seq<Sample>, credential: string)
    requires 0 <= UsedBy(samples, credential) <= MaxI64
    ensures (forall quota :: IsI64(quota) ==> DisagreesAsExpected(samples, credential, quota))
       <==> 3 * UsedBy(samples, credential) <= MaxI64
  {
    var u := UsedBy(samples, credential);
    if 3 * u <= MaxI64 {
      forall quota | IsI64(quota)
        ensures DisagreesAsExpected(samples, credential, quota)
      {
        DecisionAndFilterDisagreeIff(samples, credential, quota);
      }
    } else {
      DecisionAndFilterDisagreeIff(samples, credential, MaxI64);
      WrapFits(u);
      WrapsAround(3 * u);
      assert IsI64(MaxI64) && !DisagreesAsExpected(samples, credential, MaxI64);
    }
  }

  function OneSample(credential: string, bytes: int): Sample {
    Sample("", Some(credential), bytes, 0, 0)
  }

  lemma UsedByOne(credential: string, bytes: int)
    ensures UsedBy([OneSample(credential, bytes)], credential) == bytes
  {
    var s := OneSample(credential, bytes);
    TotalAppend([], s, Some(credential));
    assert [] + [s] == [s];
  }

  /** Within that bound: any usage above zero is allowed, yet suppressed, under a quota of
      its own size. */
  lemma AllowedButSuppressed(credential: string, bytes: int)
    requires 0 < bytes && 3 * bytes <= MaxI64
    ensures var samples := [OneSample(credential, bytes)];
            Allowed(samples, credential, bytes) && !Advertised(samples, credential, bytes)
  {
    UsedByOne(credential, bytes);
    DecisionIsRawTotal([OneSample(credential, bytes)], credential);
    FilterIsThreeTimesRaw([OneSample(credential, bytes)], credential);
  }

  const TwoTo62: int := 0x4000_0000_0000_0000

  /** Beyond it: with 2^62 bytes used the filter wraps below zero. A quota of as much is
      not exceeded for either; one byte less, and a denied credential is advertised. */
  lemma DeniedButAdvertised(credential: string)
    ensures var samples := [OneSample(credential, TwoTo62)];
            && Allowed(samples, credential, TwoTo62) && Advertised(samples, credential, TwoTo62)
            && !Allowed(samples, credential, TwoTo62 - 1) && Advertised(samples, credential, TwoTo62 - 1)
  {
    UsedByOne(credential, TwoTo62);
    DecisionIsRawTotal([OneSample(credential, TwoTo62)], credential);
    FilterIsThreeTimesRaw([OneSample(credential, TwoTo62)], credential);
    WrapsAround(3 * TwoTo62);
  }

  // ---------------------------------------------------------------------------
  // Denied stays denied
  // ---------------------------------------------------------------------------

  lemma {:induction false} TotalAppend(samples: seq<Sample>, s: Sample, credential: Option<string>)
    ensures Total(samples + [s], credential)
         == Total(samples, credential) + (if s.credential == credential then s.up + s.down else 0)
  {
    var all := samples + [s];
    assert all[..|all|-1] == samples && all[|all|-1] == s;
  }

  /** Whoever is denied with the first samples, under whatever quota, is denied with the
      second ones if and only if the wrapped sum has not fallen. */
  lemma DeniedCarriesIff(before: seq<Sample>, after: seq<Sample>, credential: string)
    ensures (forall quota :: IsI64(quota) && !Allowed(before, credential, quota) ==> !Allowed(after, credential, quota))
       <==> Wrap64(UsedBy(before, credential)) <= Wrap64(UsedBy(after, credential))
  {
    var u, v := Wrap64(UsedBy(before, credential)), Wrap64(UsedBy(after, credential));
    DecisionIsRawTotal(before, credential);
    DecisionIsRawTotal(after, credential);
    if u > v {
      assert IsI64(u - 1) && !Allowed(before, credential, u - 1) && Allowed(after, credential, u - 1);
    }
  }

  datatype Ledger = Ledger(samples: seq<Sample>, quotas: map<string, int>)

  datatype LedgerOp = AddSample(sample: Sample) | SetQuota(credential: string, quota: int)

  function Apply(l: Ledger, op: LedgerOp): Ledger {
    match op
    case AddSample(s) => l.(samples := l.samples + [s])
    case SetQuota(c, q) => l.(quotas := l.quotas[c := q])
  }

  function ApplyAll(l: Ledger, ops: seq<LedgerOp>): Ledger {
    if ops == [] then l else Apply(ApplyAll(l, ops[..|ops|-1]), ops[|ops|-1])
  }

  ghost predicate Denied(l: Ledger, credential: string) {
    credential in l.quotas && !Allowed(l.samples, credential, l.quotas[credential])
  }

  /** New samples are non-negative and the quota is not raised above its old value. */
  ghost predicate NoRelief(ops: seq<LedgerOp>, credential: string, quota: int) {
    forall i :: 0 <= i < |ops| ==>
      match ops[i]
      case AddSample(s) => s.up >= 0 && s.down >= 0
      case SetQuota(c, q) => c == credential ==> q <= quota
  }

  ghost predicate Tight(l: Ledger, credential: string, quota: int, floor: int) {
    credential in l.quotas && l.quotas[credential] <= quota && floor <= UsedBy(l.samples, credential)
  }

  lemma OpKeepsTight(l: Ledger, op: LedgerOp, credential: string, quota: int, floor: int)
    requires Tight(l, credential, quota, floor)
    requires op.AddSample? ==> op.sample.up >= 0 && op.sample.down >= 0
    requires op.SetQuota? && op.credential == credential ==> op.quota <= quota
    ensures Tight(Apply(l, op), credential, quota, floor)
  {
    if op.AddSample? {
      TotalAppend(l.samples, op.sample, Some(credential));
    }
  }

  lemma {:induction false} UsageNeverFalls(l: Ledger, ops: seq<LedgerOp>, credential: string, quota: int, floor: int)
    requires Tight(l, credential, quota, floor) && NoRelief(ops, credential, quota)
    ensures Tight(ApplyAll(l, ops), credential, quota, floor)
    decreases |ops|
  {
    if ops != [] {
      var front, op := ops[..|ops|-1], ops[|ops|-1];
      assert NoRelief(front, credential, quota);
      UsageNeverFalls(l, front, credential, quota, floor);
      OpKeepsTight(ApplyAll(l, front), op, credential, quota, floor);
    }
  }

  /** While its usage fits 64 bits, a denied credential stays denied until its quota is
      raised. */
  lemma {:induction false} DeniedStaysDenied(l: Ledger, ops: seq<LedgerOp>, credential: string)
    requires Denied(l, credential) && NoRelief(ops, credential, l.quotas[credential])
    requires 0 <= UsedBy(l.samples, credential) && UsedBy(ApplyAll(l, ops).samples, credential) <= MaxI64
    ensures Denied(ApplyAll(l, ops), credential)
  {
    UsageNeverFalls(l, ops, credential, l.quotas[credential], UsedBy(l.samples, credential));
    DecisionIsRawTotal(l.samples, credential);
    DecisionIsRawTotal(ApplyAll(l, ops).samples, credential);
  }

  /** Past that it need not: with a quota of nothing, 2^62 bytes are denied and twice as
      many are allowed. */
  lemma OverflowAllowsAgain(credential: string)
    ensures var s := OneSample(credential, TwoTo62);
            !Allowed([s], credential, 0) && Allowed([s] + [s], credential, 0)
  {
    var s := OneSample(credential, TwoTo62);
    UsedByOne(credential, TwoTo62);
    TotalAppend([s], s, Some(credential));
    DecisionIsRawTotal([s], credential);
    DecisionIsRawTotal([s] + [s], credential);
    WrapsAround(2 * TwoTo62);
  }
}
