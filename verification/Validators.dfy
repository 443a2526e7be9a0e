/**
 The validator set: weighted quorums in Word64 arithmetic and the round-robin proposer
 (Consensus/Types.hs, Consensus/Engine.hs).
 */
module Validators {
  import opened Wrappers
  import opened Bytes

  type Address = seq<byte>

  datatype Status = Active | Inactive | Jailed | Tombstoned | Unbonding

  datatype ValidatorInfo = ValidatorInfo(address: Address, power: Word64, status: Status)

  /** totalPower is stored beside the list, not computed from it. */
  datatype ValidatorSet = ValidatorSet(validators: seq<ValidatorInfo>, totalPower: Word64)

  // ---------------------------------------------------------------- voting power

  /** The power of the listed validators among the voters, without overflow. */
  function Power(vs: seq<ValidatorInfo>, voters: set<Address>): nat
  {
    if vs == [] then 0
    else (if vs[0].address in voters then vs[0].power else 0) + Power(vs[1..], voters)
  }

  function SumOfPowers(vs: seq<ValidatorInfo>): nat
  {
    if vs == [] then 0 else vs[0].power + SumOfPowers(vs[1..])
  }

  /** The same sum as the code computes it, wrapping at every addition. */
  function WrappedPower(vs: seq<ValidatorInfo>, voters: set<Address>): Word64
  {
    if vs == [] then 0
    else AddWords(if vs[0].address in voters then vs[0].power else 0, WrappedPower(vs[1..], voters))
  }

  /** The code's two-thirds test: every product and sum is a Word64. */
  predicate SuperMajority(vset: ValidatorSet, voters: set<Address>)
  {
    (WrappedPower(vset.validators, voters) * 3) % WORD64 > (vset.totalPower * 2) % WORD64
  }

  /** The two-thirds rule over unbounded numbers. */
  predicate ExactSuperMajority(vset: ValidatorSet, voters: set<Address>)
  {
    3 * Power(vset.validators, voters) > 2 * SumOfPowers(vset.validators)
  }

  /** A set whose stored total is right and small enough for the Word64 test. */
  predicate WellSized(vset: ValidatorSet)
  {
    vset.totalPower == SumOfPowers(vset.validators) && 3 * vset.totalPower < WORD64
  }

  /** A set whose stored total is right and small enough for the test never to pass wrongly. */
  predicate SafelySized(vset: ValidatorSet)
  {
    vset.totalPower == SumOfPowers(vset.validators) && 2 * vset.totalPower < WORD64
  }

  lemma {:induction false} PowerBounds(vs: seq<ValidatorInfo>, voters: set<Address>)
    ensures Power(vs, voters) <= SumOfPowers(vs)
    ensures SumOfPowers(vs) < WORD64 ==> WrappedPower(vs, voters) == Power(vs, voters)
  {
    if vs != [] { PowerBounds(vs[1..], voters); }
  }

  /** Under WellSized the code's test is the exact one, for every voter set. */
  lemma SuperMajorityIsExact(vset: ValidatorSet, voters: set<Address>)
    requires WellSized(vset)
    ensures SuperMajority(vset, voters) <==> ExactSuperMajority(vset, voters)
  {
    PowerBounds(vset.validators, voters);
    SmallMod(3 * Power(vset.validators, voters));
    SmallMod(2 * vset.totalPower);
  }

  /** Up to a total of 2^63 - 1 the wrapping test may miss a quorum but never sees one that is not there. */
  lemma PassingIsExact(vset: ValidatorSet, voters: set<Address>)
    requires SafelySized(vset) && SuperMajority(vset, voters)
    ensures ExactSuperMajority(vset, voters)
  {
    PowerBounds(vset.validators, voters);
    SmallMod(2 * vset.totalPower);
  }

  lemma SmallMod(x: nat)
    requires x < WORD64
    ensures x % WORD64 == x
  {
  }

  /** The Word64 test agrees with the exact one on every set of total power t. */
  ghost predicate TestExactAt(t: Word64)
  {
    forall vset: ValidatorSet, voters: set<Address> ::
      vset.totalPower == t && SumOfPowers(vset.validators) == t
      ==> (SuperMajority(vset, voters) <==> ExactSuperMajority(vset, voters))
  }

  lemma OneValidator(a: ValidatorInfo, voters: set<Address>)
    requires a.address in voters
    ensures SumOfPowers([a]) == Power([a], voters) == WrappedPower([a], voters) == a.power
  {
    assert [a][1..] == [];
  }

  lemma TwoValidators(a: ValidatorInfo, b: ValidatorInfo, voters: set<Address>)
    requires a.address in voters && b.address !in voters
    ensures SumOfPowers([a, b]) == a.power + b.power
    ensures Power([a, b], voters) == WrappedPower([a, b], voters) == a.power
  {
    assert [a, b][1..] == [b];
    assert [b][1..] == [];
    assert SumOfPowers([b]) == b.power && Power([b], voters) == WrappedPower([b], voters) == 0;
  }

  /** Exactly the totals up to (2^64 - 1) / 3 are safe from overflow. */
  lemma TestExactIff(t: Word64)
    ensures TestExactAt(t) <==> 3 * t < WORD64
  {
    if 3 * t < WORD64 {
      forall vset: ValidatorSet, voters: set<Address>
        | vset.totalPower == t && SumOfPowers(vset.validators) == t
        ensures SuperMajority(vset, voters) <==> ExactSuperMajority(vset, voters)
      {
        SuperMajorityIsExact(vset, voters);
      }
    } else {
      var third: Word64 := (WORD64 - 1) / 3;
      var a, b := ValidatorInfo([], third, Active), ValidatorInfo([0], t - third, Active);
      var one := ValidatorInfo([], t, Active);
      var split := WORD64 <= 2 * t && 3 * t < 2 * WORD64;
      var vset := ValidatorSet(if split then [a, b] else [one], t);
      TwoValidators(a, b, {[]});
      OneValidator(one, {[]});
      assert SuperMajority(vset, {[]}) != ExactSuperMajority(vset, {[]});
    }
  }

  // ---------------------------------------------------------------- quorum intersection

  lemma {:induction false} InclusionExclusion(vs: seq<ValidatorInfo>, a: set<Address>, b: set<Address>)
    ensures Power(vs, a) + Power(vs, b) == Power(vs, a * b) + Power(vs, a + b)
  {
    if vs != [] { InclusionExclusion(vs[1..], a, b); }
  }

  lemma {:induction false} PowerMonotone(vs: seq<ValidatorInfo>, a: set<Address>, b: set<Address>)
    requires a <= b
    ensures Power(vs, a) <= Power(vs, b)
  {
    if vs != [] { PowerMonotone(vs[1..], a, b); }
  }

  /** Two exact quorums share more than a third of the power. */
  lemma QuorumIntersection(vset: ValidatorSet, a: set<Address>, b: set<Address>)
    requires ExactSuperMajority(vset, a) && ExactSuperMajority(vset, b)
    ensures 3 * Power(vset.validators, a * b) > SumOfPowers(vset.validators)
  {
    InclusionExclusion(vset.validators, a, b);
    PowerBounds(vset.validators, a + b);
  }

  /** Two quorums share a listed validator outside any set of at most a third of the power. */
  lemma QuorumsShareCorrect(vset: ValidatorSet, faulty: set<Address>, a: set<Address>, b: set<Address>)
    returns (p: Address)
    requires ExactSuperMajority(vset, a) && ExactSuperMajority(vset, b)
    requires 3 * Power(vset.validators, faulty) <= SumOfPowers(vset.validators)
    ensures p in a && p in b && p !in faulty
    ensures exists v :: v in vset.validators && v.address == p
  {
    QuorumIntersection(vset, a, b);
    p := HeavierMember(vset.validators, a * b, faulty);
  }

  lemma {:induction false} HeavierMember(vs: seq<ValidatorInfo>, a: set<Address>, b: set<Address>)
    returns (p: Address)
    requires Power(vs, a) > Power(vs, b)
    ensures p in a && p !in b
    ensures exists v :: v in vs && v.address == p
  {
    if vs[0].address in a && vs[0].address !in b {
      p := vs[0].address;
      assert vs[0] in vs;
    } else {
      p := HeavierMember(vs[1..], a, b);
    }
  }

  /** A larger voter set keeps a quorum. */
  lemma SuperMajorityMonotone(vset: ValidatorSet, a: set<Address>, b: set<Address>)
    requires WellSized(vset) && a <= b && SuperMajority(vset, a)
    ensures SuperMajority(vset, b)
  {
    SuperMajorityIsExact(vset, a);
    SuperMajorityIsExact(vset, b);
    PowerMonotone(vset.validators, a, b);
  }

  lemma ExactMonotone(vset: ValidatorSet, a: set<Address>, b: set<Address>)
    requires a <= b && ExactSuperMajority(vset, a)
    ensures ExactSuperMajority(vset, b)
  {
    PowerMonotone(vset.validators, a, b);
  }

  // ---------------------------------------------------------------- totals from 2^63 on

  /** The power two validators get so that each passes the wrapping test of a total t alone. */
  function Solo(t: Word64): Word64
  {
    if t / 2 <= (WORD64 - 1) / 3 then t / 2 else (WORD64 - 1) / 3
  }

  /** Two active validators of that power, and an inactive one with what is left. */
  function SplitSet(t: Word64): ValidatorSet
    requires 2 * t >= WORD64
  {
    ValidatorSet([ValidatorInfo([0], Solo(t), Active), ValidatorInfo([1], Solo(t), Active),
                  ValidatorInfo([2], t - 2 * Solo(t), Inactive)], t)
  }

  lemma ThreePowers(x: ValidatorInfo, y: ValidatorInfo, z: ValidatorInfo, voters: set<Address>)
    requires x.power + y.power + z.power < WORD64
    ensures SumOfPowers([x, y, z]) == x.power + y.power + z.power
    ensures Power([x, y, z], voters) == WrappedPower([x, y, z], voters)
    ensures Power([x, y, z], voters) == (if x.address in voters then x.power else 0)
      + (if y.address in voters then y.power else 0) + (if z.address in voters then z.power else 0)
  {
    assert [x, y, z][1..] == [y, z] && [y, z][1..] == [z] && [z][1..] == [];
    assert SumOfPowers([z]) == z.power && Power([z], voters) == if z.address in voters then z.power else 0;
    assert SumOfPowers([y, z]) == y.power + z.power;
    PowerBounds([x, y, z], voters);
  }

  /** From a total of 2^63 on, two validators can each be a quorum of their own. */
  lemma SplitPasses(t: Word64)
    requires 2 * t >= WORD64
    ensures var vset := SplitSet(t);
      && SumOfPowers(vset.validators) == t
      && SuperMajority(vset, {[0]}) && SuperMajority(vset, {[1]}) && Power(vset.validators, {}) == 0
  {
    var x, y := ValidatorInfo([0], Solo(t), Active), ValidatorInfo([1], Solo(t), Active);
    var z := ValidatorInfo([2], t - 2 * Solo(t), Inactive);
    assert x.address[0] != y.address[0] && x.address[0] != z.address[0] && y.address[0] != z.address[0];
    ThreePowers(x, y, z, {[0]});
    ThreePowers(x, y, z, {[1]});
    ThreePowers(x, y, z, {});
    SoloPasses(t);
  }

  lemma SoloPasses(t: Word64)
    requires 2 * t >= WORD64
    ensures (Solo(t) * 3) % WORD64 > (t * 2) % WORD64
  {
    SmallMod(Solo(t) * 3);
    assert (t * 2) % WORD64 == 2 * t - WORD64;
  }

  /** Any two voter sets that pass the test, in any set of right total t, share more than a third. */
  ghost predicate IntersectionAt(t: Word64)
  {
    forall vset: ValidatorSet, a: set<Address>, b: set<Address> ::
      vset.totalPower == t && SumOfPowers(vset.validators) == t && SuperMajority(vset, a) && SuperMajority(vset, b)
      ==> 3 * Power(vset.validators, a * b) > t
  }

  /** That holds exactly for totals below 2^63. */
  lemma IntersectionIff(t: Word64)
    ensures IntersectionAt(t) <==> 2 * t < WORD64
  {
    if 2 * t < WORD64 {
      forall vset: ValidatorSet, a: set<Address>, b: set<Address>
        | vset.totalPower == t && SumOfPowers(vset.validators) == t && SuperMajority(vset, a) && SuperMajority(vset, b)
        ensures 3 * Power(vset.validators, a * b) > t
      {
        PassingIsExact(vset, a);
        PassingIsExact(vset, b);
        QuorumIntersection(vset, a, b);
      }
    } else {
      SplitPasses(t);
      var p: Address, q: Address := [0], [1];
      assert p[0] != q[0];
      assert {p} * {q} == {};
      assert Power(SplitSet(t).validators, {p} * {q}) == 0;
    }
  }

  // ---------------------------------------------------------------- proposer rotation

  function ActiveValidators(vs: seq<ValidatorInfo>): seq<ValidatorInfo>
  {
    if vs == [] then []
    else (if vs[0].status == Active then [vs[0]] else []) + ActiveValidators(vs[1..])
  }

  /** These are the positions of the active validators from a place on, in rising order, and of no others. */
  ghost predicate ActivePositions(vs: seq<ValidatorInfo>, from: nat, positions: seq<nat>)
  {
    && (forall i :: 0 <= i < |positions| ==> from <= positions[i] < |vs|)
    && (forall i, j :: 0 <= i < j < |positions| ==> positions[i] < positions[j])
    && (forall k :: from <= k < |vs| ==> (vs[k].status == Active <==> k in positions))
  }

  /** The validators at these positions, one after another. */
  ghost predicate AtPositions(vs: seq<ValidatorInfo>, positions: seq<nat>, chosen: seq<ValidatorInfo>)
  {
    |chosen| == |positions| && forall i :: 0 <= i < |positions| ==> positions[i] < |vs| && chosen[i] == vs[positions[i]]
  }

  /** The rotation holds exactly the active validators, in the order of the list. */
  lemma ActiveExactly(vs: seq<ValidatorInfo>) returns (positions: seq<nat>)
    ensures ActivePositions(vs, 0, positions) && AtPositions(vs, positions, ActiveValidators(vs))
  {
    positions := ActiveFrom(vs, 0);
    assert vs[0..] == vs;
  }

  lemma {:induction false} ActiveFrom(vs: seq<ValidatorInfo>, from: nat) returns (positions: seq<nat>)
    requires from <= |vs|
    ensures ActivePositions(vs, from, positions) && AtPositions(vs, positions, ActiveValidators(vs[from..]))
    decreases |vs| - from
  {
    positions := [];
    if from < |vs| {
      var rest := ActiveFrom(vs, from + 1);
      assert vs[from..][1..] == vs[from + 1..];
      if vs[from].status == Active {
        positions := [from] + rest;
        assert ActiveValidators(vs[from..]) == [vs[from]] + ActiveValidators(vs[from + 1..]);
        HeadPosition(vs, from, rest);
      } else {
        positions := rest;
        assert ActiveValidators(vs[from..]) == ActiveValidators(vs[from + 1..]);
      }
    }
  }

  lemma HeadPosition(vs: seq<ValidatorInfo>, from: nat, rest: seq<nat>)
    requires from < |vs| && vs[from].status == Active && ActivePositions(vs, from + 1, rest)
    ensures ActivePositions(vs, from, [from] + rest)
  {
    forall k | from <= k < |vs| ensures vs[k].status == Active <==> k in [from] + rest {
      assert k in [from] + rest <==> k == from || k in rest;
    }
  }

  /** The proposer of a round is an active validator. */
  lemma ProposerIsActive(round: Word64, vset: ValidatorSet)
    requires ActiveValidators(vset.validators) != []
    ensures exists v :: v in vset.validators && v.status == Active && v.address == RoundProposer(round, vset)
  {
    var active := ActiveValidators(vset.validators);
    var positions := ActiveExactly(vset.validators);
    var i := ToInt(round) % |active|;
    assert active[i] == vset.validators[positions[i]] && positions[i] in positions;
  }

  lemma {:induction false} ActivePosition(vs: seq<ValidatorInfo>, v: ValidatorInfo) returns (i: nat)
    requires v in vs && v.status == Active
    ensures i < |ActiveValidators(vs)| <= |vs| && ActiveValidators(vs)[i] == v
  {
    ActiveNoMore(vs[1..]);
    if vs[0] == v {
      i := 0;
    } else {
      i := ActivePosition(vs[1..], v);
      if vs[0].status == Active { i := i + 1; }
    }
  }

  lemma {:induction false} ActiveNoMore(vs: seq<ValidatorInfo>)
    ensures |ActiveValidators(vs)| <= |vs|
  {
    if vs != [] { ActiveNoMore(vs[1..]); }
  }

  /** Word64 to Int, as fromIntegral converts the round. */
  function ToInt(w: Word64): int
  {
    if w < WORD64 / 2 then w else w - WORD64
  }

  /** The proposer of a round; the code divides by zero when nobody is active. */
  function RoundProposer(round: Word64, vset: ValidatorSet): Address
    requires ActiveValidators(vset.validators) != []
  {
    var active := ActiveValidators(vset.validators);
    active[ToInt(round) % |active|].address
  }

  predicate DistinctAddresses(vs: seq<ValidatorInfo>)
  {
    forall i, j :: 0 <= i < j < |vs| ==> vs[i].address != vs[j].address
  }

  /** The rounds r, ..., r + n - 1 stay clear of both conversions that wrap. */
  predicate NoWrap(r: nat, n: nat)
  {
    r + n <= WORD64 / 2 || (WORD64 / 2 <= r && r + n <= WORD64)
  }

  lemma ModUnique(q: int, n: nat, i: nat)
    requires i < n
    ensures (q * n + i) % n == i
  {
    var x := q * n + i;
    var d := x / n - q;
    assert d * n == i - x % n by {
      assert x == (x / n) * n + x % n;
      assert d * n == (x / n) * n - q * n;
    }
    if d != 0 { AwayFromZero(d, n); }
  }

  lemma AwayFromZero(d: int, n: nat)
    requires d != 0
    ensures d * n >= n || d * n + n <= 0
  {
  }

  /** Positions advance by one a round and start again after the last. */
  lemma Rotation(r: int, n: nat, k: nat)
    requires k < n
    ensures (r + k) % n == if r % n + k < n then r % n + k else r % n + k - n
  {
    var q := r / n;
    assert r == q * n + r % n;
    if r % n + k < n {
      ModUnique(q, n, r % n + k);
    } else {
      assert (q + 1) * n == q * n + n;
      ModUnique(q + 1, n, r % n + k - n);
    }
  }

  /** The position of a round's proposer, counted from the first round of a window. */
  lemma WindowPosition(vset: ValidatorSet, r: Word64, q: Word64)
    requires var n := |ActiveValidators(vset.validators)|; r <= q < r + n && NoWrap(r, q + 1 - r)
    ensures var active := ActiveValidators(vset.validators); var start := ToInt(r) % |active|;
      RoundProposer(q, vset) ==
      active[if start + (q - r) < |active| then start + (q - r) else start + (q - r) - |active|].address
  {
    assert ToInt(q) == ToInt(r) + (q - r);
    Rotation(ToInt(r), |ActiveValidators(vset.validators)|, q - r);
  }

  /** Every active validator's turn comes within as many rounds as there are active validators. */
  lemma TurnComes(vset: ValidatorSet, r: Word64, i: nat) returns (q: Word64)
    requires var active := ActiveValidators(vset.validators); i < |active| && NoWrap(r, |active|)
    ensures var active := ActiveValidators(vset.validators);
      r <= q < r + |active| && RoundProposer(q, vset) == active[i].address
  {
    var active := ActiveValidators(vset.validators);
    var start := ToInt(r) % |active|;
    q := if start <= i then r + (i - start) else r + (i - start + |active|);
    WindowPosition(vset, r, q);
  }

  // ---------------------------------------------------------------- windows of 64-bit rounds

  /** The proposer k rounds after round r, counting as the code does, back to 0 after 2^64 - 1. */
  function ProposerAfter(vset: ValidatorSet, r: Word64, k: Word64): Address
    requires ActiveValidators(vset.validators) != []
  {
    RoundProposer(AddWords(r, k), vset)
  }

  ghost predicate Proposes(vset: ValidatorSet, r: Word64, a: Address)
    requires ActiveValidators(vset.validators) != []
  {
    exists k: Word64 :: k < |ActiveValidators(vset.validators)| && ProposerAfter(vset, r, k) == a
  }

  /** In the window of as many rounds as there are active validators each proposes exactly once. */
  ghost predicate Fair(vset: ValidatorSet, r: Word64)
    requires 0 < |ActiveValidators(vset.validators)| <= WORD64 / 2
  {
    var active := ActiveValidators(vset.validators);
    && (forall i :: 0 <= i < |active| ==> Proposes(vset, r, active[i].address))
    && forall k: Word64, l: Word64 :: k < l < |active| ==> ProposerAfter(vset, r, k) != ProposerAfter(vset, r, l)
  }

  /** The window stays below round 2^63, or starts at or above it: the signed index does not jump. */
  predicate NoJump(r: Word64, n: nat)
  {
    ToInt(r) + n <= WORD64 / 2
  }

  lemma IndexAfter(r: Word64, k: Word64)
    requires k < WORD64 / 2
    ensures ToInt(AddWords(r, k)) == if ToInt(r) + k < WORD64 / 2 then ToInt(r) + k else ToInt(r) + k - WORD64
  {
  }

  /** Whole turns do not change a remainder. */
  lemma ModShift(x: int, n: nat, q: int)
    requires n > 0
    ensures (x + q * n) % n == x % n
  {
    var i := x % n;
    assert x == (x / n) * n + i;
    assert x + q * n == (x / n + q) * n + i by { assert (x / n + q) * n == (x / n) * n + q * n; }
    ModUnique(x / n + q, n, i);
  }

  lemma Quotient(n: nat)
    requires n > 0
    ensures WORD64 == (WORD64 / n) * n + WORD64 % n
  {
  }

  lemma ModAfterJump(x: int, n: nat)
    requires n > 0 && WORD64 % n == 0
    ensures (x - WORD64) % n == x % n
  {
    Quotient(n);
    ModShift(x - WORD64, n, WORD64 / n);
  }

  /** Without a jump, or with an active count that divides 2^64, the index simply counts on. */
  lemma CountsOn(vset: ValidatorSet, r: Word64, k: Word64, n: nat)
    requires var count := |ActiveValidators(vset.validators)|;
      0 < count <= WORD64 / 2 && k < n <= count && (NoJump(r, n) || WORD64 % count == 0)
    ensures var active := ActiveValidators(vset.validators);
      ProposerAfter(vset, r, k) == active[(ToInt(r) + k) % |active|].address
  {
    IndexAfter(r, k);
    if ToInt(r) + k >= WORD64 / 2 { ModAfterJump(ToInt(r) + k, |ActiveValidators(vset.validators)|); }
  }

  lemma CountsOnDistinct(vset: ValidatorSet, r: Word64, k: Word64, l: Word64, n: nat)
    requires var active := ActiveValidators(vset.validators);
      && 0 < |active| <= WORD64 / 2 && k < l < n <= |active| && DistinctAddresses(active)
      && (NoJump(r, n) || WORD64 % |active| == 0)
    ensures ProposerAfter(vset, r, k) != ProposerAfter(vset, r, l)
  {
    var active := ActiveValidators(vset.validators);
    CountsOn(vset, r, k, n);
    CountsOn(vset, r, l, n);
    Rotation(ToInt(r), |active|, k);
    Rotation(ToInt(r), |active|, l);
  }

  lemma CountsOnCovers(vset: ValidatorSet, r: Word64, i: nat) returns (k: Word64)
    requires var active := ActiveValidators(vset.validators);
      0 < |active| <= WORD64 / 2 && i < |active| && (NoJump(r, |active|) || WORD64 % |active| == 0)
    ensures var active := ActiveValidators(vset.validators);
      k < |active| && ProposerAfter(vset, r, k) == active[i].address
  {
    var active := ActiveValidators(vset.validators);
    var start := ToInt(r) % |active|;
    k := if start <= i then i - start else i - start + |active|;
    CountsOn(vset, r, k, |active|);
    Rotation(ToInt(r), |active|, k);
  }

  /** Across the jump somebody proposes twice, as many rounds apart as 2^64 leaves over. */
  lemma JumpRepeats(vset: ValidatorSet, r: Word64) returns (k: Word64, l: Word64)
    requires var n := |ActiveValidators(vset.validators)|;
      0 < n <= WORD64 / 2 && !NoJump(r, n) && WORD64 % n != 0
    ensures k < l < |ActiveValidators(vset.validators)| && ProposerAfter(vset, r, k) == ProposerAfter(vset, r, l)
  {
    var n := |ActiveValidators(vset.validators)|;
    var before, left := WORD64 / 2 - ToInt(r), WORD64 % n;
    k := if left < before then before - left else 0;
    l := k + left;
    IndexAfter(r, k);
    IndexAfter(r, l);
    Quotient(n);
    ModShift(ToInt(r) + l - WORD64, n, WORD64 / n);
  }

  /**
   Round robin is fair in the window from round r exactly when the window does not cross round
   2^63, where the signed index jumps, or the number of active validators divides 2^64. Crossing
   2^64 does no harm.
   */
  lemma ProposerFairness(vset: ValidatorSet, r: Word64)
    requires var active := ActiveValidators(vset.validators); 0 < |active| <= WORD64 / 2 && DistinctAddresses(active)
    ensures var n := |ActiveValidators(vset.validators)|; Fair(vset, r) <==> NoJump(r, n) || WORD64 % n == 0
  {
    var active := ActiveValidators(vset.validators);
    if NoJump(r, |active|) || WORD64 % |active| == 0 {
      forall i | 0 <= i < |active| ensures Proposes(vset, r, active[i].address) {
        var k := CountsOnCovers(vset, r, i);
      }
      forall k: Word64, l: Word64 | k < l < |active| ensures ProposerAfter(vset, r, k) != ProposerAfter(vset, r, l) {
        CountsOnDistinct(vset, r, k, l, |active|);
      }
    } else {
      var k, l := JumpRepeats(vset, r);
    }
  }

  lemma {:induction false} DistinctExceed(xs: seq<Address>, few: set<Address>)
    requires forall i, j :: 0 <= i < j < |xs| ==> xs[i] != xs[j]
    requires |few| < |xs|
    ensures exists i :: 0 <= i < |xs| && xs[i] !in few
  {
    if forall i :: 0 <= i < |xs| ==> xs[i] in few {
      var last := |xs| - 1;
      assert |few - {xs[last]}| == |few| - 1;
      DistinctExceed(xs[..last], few - {xs[last]});
      assert false;
    }
  }

  /** The active validators that are faulty. */
  function FaultyActive(vset: ValidatorSet, faulty: set<Address>): set<Address>
  {
    set v | v in ActiveValidators(vset.validators) && v.address in faulty :: v.address
  }

  /** Among any f + 1 consecutive rounds one has a correct proposer when f active validators are faulty. */
  lemma SomeCorrectProposer(vset: ValidatorSet, r: Word64, faulty: set<Address>)
    returns (k: Word64)
    requires var active, f := ActiveValidators(vset.validators), |FaultyActive(vset, faulty)|;
      && f < |active| <= WORD64 / 2 && DistinctAddresses(active)
      && (NoJump(r, f + 1) || WORD64 % |active| == 0)
    ensures k <= |FaultyActive(vset, faulty)| && ProposerAfter(vset, r, k) !in faulty
  {
    var active, f := ActiveValidators(vset.validators), |FaultyActive(vset, faulty)|;
    var proposers := seq(f + 1, k requires 0 <= k <= f => ProposerAfter(vset, r, k));
    forall i, j | 0 <= i < j < |proposers|
      ensures proposers[i] != proposers[j]
    {
      CountsOnDistinct(vset, r, i, j, f + 1);
    }
    DistinctExceed(proposers, FaultyActive(vset, faulty));
    k :| 0 <= k < |proposers| && proposers[k] !in FaultyActive(vset, faulty);
    var v := active[ToInt(AddWords(r, k)) % |active|];
    assert v in active && v.address == ProposerAfter(vset, r, k);
  }
}
