/** The coverage model, its rates, the gate against a baseline, and the comparison of two
observations.  A model's dict of bins is its sequence of bins, keyed by id, in insertion
order.  Rounding is any monotone function. */
module Coverage {
  import opened Sequences
  import opened Wrappers

  datatype Bin = Bin(
    id: string, group: string, point: string, name: string, count: int, weight: int, section: string, kind: string)

  predicate Hit(b: Bin) {
    b.count > 0
  }

  ghost predicate UniqueIds(bins: seq<Bin>) {
    forall i, j :: 0 <= i < j < |bins| ==> bins[i].id != bins[j].id
  }

  function Lookup(bins: seq<Bin>, id: string): (r: Option<Bin>)
    ensures r.Some? ==> r.value in bins && r.value.id == id
    ensures r.None? ==> forall b :: b in bins ==> b.id != id
  {
    if bins == [] then None else if bins[0].id == id then Some(bins[0]) else Lookup(bins[1..], id)
  }

  lemma {:induction false} LookupUnique(bins: seq<Bin>, b: Bin)
    requires UniqueIds(bins) && b in bins
    ensures Lookup(bins, b.id) == Some(b)
  {
    if bins[0] != b {
      assert UniqueIds(bins[1..]);
      LookupUnique(bins[1..], b);
    }
  }

  // ---- adding and merging ----------------------------------------------------------------

  /** Add to an existing bin's count, or append a new bin. */
  function Added(bins: seq<Bin>, b: Bin): seq<Bin> {
    if bins == [] then [b]
    else if bins[0].id == b.id then [bins[0].(count := bins[0].count + b.count)] + bins[1..]
    else [bins[0]] + Added(bins[1..], b)
  }

  function Merged(bins: seq<Bin>, other: seq<Bin>): seq<Bin>
    decreases |other|
  {
    if other == [] then bins else Merged(Added(bins, other[0]), other[1..])
  }

  lemma LookupCons(x: Bin, rest: seq<Bin>, id: string)
    ensures Lookup([x] + rest, id) == if x.id == id then Some(x) else Lookup(rest, id)
  {
    assert ([x] + rest)[1..] == rest;
  }

  function Sum(a: Option<Bin>, b: Option<Bin>): Option<Bin> {
    match (a, b)
    case (Some(x), Some(y)) => Some(x.(count := x.count + y.count))
    case (None, _) => b
    case (_, None) => a
  }

  lemma {:induction false} AddedMeans(bins: seq<Bin>, b: Bin, id: string)
    ensures Lookup(Added(bins, b), id) == Sum(Lookup(bins, id), if id == b.id then Some(b) else None)
  {
    if bins == [] {
      assert Added(bins, b) == [b] + [];
      LookupCons(b, [], id);
    } else if bins[0].id == b.id {
      LookupCons(bins[0].(count := bins[0].count + b.count), bins[1..], id);
    } else {
      AddedMeans(bins[1..], b, id);
      LookupCons(bins[0], Added(bins[1..], b), id);
    }
  }

  lemma NotInTail(bins: seq<Bin>)
    requires UniqueIds(bins) && bins != []
    ensures Lookup(bins[1..], bins[0].id) == None
  {
  }

  /** Counts add; a bin keeps its own definition, and takes the other's only when new. */
  lemma {:induction false} MergeMeans(bins: seq<Bin>, other: seq<Bin>, id: string)
    requires UniqueIds(other)
    ensures Lookup(Merged(bins, other), id) == Sum(Lookup(bins, id), Lookup(other, id))
    decreases |other|
  {
    hide UniqueIds;
    if other != [] {
      TailUnique(other);
      NotInTail(other);
      AddedMeans(bins, other[0], id);
      MergeMeans(Added(bins, other[0]), other[1..], id);
      assert other == [other[0]] + other[1..];
      LookupCons(other[0], other[1..], id);
    }
  }

  lemma TailUnique(bins: seq<Bin>)
    requires UniqueIds(bins) && bins != []
    ensures UniqueIds(bins[1..])
  {
  }

  lemma {:induction false} AddedStaysUnique(bins: seq<Bin>, b: Bin)
    requires UniqueIds(bins)
    ensures UniqueIds(Added(bins, b))
    ensures forall x :: x in Added(bins, b) ==> x.id == b.id || x in bins
  {
    if bins != [] && bins[0].id != b.id {
      assert UniqueIds(bins[1..]);
      AddedStaysUnique(bins[1..], b);
    }
  }

  /** The same bins with counts that have not fallen. */
  ghost predicate Raised(a: seq<Bin>, b: seq<Bin>) {
    |b| == |a| && forall i :: 0 <= i < |a| ==> b[i] == a[i].(count := b[i].count) && b[i].count >= a[i].count
  }

  ghost predicate CountsNonNegative(bins: seq<Bin>) {
    forall b :: b in bins ==> b.count >= 0
  }

  function Ids(bins: seq<Bin>): set<string> {
    set b | b in bins :: b.id
  }

  lemma {:induction false} AddingKnownRaises(bins: seq<Bin>, b: Bin)
    requires b.id in Ids(bins) && b.count >= 0
    ensures Raised(bins, Added(bins, b)) && Ids(Added(bins, b)) == Ids(bins)
  {
    if bins[0].id != b.id {
      assert b.id in Ids(bins[1..]) by {
        var x :| x in bins && x.id == b.id;
        assert x in bins[1..];
      }
      AddingKnownRaises(bins[1..], b);
    }
    RaisedIds(bins, Added(bins, b));
  }

  lemma RaisedIds(a: seq<Bin>, b: seq<Bin>)
    requires Raised(a, b)
    ensures Ids(a) == Ids(b)
  {
    forall x | x in a ensures x.id in Ids(b) {
      var i :| 0 <= i < |a| && a[i] == x;
      assert b[i] in b;
    }
    forall x | x in b ensures x.id in Ids(a) {
      var i :| 0 <= i < |b| && b[i] == x;
      assert a[i] in a;
    }
  }

  lemma {:induction false} MergingKnownRaises(bins: seq<Bin>, other: seq<Bin>)
    requires Ids(other) <= Ids(bins) && CountsNonNegative(other)
    ensures Raised(bins, Merged(bins, other))
    decreases |other|
  {
    if other != [] {
      assert other[0] in other;
      AddingKnownRaises(bins, other[0]);
      assert Ids(other[1..]) <= Ids(other) by { assert forall x :: x in other[1..] ==> x in other; }
      MergingKnownRaises(Added(bins, other[0]), other[1..]);
    }
  }

  // ---- rates --------------------------------------------------------------------------------

  function Weight(bins: seq<Bin>): int {
    if bins == [] then 0 else bins[0].weight + Weight(bins[1..])
  }

  function HitWeight(bins: seq<Bin>): int {
    if bins == [] then 0 else (if Hit(bins[0]) then bins[0].weight else 0) + HitWeight(bins[1..])
  }

  function Rate(bins: seq<Bin>): real {
    if Weight(bins) == 0 then 100.0 else 100.0 * HitWeight(bins) as real / Weight(bins) as real
  }

  ghost predicate WeightsNonNegative(bins: seq<Bin>) {
    forall b :: b in bins ==> b.weight >= 0
  }

  lemma {:induction false} HitWeightMeans(bins: seq<Bin>)
    requires WeightsNonNegative(bins)
    ensures 0 <= HitWeight(bins) <= Weight(bins)
    ensures HitWeight(bins) == Weight(bins) <==> forall b :: b in bins && b.weight > 0 ==> Hit(b)
    ensures HitWeight(bins) == 0 <==> forall b :: b in bins && b.weight > 0 ==> !Hit(b)
  {
    if bins != [] {
      assert bins == [bins[0]] + bins[1..] && bins[0] in bins;
      HitWeightMeans(bins[1..]);
    }
  }

  /** A rate is the share of the weight that is hit, in percent: full exactly when every bin that
      weighs is hit, and zero exactly when none is.  Where nothing weighs the rate is full, but a
      model without bins has the total zero. */
  lemma RateMeans(round: real -> real, bins: seq<Bin>)
    requires WeightsNonNegative(bins)
    ensures bins == [] ==> Total(round, bins) == 0.0
    ensures bins != [] && (forall b :: b in bins ==> b.weight == 0) ==> Total(round, bins) == round(100.0)
    ensures (exists b :: b in bins && b.weight > 0) ==>
      && Total(round, bins) == round(Rate(bins)) && 0.0 <= Rate(bins) <= 100.0
      && Rate(bins) * Weight(bins) as real == 100.0 * HitWeight(bins) as real
      && (Rate(bins) == 100.0 <==> forall b :: b in bins && b.weight > 0 ==> Hit(b))
      && (Rate(bins) == 0.0 <==> forall b :: b in bins && b.weight > 0 ==> !Hit(b))
  {
    hide HitWeight, Weight, Hit, Rate;
    WeightMeans(bins);
    if Weight(bins) > 0 { RateShare(bins); } else { WeightlessRate(bins); }
  }

  lemma WeightlessRate(bins: seq<Bin>)
    requires Weight(bins) == 0
    ensures Rate(bins) == 100.0
  {
  }

  lemma RateShare(bins: seq<Bin>)
    requires WeightsNonNegative(bins) && Weight(bins) > 0
    ensures 0.0 <= Rate(bins) <= 100.0 && Rate(bins) * Weight(bins) as real == 100.0 * HitWeight(bins) as real
    ensures Rate(bins) == 100.0 <==> forall b :: b in bins && b.weight > 0 ==> Hit(b)
    ensures Rate(bins) == 0.0 <==> forall b :: b in bins && b.weight > 0 ==> !Hit(b)
  {
    hide HitWeight, Weight, Hit;
    HitWeightMeans(bins);
    Share(Rate(bins), HitWeight(bins) as real, Weight(bins) as real);
  }

  lemma {:induction false} WeightMeans(bins: seq<Bin>)
    requires WeightsNonNegative(bins)
    ensures Weight(bins) >= 0 && (Weight(bins) == 0 <==> forall b :: b in bins ==> b.weight == 0)
  {
    if bins != [] {
      assert bins == [bins[0]] + bins[1..] && bins[0] in bins;
      WeightMeans(bins[1..]);
    }
  }

  lemma Share(r: real, h: real, w: real)
    requires 0.0 <= h <= w && w > 0.0 && r == 100.0 * h / w
    ensures r * w == 100.0 * h && 0.0 <= r <= 100.0
    ensures r == 100.0 <==> h == w
    ensures r == 0.0 <==> h == 0.0
  {
    Scales(0.0, r, w);
    Scales(r, 100.0, w);
    Scales(100.0, r, w);
  }

  function Label(b: Bin): string {
    if b.section == "" then "(unmapped)" else b.section
  }

  function InSection(bins: seq<Bin>, section: string): seq<Bin> {
    if bins == [] then []
    else (if Label(bins[0]) == section then [bins[0]] else []) + InSection(bins[1..], section)
  }

  function Sections(bins: seq<Bin>): set<string> {
    set b | b in bins :: Label(b)
  }

  function Total(round: real -> real, bins: seq<Bin>): real {
    if bins == [] then 0.0 else round(Rate(bins))
  }

  /** A section's rate, or zero where the model has no bin in it. */
  function SectionRate(round: real -> real, bins: seq<Bin>, section: string): real {
    if section in Sections(bins) then round(Rate(InSection(bins, section))) else 0.0
  }

  /** Hitting an unhit bin does not move a rate over `total` down. */
  ghost predicate HitsRaise(bins: seq<Bin>, total: int) {
    forall b :: b in bins && !Hit(b) ==> b.weight * total >= 0
  }

  lemma RateGrows(a: seq<Bin>, b: seq<Bin>)
    requires Raised(a, b) && HitsRaise(a, Weight(a))
    ensures Rate(a) <= Rate(b)
  {
    WeightsOfRaised(a, b, Weight(a));
    if Weight(a) != 0 { Divided(HitWeight(a), HitWeight(b), Weight(a)); }
  }

  lemma Divided(x: int, y: int, w: int)
    requires w != 0
    ensures (y - x) * w >= 0 <==> 100.0 * x as real / w as real <= 100.0 * y as real / w as real
  {
    Signs(y - x, w);
    var a, b := 100.0 * x as real, 100.0 * y as real;
    Quotients(a, b, w as real);
  }

  lemma Signs(d: int, w: int)
    requires w != 0
    ensures d * w >= 0 <==> if w > 0 then d >= 0 else d <= 0
  {
  }

  lemma Quotients(a: real, b: real, w: real)
    requires w != 0.0
    ensures a / w <= b / w <==> if w > 0.0 then a <= b else b <= a
  {
    var q, r := a / w, b / w;
    assert q * w == a && r * w == b;
    if w > 0.0 { Scales(q, r, w); } else { Scales(q, r, -w); }
  }

  lemma Scales(q: real, r: real, w: real)
    requires w > 0.0
    ensures q <= r <==> q * w <= r * w
  {
    if q <= r { assert (r - q) * w >= 0.0; } else { assert (q - r) * w > 0.0; }
  }

  lemma {:induction false} WeightsOfRaised(a: seq<Bin>, b: seq<Bin>, total: int)
    requires Raised(a, b) && HitsRaise(a, total)
    ensures Weight(a) == Weight(b) && (HitWeight(b) - HitWeight(a)) * total >= 0
  {
    hide Raised;
    RaisedFacts(a, b);
    if a != [] {
      var head := if Hit(b[0]) && !Hit(a[0]) then a[0].weight else 0;
      assert head * total >= 0 by { assert a[0] in a; }
      TailRaised(a, b);
      assert HitsRaise(a[1..], total) by { assert forall x :: x in a[1..] ==> x in a; }
      WeightsOfRaised(a[1..], b[1..], total);
      Distributes(head, HitWeight(b[1..]) - HitWeight(a[1..]), total);
    }
  }

  lemma Distributes(x: int, y: int, k: int)
    ensures (x + y) * k == x * k + y * k
  {
  }

  lemma TailRaised(a: seq<Bin>, b: seq<Bin>)
    requires Raised(a, b) && a != []
    ensures Raised(a[1..], b[1..])
  {
    forall i | 0 <= i < |a| - 1
      ensures b[1..][i] == a[1..][i].(count := b[1..][i].count) && b[1..][i].count >= a[1..][i].count
    {
      assert b[i + 1] == a[i + 1].(count := b[i + 1].count);
    }
  }

  lemma {:induction false} SectionRaised(a: seq<Bin>, b: seq<Bin>, section: string)
    requires Raised(a, b)
    ensures Raised(InSection(a, section), InSection(b, section))
  {
    hide Raised;
    RaisedFacts(a, b);
    if a != [] {
      TailRaised(a, b);
      SectionRaised(a[1..], b[1..], section);
      var ta, tb := InSection(a[1..], section), InSection(b[1..], section);
      RaisedCons(a[0], b[0], ta, tb);
      assert [] + ta == ta && [] + tb == tb;
    }
  }

  lemma RaisedFacts(a: seq<Bin>, b: seq<Bin>)
    requires Raised(a, b)
    ensures |a| == |b|
    ensures a == [] ==> Raised([], [])
    ensures a != [] ==> b[0] == a[0].(count := b[0].count) && b[0].count >= a[0].count && Label(b[0]) == Label(a[0])
  {
  }

  lemma RaisedCons(x: Bin, y: Bin, a: seq<Bin>, b: seq<Bin>)
    requires Raised(a, b) && y == x.(count := y.count) && y.count >= x.count
    ensures Raised([x] + a, [y] + b)
  {
    var a', b' := [x] + a, [y] + b;
    forall i | 0 <= i < |a'| ensures b'[i] == a'[i].(count := b'[i].count) && b'[i].count >= a'[i].count {
      if i > 0 { assert a'[i] == a[i - 1] && b'[i] == b[i - 1]; }
    }
  }

  lemma SectionsOfRaised(a: seq<Bin>, b: seq<Bin>)
    requires Raised(a, b)
    ensures Sections(a) == Sections(b)
  {
    forall x | x in a ensures Label(x) in Sections(b) {
      var i :| 0 <= i < |a| && a[i] == x;
      assert b[i] in b && b[i] == a[i].(count := b[i].count);
    }
    forall x | x in b ensures Label(x) in Sections(a) {
      var i :| 0 <= i < |b| && b[i] == x;
      assert a[i] in a && b[i] == a[i].(count := b[i].count);
    }
  }

  // ---- the gate -------------------------------------------------------------------------------

  /** What of a bin may not change without a baseline review. */
  predicate SameDefinition(a: Bin, b: Bin) {
    a.weight == b.weight && a.section == b.section && a.kind == b.kind
    && a.group == b.group && a.point == b.point && a.name == b.name
  }

  predicate Unchanged(bins: seq<Bin>, b: Bin) {
    Lookup(bins, b.id).Some? && SameDefinition(b, Lookup(bins, b.id).value)
  }

  /** A bin is unchanged when the model still holds it with everything but its count the same. */
  lemma UnchangedMeans(bins: seq<Bin>, b: Bin)
    requires UniqueIds(bins)
    ensures Unchanged(bins, b) <==> exists c :: c in bins && c == b.(count := c.count)
  {
    if c :| c in bins && c == b.(count := c.count) { LookupUnique(bins, c); }
  }

  /** Neither the total nor any of the baseline's sections fell by more than the tolerance, and
      every baseline bin is still defined as it was. */
  ghost predicate Passes(round: real -> real, current: seq<Bin>, baseline: seq<Bin>, tolerance: real) {
    && Total(round, current) + tolerance >= Total(round, baseline)
    && (forall s :: s in Sections(baseline) ==>
        SectionRate(round, current, s) + tolerance >= SectionRate(round, baseline, s))
    && (forall b :: b in baseline ==> Unchanged(current, b))
  }

  ghost predicate Monotone(round: real -> real) {
    forall x, y :: x <= y ==> round(x) <= round(y)
  }

  /** In the total and in each section, no unhit bin weighs against the rest. */
  ghost predicate NoHitLowersARate(bins: seq<Bin>) {
    HitsRaise(bins, Weight(bins)) && forall s :: HitsRaise(InSection(bins, s), Weight(InSection(bins, s)))
  }

  /** Merging in hits of bins already known does not trip the gate against the model before
      the merge, whatever monotone rounding is used, and no hit bin becomes unhit. */
  lemma MergePassesTheGate(round: real -> real, bins: seq<Bin>, other: seq<Bin>)
    requires Monotone(round)
    requires UniqueIds(bins) && NoHitLowersARate(bins)
    requires Ids(other) <= Ids(bins) && CountsNonNegative(other)
    ensures Passes(round, Merged(bins, other), bins, 0.0)
    ensures forall b :: b in bins && Hit(b) ==>
      Lookup(Merged(bins, other), b.id).Some? && Hit(Lookup(Merged(bins, other), b.id).value)
  {
    var merged := Merged(bins, other);
    MergingKnownRaises(bins, other);
    RaisedPasses(round, bins, merged);
    RaisedLookup(bins, merged);
  }

  lemma RaisedPasses(round: real -> real, a: seq<Bin>, b: seq<Bin>)
    requires Monotone(round) && UniqueIds(a) && NoHitLowersARate(a) && Raised(a, b)
    ensures Passes(round, b, a, 0.0)
  {
    hide Raised, Rate, UniqueIds, InSection, HitsRaise, Weight;
    RaisedFacts(a, b);
    RateGrows(a, b);
    SectionsOfRaised(a, b);
    forall s | s in Sections(a) ensures SectionRate(round, b, s) + 0.0 >= SectionRate(round, a, s) {
      SectionRaised(a, b, s);
      RateGrows(InSection(a, s), InSection(b, s));
    }
    RaisedLookup(a, b);
  }

  function Exactly(x: real): real { x }

  ghost predicate MergesPass(bins: seq<Bin>) {
    forall other :: Ids(other) <= Ids(bins) && CountsNonNegative(other) ==>
      Passes(Exactly, Merged(bins, other), bins, 0.0)
  }

  /** With exact rates, every merge of known bins passes exactly when no unhit bin weighs
      against its section or the total; weights that are never negative are one such case. */
  lemma MergesPassExactlyWhen(bins: seq<Bin>)
    requires UniqueIds(bins)
    ensures MergesPass(bins) <==> NoHitLowersARate(bins)
    ensures (forall b :: b in bins ==> b.weight >= 0) ==> NoHitLowersARate(bins)
  {
    hide Passes, HitsRaise, Weight, InSection, UniqueIds, Ids;
    if NoHitLowersARate(bins) {
      forall other | Ids(other) <= Ids(bins) && CountsNonNegative(other)
        ensures Passes(Exactly, Merged(bins, other), bins, 0.0)
      {
        MergePassesTheGate(Exactly, bins, other);
      }
    } else if !HitsRaise(bins, Weight(bins)) {
      var b := Against(bins, Weight(bins));
      HitTrips(bins, b);
    } else {
      var s :| !HitsRaise(InSection(bins, s), Weight(InSection(bins, s)));
      var b := Against(InSection(bins, s), Weight(InSection(bins, s)));
      InSectionMeans(bins, s);
      HitTrips(bins, b);
    }
    if forall b :: b in bins ==> b.weight >= 0 {
      NonNegativeRaise(bins);
      forall s ensures HitsRaise(InSection(bins, s), Weight(InSection(bins, s))) {
        InSectionMeans(bins, s);
        NonNegativeRaise(InSection(bins, s));
      }
    }
  }

  /** A model and a merge of one hit that trip the gate: the bin hit has a negative weight. */
  lemma NegativeWeightTrips() returns (bins: seq<Bin>, other: seq<Bin>)
    ensures UniqueIds(bins) && Ids(other) <= Ids(bins) && CountsNonNegative(other)
    ensures !Passes(Exactly, Merged(bins, other), bins, 0.0)
  {
    hide Passes, Merged;
    var a, b := Bin("a", "", "", "", 1, 2, "", ""), Bin("b", "", "", "", 0, -1, "", "");
    bins := [a, b];
    other := [b.(count := 1)];
    assert bins[1..] == [b] && Weight([b]) == -1 by { assert [b][1..] == []; }
    assert Weight(bins) == 1;
    HitTrips(bins, b);
  }

  lemma Against(bins: seq<Bin>, total: int) returns (b: Bin)
    requires !HitsRaise(bins, total)
    ensures b in bins && !Hit(b) && b.weight * total < 0
  {
    b :| b in bins && !Hit(b) && b.weight * total < 0;
  }

  lemma {:induction false} InSectionMeans(bins: seq<Bin>, s: string)
    ensures forall b :: b in InSection(bins, s) <==> b in bins && Label(b) == s
    ensures UniqueIds(bins) ==> UniqueIds(InSection(bins, s))
  {
    if bins != [] {
      InSectionMeans(bins[1..], s);
      assert bins == [bins[0]] + bins[1..];
      if UniqueIds(bins) { TailUnique(bins); NotInTail(bins); }
    }
  }

  lemma NonNegativeRaise(bins: seq<Bin>)
    requires forall b :: b in bins ==> b.weight >= 0
    ensures HitsRaise(bins, Weight(bins))
  {
    hide Weight;
    WeightNonNegative(bins);
    forall b | b in bins ensures b.weight * Weight(bins) >= 0 { NonNegativeProduct(b.weight, Weight(bins)); }
  }

  lemma {:induction false} WeightNonNegative(bins: seq<Bin>)
    requires forall b :: b in bins ==> b.weight >= 0
    ensures Weight(bins) >= 0
  {
    if bins != [] { WeightNonNegative(bins[1..]); }
  }

  lemma NonNegativeProduct(x: int, y: int)
    requires x >= 0 && y >= 0
    ensures x * y >= 0
  {
  }

  /** Merging in one hit of a bin that weighs against the rest fails the gate. */
  lemma HitTrips(bins: seq<Bin>, b: Bin)
    requires UniqueIds(bins) && b in bins && !Hit(b)
    requires b.weight * Weight(bins) < 0 || b.weight * Weight(InSection(bins, Label(b))) < 0
    ensures var other := [b.(count := 1 - b.count)];
      && Ids(other) <= Ids(bins) && CountsNonNegative(other) && !Passes(Exactly, Merged(bins, other), bins, 0.0)
      && !MergesPass(bins)
  {
    hide UniqueIds, Rate, Weight, HitWeight, InSection, Added;
    var s, hit := Label(b), b.(count := 1 - b.count);
    var merged := Added(bins, hit);
    assert [hit][1..] == [] && Merged(bins, [hit]) == merged;
    AddingKnownRaises(bins, hit);
    SectionsOfRaised(bins, merged);
    assert Ids([hit]) <= Ids(bins) && CountsNonNegative([hit]);
    if b.weight * Weight(bins) < 0 {
      HitLowers(bins, b);
    } else {
      InSectionMeans(bins, s);
      AddedInSection(bins, b, hit);
      HitLowers(InSection(bins, s), b);
      assert s in Sections(bins);
      assert SectionRate(Exactly, merged, s) < SectionRate(Exactly, bins, s);
    }
    assert !Passes(Exactly, Merged(bins, [hit]), bins, 0.0);
  }

  lemma HitLowers(bins: seq<Bin>, b: Bin)
    requires UniqueIds(bins) && b in bins && !Hit(b) && b.weight * Weight(bins) < 0
    ensures Rate(Added(bins, b.(count := 1 - b.count))) < Rate(bins)
  {
    hide UniqueIds, Weight, HitWeight, Added;
    HitWeighs(bins, b);
    Divided(HitWeight(bins), HitWeight(bins) + b.weight, Weight(bins));
  }

  lemma {:induction false} HitWeighs(bins: seq<Bin>, b: Bin)
    requires UniqueIds(bins) && b in bins && !Hit(b)
    ensures var m := Added(bins, b.(count := 1 - b.count));
      Weight(m) == Weight(bins) && HitWeight(m) == HitWeight(bins) + b.weight
  {
    var hit := b.(count := 1 - b.count);
    if bins[0].id == b.id {
      assert bins[0] == b;
      assert Added(bins, hit)[1..] == bins[1..];
    } else {
      assert b in bins[1..] && UniqueIds(bins[1..]);
      HitWeighs(bins[1..], b);
      assert Added(bins, hit)[1..] == Added(bins[1..], hit);
    }
  }

  lemma {:induction false} AddedInSection(bins: seq<Bin>, b: Bin, hit: Bin)
    requires UniqueIds(bins) && b in bins && hit == b.(count := hit.count)
    ensures InSection(Added(bins, hit), Label(b)) == Added(InSection(bins, Label(b)), hit)
  {
    hide UniqueIds, InSection, Label;
    var s, rest := Label(b), bins[1..];
    assert bins == [bins[0]] + rest;
    InSectionCons(bins[0], rest, s);
    var tail := InSection(rest, s);
    if bins[0].id == b.id {
      HeadIs(bins, b);
      var more := b.(count := b.count + hit.count);
      SameLabelOf(b, more);
      InSectionCons(more, rest, s);
      assert ([b] + tail)[1..] == tail;
    } else {
      TailUnique(bins);
      AddedInSection(rest, b, hit);
      InSectionCons(bins[0], Added(rest, hit), s);
      assert ([bins[0]] + tail)[1..] == tail && [] + tail == tail;
      assert [] + InSection(Added(rest, hit), s) == InSection(Added(rest, hit), s);
    }
  }

  lemma HeadIs(bins: seq<Bin>, b: Bin)
    requires UniqueIds(bins) && b in bins && bins[0].id == b.id
    ensures bins[0] == b
  {
  }

  lemma SameLabelOf(a: Bin, b: Bin)
    requires a.section == b.section
    ensures Label(a) == Label(b)
  {
  }

  lemma RaisedLookup(a: seq<Bin>, b: seq<Bin>)
    requires UniqueIds(a) && Raised(a, b)
    ensures forall x :: x in a ==> Unchanged(b, x) && Lookup(b, x.id).value.count >= x.count
  {
    forall x | x in a ensures Unchanged(b, x) && Lookup(b, x.id).value.count >= x.count {
      var i :| 0 <= i < |a| && a[i] == x;
      assert UniqueIds(b);
      assert b[i] in b;
      LookupUnique(b, b[i]);
    }
  }

  /** Every model passes against itself. */
  lemma GateIsReflexive(round: real -> real, a: seq<Bin>)
    requires UniqueIds(a)
    ensures Passes(round, a, a, 0.0)
  {
    forall b | b in a ensures Unchanged(a, b) { LookupUnique(a, b); }
  }

  /** Passing composes, and tolerances add; with none the gate is a preorder. */
  lemma GateIsTransitive(round: real -> real, a: seq<Bin>, b: seq<Bin>, c: seq<Bin>, t1: real, t2: real)
    requires Passes(round, b, a, t1) && Passes(round, c, b, t2)
    ensures Passes(round, c, a, t1 + t2)
  {
    hide SectionRate, Total, Lookup;
    forall x | x in a ensures Unchanged(c, x) && Label(x) in Sections(b) {
      SameLabel(b, x);
      FoundBin(b, x);
    }
    forall s | s in Sections(a) ensures SectionRate(round, c, s) + (t1 + t2) >= SectionRate(round, a, s) {
      var x :| x in a && Label(x) == s;
      assert s in Sections(b);
    }
  }

  lemma FoundBin(bins: seq<Bin>, x: Bin)
    requires Unchanged(bins, x)
    ensures Lookup(bins, x.id).value in bins && Lookup(bins, x.id).value.id == x.id
  {
  }

  lemma SameLabel(bins: seq<Bin>, x: Bin)
    requires Unchanged(bins, x)
    ensures Label(x) in Sections(bins)
  {
  }

  // ---- the model object ---------------------------------------------------------------------------

  type Hits = map<string, set<string>>

  function HitsOf(perTest: Hits, test: string): set<string> {
    if test in perTest then perTest[test] else {}
  }

  /** The credits once a bin is added for a test that may have hit it. */
  function WithCredit(perTest: Hits, b: Bin, test: string): Hits {
    if test != "" && b.count > 0 then perTest[test := HitsOf(perTest, test) + {b.id}] else perTest
  }

  /** Every bin a test is credited with is hit in the model. */
  ghost predicate Credited(perTest: Hits, bins: seq<Bin>) {
    forall t, id :: t in perTest && id in perTest[t] ==> Lookup(bins, id).Some? && Hit(Lookup(bins, id).value)
  }

  class CoverageModel {
    var bins: seq<Bin>
    var perTest: Hits
    var sources: seq<string>

    ghost predicate Valid()
      reads this`bins
    {
      UniqueIds(bins)
    }

    /** Counts are counts, and a test is credited only with hit bins. */
    ghost predicate Sound()
      reads this`bins, this`perTest
    {
      CountsNonNegative(bins) && Credited(perTest, bins)
    }

    constructor ()
      ensures Valid() && Sound() && bins == [] && perTest == map[] && sources == []
    {
      bins, perTest, sources := [], map[], [];
    }

    /** Add a bin's count, crediting the test that hit it. */
    method AddBin(b: Bin, test: string)
      requires Valid()
      modifies this`bins, this`perTest
      ensures Valid() && bins == Added(old(bins), b)
      ensures perTest == WithCredit(old(perTest), b, test)
      ensures old(Sound()) && b.count >= 0 ==> Sound()
    {
      hide Credited, UniqueIds, CountsNonNegative, Lookup, Added, HitsOf;
      if Sound() && b.count >= 0 { AddedKeepsSound(perTest, bins, b, test); }
      AddedStaysUnique(bins, b);
      var i := 0;
      while i < |bins| && bins[i].id != b.id
        invariant i <= |bins| && forall k :: 0 <= k < i ==> bins[k].id != b.id
      {
        i := i + 1;
      }
      AddedAt(bins, b, i);
      bins := if i < |bins| then bins[i := bins[i].(count := bins[i].count + b.count)] else bins + [b];
      if test != "" && b.count > 0 {
        perTest := perTest[test := HitsOf(perTest, test) + {b.id}];
      }
    }

    /** Merge another model in: counts add, credits join, provenance is kept. */
    method Merge(other: CoverageModel)
      requires Valid() && other.Valid() && other != this
      modifies this
      ensures Valid() && bins == Merged(old(bins), other.bins)
      ensures perTest.Keys == old(perTest).Keys + other.perTest.Keys
      ensures forall t :: t in perTest ==> perTest[t] == HitsOf(old(perTest), t) + HitsOf(other.perTest, t)
      ensures sources == old(sources) + other.sources
      ensures old(Sound()) && other.Sound() ==> Sound()
    {
      hide Credited, UniqueIds, CountsNonNegative, Lookup, Added;
      ghost var before := bins;
      for i := 0 to |other.bins|
        invariant Valid() && perTest == old(perTest) && sources == old(sources)
        invariant other.bins == old(other.bins) && other.perTest == old(other.perTest)
        invariant other.sources == old(other.sources)
        invariant Merged(bins, other.bins[i..]) == Merged(before, other.bins)
      {
        assert other.bins[i..][1..] == other.bins[i + 1..];
        AddBin(other.bins[i], "");
      }
      assert other.bins[|other.bins|..] == [];
      if old(Sound()) && other.Sound() {
        MergedCounts(before, other.bins);
        MergedCredits(old(perTest), other.perTest, before, other.bins);
      }
      perTest := map t | t in perTest.Keys + other.perTest.Keys :: HitsOf(perTest, t) + HitsOf(other.perTest, t);
      sources := sources + other.sources;
    }
  }

  lemma AddedKeepsSound(perTest: Hits, bins: seq<Bin>, b: Bin, test: string)
    requires b.count >= 0
    requires CountsNonNegative(bins) && Credited(perTest, bins)
    ensures CountsNonNegative(Added(bins, b))
    ensures Credited(WithCredit(perTest, b, test), Added(bins, b))
  {
    hide Credited, CountsNonNegative, Added, Lookup, HitsOf;
    AddedKeepsCredit(perTest, bins, b);
    AddedCounts(bins, b);
    if b.count > 0 { CreditOne(perTest, Added(bins, b), test, b.id); }
  }

  lemma {:induction false} MergedCounts(bins: seq<Bin>, other: seq<Bin>)
    requires CountsNonNegative(bins) && CountsNonNegative(other)
    ensures CountsNonNegative(Merged(bins, other))
    decreases |other|
  {
    if other != [] {
      assert other[0] in other;
      AddedCounts(bins, other[0]);
      assert CountsNonNegative(other[1..]);
      MergedCounts(Added(bins, other[0]), other[1..]);
    }
  }

  lemma AddedCons(head: Bin, rest: seq<Bin>, b: Bin)
    ensures Added([head] + rest, b) ==
      if head.id == b.id then [head.(count := head.count + b.count)] + rest else [head] + Added(rest, b)
  {
    assert ([head] + rest)[1..] == rest;
  }

  lemma UpdatedCons(head: Bin, rest: seq<Bin>, i: nat, x: Bin)
    requires i <= |rest|
    ensures i == 0 ==> ([head] + rest)[0 := x] == [x] + rest
    ensures i > 0 ==> ([head] + rest)[i := x] == [head] + rest[i - 1 := x]
  {
  }

  lemma {:induction false} AddedAt(bins: seq<Bin>, b: Bin, i: nat)
    requires i <= |bins| && forall k :: 0 <= k < i ==> bins[k].id != b.id
    requires i < |bins| ==> bins[i].id == b.id
    ensures Added(bins, b) == if i < |bins| then bins[i := bins[i].(count := bins[i].count + b.count)] else bins + [b]
  {
    hide Added;
    if bins == [] {
      AddedToNone(b);
    } else {
      var head, rest := bins[0], bins[1..];
      assert bins == [head] + rest;
      AddedCons(head, rest, b);
      if i > 0 {
        AddedAt(rest, b, i - 1);
        assert [head] + (rest + [b]) == bins + [b];
      }
      if i < |bins| { UpdatedCons(head, rest, i, bins[i].(count := bins[i].count + b.count)); }
    }
  }

  lemma AddedToNone(b: Bin)
    ensures Added([], b) == [] + [b]
  {
  }

  lemma {:induction false} AddedCounts(bins: seq<Bin>, b: Bin)
    requires CountsNonNegative(bins) && b.count >= 0
    ensures CountsNonNegative(Added(bins, b))
  {
    if bins != [] && bins[0].id != b.id {
      assert CountsNonNegative(bins[1..]);
      AddedCounts(bins[1..], b);
      assert bins[0] in bins;
    } else if bins != [] {
      assert bins[0] in bins;
    }
  }

  lemma AddedKeepsCredit(perTest: Hits, bins: seq<Bin>, b: Bin)
    requires Credited(perTest, bins) && CountsNonNegative(bins) && b.count >= 0
    ensures Credited(perTest, Added(bins, b))
    ensures b.count > 0 ==> Lookup(Added(bins, b), b.id).Some? && Hit(Lookup(Added(bins, b), b.id).value)
  {
    forall t, id | t in perTest && id in perTest[t]
      ensures Lookup(Added(bins, b), id).Some? && Hit(Lookup(Added(bins, b), id).value)
    {
      AddedMeans(bins, b, id);
    }
    AddedMeans(bins, b, b.id);
  }

  lemma CreditOne(perTest: Hits, bins: seq<Bin>, test: string, id: string)
    requires Credited(perTest, bins) && Lookup(bins, id).Some? && Hit(Lookup(bins, id).value)
    ensures Credited(perTest[test := HitsOf(perTest, test) + {id}], bins)
  {
  }

  lemma MergedCredits(mine: Hits, theirs: Hits, bins: seq<Bin>, other: seq<Bin>)
    requires Credited(mine, bins) && Credited(theirs, other) && UniqueIds(other)
    requires CountsNonNegative(bins) && CountsNonNegative(other)
    ensures Credited(map t | t in mine.Keys + theirs.Keys :: HitsOf(mine, t) + HitsOf(theirs, t), Merged(bins, other))
  {
    forall t, id | id in HitsOf(mine, t) + HitsOf(theirs, t)
      ensures Lookup(Merged(bins, other), id).Some? && Hit(Lookup(Merged(bins, other), id).value)
    {
      MergeMeans(bins, other, id);
    }
  }

  // ---- the service: rates by section and the baseline check ----------------------------------------------

  method SectionRates(round: real -> real, bins: seq<Bin>) returns (rates: map<string, real>)
    ensures rates.Keys == Sections(bins)
    // a bin without a section counts as unmapped
    ensures forall s :: s in rates <==>
      exists b :: b in bins && if b.section == "" then s == "(unmapped)" else s == b.section
    ensures forall s :: s in rates ==> rates[s] == SectionRate(round, bins, s)
  {
    hide InSection, Label, Rate, Weight, HitWeight;
    var groups: map<string, seq<Bin>> := map[];
    for i := 0 to |bins|
      invariant groups.Keys == Sections(bins[..i])
      invariant forall s :: s in groups ==> groups[s] == InSection(bins[..i], s)
    {
      var s := Label(bins[i]);
      InSectionGrows(bins, i);
      SectionsGrow(bins, i);
      NoneInSection(bins[..i], s);
      groups := groups[s := (if s in groups then groups[s] else []) + [bins[i]]];
    }
    assert bins[..|bins|] == bins;
    rates := map s | s in groups :: round(Rate(groups[s]));
    SectionsMean(bins);
  }

  lemma SectionsMean(bins: seq<Bin>)
    ensures forall s :: s in Sections(bins) <==>
      exists b :: b in bins && if b.section == "" then s == "(unmapped)" else s == b.section
  {
  }

  lemma SectionsGrow(bins: seq<Bin>, i: nat)
    requires i < |bins|
    ensures Sections(bins[..i + 1]) == Sections(bins[..i]) + {Label(bins[i])}
  {
    PrefixGrows(bins, i);
  }

  lemma InSectionGrows(bins: seq<Bin>, i: nat)
    requires i < |bins|
    ensures forall s ::
      InSection(bins[..i + 1], s) == InSection(bins[..i], s) + (if Label(bins[i]) == s then [bins[i]] else [])
  {
    forall s
      ensures InSection(bins[..i + 1], s) == InSection(bins[..i], s) + (if Label(bins[i]) == s then [bins[i]] else [])
    {
      PrefixGrows(bins, i);
      InSectionConcat(bins[..i], bins[i], s);
    }
  }

  lemma {:induction false} InSectionConcat(a: seq<Bin>, b: Bin, s: string)
    ensures InSection(a + [b], s) == InSection(a, s) + (if Label(b) == s then [b] else [])
  {
    hide Label;
    if a == [] {
      assert a + [b] == [b] + [];
      InSectionCons(b, [], s);
    } else {
      assert a == [a[0]] + a[1..] && a + [b] == [a[0]] + (a[1..] + [b]);
      InSectionCons(a[0], a[1..], s);
      InSectionCons(a[0], a[1..] + [b], s);
      InSectionConcat(a[1..], b, s);
    }
  }

  lemma InSectionCons(x: Bin, rest: seq<Bin>, s: string)
    ensures InSection([x] + rest, s) == (if Label(x) == s then [x] else []) + InSection(rest, s)
  {
    assert ([x] + rest)[1..] == rest;
  }

  lemma {:induction false} NoneInSection(bins: seq<Bin>, s: string)
    ensures s !in Sections(bins) ==> InSection(bins, s) == []
  {
    if bins != [] && s !in Sections(bins) {
      assert bins[0] in bins;
      assert s !in Sections(bins[1..]) by { assert forall b :: b in bins[1..] ==> b in bins; }
      NoneInSection(bins[1..], s);
    }
  }

  datatype Change = Removed(id: string) | Redefined(id: string)

  datatype BaselineVerdict = BaselineVerdict(ok: bool, regressed: set<string>, changes: seq<Change>)

  /** Fail when the total or a section regressed, or a baseline bin was removed or redefined. */
  method BaselineCheck(round: real -> real, current: seq<Bin>, baseline: seq<Bin>, tolerance: real)
    returns (v: BaselineVerdict)
    requires UniqueIds(baseline)
    ensures v.ok <==> Passes(round, current, baseline, tolerance)
    ensures forall s :: s in v.regressed <==>
      s in Sections(baseline) && SectionRate(round, current, s) + tolerance < SectionRate(round, baseline, s)
    ensures forall id :: Removed(id) in v.changes <==> id in Ids(baseline) - Ids(current)
    ensures forall id :: Redefined(id) in v.changes <==>
      exists b :: b in baseline && b.id == id && id in Ids(current) && !Unchanged(current, b)
  {
    hide SectionRate, Unchanged, Total, Ids;
    var currentRates := SectionRates(round, current);
    var baselineRates := SectionRates(round, baseline);
    MissingSectionIsZero(round, current);
    var regressed := set s | s in baselineRates &&
      (if s in currentRates then currentRates[s] else 0.0) + tolerance < baselineRates[s];
    assert regressed == {} <==> forall s :: s in Sections(baseline) ==>
      SectionRate(round, current, s) + tolerance >= SectionRate(round, baseline, s) by {
      assert forall s :: s in regressed <==>
        s in Sections(baseline) && SectionRate(round, current, s) + tolerance < SectionRate(round, baseline, s);
    }
    var changes := DefinitionChanges(current, baseline);
    var ok := Total(round, current) + tolerance >= Total(round, baseline) && regressed == {} && changes == [];
    v := BaselineVerdict(ok, regressed, changes);
  }

  lemma MissingSectionIsZero(round: real -> real, bins: seq<Bin>)
    ensures forall s :: s !in Sections(bins) ==> SectionRate(round, bins, s) == 0.0
  {
  }

  method DefinitionChanges(current: seq<Bin>, baseline: seq<Bin>) returns (changes: seq<Change>)
    ensures changes == [] <==> forall b :: b in baseline ==> Unchanged(current, b)
    ensures forall id :: Removed(id) in changes <==> id in Ids(baseline) - Ids(current)
    ensures forall id :: Redefined(id) in changes <==>
      exists b :: b in baseline && b.id == id && id in Ids(current) && !Unchanged(current, b)
  {
    changes := [];
    for i := 0 to |baseline|
      invariant changes == [] <==> forall b :: b in baseline[..i] ==> Unchanged(current, b)
      invariant forall id :: Removed(id) in changes <==> id in Ids(baseline[..i]) - Ids(current)
      invariant forall id :: Redefined(id) in changes <==>
        exists b :: b in baseline[..i] && b.id == id && id in Ids(current) && !Unchanged(current, b)
    {
      PrefixGrows(baseline, i);
      var b := baseline[i];
      LookupMeansIds(current, b.id);
      if Lookup(current, b.id).None? {
        changes := changes + [Removed(b.id)];
      } else if !SameDefinition(b, Lookup(current, b.id).value) {
        changes := changes + [Redefined(b.id)];
      }
    }
    assert baseline[..|baseline|] == baseline;
  }

  lemma LookupMeansIds(bins: seq<Bin>, id: string)
    ensures Lookup(bins, id).Some? <==> id in Ids(bins)
  {
  }

  // ---- comparing two observations ---------------------------------------------------------------------------

  datatype Comparison = Comparison(
    newlyCovered: set<string>, newlyUncovered: set<string>, added: set<string>, removed: set<string>)

  function HitIds(bins: seq<Bin>): set<string> {
    set b | b in bins && Hit(b) :: b.id
  }

  function Compare(before: seq<Bin>, after: seq<Bin>): Comparison {
    var common := Ids(before) * Ids(after);
    Comparison(
      common * HitIds(after) - HitIds(before),
      common * HitIds(before) - HitIds(after),
      Ids(after) - Ids(before),
      Ids(before) - Ids(after))
  }

  /** The four groups account for every change in the number of hit bins, and overlap nowhere. */
  lemma ComparisonAccounts(before: seq<Bin>, after: seq<Bin>)
    ensures var c := Compare(before, after);
      && |HitIds(after)| - |HitIds(before)| ==
         |c.newlyCovered| - |c.newlyUncovered| + |c.added * HitIds(after)| - |c.removed * HitIds(before)|
      && c.newlyCovered !! c.newlyUncovered !! c.added !! c.removed
  {
    hide Ids, HitIds;
    HitsAreIds(before);
    HitsAreIds(after);
    SplitHits(Ids(before), HitIds(before), Ids(after), HitIds(after));
    SplitHits(Ids(after), HitIds(after), Ids(before), HitIds(before));
    assert HitIds(before) * HitIds(after) == HitIds(after) * HitIds(before);
    assert Ids(before) * Ids(after) == Ids(after) * Ids(before);
  }

  /** The hits of one side: those common to both, those gained, and those in new bins. */
  lemma SplitHits(a: set<string>, h: set<string>, b: set<string>, k: set<string>)
    requires h <= a && k <= b
    ensures |k| == |h * k| + |a * b * k - h| + |(b - a) * k|
  {
    assert k == h * k + (a * b * k - h) + (b - a) * k;
    Disjoint3(h * k, a * b * k - h, (b - a) * k);
  }

  lemma HitsAreIds(bins: seq<Bin>)
    ensures HitIds(bins) <= Ids(bins)
  {
  }

  lemma Disjoint3(a: set<string>, b: set<string>, c: set<string>)
    requires a !! b && (a + b) !! c
    ensures |a + b + c| == |a| + |b| + |c|
  {
  }

  /** An observation that passes the gate against an earlier one removed no bin. */
  lemma PassingRemovesNothing(round: real -> real, before: seq<Bin>, after: seq<Bin>, tolerance: real)
    requires Passes(round, after, before, tolerance)
    ensures Compare(before, after).removed == {}
  {
    forall b | b in before ensures b.id in Ids(after) { LookupMeansIds(after, b.id); }
  }
}
