/**
 The parameters handed to the force-graph renderer per node and per link:
 the node value and the collision radius (both from `scaleNodeSize` of the
 node's entry in `transactionCount`), and the number and speed of the
 directional particles of a link. The simulation constants are recorded as
 configuration; the physics that uses them is the renderer's.
 */
module Layout {
  import opened GraphModel
  import opened Aggregation
  import opened Range
  import opened Scaling

  const ChargeStrength: int := -300
  const LinkDistance: int := 200
  const LinkStrength: int := 1
  const CollideStrength: real := 0.7
  const CollidePadding: real := 10.0
  const ArrowLength: int := 5
  const ArrowRelPos: int := 1
  const SpeedFactor: real := 0.01

  /**
   `nodeVal`: the scaled size of the node's entry. A node without an entry
   would pass `undefined` to the scale, so the entry is required.
   */
  function NodeVal<Id(==)>(t: map<Id, int>, lo: int, hi: int, id: Id): (r: real)
    requires id in t
    requires lo < hi
    ensures t[id] == lo ==> r == MinSize
    ensures t[id] == hi ==> r == MaxSize
    ensures lo <= t[id] <= hi ==> MinSize <= r <= MaxSize
  {
    ScaleNodeSize(t[id] as real, lo as real, hi as real)
  }

  /** The `forceCollide` radius: the visual size plus the padding. */
  function CollideRadius<Id(==)>(t: map<Id, int>, lo: int, hi: int, id: Id): (r: real)
    requires id in t
    requires lo < hi
    ensures r - NodeVal(t, lo, hi, id) == CollidePadding
    ensures r > NodeVal(t, lo, hi, id)
    ensures lo <= t[id] <= hi ==> MinSize + CollidePadding <= r <= MaxSize + CollidePadding
  {
    NodeVal(t, lo, hi, id) + CollidePadding
  }

  /** `linkDirectionalParticles`: the link's value. */
  function ParticleCount<Id(==)>(l: Link<Id>): int
  {
    l.value
  }

  /** `linkDirectionalParticleSpeed`: 0.01 divided by the link's value, undefined for value 0. */
  function ParticleSpeed<Id(==)>(l: Link<Id>): (r: real)
    requires l.value != 0
    ensures r * (l.value as real) == SpeedFactor
    ensures l.value > 0 ==> r > 0.0
  {
    SpeedFactor / (l.value as real)
  }

  /** `0.01 / link.value` exactly as written: Infinity for a link of value 0. */
  function ParticleSpeedAsWritten<Id(==)>(l: Link<Id>): (r: JsNumber)
    ensures l.value != 0 ==> r == Num(ParticleSpeed(l))
    ensures l.value == 0 ==> r == Infinity(true)
  {
    JsDivide(SpeedFactor, l.value as real)
  }

  /** Particle count and speed are inversely proportional: their product is the fixed factor. */
  lemma ParticleFlowIsConstant<Id>(l: Link<Id>)
    requires l.value != 0
    ensures (ParticleCount(l) as real) * ParticleSpeed(l) == SpeedFactor
  {
  }

  /** A heavier link gets slower particles. */
  lemma HeavierLinkIsSlower<Id>(l: Link<Id>, m: Link)
    requires 0 < l.value < m.value
    ensures ParticleSpeed(m) < ParticleSpeed(l)
  {
    var a, b := l.value as real, m.value as real;
    var sl, sm := ParticleSpeed(l), ParticleSpeed(m);
    assert sm * b == sl * a;
    assert sl * a < sl * b;
    assert (sl - sm) * b > 0.0;
  }

  /**
   A departure from the source: the intended guard, giving a link of value 0
   speed 0 (it has no particles to move) instead of 0.01 / 0.
   */
  function GuardedParticleSpeed<Id(==)>(l: Link<Id>): (r: real)
    ensures l.value != 0 ==> ParticleSpeedAsWritten(l) == Num(r)
    ensures l.value == 0 ==> r == 0.0 && ParticleCount(l) == 0
    ensures l.value >= 0 ==> r >= 0.0
  {
    if l.value == 0 then 0.0 else ParticleSpeed(l)
  }

  /**
   The whole sizing pipeline for one mentioned node, when the observed range
   is non-empty: its value lies in [5, 20] (5 at the minimum and 20 at the
   maximum volume), and its collision radius in [15, 30], strictly above it.
   */
  lemma NodeSizing<Id>(links: seq<Link<Id>>, id: Id)
    requires Mentioned(links, id)
    requires MinTransaction(links).Finite? && MaxTransaction(links).Finite?
    requires MinTransaction(links).n < MaxTransaction(links).n
    ensures var t, lo, hi := CountTable(links), MinTransaction(links).n, MaxTransaction(links).n;
            && id in t
            && (t[id] == lo ==> NodeVal(t, lo, hi, id) == MinSize)
            && (t[id] == hi ==> NodeVal(t, lo, hi, id) == MaxSize)
            && MinSize <= NodeVal(t, lo, hi, id) <= MaxSize
            && NodeVal(t, lo, hi, id) < CollideRadius(t, lo, hi, id)
            && 15.0 <= CollideRadius(t, lo, hi, id) <= 30.0
  {
    EndpointsAreMentioned(links);
    CountsWithinRange(links);
  }

  /** A node with a larger volume is drawn strictly larger than one with a smaller volume. */
  lemma LargerVolumeLargerNode<Id>(t: map<Id, int>, lo: int, hi: int, a: Id, b: Id)
    requires a in t && b in t
    requires lo < hi
    requires t[a] < t[b]
    ensures NodeVal(t, lo, hi, a) < NodeVal(t, lo, hi, b)
    ensures CollideRadius(t, lo, hi, a) < CollideRadius(t, lo, hi, b)
  {
    ScaleStrictlyIncreasing(t[a] as real, t[b] as real, lo as real, hi as real);
  }

  /** `nodeVal` under the degenerate-range policy: a departure, see GuardedScaleNodeSize. */
  function GuardedNodeVal<Id(==)>(t: map<Id, int>, lo: int, hi: int, id: Id): (r: real)
    requires id in t
    requires lo <= hi
    ensures lo < hi ==> r == NodeVal(t, lo, hi, id)
    ensures lo == hi ==> r == MaxSize && !ScaleNodeSizeAsWritten(t[id] as real, lo as real, hi as real).Num?
    ensures lo <= t[id] <= hi ==> MinSize <= r <= MaxSize
  {
    GuardedScaleNodeSize(t[id] as real, lo as real, hi as real)
  }

  /**
   With one link between two different nodes both entries equal its value, so
   the range is degenerate: the code as written gives both nodes the size NaN,
   the guarded policy gives both the maximum size.
   */
  lemma SingleLinkSizes<Id>(a: Id, b: Id, v: int)
    requires a != b
    ensures var links := [Link(a, b, v)];
            var t := CountTable(links);
            && a in t && b in t && t[a] == v && t[b] == v
            && MinTransaction(links) == Finite(v) && MaxTransaction(links) == Finite(v)
            && ScaleNodeSizeAsWritten(t[a] as real, v as real, v as real) == NaN
            && ScaleNodeSizeAsWritten(t[b] as real, v as real, v as real) == NaN
            && GuardedNodeVal(t, v, v, a) == MaxSize && GuardedNodeVal(t, v, v, b) == MaxSize
  {
    var links := [Link(a, b, v)];
    assert links == [] + [Link(a, b, v)];
    VolumeSnoc([], Link(a, b, v), a);
    VolumeSnoc([], Link(a, b, v), b);
    assert links[..0] == [];
    assert Endpoints(links) == {a, b};
    assert Volume(links, a) == v && Volume(links, b) == v;
    assert forall id :: id in CountTable(links) ==> id == a || id == b;
    EqualEntriesDegenerate(links, v);
  }

  /** The table of the links A -> B of value 0 and B -> C of value 10: A holds 0, B and C hold 10. */
  lemma ZeroThenTenTable<Id>(a: Id, b: Id, c: Id)
    requires a != b && b != c && a != c
    ensures var t := CountTable([Link(a, b, 0), Link(b, c, 10)]);
            && t.Keys == {a, b, c}
            && t[a] == 0 && t[b] == 10 && t[c] == 10
  {
    var l1, l2 := Link(a, b, 0), Link(b, c, 10);
    var first := [] + [l1];
    var links := first + [l2];
    assert links == [Link(a, b, 0), Link(b, c, 10)];
    assert links[..|links| - 1] == first;
    assert first[..|first| - 1] == [];
    assert Endpoints(first) == {a, b};
    assert Endpoints(links) == {a, b, c};
    VolumeSnoc([], l1, a);
    VolumeSnoc(first, l2, a);
    VolumeSnoc([], l1, b);
    VolumeSnoc(first, l2, b);
    VolumeSnoc([], l1, c);
    VolumeSnoc(first, l2, c);
  }

  /**
   Links A -> B of value 0 and B -> C of value 10: A still gets an entry, of
   0, and is drawn at the minimum size; B and C carry 10 and are drawn at the
   maximum size.
   */
  lemma ZeroThenTenSizes<Id>(a: Id, b: Id, c: Id)
    requires a != b && b != c && a != c
    ensures var links := [Link(a, b, 0), Link(b, c, 10)];
            var t := CountTable(links);
            && a in t && b in t && c in t && t[a] == 0 && t[b] == 10 && t[c] == 10
            && MinTransaction(links) == Finite(0) && MaxTransaction(links) == Finite(10)
            && NodeVal(t, 0, 10, a) == MinSize
            && NodeVal(t, 0, 10, b) == MaxSize && NodeVal(t, 0, 10, c) == MaxSize
  {
    var links := [Link(a, b, 0), Link(b, c, 10)];
    ZeroThenTenTable(a, b, c);
    assert forall id :: id in CountTable(links) ==> id == a || id == b || id == c;
    RangeIsAttainedBounds(links, 0, 10, a, c);
  }
}
