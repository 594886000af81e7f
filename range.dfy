/**
 The observed range of transaction volumes: `Math.min` and `Math.max` spread
 over `Object.values(transactionCount)`. On no arguments JavaScript's
 `Math.min` yields +Infinity and `Math.max` yields -Infinity, so the result
 type has both infinities besides the finite values.
 */
module Range {
  import opened GraphModel
  import opened Aggregation

  datatype Extended = NegInfinity | Finite(n: int) | PosInfinity

  /** `Math.min(...xs)`. */
  function MathMin(xs: seq<int>): (r: Extended)
    ensures xs == [] <==> r == PosInfinity
    ensures xs != [] ==> r.Finite? && r.n in xs
    ensures forall i :: 0 <= i < |xs| ==> r.Finite? && r.n <= xs[i]
  {
    if xs == [] then PosInfinity
    else
      var rest := MathMin(xs[1..]);
      if rest.Finite? && rest.n < xs[0] then rest else Finite(xs[0])
  }

  /** `Math.max(...xs)`. */
  function MathMax(xs: seq<int>): (r: Extended)
    ensures xs == [] <==> r == NegInfinity
    ensures xs != [] ==> r.Finite? && r.n in xs
    ensures forall i :: 0 <= i < |xs| ==> r.Finite? && xs[i] <= r.n
  {
    if xs == [] then NegInfinity
    else
      var rest := MathMax(xs[1..]);
      if rest.Finite? && rest.n > xs[0] then rest else Finite(xs[0])
  }

  /** `minTransaction`: +Infinity exactly when there are no links, and never -Infinity. */
  function MinTransaction<Id(==)>(links: seq<Link<Id>>): (r: Extended)
    ensures r == PosInfinity <==> links == []
    ensures links != [] ==> r.Finite?
  {
    MathMin(CountValues(links))
  }

  /** `maxTransaction`: -Infinity exactly when there are no links, and never +Infinity. */
  function MaxTransaction<Id(==)>(links: seq<Link<Id>>): (r: Extended)
    ensures r == NegInfinity <==> links == []
    ensures links != [] ==> r.Finite?
  {
    MathMax(CountValues(links))
  }

  /** Every entry of the dictionary is one of the enumerated values. */
  lemma EntryIsEnumerated<Id>(links: seq<Link<Id>>, id: Id)
    requires id in CountTable(links)
    ensures CountTable(links)[id] in CountValues(links)
  {
    InsertionOrderKeys(links);
    var keys := InsertionOrder(links);
    var i :| 0 <= i < |keys| && keys[i] == id;
    assert CountValues(links)[i] == CountTable(links)[id];
  }

  /** Every enumerated value is the entry of some id. */
  lemma EnumeratedIsEntry<Id>(links: seq<Link<Id>>, v: int)
    requires v in CountValues(links)
    ensures exists id :: id in CountTable(links) && CountTable(links)[id] == v
  {
    var keys := InsertionOrder(links);
    var i :| 0 <= i < |CountValues(links)| && CountValues(links)[i] == v;
    OrderedKeyIsEntry(links, i);
  }

  /**
   With at least one link both bounds are finite, every entry lies between
   them, and each bound is the entry of some node.
   */
  lemma CountsWithinRange<Id>(links: seq<Link<Id>>)
    requires links != []
    ensures MinTransaction(links).Finite? && MaxTransaction(links).Finite?
    ensures forall id :: id in CountTable(links) ==>
              MinTransaction(links).n <= CountTable(links)[id] <= MaxTransaction(links).n
    ensures exists id :: id in CountTable(links) && CountTable(links)[id] == MinTransaction(links).n
    ensures exists id :: id in CountTable(links) && CountTable(links)[id] == MaxTransaction(links).n
  {
    var last := links[|links| - 1];
    assert last.source in Endpoints(links);
    InsertionOrderKeys(links);
    assert CountValues(links) != [];
    forall id | id in CountTable(links)
      ensures MinTransaction(links).n <= CountTable(links)[id] <= MaxTransaction(links).n
    {
      EntryIsEnumerated(links, id);
    }
    EnumeratedIsEntry(links, MinTransaction(links).n);
    EnumeratedIsEntry(links, MaxTransaction(links).n);
  }

  /** When every entry is the same number the range is degenerate: min and max coincide. */
  lemma EqualEntriesDegenerate<Id>(links: seq<Link<Id>>, c: int)
    requires links != []
    requires forall id :: id in CountTable(links) ==> CountTable(links)[id] == c
    ensures MinTransaction(links) == Finite(c) && MaxTransaction(links) == Finite(c)
  {
    CountsWithinRange(links);
  }

  /**
   Conversely, bounds that every entry respects and that two entries attain
   are the minimum and the maximum.
   */
  lemma RangeIsAttainedBounds<Id>(links: seq<Link<Id>>, lo: int, hi: int, a: Id, b: Id)
    requires forall id :: id in CountTable(links) ==> lo <= CountTable(links)[id] <= hi
    requires a in CountTable(links) && CountTable(links)[a] == lo
    requires b in CountTable(links) && CountTable(links)[b] == hi
    ensures MinTransaction(links) == Finite(lo) && MaxTransaction(links) == Finite(hi)
  {
    assert links != [];
    CountsWithinRange(links);
  }

  /** Without links the dictionary is empty and the bounds are +Infinity and -Infinity. */
  lemma NoLinksNoRange<Id>(links: seq<Link<Id>>)
    requires links == []
    ensures CountTable(links) == map[]
    ensures MinTransaction(links) == PosInfinity && MaxTransaction(links) == NegInfinity
  {
    InsertionOrderKeys(links);
  }
}
