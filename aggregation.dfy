/**
 The transaction aggregator: one pass over the links fills the
 `transactionCount` dictionary, adding each link's value to the entry of its
 source and then to the entry of its target. The dictionary is a JavaScript
 object, so besides its entries it has an order of keys (the order in which
 they were first assigned), which is the order `Object.values` enumerates.
 */
module Aggregation {
  import opened GraphModel

  /**
   `(t[k] || 0)` as JavaScript reads it: the left side is kept only when it is
   truthy, so a missing entry (`undefined`) and an entry holding 0 both give
   the right side 0. Skipping a 0 entry loses nothing: the result is always
   the entry when there is one.
   */
  function OrZero<Id(==)>(t: map<Id, int>, k: Id): (r: int)
    ensures k in t ==> r == t[k]
    ensures k !in t ==> r == 0
  {
    if k in t && t[k] != 0 then t[k] else 0
  }

  /** The key order after assigning to key `k`: a new key goes last. */
  function AddKey<Id(==)>(keys: seq<Id>, k: Id): seq<Id>
  {
    if k in keys then keys else keys + [k]
  }

  lemma AddKeyMembers<Id>(keys: seq<Id>, k: Id)
    ensures forall x :: x in AddKey(keys, k) <==> x in keys || x == k
  {
  }

  /** The order in which the loop first assigns each id. */
  function InsertionOrder<Id(==)>(links: seq<Link<Id>>): seq<Id>
  {
    if links == [] then []
    else
      var last := links[|links| - 1];
      AddKey(AddKey(InsertionOrder(links[..|links| - 1]), last.source), last.target)
  }

  /** The dictionary the loop is meant to produce: one entry per endpoint, holding its volume. */
  function CountTable<Id(==)>(links: seq<Link<Id>>): map<Id, int>
  {
    map id | id in Endpoints(links) :: Volume(links, id)
  }

  /** One assignment `t[k] = (t[k] || 0) + v`: entry `k` grows by `v`, and nothing else changes. */
  function Bump<Id(==)>(t: map<Id, int>, k: Id, v: int): (r: map<Id, int>)
    ensures r.Keys == t.Keys + {k}
    ensures r[k] == OrZero(t, k) + v
    ensures forall x :: x in t && x != k ==> r[x] == t[x]
  {
    t[k := OrZero(t, k) + v]
  }

  /** The table the loop builds, one link at a time: two assignments per link. */
  function Tally<Id(==)>(links: seq<Link<Id>>): (r: map<Id, int>)
    ensures r.Keys == Endpoints(links)
  {
    if links == [] then map[]
    else
      var last := links[|links| - 1];
      Bump(Bump(Tally(links[..|links| - 1]), last.source, last.value), last.target, last.value)
  }

  predicate Distinct<Id(==)>(ks: seq<Id>)
  {
    forall i, j :: 0 <= i < j < |ks| ==> ks[i] != ks[j]
  }

  /**
   The loop at the heart of the aggregator. `keys` records the order in which
   entries of the dictionary are created.
   */
  method Aggregate<Id(==)>(links: seq<Link<Id>>) returns (transactionCount: map<Id, int>, keys: seq<Id>)
    ensures forall id :: id in transactionCount <==> Mentioned(links, id)
    ensures forall id :: id in transactionCount ==> transactionCount[id] == Volume(links, id)
    ensures transactionCount == CountTable(links)
    ensures keys == InsertionOrder(links)
  {
    transactionCount, keys := map[], [];
    for i := 0 to |links|
      invariant transactionCount == Tally(links[..i])
      invariant keys == InsertionOrder(links[..i])
    {
      var link := links[i];
      AggregateStep(links, i);
      if link.source !in transactionCount {
        keys := keys + [link.source];
      }
      transactionCount := Bump(transactionCount, link.source, link.value);
      if link.target !in transactionCount {
        keys := keys + [link.target];
      }
      transactionCount := Bump(transactionCount, link.target, link.value);
    }
    AggregateDone(links);
    CountTableMeaning(links);
  }

  /** The table has an entry exactly for the mentioned ids, and each entry is that id's volume. */
  lemma CountTableMeaning<Id>(links: seq<Link<Id>>)
    ensures forall id :: id in CountTable(links) <==> Mentioned(links, id)
    ensures forall id :: id in CountTable(links) ==> CountTable(links)[id] == Volume(links, id)
  {
    EndpointsAreMentioned(links);
  }

  /** One iteration of the loop turns the table of a prefix into the table of the next prefix. */
  lemma CountTableStep<Id>(links: seq<Link<Id>>, l: Link<Id>)
    ensures CountTable(links + [l]) == Bump(Bump(CountTable(links), l.source, l.value), l.target, l.value)
  {
    var links' := links + [l];
    assert links'[..|links|] == links;
    var t := CountTable(links);
    var t' := Bump(t, l.source, l.value);
    var t'' := Bump(t', l.target, l.value);
    assert Endpoints(links') == Endpoints(links) + {l.source, l.target};
    assert CountTable(links').Keys == t''.Keys;
    forall id | id in t''
      ensures CountTable(links')[id] == t''[id]
    {
      VolumeSnoc(links, l, id);
      if id !in Endpoints(links) {
        UnmentionedVolume(links, id);
      }
    }
  }

  lemma AddKeyDistinct<Id>(keys: seq<Id>, k: Id)
    requires Distinct(keys)
    ensures Distinct(AddKey(keys, k))
  {
  }

  /** The recorded key order lists exactly the dictionary's keys, each once. */
  lemma {:induction false} InsertionOrderKeys<Id>(links: seq<Link<Id>>)
    ensures forall id :: id in InsertionOrder(links) <==> id in Endpoints(links)
    ensures Distinct(InsertionOrder(links))
  {
    if links != [] {
      var init := links[..|links| - 1];
      var last := links[|links| - 1];
      InsertionOrderKeys(init);
      AddKeyMembers(InsertionOrder(init), last.source);
      AddKeyMembers(AddKey(InsertionOrder(init), last.source), last.target);
      AddKeyDistinct(InsertionOrder(init), last.source);
      AddKeyDistinct(AddKey(InsertionOrder(init), last.source), last.target);
    }
  }

  lemma OrderedKeyIsEntry<Id>(links: seq<Link<Id>>, i: int)
    requires 0 <= i < |InsertionOrder(links)|
    ensures InsertionOrder(links)[i] in Endpoints(links)
    ensures InsertionOrder(links)[i] in CountTable(links)
  {
    InsertionOrderKeys(links);
    assert InsertionOrder(links)[i] in InsertionOrder(links);
  }

  lemma EntryIsOrdered<Id>(links: seq<Link<Id>>, id: Id)
    requires id in Endpoints(links)
    ensures id in InsertionOrder(links)
  {
    InsertionOrderKeys(links);
  }

  /** Building the table link by link gives exactly the intended table. */
  lemma {:induction false} TallyIsCountTable<Id>(links: seq<Link<Id>>)
    ensures Tally(links) == CountTable(links)
  {
    if links != [] {
      var init := links[..|links| - 1];
      var last := links[|links| - 1];
      TallyIsCountTable(init);
      assert links == init + [last];
      CountTableStep(init, last);
    }
  }

  /**
   One iteration, on the prefix `links[..i]`: the membership tests of the
   loop agree with the key order, and the two assignments yield the table and
   the key order of `links[..i + 1]`.
   */
  lemma AggregateStep<Id>(links: seq<Link<Id>>, i: nat)
    requires i < |links|
    ensures var prefix, link := links[..i], links[i];
            && (link.source in Tally(prefix) <==> link.source in InsertionOrder(prefix))
            && (link.target in Bump(Tally(prefix), link.source, link.value)
                <==> link.target in AddKey(InsertionOrder(prefix), link.source))
            && Tally(links[..i + 1]) == Bump(Bump(Tally(prefix), link.source, link.value), link.target, link.value)
            && InsertionOrder(links[..i + 1]) == AddKey(AddKey(InsertionOrder(prefix), link.source), link.target)
  {
    var prefix, link := links[..i], links[i];
    assert links[..i + 1][..i] == prefix;
    TallyIsCountTable(prefix);
    EntryIffOrdered(prefix, link.source);
    EntryIffOrdered(prefix, link.target);
    AddKeyMembers(InsertionOrder(prefix), link.source);
  }

  /** After the last iteration the prefix is the whole list. */
  lemma AggregateDone<Id>(links: seq<Link<Id>>)
    ensures Tally(links[..|links|]) == CountTable(links)
    ensures InsertionOrder(links[..|links|]) == InsertionOrder(links)
  {
    assert links[..|links|] == links;
    TallyIsCountTable(links);
  }

  lemma EntryIffOrdered<Id>(links: seq<Link<Id>>, id: Id)
    ensures id in CountTable(links) <==> id in InsertionOrder(links)
  {
    InsertionOrderKeys(links);
  }

  /** `Object.values(t)` for a dictionary with key order `keys`. */
  function ObjectValues<Id(==)>(t: map<Id, int>, keys: seq<Id>): (vs: seq<int>)
    requires forall i :: 0 <= i < |keys| ==> keys[i] in t
    ensures |vs| == |keys|
    ensures forall i :: 0 <= i < |keys| ==> vs[i] == t[keys[i]]
  {
    if keys == [] then [] else [t[keys[0]]] + ObjectValues(t, keys[1..])
  }

  function Sum(xs: seq<int>): int
  {
    if xs == [] then 0 else xs[0] + Sum(xs[1..])
  }

  /**
   `Object.values(transactionCount)`: the entries in enumeration order, one
   per key; none exactly when there are no links.
   */
  function CountValues<Id(==)>(links: seq<Link<Id>>): (vs: seq<int>)
    ensures |vs| == |InsertionOrder(links)|
    ensures forall i :: 0 <= i < |vs| ==>
              InsertionOrder(links)[i] in CountTable(links) && vs[i] == CountTable(links)[InsertionOrder(links)[i]]
    ensures vs == [] <==> links == []
  {
    InsertionOrderKeys(links);
    assert links != [] ==> links[|links| - 1].source in InsertionOrder(links);
    ObjectValues(CountTable(links), InsertionOrder(links))
  }

  /** What link `l` adds to the volumes of the ids `ks`, summed over `ks`. */
  function LinkShare<Id(==)>(ks: seq<Id>, l: Link<Id>): int
  {
    if ks == [] then 0
    else
      (if l.source == ks[0] then l.value else 0) + (if l.target == ks[0] then l.value else 0)
      + LinkShare(ks[1..], l)
  }

  /** The sum of the volumes of the ids `ks`. */
  function VolumeSum<Id(==)>(ks: seq<Id>, links: seq<Link<Id>>): int
  {
    if ks == [] then 0 else Volume(links, ks[0]) + VolumeSum(ks[1..], links)
  }

  /** Over distinct ids a link is shared once at its source and once at its target, if present. */
  lemma {:induction false} LinkShareDistinct<Id>(ks: seq<Id>, l: Link<Id>)
    requires Distinct(ks)
    ensures LinkShare(ks, l) == (if l.source in ks then l.value else 0) + (if l.target in ks then l.value else 0)
  {
    if ks != [] {
      var rest := ks[1..];
      assert Distinct(rest) by {
        forall i, j | 0 <= i < j < |rest| ensures rest[i] != rest[j] {
          assert rest[i] == ks[i + 1] && rest[j] == ks[j + 1];
        }
      }
      LinkShareDistinct(rest, l);
      assert ks[0] !in rest by {
        forall j | 0 <= j < |rest| ensures rest[j] != ks[0] {
          assert rest[j] == ks[j + 1];
        }
      }
      assert forall x :: x in ks <==> x == ks[0] || x in rest by {
        assert ks == [ks[0]] + rest;
      }
    }
  }

  lemma {:induction false} VolumeSumEmpty<Id>(ks: seq<Id>)
    ensures VolumeSum(ks, []) == 0
  {
    if ks != [] {
      VolumeSumEmpty(ks[1..]);
    }
  }

  /** Adding one link adds its share to the sum of volumes. */
  lemma {:induction false} VolumeSumSnoc<Id>(ks: seq<Id>, links: seq<Link<Id>>, l: Link<Id>)
    ensures VolumeSum(ks, links + [l]) == VolumeSum(ks, links) + LinkShare(ks, l)
  {
    if ks != [] {
      VolumeSnoc(links, l, ks[0]);
      VolumeSumSnoc(ks[1..], links, l);
    }
  }

  /** Summing the volumes of distinct ids that cover every endpoint counts every link twice. */
  lemma {:induction false} VolumeSumIsTwiceTotal<Id>(ks: seq<Id>, links: seq<Link<Id>>)
    requires Distinct(ks)
    requires forall id :: id in Endpoints(links) ==> id in ks
    ensures VolumeSum(ks, links) == 2 * TotalValue(links)
  {
    if links == [] {
      VolumeSumEmpty(ks);
    } else {
      var init := links[..|links| - 1];
      var last := links[|links| - 1];
      assert links == init + [last];
      VolumeSumIsTwiceTotal(ks, init);
      VolumeSumSnoc(ks, init, last);
      LinkShareDistinct(ks, last);
    }
  }

  lemma {:induction false} ValuesSum<Id>(t: map<Id, int>, ks: seq<Id>, links: seq<Link<Id>>)
    requires forall i :: 0 <= i < |ks| ==> ks[i] in t && t[ks[i]] == Volume(links, ks[i])
    ensures Sum(ObjectValues(t, ks)) == VolumeSum(ks, links)
  {
    if ks != [] {
      ValuesSum(t, ks[1..], links);
    }
  }

  /**
   The entries of the dictionary add up to exactly twice the sum of the link
   values: every link is counted once at its source and once at its target.
   */
  lemma TotalIsTwiceLinkSum<Id>(links: seq<Link<Id>>)
    ensures Sum(CountValues(links)) == 2 * TotalValue(links)
  {
    var ks := InsertionOrder(links);
    forall i | 0 <= i < |ks|
      ensures ks[i] in CountTable(links) && CountTable(links)[ks[i]] == Volume(links, ks[i])
    {
      OrderedKeyIsEntry(links, i);
    }
    ValuesSum(CountTable(links), ks, links);
    OrderSumIsTwiceTotal(links);
  }

  lemma OrderSumIsTwiceTotal<Id>(links: seq<Link<Id>>)
    ensures VolumeSum(InsertionOrder(links), links) == 2 * TotalValue(links)
  {
    forall id | id in Endpoints(links) ensures id in InsertionOrder(links) {
      EntryIsOrdered(links, id);
    }
    InsertionOrderKeys(links);
    VolumeSumIsTwiceTotal(InsertionOrder(links), links);
  }
}
