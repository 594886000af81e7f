/**
 The volume and the total of the links, evaluated over a window
 `links[i..j]` of the link list, by index and from the right end of the
 window. A window can be evaluated on a literal list a few links at a time,
 and windows compose.
 */
module Stepwise {
  import opened GraphModel

  /** What links[i..j] add to the volume of `id`. */
  function VolumeBetween<Id(==)>(links: seq<Link<Id>>, i: nat, j: nat, id: Id): int
    requires i <= j <= |links|
    decreases j - i
  {
    if j == i then 0
    else
      VolumeBetween(links, i, j - 1, id)
      + (if links[j - 1].source == id then links[j - 1].value else 0)
      + (if links[j - 1].target == id then links[j - 1].value else 0)
  }

  lemma {:induction false} VolumeBetweenIsVolume<Id>(links: seq<Link<Id>>, k: nat, id: Id)
    requires k <= |links|
    ensures VolumeBetween(links, 0, k, id) == Volume(links[..k], id)
  {
    if k > 0 {
      VolumeBetweenIsVolume(links, k - 1, id);
      var prefix := links[..k];
      assert prefix[..k - 1] == links[..k - 1];
      assert prefix[k - 1] == links[k - 1];
    }
  }

  lemma {:induction false} VolumeBetweenSplit<Id>(links: seq<Link<Id>>, i: nat, j: nat, k: nat, id: Id)
    requires i <= j <= k <= |links|
    ensures VolumeBetween(links, i, k, id) == VolumeBetween(links, i, j, id) + VolumeBetween(links, j, k, id)
    decreases k - j
  {
    if k > j {
      VolumeBetweenSplit(links, i, j, k - 1, id);
    }
  }

  /** The sum of the values of links[i..j]. */
  function TotalBetween<Id>(links: seq<Link<Id>>, i: nat, j: nat): int
    requires i <= j <= |links|
    decreases j - i
  {
    if j == i then 0 else TotalBetween(links, i, j - 1) + links[j - 1].value
  }

  lemma {:induction false} TotalBetweenIsTotal<Id>(links: seq<Link<Id>>, k: nat)
    requires k <= |links|
    ensures TotalBetween(links, 0, k) == TotalValue(links[..k])
  {
    if k > 0 {
      TotalBetweenIsTotal(links, k - 1);
      var prefix := links[..k];
      assert prefix[..k - 1] == links[..k - 1];
    }
  }

  lemma {:induction false} TotalBetweenSplit<Id>(links: seq<Link<Id>>, i: nat, j: nat, k: nat)
    requires i <= j <= k <= |links|
    ensures TotalBetween(links, i, k) == TotalBetween(links, i, j) + TotalBetween(links, j, k)
    decreases k - j
  {
    if k > j {
      TotalBetweenSplit(links, i, j, k - 1);
    }
  }
}
