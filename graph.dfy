/**
 The static graph description handed to the force-graph renderer: nodes with
 a group label, and directed links weighted by a transaction value.
 This module also fixes what "the transaction volume of a node" means,
 independently of the dictionary-filling loop that computes it.
 */
module GraphModel {

  datatype Node<Id> = Node(id: Id, group: string)

  /** A link from `source` to `target` carrying `value` transactions. */
  datatype Link<Id> = Link(source: Id, target: Id, value: int)

  datatype GraphData<Id> = GraphData(nodes: seq<Node<Id>>, links: seq<Link<Id>>)

  /** True iff `id` is the source or the target of some link. */
  predicate Mentioned<Id(==)>(links: seq<Link<Id>>, id: Id)
  {
    exists i :: 0 <= i < |links| && (links[i].source == id || links[i].target == id)
  }

  /** Every id that occurs as a source or a target of some link. */
  function Endpoints<Id(==)>(links: seq<Link<Id>>): set<Id>
  {
    if links == [] then {}
    else
      var last := links[|links| - 1];
      Endpoints(links[..|links| - 1]) + {last.source, last.target}
  }

  lemma {:induction false} EndpointsAreMentioned<Id>(links: seq<Link<Id>>)
    ensures forall id :: id in Endpoints(links) <==> Mentioned(links, id)
  {
    if links != [] {
      var init := links[..|links| - 1];
      EndpointsAreMentioned(init);
      assert forall i :: 0 <= i < |init| ==> init[i] == links[i];
      forall id | Mentioned(links, id) ensures id in Endpoints(links) {
        var i :| 0 <= i < |links| && (links[i].source == id || links[i].target == id);
        if i < |init| {
          assert Mentioned(init, id);
        }
      }
    }
  }

  /** Sum of the values of the links leaving `id`. */
  function OutVolume<Id(==)>(links: seq<Link<Id>>, id: Id): int
  {
    if links == [] then 0
    else
      var last := links[|links| - 1];
      OutVolume(links[..|links| - 1], id) + (if last.source == id then last.value else 0)
  }

  /** Sum of the values of the links entering `id`. */
  function InVolume<Id(==)>(links: seq<Link<Id>>, id: Id): int
  {
    if links == [] then 0
    else
      var last := links[|links| - 1];
      InVolume(links[..|links| - 1], id) + (if last.target == id then last.value else 0)
  }

  /**
   The transaction volume of a node: the links it sends plus the links it
   receives, each occurrence counted on its own (a self-loop counts twice).
   */
  function Volume<Id(==)>(links: seq<Link<Id>>, id: Id): int
  {
    OutVolume(links, id) + InVolume(links, id)
  }

  /** The sum of all link values. */
  function TotalValue<Id(==)>(links: seq<Link<Id>>): int
  {
    if links == [] then 0 else TotalValue(links[..|links| - 1]) + links[|links| - 1].value
  }

  /** The volume of `id` on a link list grown by one link. */
  lemma VolumeSnoc<Id>(links: seq<Link<Id>>, l: Link<Id>, id: Id)
    ensures Volume(links + [l], id)
         == Volume(links, id) + (if l.source == id then l.value else 0)
                              + (if l.target == id then l.value else 0)
  {
    assert (links + [l])[..|links|] == links;
  }

  /** A node that no link mentions has volume 0. */
  lemma {:induction false} UnmentionedVolume<Id>(links: seq<Link<Id>>, id: Id)
    requires id !in Endpoints(links)
    ensures OutVolume(links, id) == 0 && InVolume(links, id) == 0 && Volume(links, id) == 0
  {
    if links != [] {
      UnmentionedVolume(links[..|links| - 1], id);
    }
  }

  /** A self-loop of value v adds 2 * v to the volume of its node. */
  lemma SelfLoopCountsTwice<Id>(links: seq<Link<Id>>, id: Id, v: int)
    ensures Volume(links + [Link(id, id, v)], id) == Volume(links, id) + 2 * v
  {
    VolumeSnoc(links, Link(id, id, v), id);
  }

  /** With non-negative link values every volume is non-negative. */
  lemma {:induction false} VolumeNonNegative<Id>(links: seq<Link<Id>>, id: Id)
    requires forall i :: 0 <= i < |links| ==> links[i].value >= 0
    ensures OutVolume(links, id) >= 0 && InVolume(links, id) >= 0
  {
    if links != [] {
      var init := links[..|links| - 1];
      assert forall i :: 0 <= i < |init| ==> init[i] == links[i];
      VolumeNonNegative(init, id);
    }
  }
}
