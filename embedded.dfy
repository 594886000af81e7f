/**
 The graph the page ships with: fourteen telecom companies, six federation
 members and eight suppliers, joined by nineteen weighted links. The
 companies are an enumeration, so that the verifier can evaluate the
 aggregation on this instance; `Name` gives the string id of each one.
 */
module Embedded {
  import opened GraphModel
  import opened Aggregation
  import opened Stepwise
  import opened Range
  import opened Scaling
  import opened Layout

  datatype Company =
    | Colt | ConsoleConnect | Telstra | Orange | Sparkle | TataCommunications
    | DeutscheTelekom | Lumen | ATT | Verizon | Retelit | Orchest | Cirion | Starhub

  /** The id string of each company. */
  function Name(c: Company): string
  {
    match c
    case Colt => "Colt"
    case ConsoleConnect => "Console Connect"
    case Telstra => "Telstra"
    case Orange => "Orange"
    case Sparkle => "Sparkle"
    case TataCommunications => "Tata Communications"
    case DeutscheTelekom => "Deutsche Telekom"
    case Lumen => "Lumen"
    case ATT => "AT&T"
    case Verizon => "Verizon"
    case Retelit => "Retelit"
    case Orchest => "Orchest"
    case Cirion => "Cirion"
    case Starhub => "Starhub"
  }

  /** The string ids are pairwise different, so the enumeration loses nothing. */
  lemma NamesAreDistinct(a: Company, b: Company)
    requires a != b
    ensures Name(a) != Name(b)
  {
  }

  const FederationMember: string := "Federation Member"
  const Supplier: string := "Supplier"

  const Nodes: seq<Node<Company>> := [
    Node(Colt, FederationMember),
    Node(ConsoleConnect, FederationMember),
    Node(Telstra, FederationMember),
    Node(Orange, FederationMember),
    Node(Sparkle, FederationMember),
    Node(TataCommunications, FederationMember),
    Node(DeutscheTelekom, Supplier),
    Node(Lumen, Supplier),
    Node(ATT, Supplier),
    Node(Verizon, Supplier),
    Node(Retelit, Supplier),
    Node(Orchest, Supplier),
    Node(Cirion, Supplier),
    Node(Starhub, Supplier)
  ]

  /** The links, in the order they are listed. */
  const Links: seq<Link<Company>> := [
    Link(Colt, ConsoleConnect, 5),
    Link(Colt, Telstra, 2),
    Link(Colt, Orange, 8),
    Link(ConsoleConnect, Telstra, 3),
    Link(Telstra, Orange, 1),
    Link(Orange, Sparkle, 7),
    Link(Sparkle, TataCommunications, 2),
    Link(TataCommunications, DeutscheTelekom, 4),
    Link(Colt, Lumen, 0),
    Link(Orange, DeutscheTelekom, 9),
    Link(ConsoleConnect, Lumen, 9),
    Link(TataCommunications, Lumen, 4),
    Link(Orange, ATT, 5),
    Link(Colt, Verizon, 1),
    Link(Sparkle, Retelit, 7),
    Link(Telstra, Verizon, 7),
    Link(Sparkle, Orchest, 10),
    Link(Telstra, Cirion, 2),
    Link(TataCommunications, Starhub, 10)
  ]

  const GData: GraphData<Company> := GraphData(Nodes, Links)

  /** Every listed node is the source or the target of some link, so every one gets an entry. */
  lemma EveryNodeIsMentioned()
    ensures forall i :: 0 <= i < |GData.nodes| ==> Mentioned(GData.links, GData.nodes[i].id)
    ensures forall c: Company :: c in CountTable(Links)
  {
    forall c: Company ensures Mentioned(Links, c) {
      match c
      case Colt => assert Links[0].source == Colt;
      case ConsoleConnect => assert Links[0].target == ConsoleConnect;
      case Telstra => assert Links[1].target == Telstra;
      case Orange => assert Links[2].target == Orange;
      case Sparkle => assert Links[5].target == Sparkle;
      case TataCommunications => assert Links[6].target == TataCommunications;
      case DeutscheTelekom => assert Links[7].target == DeutscheTelekom;
      case Lumen => assert Links[8].target == Lumen;
      case ATT => assert Links[12].target == ATT;
      case Verizon => assert Links[13].target == Verizon;
      case Retelit => assert Links[14].target == Retelit;
      case Orchest => assert Links[16].target == Orchest;
      case Cirion => assert Links[17].target == Cirion;
      case Starhub => assert Links[18].target == Starhub;
    }
    EndpointsAreMentioned(Links);
  }

  /** The transaction volume of each company, worked out by hand from the links. */
  function ExpectedVolume(c: Company): int
  {
    match c
    case Colt => 16
    case ConsoleConnect => 17
    case Telstra => 15
    case Orange => 30
    case Sparkle => 26
    case TataCommunications => 20
    case DeutscheTelekom => 13
    case Lumen => 13
    case ATT => 5
    case Verizon => 8
    case Retelit => 7
    case Orchest => 10
    case Cirion => 2
    case Starhub => 10
  }

  lemma VolumeFromWindows(c: Company)
    ensures Volume(Links, c) == VolumeBetween(Links, 0, 5, c) + VolumeBetween(Links, 5, 10, c)
                              + VolumeBetween(Links, 10, 15, c) + VolumeBetween(Links, 15, 19, c)
  {
    VolumeBetweenIsVolume(Links, 19, c);
    assert Links[..19] == Links;
    VolumeBetweenSplit(Links, 0, 5, 19, c);
    VolumeBetweenSplit(Links, 5, 10, 19, c);
    VolumeBetweenSplit(Links, 10, 15, 19, c);
  }

  lemma ColtVolume()
    ensures Volume(Links, Colt) == ExpectedVolume(Colt)
  {
    assert VolumeBetween(Links, 0, 5, Colt) == 15;
    assert VolumeBetween(Links, 5, 10, Colt) == 0;
    assert VolumeBetween(Links, 10, 15, Colt) == 1;
    assert VolumeBetween(Links, 15, 19, Colt) == 0;
    VolumeFromWindows(Colt);
  }

  lemma ConsoleConnectVolume()
    ensures Volume(Links, ConsoleConnect) == ExpectedVolume(ConsoleConnect)
  {
    assert VolumeBetween(Links, 0, 5, ConsoleConnect) == 8;
    assert VolumeBetween(Links, 5, 10, ConsoleConnect) == 0;
    assert VolumeBetween(Links, 10, 15, ConsoleConnect) == 9;
    assert VolumeBetween(Links, 15, 19, ConsoleConnect) == 0;
    VolumeFromWindows(ConsoleConnect);
  }

  lemma TelstraVolume()
    ensures Volume(Links, Telstra) == ExpectedVolume(Telstra)
  {
    assert VolumeBetween(Links, 0, 5, Telstra) == 6;
    assert VolumeBetween(Links, 5, 10, Telstra) == 0;
    assert VolumeBetween(Links, 10, 15, Telstra) == 0;
    assert VolumeBetween(Links, 15, 19, Telstra) == 9;
    VolumeFromWindows(Telstra);
  }

  lemma OrangeVolume()
    ensures Volume(Links, Orange) == ExpectedVolume(Orange)
  {
    assert VolumeBetween(Links, 0, 5, Orange) == 9;
    assert VolumeBetween(Links, 5, 10, Orange) == 16;
    assert VolumeBetween(Links, 10, 15, Orange) == 5;
    assert VolumeBetween(Links, 15, 19, Orange) == 0;
    VolumeFromWindows(Orange);
  }

  lemma SparkleVolume()
    ensures Volume(Links, Sparkle) == ExpectedVolume(Sparkle)
  {
    assert VolumeBetween(Links, 0, 5, Sparkle) == 0;
    assert VolumeBetween(Links, 5, 10, Sparkle) == 9;
    assert VolumeBetween(Links, 10, 15, Sparkle) == 7;
    assert VolumeBetween(Links, 15, 19, Sparkle) == 10;
    VolumeFromWindows(Sparkle);
  }

  lemma TataCommunicationsVolume()
    ensures Volume(Links, TataCommunications) == ExpectedVolume(TataCommunications)
  {
    assert VolumeBetween(Links, 0, 5, TataCommunications) == 0;
    assert VolumeBetween(Links, 5, 10, TataCommunications) == 6;
    assert VolumeBetween(Links, 10, 15, TataCommunications) == 4;
    assert VolumeBetween(Links, 15, 19, TataCommunications) == 10;
    VolumeFromWindows(TataCommunications);
  }

  lemma DeutscheTelekomVolume()
    ensures Volume(Links, DeutscheTelekom) == ExpectedVolume(DeutscheTelekom)
  {
    assert VolumeBetween(Links, 0, 5, DeutscheTelekom) == 0;
    assert VolumeBetween(Links, 5, 10, DeutscheTelekom) == 13;
    assert VolumeBetween(Links, 10, 15, DeutscheTelekom) == 0;
    assert VolumeBetween(Links, 15, 19, DeutscheTelekom) == 0;
    VolumeFromWindows(DeutscheTelekom);
  }

  lemma LumenVolume()
    ensures Volume(Links, Lumen) == ExpectedVolume(Lumen)
  {
    assert VolumeBetween(Links, 0, 5, Lumen) == 0;
    assert VolumeBetween(Links, 5, 10, Lumen) == 0;
    assert VolumeBetween(Links, 10, 15, Lumen) == 13;
    assert VolumeBetween(Links, 15, 19, Lumen) == 0;
    VolumeFromWindows(Lumen);
  }

  lemma ATTVolume()
    ensures Volume(Links, ATT) == ExpectedVolume(ATT)
  {
    assert VolumeBetween(Links, 0, 5, ATT) == 0;
    assert VolumeBetween(Links, 5, 10, ATT) == 0;
    assert VolumeBetween(Links, 10, 15, ATT) == 5;
    assert VolumeBetween(Links, 15, 19, ATT) == 0;
    VolumeFromWindows(ATT);
  }

  lemma VerizonVolume()
    ensures Volume(Links, Verizon) == ExpectedVolume(Verizon)
  {
    assert VolumeBetween(Links, 0, 5, Verizon) == 0;
    assert VolumeBetween(Links, 5, 10, Verizon) == 0;
    assert VolumeBetween(Links, 10, 15, Verizon) == 1;
    assert VolumeBetween(Links, 15, 19, Verizon) == 7;
    VolumeFromWindows(Verizon);
  }

  lemma RetelitVolume()
    ensures Volume(Links, Retelit) == ExpectedVolume(Retelit)
  {
    assert VolumeBetween(Links, 0, 5, Retelit) == 0;
    assert VolumeBetween(Links, 5, 10, Retelit) == 0;
    assert VolumeBetween(Links, 10, 15, Retelit) == 7;
    assert VolumeBetween(Links, 15, 19, Retelit) == 0;
    VolumeFromWindows(Retelit);
  }

  lemma OrchestVolume()
    ensures Volume(Links, Orchest) == ExpectedVolume(Orchest)
  {
    assert VolumeBetween(Links, 0, 5, Orchest) == 0;
    assert VolumeBetween(Links, 5, 10, Orchest) == 0;
    assert VolumeBetween(Links, 10, 15, Orchest) == 0;
    assert VolumeBetween(Links, 15, 19, Orchest) == 10;
    VolumeFromWindows(Orchest);
  }

  lemma CirionVolume()
    ensures Volume(Links, Cirion) == ExpectedVolume(Cirion)
  {
    assert VolumeBetween(Links, 0, 5, Cirion) == 0;
    assert VolumeBetween(Links, 5, 10, Cirion) == 0;
    assert VolumeBetween(Links, 10, 15, Cirion) == 0;
    assert VolumeBetween(Links, 15, 19, Cirion) == 2;
    VolumeFromWindows(Cirion);
  }

  lemma StarhubVolume()
    ensures Volume(Links, Starhub) == ExpectedVolume(Starhub)
  {
    assert VolumeBetween(Links, 0, 5, Starhub) == 0;
    assert VolumeBetween(Links, 5, 10, Starhub) == 0;
    assert VolumeBetween(Links, 10, 15, Starhub) == 0;
    assert VolumeBetween(Links, 15, 19, Starhub) == 10;
    VolumeFromWindows(Starhub);
  }

  /** The dictionary the aggregator leaves: one entry per company, holding the volume worked out by hand. */
  lemma EmbeddedTable()
    ensures forall c: Company :: c in CountTable(Links) && CountTable(Links)[c] == ExpectedVolume(c)
  {
    EveryNodeIsMentioned();
    forall c: Company ensures Volume(Links, c) == ExpectedVolume(c) {
      match c
      case Colt => ColtVolume();
      case ConsoleConnect => ConsoleConnectVolume();
      case Telstra => TelstraVolume();
      case Orange => OrangeVolume();
      case Sparkle => SparkleVolume();
      case TataCommunications => TataCommunicationsVolume();
      case DeutscheTelekom => DeutscheTelekomVolume();
      case Lumen => LumenVolume();
      case ATT => ATTVolume();
      case Verizon => VerizonVolume();
      case Retelit => RetelitVolume();
      case Orchest => OrchestVolume();
      case Cirion => CirionVolume();
      case Starhub => StarhubVolume();
    }
  }

  /** The smallest volume is Cirion's 2 and the largest Orange's 30, so the range is not degenerate. */
  lemma EmbeddedRange()
    ensures Cirion in CountTable(Links) && CountTable(Links)[Cirion] == 2
    ensures Orange in CountTable(Links) && CountTable(Links)[Orange] == 30
    ensures MinTransaction(Links) == Finite(2) && MaxTransaction(Links) == Finite(30)
  {
    EmbeddedTable();
    forall id | id in CountTable(Links) ensures 2 <= CountTable(Links)[id] <= 30 {
      assert 2 <= ExpectedVolume(id) <= 30;
    }
    RangeIsAttainedBounds(Links, 2, 30, Cirion, Orange);
  }

  /** The links carry 96 transactions in all. */
  lemma EmbeddedTotal()
    ensures TotalValue(Links) == 96
  {
    assert TotalBetween(Links, 0, 5) == 19;
    assert TotalBetween(Links, 5, 10) == 22;
    assert TotalBetween(Links, 10, 15) == 26;
    assert TotalBetween(Links, 15, 19) == 29;
    TotalBetweenIsTotal(Links, 19);
    assert Links[..19] == Links;
    TotalBetweenSplit(Links, 0, 5, 19);
    TotalBetweenSplit(Links, 5, 10, 19);
    TotalBetweenSplit(Links, 10, 15, 19);
  }

  /** The entries of the dictionary add up to 192, twice the total. */
  lemma EmbeddedEntrySum()
    ensures Sum(CountValues(Links)) == 192
  {
    EmbeddedTotal();
    TotalIsTwiceLinkSum(Links);
  }

  /**
   The sizes the page draws: Orange at the maximum 20, Cirion at the minimum
   5, Colt halfway at 12.5; Orange's collision radius is 30.
   */
  lemma EmbeddedSizes()
    ensures MinTransaction(Links).Finite? && MaxTransaction(Links).Finite?
    ensures MinTransaction(Links).n < MaxTransaction(Links).n
    ensures var t, lo, hi := CountTable(Links), MinTransaction(Links).n, MaxTransaction(Links).n;
            && Orange in t && Cirion in t && Colt in t
            && NodeVal(t, lo, hi, Orange) == MaxSize
            && NodeVal(t, lo, hi, Cirion) == MinSize
            && NodeVal(t, lo, hi, Colt) == 12.5
            && CollideRadius(t, lo, hi, Orange) == 30.0
  {
    EmbeddedTable();
    EmbeddedRange();
  }

  /**
   The link from Colt to Lumen has value 0: it has no particles, and the
   speed as written is 0.01 / 0 = Infinity; every other link has a positive value.
   */
  lemma ZeroValueLink()
    ensures Links[8] == Link(Colt, Lumen, 0)
    ensures ParticleCount(Links[8]) == 0
    ensures ParticleSpeedAsWritten(Links[8]) == Infinity(true)
    ensures GuardedParticleSpeed(Links[8]) == 0.0
    ensures forall i :: 0 <= i < |Links| && i != 8 ==> Links[i].value > 0
  {
  }
}
