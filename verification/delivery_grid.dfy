/** The generated delivery cases at their places, by the names of types, transports and verdicts. */
module DeliveryGrid {
  import opened Concatenation
  import opened DeliveryCases

  const TYPE_NAMES: seq<string> := ["image", "audio", "video", "file_3d", "mesh", "load3d_camera", "file_path"]
  const NAMES: seq<string> := ["cuda", "disk", "http", "shm"]

  /** The last word of a case's id. */
  function Answer(topology: Topology, i: nat, j: nat): string
    requires i < 7 && j < 4
  {
    if j == 0 && i != 0 then "reject-type"
    else if NAMES[j] !in topology.serverAvailable then "reject-server"
    else if NAMES[j] !in topology.clientReachable then "reject-client"
    else "deliver"
  }

  /** Where the case of a type and a transport stands; only the local topology tries CUDA with other types than
      images. */
  function Place(topology: Topology, i: nat, j: nat): int {
    if topology.name == "local" then 4 * i + j else if i == 0 then j else 3 * i + j
  }

  predicate HasPlace(topology: Topology, i: nat, j: nat) {
    i < 7 && j < 4 && (topology.name == "local" || i == 0 || j != 0)
  }

  lemma TransportsOf(t: Contract)
    ensures forall j :: 0 <= j < 4 ==> (NAMES[j] in TypeAllowedTransports(t) <==> j != 0 || t.isImage)
  {
    AllowedNames(t);
    assert NAMES == TRANSPORTS;
  }

  lemma NamesOfTypes(i: nat)
    requires i < 7
    ensures |DELIVERY_TYPES| == 7 && DELIVERY_TYPES[i].outputType == TYPE_NAMES[i]
    ensures DELIVERY_TYPES[i].isImage <==> i == 0
  {
  }

  lemma AnswerIs(topology: Topology, i: nat, j: nat)
    requires i < 7 && j < 4
    ensures VerdictName(VerdictOf(topology, DELIVERY_TYPES[i], TRANSPORTS[j])) == Answer(topology, i, j)
  {
    var t := DELIVERY_TYPES[i];
    NamesOfTypes(i);
    TransportsOf(t);
    assert TRANSPORTS[j] == NAMES[j];
    assert NAMES[j] in TypeAllowedTransports(t) <==> j != 0 || i == 0;
  }

  lemma NextTransport(topology: Topology, t: Contract, j: nat)
    requires j < 4
    ensures CasesOfType(topology, t, TRANSPORTS[..j + 1]) ==
            CasesOfType(topology, t, TRANSPORTS[..j]) +
            if Generated(topology, t, TRANSPORTS[j]) then [Describe(topology, t, TRANSPORTS[j])] else []
  {
    assert TRANSPORTS[..j + 1][..j] == TRANSPORTS[..j];
  }

  /** Which transport the first case of a type is for. */
  function Skipped(topology: Topology, t: Contract): nat {
    if t.isImage || topology.name == "local" then 0 else 1
  }

  /** The cases of one type for the transports up to the j-th. */
  predicate Covers(topology: Topology, t: Contract, cases: seq<Descriptor>, j: nat)
    requires j <= 4
  {
    var skipped := Skipped(topology, t);
    && |cases| == (if j < skipped then 0 else j - skipped)
    && forall k :: skipped <= k < j ==> cases[k - skipped] == Describe(topology, t, TRANSPORTS[k])
  }

  lemma OneFurther(topology: Topology, t: Contract, cases: seq<Descriptor>, j: nat)
    requires j < 4 && Covers(topology, t, cases, j)
    ensures Covers(topology, t, if j < Skipped(topology, t) then cases
                   else cases + [Describe(topology, t, TRANSPORTS[j])],
                   j + 1)
  {
  }

  lemma FromFirst(topology: Topology, t: Contract, j: nat)
    requires j < 4
    ensures Generated(topology, t, TRANSPORTS[j]) <==> j >= Skipped(topology, t)
  {
    TransportsOf(t);
    assert TRANSPORTS[j] == NAMES[j];
    assert NAMES[j] in TypeAllowedTransports(t) <==> j != 0 || t.isImage;
  }

  lemma {:induction false} UpTo(topology: Topology, t: Contract, j: nat)
    requires j <= 4
    ensures Covers(topology, t, CasesOfType(topology, t, TRANSPORTS[..j]), j)
  {
    if j == 0 {
      assert TRANSPORTS[..0] == [];
    } else {
      var before := CasesOfType(topology, t, TRANSPORTS[..j - 1]);
      UpTo(topology, t, j - 1);
      OneFurther(topology, t, before, j - 1);
      FromFirst(topology, t, j - 1);
      NextTransport(topology, t, j - 1);
      NothingAfter(before);
    }
  }

  /** The cases of one type, in the order of the four names. */
  lemma OfOneType(topology: Topology, t: Contract)
    ensures Covers(topology, t, CasesOfType(topology, t, TRANSPORTS), 4)
  {
    UpTo(topology, t, 4);
    assert TRANSPORTS[..4] == TRANSPORTS;
  }

  function Start(topology: Topology, i: nat): nat {
    if topology.name == "local" then 4 * i else if i == 0 then 0 else 3 * i + 1
  }

  /** The image type comes first and is the only one. */
  predicate ImageFirst(types: seq<Contract>) {
    forall i :: 0 <= i < |types| ==> (types[i].isImage <==> i == 0)
  }

  lemma {:induction false} TypesUpTo(topology: Topology, types: seq<Contract>, i: nat)
    requires ImageFirst(types) && i <= |types|
    ensures |CasesOf(topology, types[..i], TRANSPORTS)| == Start(topology, i)
  {
    if i > 0 {
      TypesUpTo(topology, types, i - 1);
      assert types[..i][..i - 1] == types[..i - 1];
      OfOneType(topology, types[i - 1]);
    }
  }

  lemma {:induction false} TypePrefix(topology: Topology, types: seq<Contract>, i: nat)
    requires i <= |types|
    ensures CasesOf(topology, types[..i], TRANSPORTS) <= CasesOf(topology, types, TRANSPORTS)
    decreases |types| - i
  {
    if i == |types| {
      assert types[..i] == types;
    } else {
      TypePrefix(topology, types, i + 1);
      assert types[..i + 1][..i] == types[..i];
    }
  }

  lemma DescribedIn(topology: Topology, types: seq<Contract>, i: nat, j: nat)
    requires ImageFirst(types) && i < |types| && j < 4 && (topology.name == "local" || i == 0 || j != 0)
    ensures 0 <= Place(topology, i, j) < |CasesOf(topology, types, TRANSPORTS)|
    ensures CasesOf(topology, types, TRANSPORTS)[Place(topology, i, j)] == Describe(topology, types[i], TRANSPORTS[j])
  {
    TypesUpTo(topology, types, i);
    OfOneType(topology, types[i]);
    var k := Place(topology, i, j) - Start(topology, i);
    TypePrefix(topology, types, i + 1);
    ThisType(topology, types, i);
    InPart(CasesOf(topology, types[..i], TRANSPORTS), CasesOfType(topology, types[i], TRANSPORTS),
           CasesOf(topology, types, TRANSPORTS), k);
  }

  lemma ThisType(topology: Topology, types: seq<Contract>, i: nat)
    requires i < |types|
    ensures CasesOf(topology, types[..i + 1], TRANSPORTS) ==
            CasesOf(topology, types[..i], TRANSPORTS) + CasesOfType(topology, types[i], TRANSPORTS)
  {
    assert types[..i + 1][..i] == types[..i];
  }

  lemma InPart<T>(before: seq<T>, more: seq<T>, all: seq<T>, k: nat)
    requires before + more <= all && k < |more|
    ensures |before| + k < |all| && all[|before| + k] == more[k]
  {
    assert (before + more)[|before| + k] == more[k];
  }

  lemma DescribedAt(topology: Topology, i: nat, j: nat)
    requires HasPlace(topology, i, j)
    ensures 0 <= Place(topology, i, j) < |Cases(topology)|
    ensures Cases(topology)[Place(topology, i, j)] == Describe(topology, DELIVERY_TYPES[i], TRANSPORTS[j])
  {
    forall k | 0 <= k < |DELIVERY_TYPES| ensures DELIVERY_TYPES[k].isImage <==> k == 0 {
      NamesOfTypes(k);
    }
    DescribedIn(topology, DELIVERY_TYPES, i, j);
  }

  lemma IdGroups(a: string, b: string, c: string, d: string)
    ensures a + "." + b + "." + c + "." + d == a + "." + (b + "." + (c + "." + d))
  {
  }

  /** The case of a type and a transport: its place among all, its id, and what it is made of. */
  lemma CaseAt(topology: Topology, i: nat, j: nat)
    requires HasPlace(topology, i, j)
    ensures 0 <= Place(topology, i, j) < |Cases(topology)|
    ensures var d := Cases(topology)[Place(topology, i, j)];
            && d.id == topology.name + "." + TYPE_NAMES[i] + "." + NAMES[j] + "." + Answer(topology, i, j)
            && d.topology == topology.name && d.outputType == TYPE_NAMES[i] && d.transport == NAMES[j]
            && VerdictName(d.verdict) == Answer(topology, i, j) && d.contract == DELIVERY_TYPES[i]
  {
    DescribedAt(topology, i, j);
    NamesOfTypes(i);
    AnswerIs(topology, i, j);
    IdGroups(topology.name, TYPE_NAMES[i], NAMES[j], Answer(topology, i, j));
  }

  /** Every place is that of some type and transport. */
  lemma PlacesAreAll(topology: Topology, p: nat) returns (i: nat, j: nat)
    requires p < |Cases(topology)|
    ensures HasPlace(topology, i, j) && Place(topology, i, j) == p
  {
    CaseCount(topology);
    if topology.name == "local" {
      i, j := p / 4, p % 4;
    } else if p < 4 {
      i, j := 0, p;
    } else {
      i, j := (p - 1) / 3, (p - 1) % 3 + 1;
    }
  }

  /** What is checked of an output, by its type: its own bytes for a path, its structure for a model and a camera, its
      pixels for an image, and the server's digest for everything else. */
  lemma ChecksByType(t: Contract)
    requires t in DELIVERY_TYPES
    ensures t.verify == match t.outputType
                        case "file_path" => ByteExact
                        case "file_3d" => Structural
                        case "load3d_camera" => Structural
                        case "image" => DecodedImage
                        case _ => Integrity
    ensures t.slotName == t.outputType
    ensures t.isImage <==> t.inputType == "IMAGE"
    ensures t.outputType == "file_path" <==> t.inputType == "STRING"
    ensures t.fixtureFile == "" <==> t.outputType == "load3d_camera"
    ensures t.fixtureFile == "mesh.glb" <==> t.outputType in {"file_3d", "mesh", "file_path"}
  {
    var i :| 0 <= i < |DELIVERY_TYPES| && DELIVERY_TYPES[i] == t;
  }
}
