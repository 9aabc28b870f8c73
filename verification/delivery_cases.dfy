/** The generated delivery cases (delivery_types.cpp) and their agreement with the negotiation. */
module DeliveryCases {
  import opened ServiceText
  import opened Transports

  datatype Verification = ByteExact | Structural | DecodedImage | Integrity | CudaRaw

  datatype Contract = Contract(
    outputType: string,
    inputType: string,
    slotName: string,
    fixtureFile: string,
    isImage: bool,
    verify: Verification)

  const DELIVERY_TYPES: seq<Contract> := [
    Contract("image", "IMAGE", "image", "image.png", true, DecodedImage),
    Contract("audio", "AUDIO", "audio", "audio.wav", false, Integrity),
    Contract("video", "VIDEO", "video", "video.mp4", false, Integrity),
    Contract("file_3d", "FILE_3D", "file_3d", "mesh.glb", false, Structural),
    Contract("mesh", "MESH", "mesh", "mesh.glb", false, Integrity),
    Contract("load3d_camera", "LOAD3D_CAMERA", "load3d_camera", "", false, Structural),
    Contract("file_path", "STRING", "file_path", "mesh.glb", false, ByteExact)]

  const TRANSPORTS: seq<string> := ["cuda", "disk", "http", "shm"]

  datatype Topology = Topology(name: string, serverAvailable: seq<string>, clientReachable: seq<string>)

  datatype Descriptor = Descriptor(
    id: string,
    topology: string,
    outputType: string,
    transport: string,
    verdict: Verdict,
    contract: Contract)

  datatype Verdict = Deliver | RejectType | RejectServer | RejectClient

  function VerdictName(v: Verdict): string {
    match v
    case Deliver => "deliver"
    case RejectType => "reject-type"
    case RejectServer => "reject-server"
    case RejectClient => "reject-client"
  }

  function TypeAllowedTransports(t: Contract): seq<string> {
    if t.isImage then ["cuda", "disk", "http", "shm"] else ["disk", "http", "shm"]
  }

  /** The type-allowed names that server and client also list. */
  function UsableFrom(allowed: seq<string>, server: seq<string>, client: seq<string>): seq<string> {
    if allowed == [] then []
    else
      var before := UsableFrom(allowed[..|allowed| - 1], server, client);
      var t := allowed[|allowed| - 1];
      if t in server && t in client then before + [t] else before
  }

  method UsableTransports(t: Contract, serverAvailable: seq<string>, clientReachable: seq<string>)
    returns (usable: seq<string>)
    ensures usable == UsableFrom(TypeAllowedTransports(t), serverAvailable, clientReachable)
  {
    usable := [];
    var allowed := TypeAllowedTransports(t);
    for i := 0 to |allowed|
      invariant usable == UsableFrom(allowed[..i], serverAvailable, clientReachable)
    {
      assert allowed[..i + 1][..i] == allowed[..i];
      if allowed[i] in serverAvailable && allowed[i] in clientReachable {
        usable := usable + [allowed[i]];
      }
    }
    assert allowed[..|allowed|] == allowed;
  }

  /** The classification of one triple. */
  function VerdictOf(topology: Topology, t: Contract, transport: string): Verdict {
    if transport !in TypeAllowedTransports(t) then RejectType
    else if transport !in topology.serverAvailable then RejectServer
    else if transport !in topology.clientReachable then RejectClient
    else Deliver
  }

  /** Exclusion by type is covered once, by the local topology. */
  predicate Generated(topology: Topology, t: Contract, transport: string) {
    transport in TypeAllowedTransports(t) || topology.name == "local"
  }

  function IdOf(topology: string, outputType: string, transport: string, verdict: Verdict): string {
    topology + "." + (outputType + "." + (transport + "." + VerdictName(verdict)))
  }

  function Describe(topology: Topology, t: Contract, transport: string): Descriptor {
    var verdict := VerdictOf(topology, t, transport);
    var id := IdOf(topology.name, t.outputType, transport, verdict);
    Descriptor(id, topology.name, t.outputType, transport, verdict, t)
  }

  /** The cases of one output type, in the order of the transports. */
  function CasesOfType(topology: Topology, t: Contract, transports: seq<string>): seq<Descriptor> {
    if transports == [] then []
    else
      var before := CasesOfType(topology, t, transports[..|transports| - 1]);
      var transport := transports[|transports| - 1];
      if Generated(topology, t, transport) then before + [Describe(topology, t, transport)] else before
  }

  function CasesOf(topology: Topology, types: seq<Contract>, transports: seq<string>): seq<Descriptor> {
    if types == [] then []
    else CasesOf(topology, types[..|types| - 1], transports) + CasesOfType(topology, types[|types| - 1], transports)
  }

  function Cases(topology: Topology): seq<Descriptor> {
    CasesOf(topology, DELIVERY_TYPES, TRANSPORTS)
  }

  method ClassifyType(topology: Topology, t: Contract, cases: seq<Descriptor>) returns (more: seq<Descriptor>)
    ensures more == cases + CasesOfType(topology, t, TRANSPORTS)
  {
    more := cases;
    ghost var added := [];
    var it := 0;
    while it < |TRANSPORTS|
      invariant 0 <= it <= |TRANSPORTS|
      invariant added == CasesOfType(topology, t, TRANSPORTS[..it]) && more == cases + added
    {
      var transport := TRANSPORTS[it];
      assert TRANSPORTS[..it + 1][..it] == TRANSPORTS[..it];
      it := it + 1;
      var allowed := transport in TypeAllowedTransports(t);
      var serverOk := transport in topology.serverAvailable;
      var clientOk := transport in topology.clientReachable;
      var usable := allowed && serverOk && clientOk;
      var verdict;
      if usable {
        verdict := Deliver;
      } else if !allowed {
        if topology.name != "local" {
          continue;
        }
        verdict := RejectType;
      } else if !serverOk {
        verdict := RejectServer;
      } else {
        verdict := RejectClient;
      }
      var id := IdOf(topology.name, t.outputType, transport, verdict);
      var descriptor := Descriptor(id, topology.name, t.outputType, transport, verdict, t);
      more := more + [descriptor];
      added := added + [descriptor];
    }
    assert TRANSPORTS[..it] == TRANSPORTS;
  }

  method GenerateDeliveryCases(topology: Topology) returns (cases: seq<Descriptor>)
    ensures cases == Cases(topology)
  {
    cases := [];
    for i := 0 to |DELIVERY_TYPES|
      invariant cases == CasesOf(topology, DELIVERY_TYPES[..i], TRANSPORTS)
    {
      assert DELIVERY_TYPES[..i + 1][..i] == DELIVERY_TYPES[..i];
      cases := ClassifyType(topology, DELIVERY_TYPES[i], cases);
    }
    assert DELIVERY_TYPES[..|DELIVERY_TYPES|] == DELIVERY_TYPES;
  }

  // ----- how many cases -----

  lemma TransportPrefixes()
    ensures |TRANSPORTS| == 4
    ensures TRANSPORTS[..4] == TRANSPORTS && TRANSPORTS[..4][..3] == TRANSPORTS[..3]
    ensures TRANSPORTS[..3][..2] == TRANSPORTS[..2] && TRANSPORTS[..2][..1] == TRANSPORTS[..1] &&
            TRANSPORTS[..1][..0] == []
  {
  }

  lemma AllowedNames(t: Contract)
    ensures TRANSPORTS[0] in TypeAllowedTransports(t) <==> t.isImage
    ensures TRANSPORTS[1] in TypeAllowedTransports(t)
    ensures TRANSPORTS[2] in TypeAllowedTransports(t)
    ensures TRANSPORTS[3] in TypeAllowedTransports(t)
    ensures forall x :: x in TypeAllowedTransports(t) ==> x in TRANSPORTS
  {
    assert "cuda"[0] == 'c' && "disk"[0] == 'd' && "http"[0] == 'h' && "shm"[0] == 's';
    assert TypeAllowedTransports(t)[|TypeAllowedTransports(t)| - 3] == "disk";
    assert TypeAllowedTransports(t)[|TypeAllowedTransports(t)| - 2] == "http";
    assert TypeAllowedTransports(t)[|TypeAllowedTransports(t)| - 1] == "shm";
    if t.isImage {
      assert TypeAllowedTransports(t)[0] == "cuda";
    }
  }

  lemma AddTransport(topology: Topology, t: Contract, n: nat)
    requires n < |TRANSPORTS|
    ensures |CasesOfType(topology, t, TRANSPORTS[..n + 1])|
            == |CasesOfType(topology, t, TRANSPORTS[..n])| + (if Generated(topology, t, TRANSPORTS[n]) then 1 else 0)
  {
    assert TRANSPORTS[..n + 1][..n] == TRANSPORTS[..n];
  }

  lemma CountOfType(topology: Topology, t: Contract)
    ensures |CasesOfType(topology, t, TRANSPORTS)| == if t.isImage || topology.name == "local" then 4 else 3
  {
    TransportPrefixes();
    AllowedNames(t);
    AddTransport(topology, t, 0);
    AddTransport(topology, t, 1);
    AddTransport(topology, t, 2);
    AddTransport(topology, t, 3);
  }

  function Images(types: seq<Contract>): nat {
    if types == [] then 0 else Images(types[..|types| - 1]) + (if types[|types| - 1].isImage then 1 else 0)
  }

  lemma {:induction false} CountOf(topology: Topology, types: seq<Contract>)
    ensures |CasesOf(topology, types, TRANSPORTS)|
            == if topology.name == "local" then 4 * |types| else 3 * |types| + Images(types)
  {
    if types != [] {
      CountOf(topology, types[..|types| - 1]);
      CountOfType(topology, types[|types| - 1]);
    }
  }

  lemma AddType(n: nat)
    requires n < |DELIVERY_TYPES|
    ensures Images(DELIVERY_TYPES[..n + 1]) ==
            Images(DELIVERY_TYPES[..n]) + (if DELIVERY_TYPES[n].isImage then 1 else 0)
  {
    assert DELIVERY_TYPES[..n + 1][..n] == DELIVERY_TYPES[..n];
  }

  lemma OneImageType()
    ensures |DELIVERY_TYPES| == 7 && Images(DELIVERY_TYPES) == 1
  {
    assert DELIVERY_TYPES[..0] == [];
    AddType(0);
    AddType(1);
    AddType(2);
    AddType(3);
    AddType(4);
    AddType(5);
    AddType(6);
    assert DELIVERY_TYPES[..7] == DELIVERY_TYPES;
  }

  /** Whatever the two lists of a topology hold, the local one has 28 cases and every other one 22. */
  lemma CaseCount(topology: Topology)
    ensures |Cases(topology)| == if topology.name == "local" then 28 else 22
  {
    CountOf(topology, DELIVERY_TYPES);
    OneImageType();
  }

  // ----- which cases -----

  /** The description of a triple from the two lists that is not skipped. */
  predicate IsCase(topology: Topology, d: Descriptor, types: seq<Contract>, transports: seq<string>) {
    && d.contract in types && d.transport in transports
    && Generated(topology, d.contract, d.transport)
    && d == Describe(topology, d.contract, d.transport)
  }

  lemma {:induction false} MembersOfType(topology: Topology, t: Contract, transports: seq<string>, d: Descriptor)
    ensures d in CasesOfType(topology, t, transports) <==> IsCase(topology, d, [t], transports)
  {
    if transports != [] {
      var n := |transports| - 1;
      MembersOfType(topology, t, transports[..n], d);
      assert d.transport in transports <==> d.transport in transports[..n] || d.transport == transports[n];
    }
  }

  /** The generated cases are exactly the described triples that are not skipped. */
  lemma {:induction false} Members(topology: Topology, types: seq<Contract>, transports: seq<string>, d: Descriptor)
    ensures d in CasesOf(topology, types, transports) <==> IsCase(topology, d, types, transports)
  {
    if types != [] {
      var n := |types| - 1;
      Members(topology, types[..n], transports, d);
      MembersOfType(topology, types[n], transports, d);
      assert d.contract in types <==> d.contract in types[..n] || d.contract == types[n];
    }
  }

  // ----- verdicts agree with the negotiation -----

  predicate Canonical(names: seq<string>) {
    forall i :: 0 <= i < |names| ==> names[i] in TRANSPORTS
  }

  lemma CanonicalIsClean(name: string)
    requires name in TRANSPORTS
    ensures Clean(name) == name && Lowered(name) == name && name != ""
  {
    assert IsLower(name) && Bare(name) && name != "";
    BareIsTrimmed(name);
    LowerIsLowered(name);
  }

  lemma CanonicalLists(names: seq<string>, name: string)
    requires Canonical(names)
    ensures Lists(names, name) <==> name in names
  {
    forall i | 0 <= i < |names|
      ensures Clean(names[i]) == names[i]
    {
      CanonicalIsClean(names[i]);
    }
    if name in names {
      var i :| 0 <= i < |names| && names[i] == name;
      assert Clean(names[i]) == name;
    }
  }

  lemma {:induction false} UsableFromMembers(allowed: seq<string>, server: seq<string>, client: seq<string>)
    ensures forall x :: x in UsableFrom(allowed, server, client) <==> x in allowed && x in server && x in client
  {
    if allowed != [] {
      UsableFromMembers(allowed[..|allowed| - 1], server, client);
      assert forall x :: x in allowed <==> x in allowed[..|allowed| - 1] || x == allowed[|allowed| - 1];
    }
  }

  function HardRequestFor(topology: Topology, t: Contract, transport: string): Request {
    Request(TypeAllowedTransports(t), topology.serverAvailable, topology.clientReachable, [], transport)
  }

  /** On canonical names a case is to be delivered exactly when the independently written usable set
      holds its transport, and exactly when the negotiation honours a hard request for it. */
  lemma VerdictAgreesWithSelection(topology: Topology, t: Contract, transport: string)
    requires Canonical(topology.serverAvailable) && Canonical(topology.clientReachable) && transport in TRANSPORTS
    ensures VerdictOf(topology, t, transport) == Deliver <==>
            transport in UsableFrom(TypeAllowedTransports(t), topology.serverAvailable, topology.clientReachable)
    ensures VerdictOf(topology, t, transport) == Deliver <==> Select(HardRequestFor(topology, t, transport)).ok
    ensures VerdictOf(topology, t, transport) == Deliver ==>
            Select(HardRequestFor(topology, t, transport)).transport == transport
  {
    var allowed := TypeAllowedTransports(t);
    UsableFromMembers(allowed, topology.serverAvailable, topology.clientReachable);
    AllowedNames(t);
    assert Canonical(allowed);
    CanonicalIsClean(transport);
    CanonicalLists(allowed, transport);
    CanonicalLists(topology.serverAvailable, transport);
    CanonicalLists(topology.clientReachable, transport);
    HardRequest(HardRequestFor(topology, t, transport));
  }

  /** Every generated case: the verdict is the negotiation's answer, a rejection names the first axis
      that excludes the transport, and exclusion by type appears in the local topology only. */
  lemma GeneratedVerdicts(topology: Topology, d: Descriptor)
    requires Canonical(topology.serverAvailable) && Canonical(topology.clientReachable)
    requires d in Cases(topology)
    ensures d.contract in DELIVERY_TYPES && d.outputType == d.contract.outputType && d.transport in TRANSPORTS
    ensures d.verdict == Deliver <==> Select(HardRequestFor(topology, d.contract, d.transport)).ok
    ensures var allowed := TypeAllowedTransports(d.contract);
            && (d.verdict == RejectType <==> d.transport !in allowed)
            && (d.verdict == RejectServer <==> d.transport in allowed && d.transport !in topology.serverAvailable)
            && (d.verdict == RejectClient <==> d.transport in allowed && d.transport in topology.serverAvailable &&
                                               d.transport !in topology.clientReachable)
    ensures d.verdict == RejectType ==> topology.name == "local"
  {
    Members(topology, DELIVERY_TYPES, TRANSPORTS, d);
    VerdictAgreesWithSelection(topology, d.contract, d.transport);
  }

  /** No triple is forgotten: each allowed one has its case in every topology, and each excluded by
      type has it in the local one. */
  lemma EveryTripleCovered(topology: Topology, t: Contract, transport: string)
    requires t in DELIVERY_TYPES && transport in TRANSPORTS
    requires transport in TypeAllowedTransports(t) || topology.name == "local"
    ensures Describe(topology, t, transport) in Cases(topology)
  {
    Members(topology, DELIVERY_TYPES, TRANSPORTS, Describe(topology, t, transport));
  }

  // ----- ids -----

  lemma FirstPiece(a: string, x: string, b: string, y: string)
    requires '.' !in a && '.' !in b && a + "." + x == b + "." + y
    ensures a == b && x == y
  {
    IndexOfConcat(a, '.', x);
    IndexOfConcat(b, '.', y);
    assert (a + "." + x)[..|a|] == a && (b + "." + y)[..|b|] == b;
    assert (a + "." + x)[|a| + 1..] == x && (b + "." + y)[|b| + 1..] == y;
  }

  lemma SameIdSameTriple(topology: string, a: string, p: string, v: Verdict, b: string, q: string, w: Verdict)
    requires '.' !in a && '.' !in b && '.' !in p && '.' !in q
    requires IdOf(topology, a, p, v) == IdOf(topology, b, q, w)
    ensures a == b && p == q
  {
    var x, y := a + "." + (p + "." + VerdictName(v)), b + "." + (q + "." + VerdictName(w));
    var n := |topology| + 1;
    assert (topology + "." + x)[n..] == x && (topology + "." + y)[n..] == y;
    FirstPiece(a, p + "." + VerdictName(v), b, q + "." + VerdictName(w));
    FirstPiece(p, VerdictName(v), q, VerdictName(w));
  }

  ghost predicate DistinctIds(cases: seq<Descriptor>) {
    forall i, j :: 0 <= i < j < |cases| ==> cases[i].id != cases[j].id
  }

  ghost predicate DistinctTypes(types: seq<Contract>) {
    && (forall i :: 0 <= i < |types| ==> '.' !in types[i].outputType)
    && forall i, j :: 0 <= i < j < |types| ==> types[i].outputType != types[j].outputType
  }

  ghost predicate DistinctNames(names: seq<string>) {
    (forall i :: 0 <= i < |names| ==> '.' !in names[i]) && NoDuplicates(names)
  }

  lemma SameIdSameCase(topology: Topology, d: Descriptor, types: seq<Contract>, e: Descriptor, t: Contract,
                       transports: seq<string>)
    requires IsCase(topology, d, types, transports) && IsCase(topology, e, [t], transports) && d.id == e.id
    requires DistinctNames(transports) && '.' !in t.outputType
    requires forall i :: 0 <= i < |types| ==> '.' !in types[i].outputType
    ensures d.outputType == e.outputType && d.transport == e.transport
  {
    SameIdSameTriple(topology.name, d.outputType, d.transport, d.verdict, e.outputType, e.transport, e.verdict);
  }

  lemma {:induction false} IdsOfType(topology: Topology, t: Contract, transports: seq<string>)
    requires '.' !in t.outputType && DistinctNames(transports)
    ensures DistinctIds(CasesOfType(topology, t, transports))
  {
    if transports != [] {
      var n := |transports| - 1;
      var before := CasesOfType(topology, t, transports[..n]);
      var last := Describe(topology, t, transports[n]);
      IdsOfType(topology, t, transports[..n]);
      forall k | 0 <= k < |before|
        ensures before[k].id != last.id
      {
        MembersOfType(topology, t, transports[..n], before[k]);
        if before[k].id == last.id {
          SameIdSameTriple(topology.name, t.outputType, before[k].transport, before[k].verdict,
                           t.outputType, last.transport, last.verdict);
        }
      }
    }
  }

  lemma {:induction false} IdsOf(topology: Topology, types: seq<Contract>, transports: seq<string>)
    requires DistinctTypes(types) && DistinctNames(transports)
    ensures DistinctIds(CasesOf(topology, types, transports))
  {
    if types != [] {
      var n := |types| - 1;
      var before, added := CasesOf(topology, types[..n], transports), CasesOfType(topology, types[n], transports);
      IdsOf(topology, types[..n], transports);
      IdsOfType(topology, types[n], transports);
      forall k, l | 0 <= k < |before| && 0 <= l < |added|
        ensures before[k].id != added[l].id
      {
        Members(topology, types[..n], transports, before[k]);
        MembersOfType(topology, types[n], transports, added[l]);
        if before[k].id == added[l].id {
          SameIdSameCase(topology, before[k], types[..n], added[l], types[n], transports);
        }
      }
    }
  }

  /** All ids of a topology are different, whatever its name and its two lists. */
  lemma IdsAreDistinct(topology: Topology)
    ensures DistinctIds(Cases(topology))
  {
    TypesAreDistinct();
    TransportsAreDistinct();
    IdsOf(topology, DELIVERY_TYPES, TRANSPORTS);
  }

  lemma TransportsAreDistinct()
    ensures DistinctNames(TRANSPORTS)
  {
    assert forall i :: 0 <= i < |TRANSPORTS| ==> TRANSPORTS[i][0] == "cdhs"[i];
  }

  lemma TypeNames()
    ensures |DELIVERY_TYPES| == 7
    ensures DELIVERY_TYPES[0].outputType == "image" && DELIVERY_TYPES[1].outputType == "audio"
    ensures DELIVERY_TYPES[2].outputType == "video" && DELIVERY_TYPES[3].outputType == "file_3d"
    ensures DELIVERY_TYPES[4].outputType == "mesh" && DELIVERY_TYPES[5].outputType == "load3d_camera"
    ensures DELIVERY_TYPES[6].outputType == "file_path"
  {
  }

  lemma NoDots()
    ensures '.' !in "image" && '.' !in "audio" && '.' !in "video" && '.' !in "file_3d"
    ensures '.' !in "mesh" && '.' !in "load3d_camera" && '.' !in "file_path"
  {
  }

  /** Two types that begin with the same letter differ in length. */
  lemma NamesDiffer()
    ensures forall i, j :: 0 <= i < j < |DELIVERY_TYPES| ==>
              DELIVERY_TYPES[i].outputType != DELIVERY_TYPES[j].outputType
  {
    TypeNames();
    var letters, lengths := "iavfmlf", [5, 5, 5, 7, 4, 13, 9];
    forall i | 0 <= i < |DELIVERY_TYPES|
      ensures DELIVERY_TYPES[i].outputType[..1] == [letters[i]] && |DELIVERY_TYPES[i].outputType| == lengths[i]
    {
    }
    assert forall i, j :: 0 <= i < j < 7 ==> letters[i] != letters[j] || lengths[i] != lengths[j];
  }

  lemma TypesAreDistinct()
    ensures DistinctTypes(DELIVERY_TYPES)
  {
    TypeNames();
    NoDots();
    NamesDiffer();
  }
}
