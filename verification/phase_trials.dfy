/** What a delivery phase runs, by the names of its transports, parts, cases and images. */
module PhaseTrials {
  import opened Concatenation
  import opened Selection
  import opened StringOrder
  import opened Transports
  import opened DeliveryCases
  import opened CaseOutcome
  import opened CaseFiles
  import opened FileDelivery
  import opened CudaDelivery
  import opened DeliverySuite

  // ----- what the two sides offer -----

  lemma {:induction false} CommonInOrder(first: seq<string>, second: seq<string>)
    requires forall i, j :: 0 <= i < j < |first| ==> Precedes(first[i], first[j])
    ensures forall i, j :: 0 <= i < j < |Common(first, second)| ==>
            Precedes(Common(first, second)[i], Common(first, second)[j])
  {
    if first != [] {
      var n := |first| - 1;
      var before := Common(first[..n], second);
      CommonInOrder(first[..n], second);
      CommonMembers(first[..n], second);
      forall i | 0 <= i < |before| ensures Precedes(before[i], first[n]) {
        assert before[i] in first[..n];
      }
    }
  }

  /** The server offers those of the four names that it advertises, each once and in the order of their letters. */
  lemma AdvertisedExactly(s: Setup)
    ensures forall x :: x in ServerTransports(s) <==> x in {"cuda", "disk", "http", "shm"} && x in s.advertised
    ensures forall i, j :: 0 <= i < j < |ServerTransports(s)| ==>
            Precedes(ServerTransports(s)[i], ServerTransports(s)[j])
  {
    CommonMembers(TRANSPORTS, s.advertised);
    assert TRANSPORTS[0] == "cuda" && TRANSPORTS[1] == "disk" && TRANSPORTS[2] == "http" && TRANSPORTS[3] == "shm";
    forall i, j | 0 <= i < j < |TRANSPORTS| ensures Precedes(TRANSPORTS[i], TRANSPORTS[j]) {
      assert TRANSPORTS[i][0] == "cdhs"[i] && TRANSPORTS[j][0] == "cdhs"[j];
    }
    CommonInOrder(TRANSPORTS, s.advertised);
  }

  /** What a client reaches: everything but shared memory on the same machine, and that when it can be opened; http over
      the net, and disk over a route that client and server both name. */
  predicate Reaches(s: Setup, named: bool, x: string) {
    || x == "http"
    || (s.local && (x == "cuda" || x == "disk" || (x == "shm" && s.shmReachable)))
    || (!s.local && named && x == "disk" && s.namedRouteId != "" && s.clientRoot != "" && s.namedRouteId in s.routeIds)
  }

  lemma ReachableExactly(s: Setup, named: bool, x: string)
    ensures x in ClientReachable(s, named) <==> Reaches(s, named, x)
  {
  }

  // ----- what a trial is -----

  /** The name a part's ids begin with. */
  function PartName(local: bool, named: bool): string {
    if local then "local" else if named then "remote-route-disk" else "remote-http"
  }

  function Digit(n: nat): string
    requires n < 10
  {
    ["0123456789"[n]]
  }

  /** The id of the n-th image over a transport. */
  ghost predicate IsImageId(id: string, part: string, transport: string, n: nat) {
    1 <= n <= 8 && id == part + ".image." + transport + ".benchmark-4k-" + Digit(n)
  }

  /** The image contract with the n-th image in place of the small one. */
  ghost predicate IsImageContract(c: Contract, n: nat) {
    && 1 <= n <= 8 && c.fixtureFile == "benchmark-4k-" + Digit(n) + ".bmp"
    && c.(fixtureFile := "image.png") in DELIVERY_TYPES && c.outputType == "image"
  }

  ghost predicate IsFileCase(s: Setup, c: FileCase) {
    && c.serverAvailable == ServerTransports(s)
    && (forall x :: x in c.clientReachable <==> Reaches(s, c.useNamedRouteDisk, x))
    && c.namedRouteId == s.namedRouteId && c.clientRoot == s.clientRoot
    && c.transport in {"disk", "http", "shm"}
    && (c.useNamedRouteDisk ==> !s.local && c.transport == "disk")
    && var part := PartName(s.local, c.useNamedRouteDisk);
       if c.benchmark then
         s.benchmarks && exists n :: IsImageId(c.caseId, part, c.transport, n) && IsImageContract(c.contract, n)
       else
         c.contract in DELIVERY_TYPES && c.caseId == part + "." + c.contract.outputType + "." + c.transport + ".deliver"
  }

  ghost predicate IsCudaCase(s: Setup, c: CudaCase) {
    && s.local
    && c.serverAvailable == ServerTransports(s) && c.clientReachable == ["cuda", "disk", "http"]
    && c.featuresDevice == s.featuresDevice && c.readerPresent == s.readerPresent
    && c.ratio == s.ratio && c.one == s.one
    && if c.index == 0 then c.caseId == "local.image.cuda.deliver"
       else s.benchmarks && IsImageId(c.caseId, "local", "cuda", c.index)
  }

  ghost predicate IsRejection(s: Setup, d: Descriptor, r: Request) {
    && d.contract in DELIVERY_TYPES && r.required == d.transport && r.preferenceOrder == []
    && (forall x :: x in r.typeAllowed <==>
          x in {"disk", "http", "shm"} || (x == "cuda" && d.contract.outputType == "image"))
    && r.serverAvailable == ServerTransports(s)
    && (if s.local then forall x :: x in r.clientReachable <==> Reaches(s, false, x)
        else if d.topology == "remote-route-disk" then r.clientReachable == ["disk", "http"]
        else r.clientReachable == ["http"])
    && (d.topology == if s.local then "local" else if d.topology == "remote-route-disk" then d.topology
        else "remote-http")
    && (d.topology == "remote-route-disk" ==> d.transport == "disk")
    && exists answer :: answer in {"reject-type", "reject-server", "reject-client"} &&
         d.id == d.topology + "." + d.contract.outputType + "." + d.transport + "." + answer
  }

  /** A case is skipped when the route it needs is not named on both sides. */
  ghost predicate IsSkipped(s: Setup, d: Descriptor, reason: string) {
    && !s.local && reason == "named_route_unsupported" && d.topology == "remote-route-disk" && d.transport == "disk"
    && (s.namedRouteId == "" || s.clientRoot == "" || s.namedRouteId !in s.routeIds)
  }

  ghost predicate Belongs(s: Setup, t: Trial) {
    match t
    case ProbeTrial(reachable) => s.local && (reachable <==> s.shmReachable && "shm" in s.advertised)
    case FileTrial(c) => IsFileCase(s, c)
    case CudaTrial(c) => IsCudaCase(s, c)
    case RejectTrial(d, r) => IsRejection(s, d, r)
    case SkipTrial(d, reason) => IsSkipped(s, d, reason)
  }

  lemma PartIs(s: Setup, p: Part)
    requires IsPart(s, p)
    ensures p.topology.name == PartName(s.local, p.named) && (p.named ==> !s.local)
    ensures p.topology.serverAvailable == ServerTransports(s)
    ensures s.local ==> p.topology.clientReachable == ClientReachable(s, false)
    ensures !s.local ==> p.topology.clientReachable == if p.named then ["disk", "http"] else ["http"]
    ensures p.skipReason == if p.named && !RouteConfigured(s) then "named_route_unsupported" else ""
  {
  }

  lemma AllowedExactly(t: Contract, x: string)
    requires t in DELIVERY_TYPES
    ensures x in TypeAllowedTransports(t) <==> x in {"disk", "http", "shm"} || (x == "cuda" && t.outputType == "image")
  {
    var i :| 0 <= i < |DELIVERY_TYPES| && DELIVERY_TYPES[i] == t;
  }

  lemma IdGroups(a: string, b: string, c: string, d: string)
    ensures a + "." + b + "." + c + "." + d == a + "." + (b + "." + (c + "." + d))
  {
  }

  /** A delivered case's transport is one that both sides offer: CUDA for local images only. */
  lemma DeliveredOver(s: Setup, p: Part, d: Descriptor)
    requires IsPart(s, p) && d in Cases(p.topology) && d.verdict == Deliver && !(p.named && d.transport != "disk")
    ensures d.contract in DELIVERY_TYPES && d.outputType == d.contract.outputType
    ensures d.transport in {"cuda", "disk", "http", "shm"}
    ensures d.transport == "cuda" ==> s.local && d.outputType == "image"
    ensures d.id == PartName(s.local, p.named) + "." + d.outputType + "." + d.transport + ".deliver"
  {
    Members(p.topology, DELIVERY_TYPES, TRANSPORTS, d);
    PartIs(s, p);
    AllowedExactly(d.contract, d.transport);
    IdGroups(p.topology.name, d.outputType, d.transport, "deliver");
    Joined(p.topology.name + "." + d.outputType + "." + d.transport);
  }

  lemma Joined(front: string)
    ensures front + "." + "deliver" == front + ".deliver"
  {
    assert "." + "deliver" == ".deliver";
  }

  lemma FileCaseIs(s: Setup, p: Part, id: string, contract: Contract, transport: string, benchmark: bool)
    requires IsPart(s, p) && p.skipReason == "" && transport in {"disk", "http", "shm"}
    requires p.named ==> transport == "disk"
    requires var part := PartName(s.local, p.named);
             if benchmark then s.benchmarks && exists n ::
                 IsImageId(id, part, transport, n) && IsImageContract(contract, n)
             else contract in DELIVERY_TYPES && id == part + "." + contract.outputType + "." + transport + ".deliver"
    ensures IsFileCase(s, FileCaseOf(s, p.named, id, contract, transport, benchmark))
  {
    PartIs(s, p);
    var c := FileCaseOf(s, p.named, id, contract, transport, benchmark);
    forall x ensures x in c.clientReachable <==> Reaches(s, c.useNamedRouteDisk, x) {
      ReachableExactly(s, p.named, x);
    }
  }

  lemma CaseBelongs(s: Setup, p: Part, d: Descriptor)
    requires IsPart(s, p) && d in Cases(p.topology) && !(p.named && d.transport != "disk")
    ensures Belongs(s, CaseTrial(s, p, d))
  {
    PartIs(s, p);
    if p.skipReason != "" {
      Members(p.topology, DELIVERY_TYPES, TRANSPORTS, d);
    } else if d.verdict != Deliver {
      RejectionIs(s, p, d);
    } else {
      DeliveredOver(s, p, d);
      if d.transport != "cuda" {
        FileCaseIs(s, p, d.id, d.contract, d.transport, false);
      } else {
        CudaId(d.id, PartName(s.local, p.named), d.outputType, d.transport);
      }
    }
  }

  lemma CudaId(id: string, part: string, outputType: string, transport: string)
    requires id == part + "." + outputType + "." + transport + ".deliver"
    requires part == "local" && outputType == "image" && transport == "cuda"
    ensures id == "local.image.cuda.deliver"
  {
  }

  lemma RejectionIs(s: Setup, p: Part, d: Descriptor)
    requires IsPart(s, p) && d in Cases(p.topology) && !(p.named && d.transport != "disk") && d.verdict != Deliver
    ensures IsRejection(s, d, HardRequestFor(p.topology, d.contract, d.transport))
  {
    PartIs(s, p);
    Members(p.topology, DELIVERY_TYPES, TRANSPORTS, d);
    forall x ensures x in TypeAllowedTransports(d.contract) <==>
                     x in {"disk", "http", "shm"} || (x == "cuda" && d.contract.outputType == "image")
    {
      AllowedExactly(d.contract, x);
    }
    forall x ensures x in ClientReachable(s, false) <==> Reaches(s, false, x) {
      ReachableExactly(s, false, x);
    }
    var answer := VerdictName(d.verdict);
    assert answer in {"reject-type", "reject-server", "reject-client"};
    IdGroups(p.topology.name, d.outputType, d.transport, answer);
    assert "remote-http" != "remote-route-disk" by {
      assert |"remote-http"| != |"remote-route-disk"|;
    }
  }

  lemma DigitIs(n: nat)
    requires n < 10
    ensures Digit(n) == [('0' as int + n) as char]
  {
  }

  lemma BenchmarkBelongs(s: Setup, p: Part, d: Descriptor, n: nat)
    requires IsPart(s, p) && d in Cases(p.topology) && Benchmarked(s, p, d) && 1 <= n <= 8
    ensures Belongs(s, BenchmarkTrial(s, p, d, n))
  {
    PartIs(s, p);
    DeliveredOver(s, p, d);
    DigitIs(n);
    var id := BenchmarkId(p, d.transport, n);
    assert IsImageId(id, PartName(s.local, p.named), d.transport, n);
    if d.transport != "cuda" {
      var contract := d.contract.(fixtureFile := FixtureFile(n));
      ImageContract(d.contract, n);
      FileCaseIs(s, p, id, contract, d.transport, true);
    }
  }

  lemma ImageContract(c: Contract, n: nat)
    requires c in DELIVERY_TYPES && c.outputType == "image" && 1 <= n <= 8
    ensures IsImageContract(c.(fixtureFile := FixtureFile(n)), n)
  {
    DigitIs(n);
    var i :| 0 <= i < |DELIVERY_TYPES| && DELIVERY_TYPES[i] == c;
    assert c.fixtureFile == "image.png";
    assert c.(fixtureFile := "image.png") == c;
  }

  lemma {:induction false} FromBenchmarks(s: Setup, p: Part, d: Descriptor, m: nat, t: Trial)
    requires m < 10
    ensures t in Benchmarks(s, p, d, m) <==> exists n :: 1 <= n <= m && t == BenchmarkTrial(s, p, d, n)
  {
    if m > 0 {
      FromBenchmarks(s, p, d, m - 1, t);
    }
  }

  lemma {:induction false} FromAllBenchmarks(s: Setup, p: Part, cases: seq<Descriptor>, t: Trial)
    requires t in AllBenchmarks(s, p, cases)
    ensures exists d :: d in cases && Benchmarked(s, p, d) && t in BenchmarksOf(s, p, d)
  {
    var n := |cases| - 1;
    if t in AllBenchmarks(s, p, cases[..n]) {
      FromAllBenchmarks(s, p, cases[..n], t);
    } else {
      assert cases[n] in cases && t in BenchmarksOf(s, p, cases[n]);
    }
  }

  lemma PartBelongs(s: Setup, p: Part, t: Trial)
    requires IsPart(s, p) && t in PartTrials(s, p)
    ensures Belongs(s, t)
  {
    var cases := Cases(p.topology);
    if t in AllBenchmarks(s, p, cases) {
      FromAllBenchmarks(s, p, cases, t);
      var d :| d in cases && Benchmarked(s, p, d) && t in BenchmarksOf(s, p, d);
      FromBenchmarks(s, p, d, IMAGES, t);
      var n :| 1 <= n <= IMAGES && t == BenchmarkTrial(s, p, d, n);
      BenchmarkBelongs(s, p, d, n);
    } else {
      TrialsFromCases(s, p, cases, t);
      var d :| d in cases && t in TrialsOf(s, p, d);
      CaseBelongs(s, p, d);
    }
  }

  /** Every trial of a phase is one of its kinds, with all that it is run with. */
  lemma EveryTrialBelongs(s: Setup, t: Trial)
    requires t in Trials(s)
    ensures Belongs(s, t)
  {
    if s.local {
      AdvertisedExactly(s);
      if t != ProbeTrial(s.shmReachable && "shm" in ServerTransports(s)) {
        PartBelongs(s, LocalPart(s), t);
      }
    } else if t in PartTrials(s, HttpPart(s)) {
      PartBelongs(s, HttpPart(s), t);
    } else {
      PartBelongs(s, RoutePart(s), t);
    }
  }

  // ----- where a trial stands -----

  /** Over a named route only the cases on disk are run. */
  function IsTried(p: Part): Descriptor -> bool {
    (d: Descriptor) => p.named ==> d.transport == "disk"
  }

  function TrialFor(s: Setup, p: Part): Descriptor -> Trial {
    (d: Descriptor) => CaseTrial(s, p, d)
  }

  /** The trials of the cases come in the order of the cases. */
  lemma {:induction false} TrialsPicked(s: Setup, p: Part, cases: seq<Descriptor>)
    ensures Picks(cases, IsTried(p), TrialFor(s, p), AllTrials(s, p, cases))
  {
    if cases == [] {
      PicksNone(IsTried(p), TrialFor(s, p));
    } else {
      var k := |cases| - 1;
      TrialsPicked(s, p, cases[..k]);
      PicksLast(cases, IsTried(p), TrialFor(s, p), AllTrials(s, p, cases[..k]));
      LastTrial(s, p, cases[k]);
    }
  }

  lemma LastTrial(s: Setup, p: Part, d: Descriptor)
    ensures TrialsOf(s, p, d) == if IsTried(p)(d) then [TrialFor(s, p)(d)] else []
  {
  }

  /** A trial with one of the eight images. */
  predicate IsBenchmark(t: Trial) {
    (t.FileTrial? && t.file.benchmark) || (t.CudaTrial? && t.cuda.index != 0)
  }

  lemma {:induction false} EightInOrder(s: Setup, p: Part, d: Descriptor, m: nat)
    requires m < 10
    ensures |Benchmarks(s, p, d, m)| == m
    ensures forall n :: 1 <= n <= m ==> Benchmarks(s, p, d, m)[n - 1] == BenchmarkTrial(s, p, d, n)
  {
    if m > 0 {
      EightInOrder(s, p, d, m - 1);
    }
  }

  /** Images are measured when asked for, over the transports that both sides offer, on a part that is not skipped. */
  function IsMeasured(s: Setup, p: Part): Descriptor -> bool {
    (d: Descriptor) => s.benchmarks && p.skipReason == "" && d.outputType == "image" && d.verdict == Deliver &&
                       (p.named ==> d.transport == "disk")
  }

  /** Each of the given cases is measured with the eight images in order before the next one is. */
  ghost predicate HasEightOfEach(s: Setup, p: Part, trials: seq<Trial>, measured: seq<Descriptor>) {
    && |trials| == 8 * |measured|
    && forall q :: 0 <= q < |measured| ==> HasEightAt(s, p, trials, 8 * q, measured[q])
  }

  ghost predicate HasEightAt(s: Setup, p: Part, trials: seq<Trial>, place: int, d: Descriptor) {
    && 0 <= place && place + 8 <= |trials|
    && forall n :: 1 <= n <= 8 ==> trials[place + (n - 1)] == BenchmarkTrial(s, p, d, n)
  }

  lemma NextEight(s: Setup, p: Part, trials: seq<Trial>, measured: seq<Descriptor>, d: Descriptor)
    requires HasEightOfEach(s, p, trials, measured)
    ensures HasEightOfEach(s, p, trials + Benchmarks(s, p, d, IMAGES), measured + [d])
  {
    var eight := Benchmarks(s, p, d, IMAGES);
    EightInOrder(s, p, d, IMAGES);
    forall q | 0 <= q < |measured| + 1 ensures HasEightAt(s, p, trials + eight, 8 * q, (measured + [d])[q]) {
      if q < |measured| {
        assert HasEightAt(s, p, trials, 8 * q, measured[q]);
      }
    }
  }

  /** The measured cases are run in their order, each with the eight images. */
  lemma {:induction false} BenchmarksPicked(s: Setup, p: Part, cases: seq<Descriptor>)
    returns (measured: seq<Descriptor>)
    ensures Picks(cases, IsMeasured(s, p), Same, measured)
    ensures HasEightOfEach(s, p, AllBenchmarks(s, p, cases), measured)
  {
    measured := [];
    if cases == [] {
      PicksNone(IsMeasured(s, p), Same);
    } else {
      var k := |cases| - 1;
      var before := BenchmarksPicked(s, p, cases[..k]);
      PicksLast(cases, IsMeasured(s, p), Same, before);
      measured := before + if IsMeasured(s, p)(cases[k]) then [cases[k]] else [];
      if IsMeasured(s, p)(cases[k]) {
        NextEight(s, p, AllBenchmarks(s, p, cases[..k]), before, cases[k]);
      } else {
        NothingAfter(before);
        NothingAfter(AllBenchmarks(s, p, cases[..k]));
      }
    }
  }

  /** All measurements of a part come before its other trials. */
  lemma MeasuredFirst(s: Setup, p: Part, i: nat)
    requires i < |PartTrials(s, p)|
    ensures IsBenchmark(PartTrials(s, p)[i]) <==> i < |AllBenchmarks(s, p, Cases(p.topology))|
  {
    var cases := Cases(p.topology);
    var measured := AllBenchmarks(s, p, cases);
    if i < |measured| {
      assert measured[i] in measured;
      FromAllBenchmarks(s, p, cases, measured[i]);
      var d :| d in cases && Benchmarked(s, p, d) && measured[i] in BenchmarksOf(s, p, d);
      FromBenchmarks(s, p, d, IMAGES, measured[i]);
    } else {
      var t := AllTrials(s, p, cases)[i - |measured|];
      assert t in AllTrials(s, p, cases);
      TrialsFromCases(s, p, cases, t);
    }
  }

  /** Every image is sent over every transport that server and client offer for images, with an asset root given
      and the part not skipped; a named route carries disk alone. */
  lemma EveryImageRuns(s: Setup, p: Part, transport: string, n: nat)
    requires IsPart(s, p) && p.skipReason == "" && s.benchmarks && 1 <= n <= 8
    requires transport in {"cuda", "disk", "http", "shm"} && (p.named ==> transport == "disk")
    requires transport in p.topology.serverAvailable && transport in p.topology.clientReachable
    ensures exists t :: t in PartTrials(s, p) && IsBenchmark(t) &&
              IsImageId(TrialId(t), PartName(s.local, p.named), transport, n)
  {
    var d := ImageCase(p.topology, transport);
    var t := BenchmarkTrial(s, p, d, n);
    MeasuredRuns(s, p, d, n);
    PartIs(s, p);
    DigitIs(n);
    assert IsImageId(TrialId(t), PartName(s.local, p.named), transport, n);
  }

  lemma MeasuredRuns(s: Setup, p: Part, d: Descriptor, n: nat)
    requires d in Cases(p.topology) && Benchmarked(s, p, d) && 1 <= n <= 8
    ensures BenchmarkTrial(s, p, d, n) in PartTrials(s, p)
  {
    var cases, t := Cases(p.topology), BenchmarkTrial(s, p, d, n);
    FromBenchmarks(s, p, d, IMAGES, t);
    var k :| 0 <= k < |cases| && cases[k] == d;
    InAllBenchmarks(s, p, cases, k, t);
  }

  lemma ImageCase(topology: Topology, transport: string) returns (d: Descriptor)
    requires transport in {"cuda", "disk", "http", "shm"}
    requires transport in topology.serverAvailable && transport in topology.clientReachable
    ensures d in Cases(topology) && d.outputType == "image" && d.transport == transport && d.verdict == Deliver
  {
    var contract := ImageType();
    AllowedExactly(contract, transport);
    AllowedNames(contract);
    d := Describe(topology, contract, transport);
    EveryTripleCovered(topology, contract, transport);
  }

  lemma ImageType() returns (t: Contract)
    ensures t in DELIVERY_TYPES && t.outputType == "image"
  {
    t := DELIVERY_TYPES[0];
  }

  lemma {:induction false} InAllBenchmarks(s: Setup, p: Part, cases: seq<Descriptor>, k: nat, t: Trial)
    requires k < |cases| && t in BenchmarksOf(s, p, cases[k])
    ensures t in AllBenchmarks(s, p, cases)
  {
    if k < |cases| - 1 {
      InAllBenchmarks(s, p, cases[..|cases| - 1], k, t);
    }
  }

  predicate IsOverRoute(t: Trial) {
    match t
    case FileTrial(c) => c.useNamedRouteDisk
    case RejectTrial(d, _) => d.topology == "remote-route-disk"
    case SkipTrial(d, _) => d.topology == "remote-route-disk"
    case _ => false
  }

  lemma RouteOfPart(s: Setup, p: Part, t: Trial)
    requires IsPart(s, p) && !s.local && t in PartTrials(s, p)
    ensures IsOverRoute(t) <==> p.named
  {
    var cases := Cases(p.topology);
    if t in AllBenchmarks(s, p, cases) {
      FromAllBenchmarks(s, p, cases, t);
      var d :| d in cases && Benchmarked(s, p, d) && t in BenchmarksOf(s, p, d);
      FromBenchmarks(s, p, d, IMAGES, t);
      RouteOfCase(s, p, d);
    } else {
      TrialsFromCases(s, p, cases, t);
      var d :| d in cases && t in TrialsOf(s, p, d);
      RouteOfCase(s, p, d);
    }
  }

  lemma RouteOfCase(s: Setup, p: Part, d: Descriptor)
    requires IsPart(s, p) && !s.local && d in Cases(p.topology) && !(p.named && d.transport != "disk")
    ensures IsOverRoute(CaseTrial(s, p, d)) <==> p.named
    ensures d.verdict == Deliver ==> d.transport != "cuda"
  {
    PartIs(s, p);
    Members(p.topology, DELIVERY_TYPES, TRANSPORTS, d);
    assert |"remote-http"| != |"remote-route-disk"|;
    if d.verdict == Deliver {
      DeliveredOver(s, p, d);
    }
  }

  /** A remote phase runs everything over http before anything over a named route. */
  lemma RoutesLast(s: Setup, i: nat, j: nat)
    requires !s.local && i < j < |Trials(s)| && IsOverRoute(Trials(s)[i])
    ensures IsOverRoute(Trials(s)[j])
  {
    var first, last := PartTrials(s, HttpPart(s)), PartTrials(s, RoutePart(s));
    if i < |first| {
      RouteOfPart(s, HttpPart(s), Trials(s)[i]);
    } else {
      assert Trials(s)[j] == last[j - |first|];
      RouteOfPart(s, RoutePart(s), Trials(s)[j]);
    }
  }

  // ----- what the records say -----

  /** A record's result is the word for the outcome, except that every other word is an error. */
  lemma RecordTells(r: CaseRecord, t: Trial, outcome: Outcome)
    requires Fits(r, t, outcome)
    ensures r.result == "pass" <==> outcome == Pass
    ensures r.result == "fail" <==> outcome == Fail
    ensures r.result == "skip" <==> outcome == Skip
    ensures r.errors == [] <==> outcome == Pass
    ensures r.caseId == match t
                        case ProbeTrial(_) => "local.shm.reachability-probe"
                        case FileTrial(c) => c.caseId
                        case CudaTrial(c) => c.caseId
                        case RejectTrial(d, _) => d.id
                        case SkipTrial(d, _) => d.id
  {
    assert "pass"[0] != "fail"[0] && "pass"[0] != "skip"[0] && "fail"[0] != "skip"[0];
  }
}
