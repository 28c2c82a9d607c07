/** The price calculator of internal/service/billing/billing.go, over exact reals. */
module Estimates {
  import opened Prelude
  import opened Money

  /** Service, machine type and storage class are given in lower case. */
  datatype Item = Item(
    service: string, machineType: string, storageClass: string,
    instances: int, vcpus: real, memoryGiB: real, storageGiB: real,
    hoursPerMonth: real, dailyOnHours: real, queriesTiB: real, ingestionGiB: real,
    requestsCount: real, executionSeconds: real, taskCount: int, taskDurationSeconds: real,
    nodeHours: real, gpuCount: int, inputTokens: real, outputTokens: real)

  /** A line item's description, which also fixes its unit. */
  datatype Sku =
    | VcpuHours | RamHours | PersistentDisk | JobsCpu | JobsMemory | TrainingNodes | GpuHours | InputTokens | OutputTokens
    | StandardStorage | NearlineStorage | ColdlineStorage | ArchiveStorage | Analysis | ActiveStorage | Ingestion | Requests

  datatype LineItem = LineItem(sku: Sku, unitPrice: real, usageAmount: real, monthlyCost: real)

  /** A line item before rounding. */
  datatype Charge = Charge(sku: Sku, unitPrice: real, usage: real, cost: real)

  datatype Estimate = BadRequest | Estimate(monthlyTotal: real, lineItems: seq<LineItem>)

  datatype Kind = Compute | RunJobs | Vertex | Storage | BigQuery | PubSub | CloudRun | Unknown

  function KindOf(service: string): Kind {
    if service in ["compute", "compute engine", "gce", "vm", "vms"] then Compute
    else if service in ["cloudrunjobs", "cloud run jobs", "run jobs", "cloudrun job"] then RunJobs
    else if service in ["vertexai", "vertex ai", "vertex"] then Vertex
    else if service in ["gcs", "cloud storage", "storage"] then Storage
    else if service in ["bigquery", "bq"] then BigQuery
    else if service in ["pubsub", "pub/sub"] then PubSub
    else if service in ["cloudrun", "cloud run"] then CloudRun
    else Unknown
  }

  function OrElse(x: real, default: real): real { if x <= 0.0 then default else x }

  function Hours(i: Item): real {
    OrElse(i.hoursPerMonth, if i.dailyOnHours > 0.0 then i.dailyOnHours * 30.0 else 730.0)
  }

  function Instances(i: Item): int { if i.instances <= 0 then 1 else i.instances }

  /** vCPUs and memory: a known machine type overrides what the item states. */
  function Shape(i: Item): (real, real) {
    if i.machineType == "n1-standard-1" then (1.0, 3.75)
    else if i.machineType == "n1-standard-2" then (2.0, 7.5)
    else if i.machineType == "n1-standard-4" then (4.0, 15.0)
    else if i.machineType == "e2-standard-2" then (2.0, 8.0)
    else if i.machineType == "e2-standard-4" then (4.0, 16.0)
    else if i.machineType == "e2-micro" then (0.25, 1.0)
    else (OrElse(i.vcpus, 1.0), OrElse(i.memoryGiB, 3.75))
  }

  function ExecSeconds(i: Item): real {
    OrElse(i.executionSeconds,
           if i.taskCount > 0 && i.taskDurationSeconds > 0.0 then i.taskCount as real * i.taskDurationSeconds else 3600.0)
  }

  function NodeHours(i: Item): real {
    OrElse(i.nodeHours, if i.dailyOnHours > 0.0 then i.dailyOnHours * 30.0 else Hours(i))
  }

  function Rate(i: Item): (Sku, real) {
    if i.storageClass == "nearline" then (NearlineStorage, 0.010)
    else if i.storageClass == "coldline" then (ColdlineStorage, 0.004)
    else if i.storageClass == "archive" then (ArchiveStorage, 0.0012)
    else (StandardStorage, 0.020)
  }

  /** A charge of `usage` units at `price`. */
  function At(sku: Sku, price: real, usage: real): Charge {
    Charge(sku, price, usage, usage * price)
  }

  /** Tokens are stated in thousands and divided by a thousand once more. */
  function Tokens(sku: Sku, price: real, tokens: real): Charge {
    Charge(sku, price, tokens, (tokens / 1000.0) * price)
  }

  function If(c: bool, charge: Charge): seq<Charge> { if c then [charge] else [] }

  function ComputeUsage(vcpuHours: real, ramHours: real, disk: bool, diskGiB: real): seq<Charge> {
    [At(VcpuHours, 0.031611, vcpuHours)] + [At(RamHours, 0.004237, ramHours)] + If(disk, At(PersistentDisk, 0.040, diskGiB))
  }

  /** A machine runs its hours; its disk is there all month. */
  function MachineCharges(vcpus: real, mem: real, diskGiB: real, n: real, hours: real): seq<Charge> {
    ComputeUsage(vcpus * n * hours, mem * n * hours, diskGiB > 0.0, diskGiB * n)
  }

  function ComputeCharges(i: Item): seq<Charge> {
    MachineCharges(Shape(i).0, Shape(i).1, i.storageGiB, Instances(i) as real, Hours(i))
  }

  function RunJobsUsage(vcpuSec: real, memSec: real): seq<Charge> {
    [At(JobsCpu, 0.000024, vcpuSec)] + [At(JobsMemory, 0.0000025, memSec)]
  }

  function JobCharges(vcpus: real, mem: real, n: real, seconds: real): seq<Charge> {
    RunJobsUsage(vcpus * n * seconds, mem * n * seconds)
  }

  function RunJobsCharges(i: Item): seq<Charge> {
    JobCharges(OrElse(i.vcpus, 1.0), OrElse(i.memoryGiB, 2.0), Instances(i) as real, ExecSeconds(i))
  }

  predicate Training(i: Item) { i.nodeHours > 0.0 || i.vcpus > 0.0 || i.gpuCount > 0 }

  function TrainingUsage(i: Item, nodes: real, gpuHours: real): seq<Charge> {
    If(Training(i), At(TrainingNodes, 0.22, nodes)) + If(i.gpuCount > 0, At(GpuHours, 0.35, gpuHours))
  }

  function TokenUsage(i: Item): seq<Charge> {
    If(i.inputTokens > 0.0, Tokens(InputTokens, 0.00015, i.inputTokens))
    + If(i.outputTokens > 0.0, Tokens(OutputTokens, 0.0006, i.outputTokens))
  }

  function NodeCharges(i: Item, nodeHours: real, n: real, gpus: real): seq<Charge> {
    TrainingUsage(i, nodeHours * n, gpus * nodeHours)
  }

  function VertexCharges(i: Item): seq<Charge> {
    var n := Instances(i);
    NodeCharges(i, NodeHours(i), n as real, (i.gpuCount * n) as real) + TokenUsage(i)
  }

  function BigQueryCharges(i: Item): seq<Charge> {
    If(i.queriesTiB > 0.0, At(Analysis, 5.0, i.queriesTiB))
    + If(i.storageGiB > 0.0, At(ActiveStorage, 0.020, i.storageGiB))
  }

  /** The charges of one item, in the order of its line items. */
  function Charges(i: Item): seq<Charge> {
    match KindOf(i.service)
    case Compute => ComputeCharges(i)
    case RunJobs => RunJobsCharges(i)
    case Vertex => VertexCharges(i)
    case Storage => [At(Rate(i).0, Rate(i).1, i.storageGiB)]
    case BigQuery => BigQueryCharges(i)
    case PubSub => [At(Ingestion, 0.040, i.ingestionGiB)]
    case CloudRun => [At(Requests, 0.40, i.requestsCount / 1000000.0)]
    case Unknown => []
  }

  function Flatten(css: seq<seq<Charge>>): seq<Charge> {
    if css == [] then [] else Flatten(css[..|css| - 1]) + css[|css| - 1]
  }

  function Map<A, B>(f: A -> B, xs: seq<A>): seq<B> {
    seq(|xs|, i requires 0 <= i < |xs| => f(xs[i]))
  }

  function PerItem(items: seq<Item>): seq<seq<Charge>> { Map(Charges, items) }

  function AllCharges(items: seq<Item>): seq<Charge> { Flatten(PerItem(items)) }

  function CostsOf(cs: seq<Charge>): seq<real> {
    seq(|cs|, i requires 0 <= i < |cs| => cs[i].cost)
  }

  /** The unrounded total. */
  function Total(items: seq<Item>): real { Sum(CostsOf(AllCharges(items))) }

  function Line(c: Charge): LineItem {
    LineItem(c.sku, c.unitPrice, Round2(c.usage), Round2(c.cost))
  }

  function Lines(cs: seq<Charge>): seq<LineItem> {
    seq(|cs|, i requires 0 <= i < |cs| => Line(cs[i]))
  }

  function MonthlyCosts(ls: seq<LineItem>): seq<real> {
    seq(|ls|, i requires 0 <= i < |ls| => ls[i].monthlyCost)
  }

  // What the prices promise.

  predicate IsPriced(c: Charge) { c.cost == c.usage * c.unitPrice }

  ghost predicate AllPriced(cs: seq<Charge>) { forall k :: 0 <= k < |cs| ==> IsPriced(cs[k]) }

  predicate HasTokens(i: Item) {
    KindOf(i.service) == Vertex && (i.inputTokens > 0.0 || i.outputTokens > 0.0)
  }

  lemma UsageIsPriced(i: Item, x: real, y: real, more: bool, z: real)
    ensures AllPriced(ComputeUsage(x, y, more, z)) && AllPriced(RunJobsUsage(x, y))
    ensures AllPriced(TrainingUsage(i, x, y)) && AllPriced(BigQueryCharges(i))
  {
  }

  lemma MachinesArePriced(i: Item, vcpus: real, mem: real, diskGiB: real, n: real, hours: real)
    ensures AllPriced(MachineCharges(vcpus, mem, diskGiB, n, hours)) && AllPriced(JobCharges(vcpus, mem, n, hours))
    ensures AllPriced(NodeCharges(i, hours, n, vcpus))
  {
    UsageIsPriced(i, vcpus * n * hours, mem * n * hours, diskGiB > 0.0, diskGiB * n);
    UsageIsPriced(i, hours * n, vcpus * hours, false, 0.0);
  }

  /** Every line about tokens costs a thousandth of its usage times its unit price, which is not nothing. */
  lemma TokensAreNotPriced(i: Item)
    requires i.inputTokens > 0.0 || i.outputTokens > 0.0
    ensures TokenUsage(i) != []
    ensures forall c :: c in TokenUsage(i) ==> c.cost * 1000.0 == c.usage * c.unitPrice && !IsPriced(c)
  {
  }

  /**
   Every line of an item costs its usage times its unit price exactly when the
   item is not a Vertex AI one with tokens.
   */
  lemma CostIsUsageTimesPrice(i: Item)
    ensures AllPriced(Charges(i)) <==> !HasTokens(i)
  {
    match KindOf(i.service) {
      case Compute => MachinesArePriced(i, Shape(i).0, Shape(i).1, i.storageGiB, Instances(i) as real, Hours(i));
      case RunJobs =>
        MachinesArePriced(i, OrElse(i.vcpus, 1.0), OrElse(i.memoryGiB, 2.0), 0.0, Instances(i) as real, ExecSeconds(i));
      case Vertex =>
        var n := Instances(i);
        MachinesArePriced(i, (i.gpuCount * n) as real, 0.0, 0.0, n as real, NodeHours(i));
        if i.inputTokens > 0.0 || i.outputTokens > 0.0 {
          TokensAreNotPriced(i);
          assert Charges(i)[|Charges(i)| - 1] == TokenUsage(i)[|TokenUsage(i)| - 1];
        }
      case BigQuery => UsageIsPriced(i, 0.0, 0.0, false, 0.0);
      case _ =>
    }
  }

  function ItemOf(service: string): Item {
    Item(service, "", "", 0, 0.0, 0.0, 0.0, 0.0, 0.0, 0.0, 0.0, 0.0, 0.0, 0, 0.0, 0.0, 0, 0.0, 0.0)
  }

  /** It does happen: a million times a thousand input tokens cost 15 cents, not the 150 dollars of the formula. */
  lemma TokensCostAThousandth()
    ensures var i := ItemOf("vertexai").(inputTokens := 1000000.0);
            Charges(i) == [Charge(InputTokens, 0.00015, 1000000.0, 0.15)] && 1000000.0 * 0.00015 == 150.0
  {
    assert KindOf("vertexai") == Vertex;
  }

  // What feeds which line.

  /** One unit price for each kind of line. */
  function PriceOf(sku: Sku): real {
    match sku
    case VcpuHours => 0.031611
    case RamHours => 0.004237
    case PersistentDisk => 0.04
    case JobsCpu => 0.000024
    case JobsMemory => 0.0000025
    case TrainingNodes => 0.22
    case GpuHours => 0.35
    case InputTokens => 0.00015
    case OutputTokens => 0.0006
    case StandardStorage => 0.02
    case NearlineStorage => 0.01
    case ColdlineStorage => 0.004
    case ArchiveStorage => 0.0012
    case Analysis => 5.0
    case ActiveStorage => 0.02
    case Ingestion => 0.04
    case Requests => 0.4
  }

  ghost predicate AtListPrice(cs: seq<Charge>) { forall k :: 0 <= k < |cs| ==> cs[k].unitPrice == PriceOf(cs[k].sku) }

  lemma UsageAtListPrice(i: Item, x: real, y: real, more: bool, z: real)
    ensures AtListPrice(ComputeUsage(x, y, more, z)) && AtListPrice(RunJobsUsage(x, y))
    ensures AtListPrice(TrainingUsage(i, x, y)) && AtListPrice(TokenUsage(i)) && AtListPrice(BigQueryCharges(i))
  {
  }

  lemma MachinesAtListPrice(i: Item, vcpus: real, mem: real, diskGiB: real, n: real, hours: real)
    ensures AtListPrice(MachineCharges(vcpus, mem, diskGiB, n, hours)) && AtListPrice(JobCharges(vcpus, mem, n, hours))
    ensures AtListPrice(NodeCharges(i, hours, n, vcpus))
  {
    UsageAtListPrice(i, vcpus * n * hours, mem * n * hours, diskGiB > 0.0, diskGiB * n);
    UsageAtListPrice(i, hours * n, vcpus * hours, false, 0.0);
  }

  /** The unit price of a line depends on its kind only. */
  lemma ChargesAtListPrice(i: Item)
    ensures AtListPrice(Charges(i))
  {
    match KindOf(i.service) {
      case Compute => MachinesAtListPrice(i, Shape(i).0, Shape(i).1, i.storageGiB, Instances(i) as real, Hours(i));
      case RunJobs =>
        MachinesAtListPrice(i, OrElse(i.vcpus, 1.0), OrElse(i.memoryGiB, 2.0), 0.0, Instances(i) as real, ExecSeconds(i));
      case Vertex =>
        MachinesAtListPrice(i, (i.gpuCount * Instances(i)) as real, 0.0, 0.0, Instances(i) as real, NodeHours(i));
        UsageAtListPrice(i, 0.0, 0.0, false, 0.0);
      case BigQuery => UsageAtListPrice(i, 0.0, 0.0, false, 0.0);
      case _ =>
    }
  }

  /** Of a machine: CPU and RAM scale with their quantity, instances and hours, the disk with instances only. */
  lemma MachineScales(a: real, vcpus: real, mem: real, diskGiB: real, n: real, hours: real)
    ensures var cs := MachineCharges(vcpus, mem, diskGiB, n, hours);
            && |cs| == (if diskGiB > 0.0 then 3 else 2)
            && cs[0].sku == VcpuHours && cs[1].sku == RamHours && (diskGiB > 0.0 ==> cs[2].sku == PersistentDisk)
            && MachineCharges(a * vcpus, mem, diskGiB, n, hours)[0].usage == a * cs[0].usage
            && MachineCharges(vcpus, a * mem, diskGiB, n, hours)[1].usage == a * cs[1].usage
            && (forall k :: 0 <= k < 2 ==> MachineCharges(vcpus, mem, diskGiB, n, a * hours)[k].usage == a * cs[k].usage)
            && (forall k :: 0 <= k < |cs| ==> MachineCharges(vcpus, mem, diskGiB, a * n, hours)[k].usage == a * cs[k].usage)
            && MachineCharges(1.0, 1.0, diskGiB, 1.0, 1.0)[0].usage == MachineCharges(1.0, 1.0, diskGiB, 1.0, 1.0)[1].usage == 1.0
            && (diskGiB > 0.0 ==> MachineCharges(vcpus, mem, diskGiB, 1.0, hours)[2].usage == diskGiB)
  {
    Scaled(a, vcpus, n, hours);
    Scaled(a, mem, n, hours);
    Scaled(a, diskGiB, n, 1.0);
  }

  lemma Scaled(a: real, x: real, n: real, h: real)
    ensures (a * x) * n * h == a * (x * n * h) && x * (a * n) * h == a * (x * n * h) && x * n * (a * h) == a * (x * n * h)
    ensures x * (a * n) == a * (x * n)
  {
  }

  /** The same of a job and its seconds. */
  lemma JobScales(a: real, vcpus: real, mem: real, n: real, seconds: real)
    ensures var cs := JobCharges(vcpus, mem, n, seconds);
            && |cs| == 2 && cs[0].sku == JobsCpu && cs[1].sku == JobsMemory
            && JobCharges(a * vcpus, mem, n, seconds)[0].usage == a * cs[0].usage
            && JobCharges(vcpus, a * mem, n, seconds)[1].usage == a * cs[1].usage
            && (forall k :: 0 <= k < 2 ==> JobCharges(vcpus, mem, a * n, seconds)[k].usage == a * cs[k].usage)
            && (forall k :: 0 <= k < 2 ==> JobCharges(vcpus, mem, n, a * seconds)[k].usage == a * cs[k].usage)
            && JobCharges(1.0, 1.0, 1.0, 1.0)[0].usage == JobCharges(1.0, 1.0, 1.0, 1.0)[1].usage == 1.0
  {
    Scaled(a, vcpus, n, seconds);
    Scaled(a, mem, n, seconds);
  }

  /** Training scales with instances and node hours, GPU hours with GPUs and node hours. */
  lemma NodeScales(i: Item, a: real, hours: real, n: real, gpus: real)
    requires i.gpuCount > 0
    ensures var cs := NodeCharges(i, hours, n, gpus);
            && |cs| == 2 && cs[0].sku == TrainingNodes && cs[1].sku == GpuHours
            && NodeCharges(i, hours, a * n, gpus)[0].usage == a * cs[0].usage
            && NodeCharges(i, hours, n, a * gpus)[1].usage == a * cs[1].usage
            && (forall k :: 0 <= k < 2 ==> NodeCharges(i, a * hours, n, gpus)[k].usage == a * cs[k].usage)
            && NodeCharges(i, 1.0, 1.0, 1.0)[0].usage == NodeCharges(i, 1.0, 1.0, 1.0)[1].usage == 1.0
  {
    Scaled(a, hours, n, 1.0);
    Scaled(a, gpus, hours, 1.0);
  }

  lemma ComputeIs(i: Item)
    requires KindOf(i.service) == Compute && i.machineType == ""
    ensures Charges(i)
         == MachineCharges(OrElse(i.vcpus, 1.0), OrElse(i.memoryGiB, 3.75), i.storageGiB, Instances(i) as real, Hours(i))
  {
  }

  /**
   Of two custom machines with the same disk and number of instances, the CPU
   lines are the same if vCPUs and hours are, the RAM lines if memory and hours
   are, and the disk lines in any case.
   */
  lemma ComputeLinesApart(i: Item, j: Item)
    requires KindOf(i.service) == KindOf(j.service) == Compute && i.machineType == j.machineType == ""
    requires i.storageGiB == j.storageGiB && Instances(i) == Instances(j)
    ensures |Charges(i)| == |Charges(j)| == (if i.storageGiB > 0.0 then 3 else 2)
    ensures i.vcpus == j.vcpus && Hours(i) == Hours(j) ==> Charges(i)[0] == Charges(j)[0]
    ensures i.memoryGiB == j.memoryGiB && Hours(i) == Hours(j) ==> Charges(i)[1] == Charges(j)[1]
    ensures i.storageGiB > 0.0 ==> Charges(i)[2] == Charges(j)[2]
  {
    ComputeIs(i);
    ComputeIs(j);
    MachinePart(OrElse(i.vcpus, 1.0), OrElse(i.memoryGiB, 3.75), OrElse(j.vcpus, 1.0), OrElse(j.memoryGiB, 3.75),
                i.storageGiB, Instances(i) as real, Hours(i), Hours(j));
  }

  /** The same of two jobs. */
  lemma JobLinesApart(i: Item, j: Item)
    requires KindOf(i.service) == KindOf(j.service) == RunJobs
    requires Instances(i) == Instances(j) && ExecSeconds(i) == ExecSeconds(j)
    ensures |Charges(i)| == |Charges(j)| == 2
    ensures i.vcpus == j.vcpus ==> Charges(i)[0] == Charges(j)[0]
    ensures i.memoryGiB == j.memoryGiB ==> Charges(i)[1] == Charges(j)[1]
  {
  }

  lemma MachinePart(v: real, m: real, w: real, o: real, diskGiB: real, n: real, h: real, g: real)
    ensures var cs, ds := MachineCharges(v, m, diskGiB, n, h), MachineCharges(w, o, diskGiB, n, g);
            && |cs| == |ds| == (if diskGiB > 0.0 then 3 else 2)
            && (v == w && h == g ==> cs[0] == ds[0]) && (m == o && h == g ==> cs[1] == ds[1])
            && (diskGiB > 0.0 ==> cs[2] == ds[2])
  {
  }

  /** The scenario of a four-core machine on nine hours a day, 100 job tasks of five minutes, and a training run with a GPU and tokens. */
  lemma Scenario()
    ensures Charges(ItemOf("vm").(vcpus := 4.0, memoryGiB := 7.0, dailyOnHours := 9.0, storageGiB := 100.0))
         == [Charge(VcpuHours, 0.031611, 1080.0, 34.13988)] + [Charge(RamHours, 0.004237, 1890.0, 8.00793)]
            + [Charge(PersistentDisk, 0.04, 100.0, 4.0)]
    ensures Charges(ItemOf("cloudrunjobs").(vcpus := 2.0, memoryGiB := 4.0, taskCount := 100, taskDurationSeconds := 300.0))
         == [Charge(JobsCpu, 0.000024, 60000.0, 1.44)] + [Charge(JobsMemory, 0.0000025, 120000.0, 0.3)]
    ensures Charges(ItemOf("vertexai").(nodeHours := 50.0, gpuCount := 1, inputTokens := 1000.0, outputTokens := 500.0))
         == [Charge(TrainingNodes, 0.22, 50.0, 11.0)] + [Charge(GpuHours, 0.35, 50.0, 17.5)]
            + ([Charge(InputTokens, 0.00015, 1000.0, 0.00015)] + [Charge(OutputTokens, 0.0006, 500.0, 0.0003)])
  {
    assert KindOf("vm") == Compute && KindOf("cloudrunjobs") == RunJobs && KindOf("vertexai") == Vertex;
  }

  /** What counts when an item states nothing: a month of 730 hours, one core and 3.75 GiB, or an hour of a job with 2 GiB. */
  lemma NothingStated()
    ensures Charges(ItemOf("vm")) == [Charge(VcpuHours, 0.031611, 730.0, 23.07603)] + [Charge(RamHours, 0.004237, 2737.5, 11.5987875)]
    ensures Charges(ItemOf("cloudrunjobs")) == [Charge(JobsCpu, 0.000024, 3600.0, 0.0864)] + [Charge(JobsMemory, 0.0000025, 7200.0, 0.018)]
    ensures Charges(ItemOf("vertexai")) == []
    ensures Charges(ItemOf("vertexai").(vcpus := 1.0)) == [Charge(TrainingNodes, 0.22, 730.0, 160.6)]
  {
    assert KindOf("vm") == Compute && KindOf("cloudrunjobs") == RunJobs && KindOf("vertexai") == Vertex;
  }

  /** Two GPUs on each of three instances for two hours a day. */
  lemma GpuNodes()
    ensures Charges(ItemOf("vertexai").(dailyOnHours := 2.0, gpuCount := 2, instances := 3))
         == [Charge(TrainingNodes, 0.22, 180.0, 39.6)] + [Charge(GpuHours, 0.35, 360.0, 126.0)]
  {
    assert KindOf("vertexai") == Vertex;
  }

  lemma OtherServices()
    ensures Charges(ItemOf("bigquery").(queriesTiB := 2.0, storageGiB := 10.0))
         == [Charge(Analysis, 5.0, 2.0, 10.0)] + [Charge(ActiveStorage, 0.02, 10.0, 0.2)]
    ensures Charges(ItemOf("pubsub").(ingestionGiB := 100.0)) == [Charge(Ingestion, 0.04, 100.0, 4.0)]
    ensures Charges(ItemOf("cloudrun").(requestsCount := 2000000.0)) == [Charge(Requests, 0.4, 2.0, 0.8)]
  {
    DocumentedServices();
    DocumentedRunServices();
  }

  /** The storage classes; any other text is standard storage. */
  lemma StorageClasses(i: Item)
    ensures Rate(i.(storageClass := "nearline")).0 == NearlineStorage && Rate(i.(storageClass := "coldline")).0 == ColdlineStorage
    ensures Rate(i.(storageClass := "archive")).0 == ArchiveStorage
    ensures i.storageClass !in ["nearline", "coldline", "archive"] ==> Rate(i).0 == StandardStorage
    ensures KindOf(i.service) == Storage ==> |Charges(i)| == 1 && Charges(i)[0].usage == i.storageGiB
  {
  }

  /** The machine types override what is stated; with any other text what is stated counts when it is positive. */
  lemma KnownMachines(i: Item)
    ensures Shape(i.(machineType := "n1-standard-1")) == (1.0, 3.75) && Shape(i.(machineType := "n1-standard-2")) == (2.0, 7.5)
    ensures Shape(i.(machineType := "n1-standard-4")) == (4.0, 15.0) && Shape(i.(machineType := "e2-standard-2")) == (2.0, 8.0)
    ensures Shape(i.(machineType := "e2-standard-4")) == (4.0, 16.0) && Shape(i.(machineType := "e2-micro")) == (0.25, 1.0)
    ensures i.vcpus > 0.0 && i.memoryGiB > 0.0 ==> Shape(i.(machineType := "custom")) == (i.vcpus, i.memoryGiB)
  {
  }

  /** The service names that the request documents. */
  lemma DocumentedServices()
    ensures KindOf("compute") == Compute && KindOf("gcs") == Storage && KindOf("bigquery") == BigQuery
    ensures KindOf("pubsub") == PubSub
  {
  }

  lemma DocumentedRunServices()
    ensures KindOf("cloudrun") == CloudRun && KindOf("cloudrunjobs") == RunJobs && KindOf("vertexai") == Vertex
  {
  }

  // Which charges are positive.

  /** The branches whose quantity is not guarded, when it is not positive. */
  predicate Unguarded(i: Item) {
    || (KindOf(i.service) == Storage && i.storageGiB <= 0.0)
    || (KindOf(i.service) == PubSub && i.ingestionGiB <= 0.0)
    || (KindOf(i.service) == CloudRun && i.requestsCount <= 0.0)
  }

  ghost predicate AllPositive(cs: seq<Charge>) { forall k :: 0 <= k < |cs| ==> cs[k].usage > 0.0 && cs[k].cost > 0.0 }

  lemma UsageIsPositive(i: Item, x: real, y: real, more: bool, z: real)
    requires x > 0.0 && y > 0.0 && (more ==> z > 0.0)
    ensures AllPositive(ComputeUsage(x, y, more, z)) && AllPositive(RunJobsUsage(x, y))
  {
  }

  lemma TrainingIsPositive(i: Item, x: real, y: real)
    requires x > 0.0 && (i.gpuCount > 0 ==> y > 0.0)
    ensures AllPositive(TrainingUsage(i, x, y))
  {
  }

  lemma TokensArePositive(i: Item)
    ensures AllPositive(TokenUsage(i))
  {
  }

  lemma BigQueryIsPositive(i: Item)
    ensures AllPositive(BigQueryCharges(i))
  {
  }

  lemma MachinesArePositive(i: Item, vcpus: real, mem: real, diskGiB: real, n: real, hours: real)
    requires vcpus > 0.0 && mem > 0.0 && n > 0.0 && hours > 0.0
    ensures AllPositive(MachineCharges(vcpus, mem, diskGiB, n, hours)) && AllPositive(JobCharges(vcpus, mem, n, hours))
  {
    PositiveProduct(vcpus, n);
    PositiveProduct(vcpus * n, hours);
    PositiveProduct(mem, n);
    PositiveProduct(mem * n, hours);
    if diskGiB > 0.0 {
      PositiveProduct(diskGiB, n);
    }
    UsageIsPositive(i, vcpus * n * hours, mem * n * hours, diskGiB > 0.0, diskGiB * n);
  }

  lemma NodesArePositive(i: Item, hours: real, n: real, gpus: real)
    requires hours > 0.0 && n > 0.0 && (i.gpuCount > 0 ==> gpus > 0.0)
    ensures AllPositive(NodeCharges(i, hours, n, gpus)) && AllPositive(TokenUsage(i))
  {
    PositiveProduct(hours, n);
    if i.gpuCount > 0 {
      PositiveProduct(gpus, hours);
    }
    TrainingIsPositive(i, hours * n, gpus * hours);
    TokensArePositive(i);
  }

  /** The defaults: what is stated counts when it is positive, and what counts is always positive. */
  lemma DefaultsArePositive(i: Item)
    ensures Hours(i) > 0.0 && Instances(i) >= 1 && ExecSeconds(i) > 0.0 && NodeHours(i) > 0.0
    ensures Shape(i).0 > 0.0 && Shape(i).1 > 0.0
    ensures i.hoursPerMonth > 0.0 ==> Hours(i) == i.hoursPerMonth
    ensures i.instances > 0 ==> Instances(i) == i.instances
    ensures i.executionSeconds > 0.0 ==> ExecSeconds(i) == i.executionSeconds
    ensures i.nodeHours > 0.0 ==> NodeHours(i) == i.nodeHours
  {
    if i.taskCount > 0 && i.taskDurationSeconds > 0.0 {
      PositiveProduct(i.taskCount as real, i.taskDurationSeconds);
    }
  }

  lemma GpusArePositive(gpus: int, n: int)
    requires gpus > 0 && n > 0
    ensures gpus * n > 0
  {
  }

  /**
   Whatever quantities an item states, negative ones included, its lines have
   positive usage and cost, exactly unless it is a storage, Pub/Sub or Cloud
   Run item whose quantity is not positive: those three are not guarded.
   */
  lemma ChargesArePositive(i: Item)
    ensures AllPositive(Charges(i)) <==> !Unguarded(i)
  {
    DefaultsArePositive(i);
    match KindOf(i.service) {
      case Compute => MachinesArePositive(i, Shape(i).0, Shape(i).1, i.storageGiB, Instances(i) as real, Hours(i));
      case RunJobs =>
        MachinesArePositive(i, OrElse(i.vcpus, 1.0), OrElse(i.memoryGiB, 2.0), 0.0, Instances(i) as real, ExecSeconds(i));
      case Vertex =>
        var n := Instances(i);
        if i.gpuCount > 0 {
          GpusArePositive(i.gpuCount, n);
        }
        NodesArePositive(i, NodeHours(i), n as real, (i.gpuCount * n) as real);
      case BigQuery => BigQueryIsPositive(i);
      case Storage => assert Charges(i)[0].usage == i.storageGiB;
      case PubSub => assert Charges(i)[0].usage == i.ingestionGiB;
      case CloudRun => assert Charges(i)[0].usage == i.requestsCount / 1000000.0;
      case Unknown =>
    }
  }

  /** It does happen: a negative amount of storage takes two dollars off. */
  lemma NegativeStorage()
    ensures Charges(ItemOf("gcs").(storageGiB := -100.0)) == [Charge(StandardStorage, 0.020, -100.0, -2.0)]
  {
    assert KindOf("gcs") == Storage;
  }

  lemma AtMostFourLines(i: Item)
    ensures |Charges(i)| <= 4
  {
  }

  lemma {:induction false} FourEach(css: seq<seq<Charge>>)
    requires forall k :: 0 <= k < |css| ==> |css[k]| <= 4
    ensures |Flatten(css)| <= 4 * |css|
  {
    if css != [] {
      FourEach(css[..|css| - 1]);
    }
  }

  lemma AtMostFourLinesEach(items: seq<Item>)
    ensures |AllCharges(items)| <= 4 * |items|
  {
    forall k | 0 <= k < |items| ensures |PerItem(items)[k]| <= 4 {
      AtMostFourLines(items[k]);
    }
    FourEach(PerItem(items));
  }

  lemma {:induction false} FlattenOfConcat(a: seq<seq<Charge>>, b: seq<seq<Charge>>)
    ensures Flatten(a + b) == Flatten(a) + Flatten(b)
  {
    if b == [] {
      assert a + b == a;
    } else {
      assert (a + b)[..|a + b| - 1] == a + b[..|b| - 1];
      FlattenOfConcat(a, b[..|b| - 1]);
    }
  }

  lemma MapOfConcat<A, B>(f: A -> B, a: seq<A>, b: seq<A>)
    ensures Map(f, a + b) == Map(f, a) + Map(f, b)
  {
  }

  lemma ChargesOfConcat(a: seq<Item>, b: seq<Item>)
    ensures AllCharges(a + b) == AllCharges(a) + AllCharges(b)
  {
    MapOfConcat(Charges, a, b);
    FlattenOfConcat(PerItem(a), PerItem(b));
  }

  /** The unrounded total is additive. */
  lemma TotalOfConcat(a: seq<Item>, b: seq<Item>)
    ensures Total(a + b) == Total(a) + Total(b)
  {
    ChargesOfConcat(a, b);
    CostsOfConcat(AllCharges(a), AllCharges(b));
  }

  lemma CostsOfConcat(a: seq<Charge>, b: seq<Charge>)
    ensures Sum(CostsOf(a + b)) == Sum(CostsOf(a)) + Sum(CostsOf(b)) && Lines(a + b) == Lines(a) + Lines(b)
  {
    assert CostsOf(a + b) == CostsOf(a) + CostsOf(b);
    SumOfConcat(CostsOf(a), CostsOf(b));
  }

  /** What one item costs, unrounded. */
  function ItemCost(i: Item): real { Sum(CostsOf(Charges(i))) }

  lemma {:induction false} TotalIsSum(items: seq<Item>)
    ensures Total(items) == SumBy(ItemCost, items)
  {
    if items == [] {
      assert PerItem([]) == [] && CostsOf([]) == [];
    } else {
      var n := |items| - 1;
      TotalIsSum(items[..n]);
      OneMoreItem(items, n);
      assert items[..n + 1] == items;
    }
  }

  /** Items in another order cost the same. */
  lemma TotalOfPermutation(a: seq<Item>, b: seq<Item>)
    requires multiset(a) == multiset(b)
    ensures Total(a) == Total(b)
  {
    TotalIsSum(a);
    TotalIsSum(b);
    SumOfPermutation(ItemCost, a, b);
  }

  /** The answer for a list of items. */
  ghost predicate IsEstimate(e: Estimate, items: seq<Item>) {
    if items == [] then e == BadRequest
    else e == Estimate(Round2(Total(items)), Lines(AllCharges(items)))
  }

  /**
   The line items of an estimate are the rounded charges whose exact costs add
   up to the exact total; with n of them, at most four an item, the rounded
   costs miss the rounded total by at most half a cent times n + 1.
   */
  lemma EstimateBound(e: Estimate, items: seq<Item>)
    requires IsEstimate(e, items) && items != []
    ensures |e.lineItems| <= 4 * |items|
    ensures Abs(Sum(MonthlyCosts(e.lineItems)) - e.monthlyTotal) <= 0.005 * (|e.lineItems| + 1) as real
  {
    var exact := CostsOf(AllCharges(items));
    AtMostFourLinesEach(items);
    assert MonthlyCosts(e.lineItems) == Rounded(exact);
    RoundError(Sum(exact));
    PartsAgainstWhole(exact, e.monthlyTotal);
    HalfCentsIsProduct(|exact| + 1);
  }

  /** Every amount of an estimate is a whole number of hundredths. */
  lemma EstimateIsInCents(e: Estimate, items: seq<Item>)
    requires IsEstimate(e, items) && items != []
    ensures WholeCents(e.monthlyTotal)
    ensures forall k :: 0 <= k < |e.lineItems| ==> WholeCents(e.lineItems[k].usageAmount) && WholeCents(e.lineItems[k].monthlyCost)
  {
    var cs := AllCharges(items);
    Round2IsWholeCents(Total(items));
    forall k | 0 <= k < |e.lineItems|
      ensures WholeCents(e.lineItems[k].usageAmount) && WholeCents(e.lineItems[k].monthlyCost)
    {
      assert e.lineItems[k] == Line(cs[k]);
      Round2IsWholeCents(cs[k].usage);
      Round2IsWholeCents(cs[k].cost);
    }
  }

  /** 0.777 GiB of standard storage are billed as 0.78 GiB at two cents. */
  lemma SmallStorage()
    ensures Line(At(StandardStorage, 0.020, 0.777)) == LineItem(StandardStorage, 0.020, 0.78, 0.02)
  {
    Round2Means(0.777, 78);
    Round2Means(0.01554, 2);
  }

  // The calculator.

  /** What a branch of the loop appends to the line items and adds to the total. */
  ghost predicate Prices(lines: seq<LineItem>, cost: real, charges: seq<Charge>) {
    lines == Lines(charges) && cost == Sum(CostsOf(charges))
  }

  lemma OneMoreCharge(lines: seq<LineItem>, cost: real, charges: seq<Charge>, c: Charge)
    requires Prices(lines, cost, charges)
    ensures Prices(lines + [Line(c)], cost + c.cost, charges + [c])
  {
    assert CostsOf(charges + [c]) == CostsOf(charges) + [c.cost];
    SumOfSnoc(CostsOf(charges), c.cost);
  }

  /** A branch that adds one line when a condition holds. */
  lemma MaybeOneMore(lines: seq<LineItem>, cost: real, charges: seq<Charge>, more: bool, c: Charge)
    requires Prices(lines, cost, charges)
    ensures Prices(if more then lines + [Line(c)] else lines, if more then cost + c.cost else cost, charges + If(more, c))
  {
    if more {
      OneMoreCharge(lines, cost, charges, c);
    } else {
      assert charges + [] == charges;
    }
  }

  lemma NoCharges()
    ensures Prices([], 0.0, [])
  {
    assert CostsOf([]) == [];
  }

  method PriceHours(i: Item) returns (hours: real, instances: int)
    ensures hours == Hours(i) && instances == Instances(i)
    ensures hours > 0.0 && instances >= 1
  {
    hours, instances := i.hoursPerMonth, i.instances;
    if hours <= 0.0 {
      if i.dailyOnHours > 0.0 {
        hours := i.dailyOnHours * 30.0;
      } else {
        hours := 730.0;
      }
    }
    if instances <= 0 {
      instances := 1;
    }
  }

  method ComputeLines(vcpuHours: real, ramHours: real, disk: bool, diskGiB: real)
    returns (lines: seq<LineItem>, cost: real)
    ensures Prices(lines, cost, ComputeUsage(vcpuHours, ramHours, disk, diskGiB))
  {
    NoCharges();
    var vcpuCost := vcpuHours * 0.031611;
    lines := [LineItem(VcpuHours, 0.031611, Round2(vcpuHours), Round2(vcpuCost))];
    ghost var first := At(VcpuHours, 0.031611, vcpuHours);
    OneMoreCharge([], 0.0, [], first);
    var ramCost := ramHours * 0.004237;
    OneMoreCharge(lines, vcpuCost, [first], At(RamHours, 0.004237, ramHours));
    lines := lines + [LineItem(RamHours, 0.004237, Round2(ramHours), Round2(ramCost))];
    cost := 0.0;
    MaybeOneMore(lines, vcpuCost + ramCost, [first] + [At(RamHours, 0.004237, ramHours)],
                 disk, At(PersistentDisk, 0.040, diskGiB));
    if disk {
      var diskCost := diskGiB * 0.040;
      lines := lines + [LineItem(PersistentDisk, 0.040, Round2(diskGiB), Round2(diskCost))];
      cost := cost + diskCost;
    }
    cost := cost + (vcpuCost + ramCost);
  }

  method MachineLines(vcpus: real, mem: real, diskGiB: real, n: real, hours: real)
    returns (lines: seq<LineItem>, cost: real)
    ensures Prices(lines, cost, MachineCharges(vcpus, mem, diskGiB, n, hours))
  {
    lines, cost := ComputeLines(vcpus * n * hours, mem * n * hours, diskGiB > 0.0, diskGiB * n);
  }

  method PriceCompute(i: Item, hours: real, instances: int) returns (lines: seq<LineItem>, cost: real)
    requires hours == Hours(i) && instances == Instances(i)
    ensures Prices(lines, cost, ComputeCharges(i))
  {
    var (vcpus, mem) := Shape(i);
    lines, cost := MachineLines(vcpus, mem, i.storageGiB, instances as real, hours);
  }

  method RunJobsLines(vcpuSec: real, memSec: real) returns (lines: seq<LineItem>, cost: real)
    ensures Prices(lines, cost, RunJobsUsage(vcpuSec, memSec))
  {
    NoCharges();
    var vcpuCost := vcpuSec * 0.000024;
    lines := [LineItem(JobsCpu, 0.000024, Round2(vcpuSec), Round2(vcpuCost))];
    ghost var first := At(JobsCpu, 0.000024, vcpuSec);
    OneMoreCharge([], 0.0, [], first);
    var memCost := memSec * 0.0000025;
    OneMoreCharge(lines, vcpuCost, [first], At(JobsMemory, 0.0000025, memSec));
    lines := lines + [LineItem(JobsMemory, 0.0000025, Round2(memSec), Round2(memCost))];
    cost := vcpuCost + memCost;
  }

  method JobLines(vcpus: real, mem: real, n: real, seconds: real) returns (lines: seq<LineItem>, cost: real)
    ensures Prices(lines, cost, JobCharges(vcpus, mem, n, seconds))
  {
    lines, cost := RunJobsLines(vcpus * n * seconds, mem * n * seconds);
  }

  method PriceSeconds(i: Item) returns (seconds: real)
    ensures seconds == ExecSeconds(i)
    ensures seconds > 0.0
  {
    seconds := i.executionSeconds;
    if seconds <= 0.0 && i.taskCount > 0 && i.taskDurationSeconds > 0.0 {
      seconds := i.taskCount as real * i.taskDurationSeconds;
      PositiveProduct(i.taskCount as real, i.taskDurationSeconds);
    }
    if seconds <= 0.0 {
      seconds := 3600.0;
    }
  }

  method PriceRunJobs(i: Item, instances: int) returns (lines: seq<LineItem>, cost: real)
    requires instances == Instances(i)
    ensures Prices(lines, cost, RunJobsCharges(i))
  {
    var seconds := PriceSeconds(i);
    var vcpus, mem := i.vcpus, i.memoryGiB;
    if vcpus <= 0.0 {
      vcpus := 1.0;
    }
    if mem <= 0.0 {
      mem := 2.0;
    }
    lines, cost := JobLines(vcpus, mem, instances as real, seconds);
  }

  lemma PositiveProduct(x: real, y: real)
    requires x > 0.0 && y > 0.0
    ensures x * y > 0.0
  {
  }

  method TrainingLines(i: Item, nodes: real, gpuHours: real) returns (lines: seq<LineItem>, cost: real)
    ensures Prices(lines, cost, TrainingUsage(i, nodes, gpuHours))
  {
    NoCharges();
    lines, cost := [], 0.0;
    ghost var c1, c2 := At(TrainingNodes, 0.22, nodes), At(GpuHours, 0.35, gpuHours);
    if i.nodeHours > 0.0 || i.vcpus > 0.0 || i.gpuCount > 0 {
      var trainingCost := nodes * 0.22;
      OneMoreCharge(lines, cost, [], c1);
      lines := lines + [LineItem(TrainingNodes, 0.22, Round2(nodes), Round2(trainingCost))];
      cost := cost + trainingCost;
      assert [] + [c1] == [c1];
      MaybeOneMore(lines, cost, [c1], i.gpuCount > 0, c2);
      if i.gpuCount > 0 {
        var gpuCost := gpuHours * 0.35;
        lines := lines + [LineItem(GpuHours, 0.35, Round2(gpuHours), Round2(gpuCost))];
        cost := cost + gpuCost;
      }
      assert TrainingUsage(i, nodes, gpuHours) == [c1] + If(i.gpuCount > 0, c2);
    }
  }

  method TokenLines(i: Item) returns (lines: seq<LineItem>, cost: real)
    ensures Prices(lines, cost, TokenUsage(i))
  {
    NoCharges();
    lines, cost := [], 0.0;
    ghost var c := Tokens(InputTokens, 0.00015, i.inputTokens);
    MaybeOneMore(lines, cost, [], i.inputTokens > 0.0, c);
    assert [] + If(i.inputTokens > 0.0, c) == If(i.inputTokens > 0.0, c);
    if i.inputTokens > 0.0 {
      var inTokenCost := (i.inputTokens / 1000.0) * 0.00015;
      lines := lines + [LineItem(InputTokens, 0.00015, Round2(i.inputTokens), Round2(inTokenCost))];
      cost := cost + inTokenCost;
    }
    MaybeOneMore(lines, cost, If(i.inputTokens > 0.0, c), i.outputTokens > 0.0, Tokens(OutputTokens, 0.0006, i.outputTokens));
    if i.outputTokens > 0.0 {
      var outTokenCost := (i.outputTokens / 1000.0) * 0.0006;
      lines := lines + [LineItem(OutputTokens, 0.0006, Round2(i.outputTokens), Round2(outTokenCost))];
      cost := cost + outTokenCost;
    }
  }

  method NodeLines(i: Item, nodeHours: real, n: real, gpus: real) returns (lines: seq<LineItem>, cost: real)
    ensures Prices(lines, cost, NodeCharges(i, nodeHours, n, gpus))
  {
    lines, cost := TrainingLines(i, nodeHours * n, gpus * nodeHours);
  }

  lemma PricesOfConcat(a: seq<LineItem>, x: real, cs: seq<Charge>, b: seq<LineItem>, y: real, ds: seq<Charge>)
    requires Prices(a, x, cs) && Prices(b, y, ds)
    ensures Prices(a + b, x + y, cs + ds)
  {
    CostsOfConcat(cs, ds);
  }

  method PriceVertex(i: Item, hours: real, instances: int) returns (lines: seq<LineItem>, cost: real)
    requires hours == Hours(i) && instances == Instances(i)
    ensures Prices(lines, cost, VertexCharges(i))
  {
    var nodeHours := i.nodeHours;
    if nodeHours <= 0.0 {
      if i.dailyOnHours > 0.0 {
        nodeHours := i.dailyOnHours * 30.0;
      } else {
        nodeHours := hours;
      }
    }
    var nodes, nodesCost := NodeLines(i, nodeHours, instances as real, (i.gpuCount * instances) as real);
    var tokens, tokensCost := TokenLines(i);
    lines, cost := nodes + tokens, nodesCost + tokensCost;
    PricesOfConcat(nodes, nodesCost, NodeCharges(i, NodeHours(i), instances as real, (i.gpuCount * instances) as real),
                   tokens, tokensCost, TokenUsage(i));
  }

  method PriceBigQuery(i: Item) returns (lines: seq<LineItem>, cost: real)
    ensures Prices(lines, cost, BigQueryCharges(i))
  {
    NoCharges();
    lines, cost := [], 0.0;
    ghost var charged: seq<Charge> := [];
    if i.queriesTiB > 0.0 {
      var queryCost := i.queriesTiB * 5.0;
      ghost var c := At(Analysis, 5.0, i.queriesTiB);
      OneMoreCharge(lines, cost, charged, c);
      charged := charged + [c];
      lines := lines + [LineItem(Analysis, 5.0, Round2(i.queriesTiB), Round2(queryCost))];
      cost := cost + queryCost;
    }
    if i.storageGiB > 0.0 {
      var storageCost := i.storageGiB * 0.020;
      ghost var c := At(ActiveStorage, 0.020, i.storageGiB);
      OneMoreCharge(lines, cost, charged, c);
      charged := charged + [c];
      lines := lines + [LineItem(ActiveStorage, 0.020, Round2(i.storageGiB), Round2(storageCost))];
      cost := cost + storageCost;
    }
    assert charged == BigQueryCharges(i);
  }

  /** The branches with a single line. */
  method PriceOne(sku: Sku, price: real, usage: real) returns (lines: seq<LineItem>, cost: real)
    ensures Prices(lines, cost, [At(sku, price, usage)])
  {
    NoCharges();
    OneMoreCharge([], 0.0, [], At(sku, price, usage));
    cost := usage * price;
    lines := [LineItem(sku, price, Round2(usage), Round2(cost))];
  }

  /** The body of the calculator's loop. */
  method PriceItem(i: Item) returns (lines: seq<LineItem>, cost: real)
    ensures Prices(lines, cost, Charges(i))
  {
    var hours, instances := PriceHours(i);
    match KindOf(i.service) {
      case Compute => lines, cost := PriceCompute(i, hours, instances);
      case RunJobs => lines, cost := PriceRunJobs(i, instances);
      case Vertex => lines, cost := PriceVertex(i, hours, instances);
      case Storage =>
        var (sku, rate) := Rate(i);
        lines, cost := PriceOne(sku, rate, i.storageGiB);
      case BigQuery => lines, cost := PriceBigQuery(i);
      case PubSub => lines, cost := PriceOne(Ingestion, 0.040, i.ingestionGiB);
      case CloudRun => lines, cost := PriceOne(Requests, 0.40, i.requestsCount / 1000000.0);
      case Unknown =>
        NoCharges();
        lines, cost := [], 0.0;
    }
  }

  method CalculateEstimate(items: seq<Item>) returns (e: Estimate)
    ensures IsEstimate(e, items)
  {
    if |items| == 0 {
      return BadRequest;
    }
    var totalCost := 0.0;
    var lineItems := [];
    for k := 0 to |items|
      invariant totalCost == Total(items[..k]) && lineItems == Lines(AllCharges(items[..k]))
    {
      var lines, cost := PriceItem(items[k]);
      OneMoreItem(items, k);
      lineItems := lineItems + lines;
      totalCost := totalCost + cost;
    }
    assert items[..|items|] == items;
    return Estimate(Round2(totalCost), lineItems);
  }

  lemma OneMoreItem(items: seq<Item>, k: nat)
    requires k < |items|
    ensures Total(items[..k + 1]) == Total(items[..k]) + Sum(CostsOf(Charges(items[k])))
    ensures Lines(AllCharges(items[..k + 1])) == Lines(AllCharges(items[..k])) + Lines(Charges(items[k]))
  {
    assert PerItem(items[..k + 1])[..k] == PerItem(items[..k]);
    CostsOfConcat(AllCharges(items[..k]), Charges(items[k]));
  }
}
