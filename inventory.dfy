/**
 * `gather_pc_info`: one pass over the WMI session and the other OS sources,
 * each query with its own "primary, else fallback" rule, producing the
 * inventory record (or the connection error).
 */
module Inventory {
  import opened Wrappers
  import opened Text

  /** 1024 ** 3 */
  const GiB: nat := 1073741824

  /** `bytes // (1024**3)`: Python's floor division, so whole gibibytes rounded down. */
  function ToGiB(bytes: int): (g: int)
    ensures g * GiB <= bytes < (g + 1) * GiB
  {
    bytes / GiB
  }

  // ---- What the machine answers (the OS interfaces, as opaque inputs) ----

  /** A `Win32_Processor` row; `name` is `None` when the property is null. */
  datatype ProcessorRow = ProcessorRow(name: Option<string>)

  /** A `Win32_BaseBoard` row, with its properties already rendered by `str()`. */
  datatype BoardRow = BoardRow(manufacturer: string, product: string)

  /**
   * A `Win32_PhysicalMemory` row. WMI reports the 64-bit capacity as decimal
   * text; `None` is a null property.
   */
  datatype MemoryRow = MemoryRow(manufacturer: string, capacity: Option<string>, speed: string)

  /** A `Win32_DiskDrive` row; `None` is a null property. */
  datatype DiskRow = DiskRow(model: Option<string>, size: Option<string>)

  /** A query whose first row is taken: the list it returned, or the exception it raised. */
  datatype Listing<T> = Listed(rows: seq<T>) | CallRaised
  {
    /** The query returned an empty list, so taking `[0]` raises `IndexError`. */
    predicate Empty() {
      Listed? && |rows| == 0
    }
  }

  /** A query that is iterated: every row, or these rows and then an exception. */
  datatype Query<T> = Rows(rows: seq<T>) | FailsAfter(rows: seq<T>)

  /** `GetOA3xOriginalProductKey()`: its first element (`None` for null), or an exception. */
  datatype KeyCall = KeyReturned(key: Option<string>) | KeyRaised

  /** What the session's queries yield, in the order they are issued. */
  datatype Session = Session(
    processors: Listing<ProcessorRow>,
    boards: Listing<BoardRow>,
    memory: Query<MemoryRow>,
    disks: Query<DiskRow>,
    productKey: KeyCall)

  /**
   * The machine: the WMI session (`None` when `wmi.WMI()` raises `x_wmi`),
   * `socket.gethostname()`, `platform.platform()`, `platform.processor()`
   * and `psutil.virtual_memory().total` (`None` when psutil is not installed).
   */
  datatype Machine = Machine(
    wmi: Option<Session>,
    hostname: string,
    platform: string,
    processor: string,
    psutilTotal: Option<int>)

  // ---- The inventory record ----

  datatype DiskKind = SSD | HDD | NA

  /** One entry of `info['discos']`: `{'tipo': ..., 'info': ...}`. */
  datatype Disk = Disk(kind: DiskKind, info: string)

  /** The `info` dict of a successful pass. */
  datatype PcInfo = PcInfo(
    nome: string,
    tipoOS: string,
    processador: string,
    placaMae: string,
    memorias: seq<string>,
    discos: seq<Disk>,
    licencaOS: string)

  /** The calls the pass makes, for recording which sources were consulted. */
  datatype Probe =
    | ConnectWmi | HostName | PlatformName | ProcessorQuery | PlatformProcessor
    | BaseBoardQuery | MemoryQuery | VirtualMemory | DiskQuery | ProductKeyCall

  /**
   * The outcome of `gather_pc_info`: the `{"error": ...}` dict, the inventory,
   * or an exception that escapes it (raised by the named call).
   */
  datatype Gathered = WmiError(message: string) | Info(info: PcInfo) | Uncaught(at: Probe)

  const WmiErrorMessage := "Could not connect to WMI. Please run as administrator."
  const BoardUnavailable := "Não disponível"
  const DiskUnavailable := Disk(NA, "Não disponível")
  const KeyNotFound := "Não encontrada"
  const KeyUnavailable := "Não disponível (requer admin)"

  // ---- Per-row formatting ----

  /** `int(p)` for a WMI property; `None` when it raises (null or not a number). */
  function IntOf(p: Option<string>): (r: Option<int>)
    ensures p.None? ==> r.None?
    ensures r.Some? ==> exists i :: 0 <= i < |p.value| && IsDigit(p.value[i])
  {
    if p.None? then None else ParseInt(p.value)
  }

  /** `f"{Manufacturer} {int(Capacity) // (1024**3)}GB {Speed}MHz"`; `None` when `int()` raises. */
  function MemoryLine(row: MemoryRow): (r: Option<string>)
    ensures r.Some? <==> IntOf(row.capacity).Some?
  {
    match IntOf(row.capacity)
    case None => None
    case Some(bytes) => Some(row.manufacturer + " " + IntToString(ToGiB(bytes)) + "GB " + row.speed + "MHz")
  }

  /** The psutil fallback line, `f"Total: {mem.total // (1024**3)} GB"`. */
  function TotalLine(total: int): (r: string)
    ensures |r| >= 10 && r[..7] == "Total: " && r[|r| - 3..] == " GB"
    ensures ParseInt(r[7..|r| - 3]) == Some(ToGiB(total))
  {
    var r := "Total: " + IntToString(ToGiB(total)) + " GB";
    assert r[7..|r| - 3] == IntToString(ToGiB(total));
    ParseIntOfIntToString(ToGiB(total));
    r
  }

  /** `"SSD" if "SSD" in model.upper() else "HDD"`. */
  function Classify(model: string): (k: DiskKind)
    ensures k != NA
    ensures k == SSD ==> exists i :: OccursAt(Upper(model), "SSD", i)
    ensures (exists i :: OccursAt(Upper(model), "SSD", i)) ==> k == SSD
  {
    if Contains(Upper(model), "SSD") then SSD else HDD
  }

  /**
   * Three characters at offset `i` of `model` that upper-case to "S", "S"
   * and "D" one for one.
   */
  predicate SsdAt(model: string, i: int) {
    && 0 <= i && i + 3 <= |model|
    && UpperOf(model[i]) == "S" && UpperOf(model[i + 1]) == "S" && UpperOf(model[i + 2]) == "D"
  }

  /**
   * For a model in which no character upper-cases to more than one, the
   * test is a case-blind search for "SSD".
   */
  lemma ClassifyOneForOne(model: string)
    requires forall i :: 0 <= i < |model| ==> |UpperOf(model[i])| == 1
    ensures Classify(model) == SSD <==> exists i :: SsdAt(model, i)
  {
    var u := Upper(model);
    UpperOneForOne(model);
    forall i ensures OccursAt(u, "SSD", i) <==> SsdAt(model, i) {
      if 0 <= i && i + 3 <= |model| {
        assert u[i..i + 3] == [u[i], u[i + 1], u[i + 2]];
      }
    }
  }

  /**
   * One disk row as the loop body turns it into an entry; `None` when
   * `Model.upper()` or `int(Size)` raises.
   */
  function DiskEntry(row: DiskRow): (r: Option<Disk>)
    ensures r.Some? <==> row.model.Some? && IntOf(row.size).Some?
    ensures r.Some? ==> r.value.kind != NA && r.value.kind == Classify(row.model.value)
    ensures r.Some? ==> Strip(row.model.value, IsSpace) + " (" <= r.value.info
  {
    if row.model.None? then None
    else match IntOf(row.size)
      case None => None
      case Some(bytes) =>
        var model := row.model.value;
        Some(Disk(Classify(model), Strip(model, IsSpace) + " (" + IntToString(ToGiB(bytes)) + " GB)"))
  }

  // ---- The append loops ----

  /**
   * What a `for` loop appends before its first failing row: the longest
   * prefix of `rows` that all convert, converted.
   */
  function Appended<T, U>(rows: seq<T>, convert: T -> Option<U>): (out: seq<U>)
    ensures |out| <= |rows|
    ensures forall i :: 0 <= i < |out| ==> convert(rows[i]) == Some(out[i])
    ensures |out| < |rows| ==> convert(rows[|out|]).None?
  {
    if rows == [] then []
    else match convert(rows[0])
      case None => []
      case Some(u) => [u] + Appended(rows[1..], convert)
  }

  /** The loop over `q` ends in an exception: from the query, or from a row that does not convert. */
  predicate LoopRaised<T, U>(q: Query<T>, convert: T -> Option<U>) {
    q.FailsAfter? || |Appended(q.rows, convert)| < |q.rows|
  }

  /** `info['memorias']`: the appended lines, then the psutil line if the loop raised and psutil is present. */
  function MemoryList(q: Query<MemoryRow>, psutilTotal: Option<int>): (r: seq<string>)
    ensures Appended(q.rows, MemoryLine) <= r
    ensures |r| <= |q.rows| + 1
    ensures !LoopRaised(q, MemoryLine) ==> |r| == |q.rows|
  {
    Appended(q.rows, MemoryLine)
    + if LoopRaised(q, MemoryLine) && psutilTotal.Some? then [TotalLine(psutilTotal.value)] else []
  }

  /** `info['discos']`: the appended disks, then the placeholder if the loop raised. */
  function DiskList(q: Query<DiskRow>): (r: seq<Disk>)
    ensures Appended(q.rows, DiskEntry) <= r
    ensures |r| <= |q.rows| + 1
    ensures LoopRaised(q, DiskEntry) <==> |r| > 0 && r[|r| - 1] == DiskUnavailable
  {
    var a := Appended(q.rows, DiskEntry);
    assert a != [] ==> DiskEntry(q.rows[|a| - 1]) == Some(a[|a| - 1]);
    a + if LoopRaised(q, DiskEntry) then [DiskUnavailable] else []
  }

  // ---- The single-row fields ----

  /**
   * `c.Win32_Processor()[0].Name.strip()`, with `platform.processor()` on
   * `IndexError`; `None` when another exception escapes.
   */
  function ProcessorName(l: Listing<ProcessorRow>, fallback: string): (r: Option<string>)
    ensures r.None? <==> l.CallRaised? || (l.rows != [] && l.rows[0].name.None?)
    ensures l.Listed? && l.rows == [] ==> r == Some(fallback)
    ensures r.Some? && l.Listed? && l.rows != [] && r.value != [] ==> !IsSpace(r.value[0]) && !IsSpace(r.value[|r.value| - 1])
    ensures l.Listed? && l.rows != [] && l.rows[0].name.Some? ==>
      r.Some? && exists i :: TrimmedAt(l.rows[0].name.value, r.value, i, IsSpace)
  {
    match l
    case CallRaised => None
    case Listed(rows) =>
      if rows == [] then Some(fallback)
      else if rows[0].name.None? then None
      else Some(Strip(rows[0].name.value, IsSpace))
  }

  /** `f"{Manufacturer} {Product}"` of the first board, else "Não disponível" on `IndexError`. */
  function BoardText(l: Listing<BoardRow>): (r: Option<string>)
    ensures r.None? <==> l.CallRaised?
    ensures r.Some? ==> r.value != []
  {
    match l
    case CallRaised => None
    case Listed(rows) =>
      if rows == [] then Some(BoardUnavailable)
      else Some(rows[0].manufacturer + " " + rows[0].product)
  }

  /** `os_key[0] if os_key[0] else "Não encontrada"`, or the admin marker when the call raises. */
  function LicenseText(c: KeyCall): (r: string)
    ensures r != []
  {
    match c
    case KeyRaised => KeyUnavailable
    case KeyReturned(key) => if key.Some? && key.value != "" then key.value else KeyNotFound
  }

  // ---- The whole pass ----

  /** What `gather_pc_info` returns on `m`. */
  function Gather(m: Machine): (g: Gathered)
    ensures g.WmiError? <==> m.wmi.None?
    ensures g.WmiError? ==> g.message == WmiErrorMessage
    ensures g.Uncaught? ==> g.at == ProcessorQuery || g.at == BaseBoardQuery
    ensures g.Info? ==> g.info.nome == m.hostname && g.info.tipoOS == m.platform && g.info.licencaOS != []
  {
    match m.wmi
    case None => WmiError(WmiErrorMessage)
    case Some(c) =>
      match ProcessorName(c.processors, m.processor)
      case None => Uncaught(ProcessorQuery)
      case Some(cpu) =>
        match BoardText(c.boards)
        case None => Uncaught(BaseBoardQuery)
        case Some(board) =>
          Info(PcInfo(m.hostname, m.platform, cpu, board,
                      MemoryList(c.memory, m.psutilTotal), DiskList(c.disks), LicenseText(c.productKey)))
  }

  /** The calls up to the processor name: `platform.processor()` only when the query listed no rows. */
  function CpuProbes(c: Session): seq<Probe> {
    [ConnectWmi, HostName, PlatformName, ProcessorQuery] + if c.processors.Empty() then [PlatformProcessor] else []
  }

  /** `psutil.virtual_memory()` is called only when the memory loop raised and psutil is present. */
  function MemoryProbes(q: Query<MemoryRow>, psutilTotal: Option<int>): (r: seq<Probe>)
    ensures r == [] || r == [VirtualMemory]
  {
    if LoopRaised(q, MemoryLine) && psutilTotal.Some? then [VirtualMemory] else []
  }

  /** The calls after the motherboard: the memory query (and psutil), the disk query, the product key. */
  function TailProbes(c: Session, psutilTotal: Option<int>): seq<Probe> {
    [MemoryQuery] + MemoryProbes(c.memory, psutilTotal) + [DiskQuery, ProductKeyCall]
  }

  /** The calls `gather_pc_info` makes on `m`, in order. */
  function Probes(m: Machine): (r: seq<Probe>)
    ensures |r| >= 1 && r[0] == ConnectWmi
    ensures |r| == 1 <==> m.wmi.None?
  {
    match m.wmi
    case None => [ConnectWmi]
    case Some(c) =>
      if ProcessorName(c.processors, m.processor).None? then CpuProbes(c)
      else if BoardText(c.boards).None? then CpuProbes(c) + [BaseBoardQuery]
      else CpuProbes(c) + [BaseBoardQuery] + TailProbes(c, m.psutilTotal)
  }

  /** The `for` loop of a query: appends row by row until a row does not convert or the query raises. */
  method AppendRows<T, U>(q: Query<T>, convert: T -> Option<U>) returns (out: seq<U>, raised: bool)
    ensures out == Appended(q.rows, convert)
    ensures raised == LoopRaised(q, convert)
  {
    ghost var all := Appended(q.rows, convert);
    out := [];
    raised := false;
    var i := 0;
    while i < |q.rows| && !raised
      invariant 0 <= i <= |q.rows|
      invariant !raised ==> i <= |all| && out == all[..i]
      invariant raised ==> out == all && |all| < |q.rows|
      decreases |q.rows| - i, if raised then 0 else 1
    {
      match convert(q.rows[i])
      case None =>
        raised := true;
      case Some(u) =>
        out := out + [u];
        i := i + 1;
    }
    if q.FailsAfter? {
      raised := true;
    }
  }

  /** Lines 49-59: the memory loop and its psutil fallback. */
  method CollectMemory(q: Query<MemoryRow>, psutilTotal: Option<int>) returns (memorias: seq<string>, consulted: bool)
    ensures memorias == MemoryList(q, psutilTotal)
    ensures (if consulted then [VirtualMemory] else []) == MemoryProbes(q, psutilTotal)
  {
    var raised;
    memorias, raised := AppendRows(q, MemoryLine);
    consulted := raised && psutilTotal.Some?;
    if consulted {
      memorias := memorias + [TotalLine(psutilTotal.value)];
    }
  }

  /** Lines 62-71: the disk loop and its placeholder. */
  method CollectDisks(q: Query<DiskRow>) returns (discos: seq<Disk>)
    ensures discos == DiskList(q)
  {
    var raised;
    discos, raised := AppendRows(q, DiskEntry);
    if raised {
      discos := discos + [DiskUnavailable];
    }
  }

  /**
   * Lines 35-39: the processor name, and whether the `IndexError` fallback
   * called `platform.processor()`; `None` when another exception escapes.
   */
  method ReadProcessor(l: Listing<ProcessorRow>, fallback: string) returns (cpu: Option<string>, consulted: bool)
    ensures cpu == ProcessorName(l, fallback)
    ensures consulted <==> l.Empty()
  {
    consulted := false;
    match l {
      case CallRaised =>
        cpu := None;
      case Listed(rows) =>
        if rows == [] {
          consulted := true;
          cpu := Some(fallback);
        } else if rows[0].name.None? {
          cpu := None;
        } else {
          cpu := Some(Strip(rows[0].name.value, IsSpace));
        }
    }
  }

  /** Lines 48-79: the memory and disk loops and the product key, each call recorded as it is made. */
  method GatherTail(c: Session, psutilTotal: Option<int>)
    returns (memorias: seq<string>, discos: seq<Disk>, licencaOS: string, calls: seq<Probe>)
    ensures memorias == MemoryList(c.memory, psutilTotal)
    ensures discos == DiskList(c.disks)
    ensures licencaOS == LicenseText(c.productKey)
    ensures calls == TailProbes(c, psutilTotal)
  {
    calls := [MemoryQuery];
    var consulted;
    memorias, consulted := CollectMemory(c.memory, psutilTotal);
    calls := calls + if consulted then [VirtualMemory] else [];
    calls := calls + [DiskQuery];
    discos := CollectDisks(c.disks);
    calls := calls + [ProductKeyCall];
    licencaOS := LicenseText(c.productKey);
    TailProbesInOrder(c, psutilTotal, if consulted then [VirtualMemory] else []);
  }

  /** The tail calls, one appended after another: the memory query, psutil (when consulted), the disk query, the key. */
  lemma TailProbesInOrder(c: Session, psutilTotal: Option<int>, memoryCalls: seq<Probe>)
    requires memoryCalls == MemoryProbes(c.memory, psutilTotal)
    ensures TailProbes(c, psutilTotal) == [MemoryQuery] + memoryCalls + [DiskQuery] + [ProductKeyCall]
  {
    assert [DiskQuery] + [ProductKeyCall] == [DiskQuery, ProductKeyCall];
  }

  /** `gather_pc_info` step by step, recording the calls it makes. */
  method GatherPcInfo(m: Machine) returns (g: Gathered, probes: seq<Probe>)
    ensures g == Gather(m)
    ensures probes == Probes(m)
  {
    probes := [ConnectWmi];
    if m.wmi.None? {
      return WmiError(WmiErrorMessage), probes;
    }
    var c := m.wmi.value;
    var nome := m.hostname;
    var tipoOS := m.platform;
    probes := probes + [HostName, PlatformName, ProcessorQuery];

    var cpu, consulted := ReadProcessor(c.processors, m.processor);
    if consulted {
      probes := probes + [PlatformProcessor];
    }
    assert probes == CpuProbes(c);
    if cpu.None? {
      return Uncaught(ProcessorQuery), probes;
    }
    var processador := cpu.value;

    probes := probes + [BaseBoardQuery];
    var board := BoardText(c.boards);
    if board.None? {
      return Uncaught(BaseBoardQuery), probes;
    }
    var placaMae := board.value;
    assert probes == CpuProbes(c) + [BaseBoardQuery];

    var memorias, discos, licencaOS, calls := GatherTail(c, m.psutilTotal);
    probes := probes + calls;
    g := Info(PcInfo(nome, tipoOS, processador, placaMae, memorias, discos, licencaOS));
  }

  // ---- Properties of the pass ----

  /** An unreachable WMI gives exactly the error dict, and nothing after the connection attempt is consulted. */
  lemma ConnectionFailureExit(m: Machine)
    ensures Gather(m).WmiError? <==> m.wmi.None?
    ensures m.wmi.None? ==> Gather(m) == WmiError(WmiErrorMessage) && Probes(m) == [ConnectWmi]
  {
  }

  /**
   * `platform.processor()` is consulted exactly when the processor query
   * lists no rows, and then it names the processor; any other exception
   * of the query escapes.
   */
  lemma ProcessorFallbackOnlyWhenEmpty(m: Machine)
    requires m.wmi.Some?
    ensures PlatformProcessor in Probes(m) <==> m.wmi.value.processors.Empty()
    ensures m.wmi.value.processors.Empty() && Gather(m).Info? ==> Gather(m).info.processador == m.processor
    ensures m.wmi.value.processors.CallRaised? ==> Gather(m) == Uncaught(ProcessorQuery)
  {
    var c := m.wmi.value;
    assert PlatformProcessor in CpuProbes(c) <==> c.processors.Empty();
    TailProbesAfterProcessor(c, m.psutilTotal);
  }

  /** The calls after the motherboard never include `platform.processor()`. */
  lemma TailProbesAfterProcessor(c: Session, psutilTotal: Option<int>)
    ensures PlatformProcessor !in TailProbes(c, psutilTotal)
  {
  }

  /**
   * The motherboard falls back to "Não disponível" only when the board query
   * lists no rows; when the query raises, the exception escapes before any
   * memory query runs.
   */
  lemma BoardFallbackOnlyWhenEmpty(m: Machine)
    requires m.wmi.Some? && ProcessorName(m.wmi.value.processors, m.processor).Some?
    ensures m.wmi.value.boards.Empty() ==> Gather(m).Info? && Gather(m).info.placaMae == BoardUnavailable
    ensures m.wmi.value.boards.Listed? && m.wmi.value.boards.rows != [] ==>
      var b := m.wmi.value.boards.rows[0];
      Gather(m).Info? && Gather(m).info.placaMae == b.manufacturer + " " + b.product
    ensures m.wmi.value.boards.CallRaised? ==> Gather(m) == Uncaught(BaseBoardQuery) && Probes(m) == CpuProbes(m.wmi.value) + [BaseBoardQuery]
  {
  }

  /**
   * When the memory loop raises at row `k` (a row that does not format, or
   * the query's own exception after `k` rows), the list holds the `k` lines
   * and then exactly one psutil line, or nothing more without psutil.
   */
  lemma MemoryAfterFailure(q: Query<MemoryRow>, psutilTotal: Option<int>, k: nat)
    requires k <= |q.rows|
    requires forall i :: 0 <= i < k ==> MemoryLine(q.rows[i]).Some?
    requires (k < |q.rows| && MemoryLine(q.rows[k]).None?) || (k == |q.rows| && q.FailsAfter?)
    ensures var r := MemoryList(q, psutilTotal);
      && |r| == k + (if psutilTotal.Some? then 1 else 0)
      && (forall i :: 0 <= i < k ==> MemoryLine(q.rows[i]) == Some(r[i]))
      && (psutilTotal.Some? ==> r[k] == TotalLine(psutilTotal.value))
  {
    AppendedLength(q.rows, MemoryLine, k);
  }

  /** Without an exception, there is one line per row, in row order, and no psutil line. */
  lemma MemoryWithoutFailure(q: Query<MemoryRow>, psutilTotal: Option<int>)
    requires q.Rows? && forall i :: 0 <= i < |q.rows| ==> MemoryLine(q.rows[i]).Some?
    ensures var r := MemoryList(q, psutilTotal);
      |r| == |q.rows| && forall i :: 0 <= i < |r| ==> MemoryLine(q.rows[i]) == Some(r[i])
  {
    AppendedLength(q.rows, MemoryLine, |q.rows|);
  }

  /** The disk loop raising at row `k` leaves the `k` disks and then exactly one placeholder. */
  lemma DiskAfterFailure(q: Query<DiskRow>, k: nat)
    requires k <= |q.rows|
    requires forall i :: 0 <= i < k ==> DiskEntry(q.rows[i]).Some?
    requires (k < |q.rows| && DiskEntry(q.rows[k]).None?) || (k == |q.rows| && q.FailsAfter?)
    ensures var r := DiskList(q);
      && |r| == k + 1
      && (forall i :: 0 <= i < k ==> DiskEntry(q.rows[i]) == Some(r[i]))
      && r[k] == DiskUnavailable
  {
    AppendedLength(q.rows, DiskEntry, k);
  }

  /**
   * Every disk of a row that went through is an SSD (its upper-cased model
   * contains "SSD") or an HDD; the "N/A" placeholder can only be the last
   * entry, and is there exactly when the loop raised.
   */
  lemma DiskKinds(q: Query<DiskRow>)
    ensures var r := DiskList(q);
      forall i :: 0 <= i < |r| ==> (r[i].kind == NA <==> LoopRaised(q, DiskEntry) && i == |r| - 1)
    ensures var r := DiskList(q);
      forall i :: 0 <= i < |r| && r[i].kind != NA ==>
        && q.rows[i].model.Some?
        && (r[i].kind == SSD <==> exists j :: OccursAt(Upper(q.rows[i].model.value), "SSD", j))
  {
    var r := DiskList(q);
    var a := Appended(q.rows, DiskEntry);
    var raised := LoopRaised(q, DiskEntry);
    assert r == a + if raised then [DiskUnavailable] else [];
    forall i | 0 <= i < |r|
      ensures r[i].kind == NA <==> raised && i == |r| - 1
      ensures r[i].kind != NA ==>
        && q.rows[i].model.Some?
        && (r[i].kind == SSD <==> exists j :: OccursAt(Upper(q.rows[i].model.value), "SSD", j))
    {
      if i < |a| {
        assert r[i] == a[i];
        DiskEntryKind(q.rows[i], a[i]);
      } else {
        assert r[i] == DiskUnavailable;
      }
    }
  }

  /** A disk a row converts to is an SSD exactly when its upper-cased model contains "SSD", and an HDD otherwise. */
  lemma DiskEntryKind(row: DiskRow, d: Disk)
    requires DiskEntry(row) == Some(d)
    ensures d.kind != NA && row.model.Some?
    ensures d.kind == SSD ==> exists j :: OccursAt(Upper(row.model.value), "SSD", j)
    ensures (exists j :: OccursAt(Upper(row.model.value), "SSD", j)) ==> d.kind == SSD
  {
    assert d.kind == Classify(row.model.value);
  }

  /** A size given as the decimal text of `bytes` is read back exactly and shown as its floor in GiB after the stripped model. */
  lemma DiskEntryOfSize(model: string, bytes: int)
    ensures DiskEntry(DiskRow(Some(model), Some(IntToString(bytes))))
         == Some(Disk(Classify(model), Strip(model, IsSpace) + " (" + IntToString(ToGiB(bytes)) + " GB)"))
  {
    ParseIntOfIntToString(bytes);
    assert IntOf(Some(IntToString(bytes))) == Some(bytes);
  }

  /** The license is the key when one is returned, else "Não encontrada"; when the call raises, the admin marker. It is never empty. */
  lemma LicenseChoice(m: Machine)
    requires Gather(m).Info?
    ensures var key := m.wmi.value.productKey; var lic := Gather(m).info.licencaOS;
      && (key.KeyReturned? && key.key.Some? && key.key.value != "" ==> lic == key.key.value)
      && (key.KeyReturned? && (key.key.None? || key.key.value == "") ==> lic == KeyNotFound)
      && (key.KeyRaised? ==> lic == KeyUnavailable)
      && lic != ""
  {
  }

  /** The number of rows converted is the position of the first row that does not convert. */
  lemma AppendedLength<T, U>(rows: seq<T>, convert: T -> Option<U>, k: nat)
    requires k <= |rows|
    requires forall i :: 0 <= i < k ==> convert(rows[i]).Some?
    requires k < |rows| ==> convert(rows[k]).None?
    ensures |Appended(rows, convert)| == k
  {
  }

  /**
   * A capacity written as the decimal text of `bytes` is read back exactly
   * and shown floored to gibibytes.
   */
  lemma MemoryLineOfCapacity(manufacturer: string, bytes: int, speed: string)
    ensures MemoryLine(MemoryRow(manufacturer, Some(IntToString(bytes)), speed))
         == Some(manufacturer + " " + IntToString(ToGiB(bytes)) + "GB " + speed + "MHz")
  {
    ParseIntOfIntToString(bytes);
    assert IntOf(Some(IntToString(bytes))) == Some(bytes);
  }

  /** Sizes are floored to whole gibibytes: 8589934592 bytes is "8", one byte less is 7. */
  lemma GiBExamples()
    ensures ToGiB(8589934592) == 8 && IntToString(ToGiB(8589934592)) == "8"
    ensures ToGiB(8589934591) == 7
  {
  }

  /**
   * A model with a piece that upper-cases to "SSD" anywhere in it, such as
   * "Samsung SSD 970", "ssd" or "ßD", is an SSD.
   */
  lemma ClassifyContainsMark(head: string, mark: string, tail: string)
    requires Upper(mark) == "SSD"
    ensures Classify(head + mark + tail) == SSD
  {
    UpperAppend(head, mark);
    UpperAppend(head + mark, tail);
    var u, n := Upper(head + mark + tail), |Upper(head)|;
    assert u == Upper(head) + "SSD" + Upper(tail);
    assert u[n..n + 3] == "SSD";
    assert OccursAt(u, "SSD", n);
  }

  /** "ssd", "ßD" and "ſsd" each upper-case to "SSD"; "HDD" has no such piece. */
  lemma ClassifyExamples()
    ensures Upper("ssd") == "SSD" && Upper("\U{df}D") == "SSD" && Upper("\U{17f}sd") == "SSD"
    ensures Classify("\U{df}D") == SSD && Classify("\U{17f}sd") == SSD
    ensures Classify("HDD") == HDD
  {
    assert Upper("D") == "D" && Upper("sd") == "SD";
    assert Upper("\U{df}D") == "SS" + Upper("D");
    assert Upper("\U{17f}sd") == "S" + Upper("sd");
    ClassifyContainsMark([], "\U{df}D", []);
    assert [] + "\U{df}D" + [] == "\U{df}D";
    ClassifyContainsMark([], "\U{17f}sd", []);
    assert [] + "\U{17f}sd" + [] == "\U{17f}sd";
    assert Upper("HDD") == "HDD" && !Contains("HDD", "SSD");
  }
}
