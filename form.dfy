/**
 * The two tabs of entries and the population of the PC tab from the
 * gathered inventory (`create_pc_form` from the call to `gather_pc_info`
 * on, and the host-name entry of `create_user_form`).
 */
module PcForm {
  import opened Wrappers
  import opened Dict
  import opened Inventory

  /** The thirteen labels of the PC tab, by role; `Seq` is their order on the form. */
  datatype PcLabels = PcLabels(
    nome: string, numero: string, placaMae: string, processador: string,
    memoria1: string, memoria2: string, hdd1: string, hdd2: string,
    ssd1: string, ssd2: string, tipoOS: string, licencaOS: string, ramal: string)
  {
    function Seq(): seq<string> {
      [nome, numero, placaMae, processador, memoria1, memoria2, hdd1, hdd2, ssd1, ssd2, tipoOS, licencaOS, ramal]
    }
  }

  /** Positions of the slots in `PcLabels.Seq`. */
  const MemorySlot := 4
  const HddSlot := 6
  const SsdSlot := 8

  /** The PC labels of the edited script. */
  const EditedPcLabels := PcLabels(
    "Nome", "Numero", "Placa mae", "Processador", "Memoria 1", "Memoria 2",
    "HDD 1", "HDD 2", "SSD 1", "SSD 2", "Tipo OS", "Licenca OS", "Ramal")

  /** The PC labels of the original script. */
  const OriginalPcLabels := PcLabels(
    "Nome", "Número", "Placa mãe", "Processador", "Memória 1", "Memória 2",
    "HDD 1", "HDD 2", "SSD 1", "SSD 2", "Tipo OS", "Licença OS", "Ramal")

  /** The labels of the user tab (the same in both scripts). */
  const UserLabels := ["Nome", "Nome do PC", "Monitor 1", "Monitor 2", "Mesa", "Licença 1", "Licença 2", "Licença 3"]

  function Blank(n: nat): seq<string> {
    seq(n, _ => "")
  }

  /** What `create_pc_form` reports: populated, the WMI warning, or the exception it lets through. */
  datatype FormOutcome = Populated | Warned(message: string) | Propagated

  /** A tab: its labels and the current text of the entry beside each one. */
  class EntryForm {
    const labels: seq<string>
    var texts: seq<string>

    ghost predicate Valid()
      reads this
    {
      Distinct(labels) && |texts| == |labels|
    }

    /** One empty entry per label. */
    constructor (labels: seq<string>)
      requires Distinct(labels)
      ensures Valid() && this.labels == labels && texts == Blank(|labels|)
    {
      this.labels := labels;
      texts := Blank(|labels|);
    }

    /** `entries.items()`, each entry read through `get()`. */
    function Items(): (d: Items)
      reads this
      requires Valid()
      ensures IsDict(d) && Keys(d) == labels
      ensures forall i :: 0 <= i < |d| ==> d[i] == Item(labels[i], texts[i])
    {
      Zip(labels, texts)
    }

    /**
     * `entries[caption].insert(0, s)`: `s` goes in front of the entry's text.
     * The ghost `at` names the position the lookup by caption finds.
     */
    method Insert(caption: string, s: string, ghost at: nat)
      requires Valid() && at < |labels| && labels[at] == caption
      modifies this
      ensures Valid()
      ensures texts == old(texts)[at := s + old(texts)[at]]
    {
      IndexOfDistinct(labels, at);
      var i := IndexOf(labels, caption).value;
      texts := texts[i := s + texts[i]];
    }
  }

  /** `[d['info'] for d in discos if d['tipo'] == kind]`. */
  function Bucket(discos: seq<Disk>, kind: DiskKind): (r: seq<string>)
    ensures |r| <= |discos|
  {
    if discos == [] then []
    else (if discos[0].kind == kind then [discos[0].info] else []) + Bucket(discos[1..], kind)
  }

  /** The `n`-th element of `xs` if there is one, else the empty entry. */
  function Slot(xs: seq<string>, n: nat): (r: string)
    ensures |xs| > n ==> r == xs[n]
    ensures |xs| <= n ==> r == ""
  {
    if |xs| > n then xs[n] else ""
  }

  /** The texts of the PC tab once populated from `info`, in label order. */
  function PcTexts(info: PcInfo): (t: seq<string>)
    ensures |t| == 13
  {
    var ssds := Bucket(info.discos, SSD);
    var hdds := Bucket(info.discos, HDD);
    [info.nome, "", info.placaMae, info.processador,
     Slot(info.memorias, 0), Slot(info.memorias, 1),
     Slot(hdds, 0), Slot(hdds, 1), Slot(ssds, 0), Slot(ssds, 1),
     info.tipoOS, info.licencaOS, ""]
  }

  /** One `if len(xs) > 0` / `if len(xs) > 1` pair: `xs[0]` and `xs[1]`, where they exist, go in front of the entries of `first` and `second`, found at `i` and `j`. */
  method FillPair(form: EntryForm, first: string, second: string, xs: seq<string>, ghost i: nat, ghost j: nat)
    requires form.Valid() && i < j < |form.labels| && form.labels[i] == first && form.labels[j] == second
    modifies form
    ensures form.Valid()
    ensures form.texts == old(form.texts)[i := Slot(xs, 0) + old(form.texts)[i]][j := Slot(xs, 1) + old(form.texts)[j]]
  {
    if |xs| > 0 {
      form.Insert(first, xs[0], i);
    } else {
      assert "" + form.texts[i] == form.texts[i];
    }
    if |xs| > 1 {
      form.Insert(second, xs[1], j);
    } else {
      assert "" + form.texts[j] == form.texts[j];
    }
  }

  /** Lines 128-132: the five single-valued entries. */
  method FillFields(form: EntryForm, labels: PcLabels, info: PcInfo)
    requires form.Valid() && form.labels == labels.Seq() && form.texts == Blank(13)
    modifies form
    ensures form.Valid() && form.texts == PcTexts(info.(memorias := [], discos := []))
  {
    form.Insert(labels.nome, info.nome, 0);
    form.Insert(labels.processador, info.processador, 3);
    form.Insert(labels.placaMae, info.placaMae, 2);
    form.Insert(labels.tipoOS, info.tipoOS, 10);
    form.Insert(labels.licencaOS, info.licencaOS, 11);
    assert info.nome + "" == info.nome && info.processador + "" == info.processador;
    assert info.placaMae + "" == info.placaMae && info.tipoOS + "" == info.tipoOS;
    assert info.licencaOS + "" == info.licencaOS;
    ghost var t := PcTexts(info.(memorias := [], discos := []));
    assert |form.texts| == |t|;
    forall k | 0 <= k < 13 ensures form.texts[k] == t[k] {}
  }

  /** Lines 134-147: the memory, SSD and HDD slots, in that order. */
  method FillSlots(form: EntryForm, labels: PcLabels, info: PcInfo)
    requires form.Valid() && form.labels == labels.Seq()
    requires form.texts == PcTexts(info.(memorias := [], discos := []))
    modifies form
    ensures form.Valid() && form.texts == PcTexts(info)
  {
    var ssds := Bucket(info.discos, SSD);
    var hdds := Bucket(info.discos, HDD);
    ghost var t := PcTexts(info);
    FillPair(form, labels.memoria1, labels.memoria2, info.memorias, MemorySlot, MemorySlot + 1);
    FillPair(form, labels.ssd1, labels.ssd2, ssds, SsdSlot, SsdSlot + 1);
    FillPair(form, labels.hdd1, labels.hdd2, hdds, HddSlot, HddSlot + 1);
    assert Slot(info.memorias, 0) + "" == t[4] && Slot(info.memorias, 1) + "" == t[5];
    assert Slot(hdds, 0) + "" == t[6] && Slot(hdds, 1) + "" == t[7];
    assert Slot(ssds, 0) + "" == t[8] && Slot(ssds, 1) + "" == t[9];
    assert |form.texts| == |t|;
    forall k | 0 <= k < 13 ensures form.texts[k] == t[k] {
      if k < MemorySlot || k >= SsdSlot + 2 {
      } else if k < HddSlot {
      } else if k < SsdSlot {
      } else {
      }
    }
  }

  /** Lines 124-147: fills the fresh PC tab from the gathered inventory; a WMI error leaves it empty. */
  method PopulatePcForm(form: EntryForm, labels: PcLabels, g: Gathered) returns (outcome: FormOutcome)
    requires form.Valid() && form.labels == labels.Seq() && form.texts == Blank(13)
    modifies form
    ensures form.Valid()
    ensures g.Info? ==> outcome == Populated && form.texts == PcTexts(g.info)
    ensures g.WmiError? ==> outcome == Warned(g.message) && form.texts == Blank(13)
    ensures g.Uncaught? ==> outcome == Propagated && form.texts == Blank(13)
  {
    if g.WmiError? {
      return Warned(g.message);
    }
    if g.Uncaught? {
      return Propagated;
    }
    FillFields(form, labels, g.info);
    FillSlots(form, labels, g.info);
    outcome := Populated;
  }

  /** The PC labels of both scripts are distinct, as `create_pc_form` needs. */
  lemma PcLabelsDistinct()
    ensures Distinct(EditedPcLabels.Seq()) && Distinct(OriginalPcLabels.Seq())
  {
  }

  /** `create_pc_form`: the thirteen empty entries, then the inventory poured into them. */
  method CreatePcForm(labels: PcLabels, m: Machine) returns (form: EntryForm, outcome: FormOutcome)
    requires Distinct(labels.Seq())
    ensures fresh(form) && form.Valid() && form.labels == labels.Seq()
    ensures Gather(m).Info? ==> outcome == Populated && form.texts == PcTexts(Gather(m).info)
    ensures !Gather(m).Info? ==> form.texts == Blank(13)
    ensures Gather(m).WmiError? ==> outcome == Warned(WmiErrorMessage)
    ensures Gather(m).Uncaught? ==> outcome == Propagated
  {
    form := new EntryForm(labels.Seq());
    var g, _ := GatherPcInfo(m);
    outcome := PopulatePcForm(form, labels, g);
  }

  /** `create_user_form`: eight empty entries, with the host name put in "Nome do PC". */
  method CreateUserForm(hostname: string) returns (form: EntryForm)
    ensures fresh(form) && form.Valid() && form.labels == UserLabels
    ensures form.texts == Blank(8)[1 := hostname]
  {
    assert Distinct(UserLabels);
    form := new EntryForm(UserLabels);
    form.Insert("Nome do PC", hostname, 1);
    assert hostname + "" == hostname;
  }

  /** The first of the two slots of a disk kind. */
  function SlotBase(k: DiskKind): nat
    requires k != NA
  {
    if k == SSD then SsdSlot else HddSlot
  }

  // Properties of the buckets (lines 141-142).

  /** A bucket of a concatenation is the concatenation of the buckets. */
  lemma {:induction false} BucketAppend(a: seq<Disk>, b: seq<Disk>, k: DiskKind)
    ensures Bucket(a + b, k) == Bucket(a, k) + Bucket(b, k)
  {
    if a == [] {
      assert a + b == b;
    } else {
      var head := if a[0].kind == k then [a[0].info] else [];
      assert (a + b)[0] == a[0] && (a + b)[1..] == a[1..] + b;
      BucketAppend(a[1..], b, k);
      assert Bucket(a + b, k) == head + (Bucket(a[1..], k) + Bucket(b, k));
      assert Bucket(a, k) == head + Bucket(a[1..], k);
    }
  }

  /** The buckets keep encounter order: a disk of kind `k` sits in its bucket just after the earlier disks of that kind. */
  lemma BucketPosition(ds: seq<Disk>, j: nat)
    requires j < |ds|
    ensures var n := |Bucket(ds[..j], ds[j].kind)|;
      n < |Bucket(ds, ds[j].kind)| && Bucket(ds, ds[j].kind)[n] == ds[j].info
  {
    var k := ds[j].kind;
    assert ds == ds[..j] + [ds[j]] + ds[j + 1..];
    BucketAppend(ds[..j] + [ds[j]], ds[j + 1..], k);
    BucketAppend(ds[..j], [ds[j]], k);
    assert Bucket([ds[j]], k) == [ds[j].info];
  }

  /** A disk of another kind is in no bucket but its own: removing it leaves `k`'s bucket unchanged. */
  lemma BucketSkips(a: seq<Disk>, d: Disk, b: seq<Disk>, k: DiskKind)
    requires d.kind != k
    ensures Bucket(a + [d] + b, k) == Bucket(a + b, k)
  {
    BucketAppend(a + [d], b, k);
    BucketAppend(a, [d], k);
    BucketAppend(a, b, k);
    assert Bucket([d], k) == [];
  }

  /** Every disk is in exactly one bucket, so the three bucket sizes add up to the number of disks. */
  lemma {:induction false} BucketsPartition(ds: seq<Disk>)
    ensures |Bucket(ds, SSD)| + |Bucket(ds, HDD)| + |Bucket(ds, NA)| == |ds|
  {
    if ds != [] {
      BucketsPartition(ds[1..]);
    }
  }

  // Properties of the populated PC tab (lines 134-147).

  /** The `n`-th disk of a kind (n = 0, 1) lands in that kind's slot `n`. */
  lemma DiskSlotHolds(info: PcInfo, j: nat)
    requires j < |info.discos| && info.discos[j].kind != NA
    requires |Bucket(info.discos[..j], info.discos[j].kind)| < 2
    ensures PcTexts(info)[SlotBase(info.discos[j].kind) + |Bucket(info.discos[..j], info.discos[j].kind)|]
            == info.discos[j].info
  {
    BucketPosition(info.discos, j);
  }

  /** A slot beyond the size of its bucket stays empty. */
  lemma DiskSlotEmpty(info: PcInfo, k: DiskKind, n: nat)
    requires k != NA && n < 2 && |Bucket(info.discos, k)| <= n
    ensures PcTexts(info)[SlotBase(k) + n] == ""
  {
  }

  /** Memory slot `n` (n = 0, 1) holds the `n`-th memory line, or nothing if there are too few. */
  lemma MemorySlotHolds(info: PcInfo, n: nat)
    requires n < 2
    ensures n < |info.memorias| ==> PcTexts(info)[MemorySlot + n] == info.memorias[n]
    ensures n >= |info.memorias| ==> PcTexts(info)[MemorySlot + n] == ""
  {
  }

  /**
   * Once two disks of a kind precede it, a further disk of that kind (or an
   * `'N/A'` disk), wherever it is inserted, never appears.
   */
  lemma ExtraDiskDropped(info: PcInfo, d: Disk, at: nat)
    requires at <= |info.discos|
    requires d.kind == NA || |Bucket(info.discos[..at], d.kind)| >= 2
    ensures PcTexts(info.(discos := info.discos[..at] + [d] + info.discos[at..])) == PcTexts(info)
  {
    var pre, post := info.discos[..at], info.discos[at..];
    assert pre + post == info.discos;
    ExtraDiskInBucket(pre, d, post, SSD);
    ExtraDiskInBucket(pre, d, post, HDD);
  }

  /** The first two entries of `k`'s bucket do not change when `d` is inserted after `pre`. */
  lemma ExtraDiskInBucket(pre: seq<Disk>, d: Disk, post: seq<Disk>, k: DiskKind)
    requires d.kind != k || |Bucket(pre, k)| >= 2
    ensures var b, b' := Bucket(pre + post, k), Bucket(pre + [d] + post, k);
      Slot(b', 0) == Slot(b, 0) && Slot(b', 1) == Slot(b, 1)
  {
    if d.kind != k {
      BucketSkips(pre, d, post, k);
    } else {
      BucketAppend(pre + [d], post, k);
      BucketAppend(pre, [d], k);
      BucketAppend(pre, post, k);
      var head := Bucket(pre, k);
      assert Bucket(pre + [d] + post, k) == head + ([d.info] + Bucket(post, k));
      assert Bucket(pre + post, k) == head + Bucket(post, k);
    }
  }

  /** Memory lines after the second never appear. */
  lemma ExtraMemoryDropped(info: PcInfo, more: seq<string>)
    requires |info.memorias| >= 2
    ensures PcTexts(info.(memorias := info.memorias + more)) == PcTexts(info)
  {
  }

  /** The `'N/A'` placeholder reaches no slot, wherever it stands in the list. */
  lemma PlaceholderDropped(info: PcInfo, at: nat)
    requires at <= |info.discos|
    ensures PcTexts(info.(discos := info.discos[..at] + [DiskUnavailable] + info.discos[at..])) == PcTexts(info)
  {
    BucketSkips(info.discos[..at], DiskUnavailable, info.discos[at..], SSD);
    BucketSkips(info.discos[..at], DiskUnavailable, info.discos[at..], HDD);
    assert info.discos[..at] + info.discos[at..] == info.discos;
  }
}
