/**
 * What the two tabs send: the form's entries turned into the data mapping
 * (`submit_user` and `submit_pc`, by a literal key table in the edited
 * script and by label normalisation in the original one) and the payload
 * filter of `send_request`.
 */
module Submit {
  import opened Wrappers
  import opened Text
  import opened Dict
  import opened PcForm
  import opened Inventory

  // The edited script: literal key tables.

  /** A key table: the wire key, then the label whose entry supplies its value. */
  type KeyTable = seq<(string, string)>

  function TableKeys(table: KeyTable): seq<string> {
    seq(|table|, i requires 0 <= i < |table| => table[i].0)
  }

  function TableLabels(table: KeyTable): seq<string> {
    seq(|table|, i requires 0 <= i < |table| => table[i].1)
  }

  const EditedUserTable: KeyTable := [
    ("nome", "Nome"), ("nome_pc", "Nome do PC"), ("monitor1", "Monitor 1"), ("monitor2", "Monitor 2"),
    ("mesa", "Mesa"), ("licenca1", "Licença 1"), ("licenca2", "Licença 2"), ("licenca3", "Licença 3")]

  const EditedPcTable: KeyTable := [
    ("nome", "Nome"), ("numero", "Numero"), ("placa_mae", "Placa mae"), ("processador", "Processador"),
    ("memoria1", "Memoria 1"), ("memoria2", "Memoria 2"), ("HDD 1", "HDD 1"), ("HDD 2", "HDD 2"),
    ("SSD 1", "SSD 1"), ("SSD 2", "SSD 2"), ("tipo_OS", "Tipo OS"), ("licenca_OS", "Licenca OS"),
    ("ramal", "Ramal")]

  /**
   * The dict literal of `submit_user` / `submit_pc`: each key gets the text
   * of its label's entry; `None` is the `KeyError` of a label with no entry.
   */
  function TableData(table: KeyTable, entries: Items): (r: Option<Items>)
    ensures r.Some? <==> forall i :: 0 <= i < |table| ==> table[i].1 in Keys(entries)
    ensures r.Some? ==> Keys(r.value) == TableKeys(table)
    ensures r.Some? ==> forall i :: 0 <= i < |table| ==> Get(entries, table[i].1) == Some(r.value[i].value)
  {
    if table == [] then Some([])
    else
      match Get(entries, table[0].1)
      case None => None
      case Some(v) =>
        match TableData(table[1..], entries)
        case None =>
          None
        case Some(rest) =>
          var r := [Item(table[0].0, v)] + rest;
          KeysCons(Item(table[0].0, v), rest);
          assert TableKeys(table) == [table[0].0] + TableKeys(table[1..]);
          assert forall i :: 1 <= i < |table| ==> table[i] == table[1..][i - 1] && r[i] == rest[i - 1];
          Some(r)
  }

  /** Both edited tables read every label of their tab once, in the tab's order, and their keys are distinct. */
  lemma EditedTablesMatchForms()
    ensures TableLabels(EditedUserTable) == UserLabels && Distinct(TableKeys(EditedUserTable))
    ensures TableLabels(EditedPcTable) == EditedPcLabels.Seq() && Distinct(TableKeys(EditedPcTable))
  {
  }

  /** Reading a table over the entries of its own tab pairs each key with the text beside its label. */
  lemma {:induction false} TableDataOfForm(table: KeyTable, texts: seq<string>)
    requires Distinct(TableLabels(table)) && |texts| == |table|
    ensures TableData(table, Zip(TableLabels(table), texts)) == Some(Zip(TableKeys(table), texts))
  {
    var entries := Zip(TableLabels(table), texts);
    forall i | 0 <= i < |table| ensures table[i].1 in Keys(entries) {
      assert Keys(entries)[i] == table[i].1;
    }
    var d := TableData(table, entries).value;
    forall i | 0 <= i < |table| ensures d[i] == Item(table[i].0, texts[i]) {
      TableDataItem(table, texts, i);
    }
    var z := Zip(TableKeys(table), texts);
    assert |d| == |Keys(d)| == |table| == |z|;
    forall i | 0 <= i < |table| ensures d[i] == z[i] {
      assert TableKeys(table)[i] == table[i].0;
    }
    assert d == z;
  }

  lemma {:induction false} TableDataItem(table: KeyTable, texts: seq<string>, i: nat)
    requires Distinct(TableLabels(table)) && |texts| == |table| && i < |table|
    requires TableData(table, Zip(TableLabels(table), texts)).Some?
    ensures TableData(table, Zip(TableLabels(table), texts)).value[i] == Item(table[i].0, texts[i])
  {
    var entries := Zip(TableLabels(table), texts);
    var d := TableData(table, entries).value;
    GetInDict(entries, table[i].1, texts[i]);
    assert entries[i] == Item(table[i].1, texts[i]);
    assert Keys(d)[i] == table[i].0;
  }

  /** `submit_pc` of the edited script: the thirteen wire keys, each with its entry's text. */
  lemma EditedPcSubmission(texts: seq<string>)
    requires |texts| == 13
    ensures TableData(EditedPcTable, Zip(EditedPcLabels.Seq(), texts)) == Some(Zip(TableKeys(EditedPcTable), texts))
    ensures IsDict(Zip(TableKeys(EditedPcTable), texts))
  {
    EditedTablesMatchForms();
    TableDataOfForm(EditedPcTable, texts);
  }

  /** `submit_user` of the edited script: the eight wire keys, each with its entry's text. */
  lemma EditedUserSubmission(texts: seq<string>)
    requires |texts| == 8
    ensures TableData(EditedUserTable, Zip(UserLabels, texts)) == Some(Zip(TableKeys(EditedUserTable), texts))
    ensures IsDict(Zip(TableKeys(EditedUserTable), texts))
  {
    EditedTablesMatchForms();
    TableDataOfForm(EditedUserTable, texts);
  }

  // The original script: keys derived from the labels.

  /** One character of `label.replace(" ", "_").lower()`. */
  function NormalizeChar(c: char): char {
    LowerChar(if c == ' ' then '_' else c)
  }

  /** `label.replace(" ", "_").lower()`, character by character. */
  function NormalizeLabel(caption: string): (k: string)
    ensures |k| == |caption|
    ensures forall i :: 0 <= i < |k| ==> k[i] != ' '
  {
    seq(|caption|, i requires 0 <= i < |caption| => NormalizeChar(caption[i]))
  }

  /**
   * The normalised label is the label with its spaces replaced, then
   * lower-cased: it has no space and no upper-case letter, and keeps every
   * other character.
   */
  lemma NormalizeLabelMeaning(caption: string)
    ensures NormalizeLabel(caption) == Lower(SpacesToUnderscores(caption))
    ensures |NormalizeLabel(caption)| == |caption|
    ensures forall i :: 0 <= i < |caption| ==> NormalizeLabel(caption)[i] != ' ' && !('A' <= NormalizeLabel(caption)[i] <= 'Z')
    ensures forall i :: 0 <= i < |caption| && caption[i] != ' ' && !('A' <= caption[i] <= 'Z') ==> NormalizeLabel(caption)[i] == caption[i]
  {
    var k, r := NormalizeLabel(caption), Lower(SpacesToUnderscores(caption));
    assert |k| == |r|;
    forall i | 0 <= i < |k| ensures k[i] == r[i] {
    }
  }

  /** The entries with their labels normalised, in their order. */
  function NormalizedItems(entries: Items): (r: Items)
    ensures |r| == |entries|
    ensures forall i :: 0 <= i < |r| ==> r[i] == Item(NormalizeLabel(entries[i].key), entries[i].value)
  {
    seq(|entries|, i requires 0 <= i < |entries| => Item(NormalizeLabel(entries[i].key), entries[i].value))
  }

  /** `{key.replace(" ", "_").lower(): entry.get() for key, entry in entries.items()}`. */
  function NormalizedData(entries: Items): (r: Items)
    ensures IsDict(r)
    ensures forall k :: k in Keys(r) <==> k in Keys(NormalizedItems(entries))
  {
    Comprehension(NormalizedItems(entries))
  }

  const OriginalPcKeys := [
    "nome", "número", "placa_mãe", "processador", "memória_1", "memória_2",
    "hdd_1", "hdd_2", "ssd_1", "ssd_2", "tipo_os", "licença_os", "ramal"]

  const OriginalUserKeys := [
    "nome", "nome_do_pc", "monitor_1", "monitor_2", "mesa", "licença_1", "licença_2", "licença_3"]

  /** Thirteen distinct keys in the original PC tab. */
  lemma OriginalPcKeysDistinct()
    ensures |OriginalPcKeys| == 13 && Distinct(OriginalPcKeys)
  {
  }

  /** The keys of the original PC tab are its labels, normalised. */
  lemma OriginalPcKeysOfLabels()
    ensures forall i :: 0 <= i < 13 ==> NormalizeLabel(OriginalPcLabels.Seq()[i]) == OriginalPcKeys[i]
  {
    OriginalPcKeysOfFirstLabels();
    OriginalPcKeysOfLastLabels();
  }

  /** The first seven PC keys are their labels, normalised. */
  lemma OriginalPcKeysOfFirstLabels()
    ensures forall i :: 0 <= i < 7 ==> NormalizeLabel(OriginalPcLabels.Seq()[i]) == OriginalPcKeys[i]
  {
    assert NormalizeLabel("Nome") == "nome";
    assert NormalizeLabel("Número") == "número";
    assert NormalizeLabel("Placa mãe") == "placa_mãe";
    assert NormalizeLabel("Processador") == "processador";
    assert NormalizeLabel("Memória 1") == "memória_1";
    assert NormalizeLabel("Memória 2") == "memória_2";
    assert NormalizeLabel("HDD 1") == "hdd_1";
  }

  /** The last six PC keys are their labels, normalised. */
  lemma OriginalPcKeysOfLastLabels()
    ensures forall i :: 7 <= i < 13 ==> NormalizeLabel(OriginalPcLabels.Seq()[i]) == OriginalPcKeys[i]
  {
    assert NormalizeLabel("HDD 2") == "hdd_2";
    assert NormalizeLabel("SSD 1") == "ssd_1";
    assert NormalizeLabel("SSD 2") == "ssd_2";
    assert NormalizeLabel("Tipo OS") == "tipo_os";
    assert NormalizeLabel("Licença OS") == "licença_os";
    assert NormalizeLabel("Ramal") == "ramal";
  }

  /** Eight distinct keys in the user tab. */
  lemma OriginalUserKeysDistinct()
    ensures |OriginalUserKeys| == 8 && Distinct(OriginalUserKeys)
  {
  }

  /** The keys the original script derives for the user tab are its labels, normalised. */
  lemma OriginalUserKeysOfLabels()
    ensures forall i :: 0 <= i < 8 ==> NormalizeLabel(UserLabels[i]) == OriginalUserKeys[i]
  {
  }

  /** When the normalised labels are distinct, the comprehension is the items with their labels normalised. */
  lemma NormalizedDataDistinct(ks: seq<string>, keys: seq<string>, texts: seq<string>)
    requires |ks| == |keys| == |texts| && Distinct(keys)
    requires forall i :: 0 <= i < |ks| ==> NormalizeLabel(ks[i]) == keys[i]
    ensures NormalizedData(Zip(ks, texts)) == Zip(keys, texts)
  {
    var items := NormalizedItems(Zip(ks, texts));
    assert items == Zip(keys, texts);
    ComprehensionOfDict(items);
  }

  /** `submit_pc` of the original script: thirteen distinct keys, each with its entry's text. */
  lemma OriginalPcSubmission(texts: seq<string>)
    requires |texts| == 13
    ensures NormalizedData(Zip(OriginalPcLabels.Seq(), texts)) == Zip(OriginalPcKeys, texts)
  {
    OriginalPcKeysDistinct();
    OriginalPcKeysOfLabels();
    NormalizedDataDistinct(OriginalPcLabels.Seq(), OriginalPcKeys, texts);
  }

  /** `data[k] = data.pop(k)`: the item of `k` moves to the end; `None` is the `KeyError`. */
  function MoveToEnd(d: Items, k: string): (r: Option<Items>)
    ensures r.Some? <==> k in Keys(d)
  {
    match Pop(d, k)
    case None => None
    case Some((v, rest)) => Some(Assign(rest, k, v))
  }

  /** Moving a key to the end keeps the mapping: the same keys with the same values, `k` now last. */
  lemma MoveToEndKeepsMapping(d: Items, k: string)
    requires IsDict(d) && k in Keys(d)
    ensures var r := MoveToEnd(d, k).value;
      IsDict(r) && ToMap(r) == ToMap(d) && |r| == |d| && r[|r| - 1] == Item(k, Get(d, k).value)
  {
    var r := MoveToEnd(d, k).value;
    MoveToEndShape(d, k);
    PopLength(d, k);
    forall k' ensures Get(r, k') == Get(d, k') {
      MoveToEndGet(d, k, k');
    }
    assert ToMap(r).Keys == ToMap(d).Keys by {
      forall k' ensures k' in Keys(r) <==> k' in Keys(d) {
        assert Get(r, k').Some? == Get(d, k').Some?;
      }
    }
  }

  /** The moved item is appended after the rest. */
  lemma MoveToEndShape(d: Items, k: string)
    requires IsDict(d) && k in Keys(d)
    ensures MoveToEnd(d, k).value == Pop(d, k).value.1 + [Item(k, Get(d, k).value)]
  {
  }

  /** Moving a key to the end leaves every lookup as it was. */
  lemma MoveToEndGet(d: Items, k: string, k': string)
    requires IsDict(d) && k in Keys(d)
    ensures Get(MoveToEnd(d, k).value, k') == Get(d, k')
  {
    if k' != k {
      PopOthers(d, k, k');
    }
  }

  /** `submit_user` of the original script: `None` is the `KeyError` of a missing `nome_do_pc`. */
  function OriginalUserData(entries: Items): (r: Option<Items>)
    ensures r.Some? ==> IsDict(r.value)
  {
    var data := NormalizedData(entries);
    var r := MoveToEnd(data, "nome_do_pc");
    if r.Some? then MoveToEndKeepsMapping(data, "nome_do_pc"); r else r
  }

  /** `submit_user` of the original script on its own tab: eight keys, `nome_do_pc` last, each with its entry's text. */
  lemma OriginalUserSubmission(texts: seq<string>)
    requires |texts| == 8
    ensures var r := OriginalUserData(Zip(UserLabels, texts));
      r.Some? && ToMap(r.value) == ToMap(Zip(OriginalUserKeys, texts)) && |r.value| == 8
      && r.value[7] == Item("nome_do_pc", texts[1])
  {
    OriginalUserKeysDistinct();
    OriginalUserKeysOfLabels();
    var d := Zip(OriginalUserKeys, texts);
    NormalizedDataDistinct(UserLabels, OriginalUserKeys, texts);
    assert Keys(d)[1] == "nome_do_pc";
    MoveToEndKeepsMapping(d, "nome_do_pc");
    GetInDict(d, "nome_do_pc", texts[1]);
  }

  // `send_request`: the payload filter.

  /** `{k: v for k, v in data.items() if v}`. */
  function Payload(data: Items): (r: Items)
    ensures IsDict(r)
    ensures forall k :: k in Keys(r) ==> k in Keys(data)
  {
    var kept := NonEmptyItems(data);
    assert forall k :: k in Keys(kept) ==> k in Keys(data) by {
      forall k | k in Keys(kept) ensures k in Keys(data) {
        var a :| 0 <= a < |kept| && Keys(kept)[a] == k;
        assert kept[a] in data;
        var b :| 0 <= b < |data| && data[b] == kept[a];
        assert Keys(data)[b] == k;
      }
    }
    Comprehension(kept)
  }

  /** The payload of a dict is its non-empty items, in their order, unchanged. */
  lemma PayloadOfDict(data: Items)
    requires IsDict(data)
    ensures Payload(data) == NonEmptyItems(data)
    ensures forall it :: it in Payload(data) <==> it in data && it.value != ""
  {
    NonEmptyItemsIsDict(data);
    ComprehensionOfDict(NonEmptyItems(data));
  }

  /** Looking a key up in the payload finds its value in `data` if that is non-empty, and nothing otherwise. */
  lemma PayloadGet(data: Items, k: string)
    requires IsDict(data)
    ensures Get(Payload(data), k) == if Get(data, k).Some? && Get(data, k).value != "" then Get(data, k) else None
  {
    PayloadOfDict(data);
    var p := Payload(data);
    NonEmptyItemsIsDict(data);
    if k in Keys(data) {
      var v := Get(data, k).value;
      GetInDict(data, k, v);
      if v != "" {
        assert Item(k, v) in p;
        var a :| 0 <= a < |p| && p[a] == Item(k, v);
        assert Keys(p)[a] == k;
        GetInDict(p, k, v);
        return;
      }
    }
    forall a | 0 <= a < |p| ensures Keys(p)[a] != k {
      assert p[a] in data && p[a].value != "";
      var b :| 0 <= b < |data| && data[b] == p[a];
      assert Keys(data)[b] == p[a].key;
      GetInDict(data, p[a].key, p[a].value);
    }
  }

  /** The entries of `m` whose value is not the empty string. */
  function NonEmptyEntries(m: map<string, string>): (r: map<string, string>)
    ensures forall k :: k in r <==> k in m && m[k] != ""
    ensures forall k :: k in r ==> r[k] == m[k]
  {
    map k | k in m && m[k] != "" :: m[k]
  }

  /** As a mapping, the payload is `data` restricted to the keys whose value is non-empty. */
  lemma PayloadMapping(data: Items)
    requires IsDict(data)
    ensures ToMap(Payload(data)) == NonEmptyEntries(ToMap(data))
  {
    var p, m := ToMap(Payload(data)), NonEmptyEntries(ToMap(data));
    forall k ensures (k in p <==> k in m) && (k in m ==> p[k] == m[k]) {
      PayloadMapAt(data, k);
    }
  }

  /** One key of `PayloadMapping`. */
  lemma PayloadMapAt(data: Items, k: string)
    requires IsDict(data)
    ensures var p, d := ToMap(Payload(data)), ToMap(data);
      (k in p <==> k in d && d[k] != "") && (k in p ==> p[k] == d[k])
  {
    PayloadGet(data, k);
  }

  /** Filtering twice is filtering once. */
  lemma {:induction false} NonEmptyItemsIdempotent(d: Items)
    ensures NonEmptyItems(NonEmptyItems(d)) == NonEmptyItems(d)
  {
    if d != [] {
      NonEmptyItemsIdempotent(d[1..]);
      var head := if d[0].value != "" then [d[0]] else [];
      NonEmptyItemsAppend(head, NonEmptyItems(d[1..]));
    }
  }

  /** Sending a payload's worth of data sends the same payload. */
  lemma PayloadIdempotent(data: Items)
    requires IsDict(data)
    ensures Payload(Payload(data)) == Payload(data)
  {
    PayloadOfDict(data);
    NonEmptyItemsIsDict(data);
    PayloadOfDict(NonEmptyItems(data));
    NonEmptyItemsIdempotent(data);
  }

  /** `{"nome": "Bob", "mesa": ""}` is sent as `{"nome": "Bob"}`. */
  lemma PayloadExample()
    ensures Payload([Item("nome", "Bob"), Item("mesa", "")]) == [Item("nome", "Bob")]
  {
    var d := [Item("nome", "Bob"), Item("mesa", "")];
    var kept := [Item("nome", "Bob")];
    assert NonEmptyItems(d[1..]) == [];
    assert NonEmptyItems(d) == kept;
    assert kept[..0] == [];
  }

  // End to end: the populated PC tab, submitted before the operator edits it.

  /**
   * The edited script: `create_pc_form` fills the PC tab, and its button
   * (created only once the tab is populated) runs `submit_pc`, which reads
   * the tab through its key table, and `send_request`, which filters it.
   * The payload maps each wire key to its slot's text when that is
   * non-empty; `None` is the missing button.
   */
  method SubmitGatheredPc(m: Machine) returns (form: EntryForm, outcome: FormOutcome, payload: Option<Items>)
    ensures fresh(form) && form.Valid() && form.labels == EditedPcLabels.Seq()
    ensures payload.Some? <==> Gather(m).Info?
    ensures payload.Some? ==>
      && TableData(EditedPcTable, form.Items()) == Some(Zip(TableKeys(EditedPcTable), form.texts))
      && payload.value == Payload(Zip(TableKeys(EditedPcTable), form.texts))
      && ToMap(payload.value) == NonEmptyEntries(ToMap(Zip(TableKeys(EditedPcTable), PcTexts(Gather(m).info))))
  {
    PcLabelsDistinct();
    form, outcome := CreatePcForm(EditedPcLabels, m);
    if outcome != Populated {
      return form, outcome, None;
    }
    var data := TableData(EditedPcTable, form.Items());
    EditedPcSubmission(form.texts);
    PayloadMapping(data.value);
    payload := Some(Payload(data.value));
  }

  /**
   * The original script: the PC tab `create_pc_form` fills, sent by its
   * button keyed by the labels normalised, then filtered by `send_request`.
   */
  method SubmitGatheredPcOriginal(m: Machine) returns (form: EntryForm, outcome: FormOutcome, payload: Option<Items>)
    ensures fresh(form) && form.Valid() && form.labels == OriginalPcLabels.Seq()
    ensures payload.Some? <==> Gather(m).Info?
    ensures payload.Some? ==>
      && NormalizedData(form.Items()) == Zip(OriginalPcKeys, form.texts)
      && payload.value == Payload(Zip(OriginalPcKeys, form.texts))
      && ToMap(payload.value) == NonEmptyEntries(ToMap(Zip(OriginalPcKeys, PcTexts(Gather(m).info))))
  {
    PcLabelsDistinct();
    form, outcome := CreatePcForm(OriginalPcLabels, m);
    if outcome != Populated {
      return form, outcome, None;
    }
    var data := NormalizedData(form.Items());
    OriginalPcSubmission(form.texts);
    OriginalPcKeysDistinct();
    PayloadMapping(data);
    payload := Some(Payload(data));
  }
}
