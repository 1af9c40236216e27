# PC Info Uploader — a Dafny model of its inventory and submission logic

PC Info Uploader is a small Windows desktop utility. It gathers the machine's inventory: host name, OS, processor, motherboard, memory modules, disks and OS licence key. It pours that inventory into a two-tab form. The operator can review the values there, and the tabs are then posted as JSON to one of two endpoints. The repository holds the same program twice: `original_script_edited.py` and `original_script/original_script.py`. Both share `gather_pc_info` word for word. They differ in four ways: the PC tab's labels, how the submitted keys are built, whether `json.dumps` escapes non-ASCII text (`ensure_ascii=False` at `original_script_edited.py:200`, the default at `original_script/original_script.py:170`), and the `print` diagnostics the edited script adds (`original_script_edited.py:165-167`, `:191`).

This project models the deterministic logic under the plumbing. It has five modules, plus `Wrappers` (`wrappers.dfy`, an `Option` type).

- **`Inventory`** (`inventory.dfy`) models `gather_pc_info`. The WMI session, host name, platform strings and the psutil total are inputs, described by a `Machine` value:
  - for the processor and baseboard queries, a `Listing`: rows or an exception;
  - for the memory and disk loops, a `Query`: rows, possibly followed by the query's own exception;
  - for the licence key, a `KeyCall`.

  The properties that `int()`, `.strip()` and `.upper()` are applied to are optional strings, so those calls can fail on a null value the way they do in Python: the processor name, the memory capacity, and the disk model and size. The board's manufacturer and product and the memory's manufacturer and speed are only formatted, so they are plain strings. `GatherPcInfo` builds the inventory step by step, and its append loops live in the method `AppendRows`. It is proved equal to the specification function `Gather`. It also records the calls it makes, and that record is proved equal to `Probes`. The result is a `Gathered`: the WMI error, the inventory, or the exception the function lets escape.
- **`PcForm`** (`form.dfy`) models the tabs as a class `EntryForm`. The class holds the labels and the entry texts, which `Insert` changes in place. `CreatePcForm` covers the slot filling of `create_pc_form`, and `CreateUserForm` puts the host name into the user tab. The populated PC tab is specified by the function `PcTexts`. The SSD and HDD lists are the function `Bucket`.
- **`Submit`** (`submit.dfy`) models the data mapping and the payload:
  - the literal key tables of the edited script (`TableData`);
  - the label normalisation of the original script (`NormalizeLabel`, `NormalizedData`), and its `pop`/reinsert of `nome_do_pc` (`MoveToEnd`);
  - the payload filter of `send_request` (`Payload`).
- **`Dict`** and **`Text`** (`dict.dfy`, `text.dfy`) hold the Python semantics these need:
  - insertion-ordered dicts as item sequences: `d[k] = v`, `pop`, comprehensions;
  - `strip` with Python's whitespace set;
  - `upper`: ASCII letters, and the non-ASCII characters whose upper-case form contains an ASCII letter, such as "ß" → "SS";
  - ASCII `lower`;
  - `"SSD" in s`;
  - `int()` on decimal text: a sign, underscores between digits, and surrounding whitespace, except U+001C..U+001F, which `strip()` removes but `int()` rejects;
  - `str()` of integers.

Three behaviours of the code are easy to misread. The model follows the code as written:
- **Processor and motherboard.** Only `IndexError`, which is what an empty result list raises, is caught around these two queries (`original_script_edited.py:35-46`). Any other exception leaves `gather_pc_info`, and with it `create_pc_form`. The model returns `Uncaught` in that case.
- **Memory and disks.** Each `try` wraps its whole `for` loop (`original_script_edited.py:49-71`). The comment at `:56` calls the psutil total the fallback "if WMI fails". The code appends that line, or the `N/A` disk (`:70-71`), after whatever the loop had already appended. It does so also when a single row fails to convert: `int()` on a null capacity or size, or `.upper()` on a null model.
- **Missing psutil.** When `import psutil` failed, `psutil` is `None` (`original_script_edited.py:9-12`). The `except` branch at `:55-59` then adds nothing, so the memory list keeps only the lines appended before the exception.

## Model

| member | source | states |
|---|---|---|
| Inventory.GatherPcInfo | original_script_edited.py:19-81 | running `gather_pc_info` gives exactly `Gather(m)`, and the calls made are exactly `Probes(m)` |
| Inventory.Gather | original_script_edited.py:19-81 | the error dict, with its message, exactly when WMI is unreachable; an escaping exception only from the processor or the board query; otherwise the inventory, holding the host name, the platform and a non-empty licence |
| Inventory.Probes | original_script_edited.py:19-81 | the calls start with the WMI connection, and that is the only call exactly when it fails |
| Inventory.ProcessorName | original_script_edited.py:35-39 | an exception escapes exactly when the query raises or the first row's name is null; `platform.processor()` when no row is listed; otherwise the first row's name with whitespace cut from both ends (`strip()`), leaving no whitespace at either end |
| Inventory.BoardText | original_script_edited.py:42-46 | an exception escapes exactly when the query raises; otherwise a non-empty text |
| Inventory.MemoryLine | original_script_edited.py:53 | a memory row gives a line exactly when `int()` of its capacity succeeds |
| Inventory.IntOf | original_script_edited.py:53 | `int()` of a null property raises, and `int()` succeeds only on text holding a decimal digit; `MemoryLineOfCapacity` and `DiskEntryOfSize` show that it reads a decimal text back exactly |
| Inventory.TotalLine | original_script_edited.py:59 | the psutil line reads "Total: ", then `total // 2^30` in decimal, then " GB"; `MemoryAfterFailure` places it after the lines already appended |
| Inventory.MemoryList | original_script_edited.py:49-59 | the list starts with the appended lines and has at most one entry more than there are rows; without an exception it has exactly one line per row |
| Inventory.DiskEntry | original_script_edited.py:64-69 | a disk row gives an entry exactly when its model is present and `int()` of its size succeeds; the kind is that of `Classify` and never `N/A`; the text starts with the stripped model followed by " ("; `DiskEntryOfSize` gives the rest |
| Inventory.DiskList | original_script_edited.py:62-71 | the list starts with the appended disks and has at most one entry more than there are rows; it ends in the `N/A` placeholder exactly when the loop raised |
| Inventory.LicenseText | original_script_edited.py:75-79 | the licence text is never empty |
| Inventory.AppendRows | original_script_edited.py:50-55 | the `for` loop appends the converted rows up to the first row that fails; it reports an exception exactly when a row failed or the query itself raised |
| Inventory.CollectMemory | original_script_edited.py:49-59 | the memory list is the appended lines, then the psutil total line only if the loop raised and psutil is present; `psutil.virtual_memory()` is consulted in exactly that case |
| Inventory.ReadProcessor | original_script_edited.py:35-39 | the processor is the first row's name stripped, `platform.processor()` when no row is listed, and an escaping exception when the query raises or the name is missing (`None.strip()`); the fallback is consulted exactly when no row is listed |
| Inventory.GatherTail | original_script_edited.py:48-79 | the memory, disk and licence steps give `MemoryList`, `DiskList` and `LicenseText`, and make the memory query, the psutil call when it is needed, the disk query and the licence call, in that order, each recorded as it is made |
| Inventory.CollectDisks | original_script_edited.py:62-71 | the disk list is the appended disks, then the `N/A` placeholder only if the loop raised |
| Inventory.ConnectionFailureExit | original_script_edited.py:23-26 | the result is the error dict exactly when the WMI connection fails; then no other query or call is made |
| Inventory.ProcessorFallbackOnlyWhenEmpty | original_script_edited.py:35-39 | `platform.processor()` is consulted exactly when the processor query lists no rows, and it then names the processor; an exception from the query escapes |
| Inventory.BoardFallbackOnlyWhenEmpty | original_script_edited.py:42-46 | the board is "Não disponível" when no row is listed, otherwise the first row's manufacturer and product; an exception from the query escapes before the memory query: the calls made are then the processor part followed by the board query and nothing else |
| Inventory.MemoryAfterFailure | original_script_edited.py:49-59 | a loop that raises after `k` good rows leaves those `k` lines followed by exactly one psutil line, or nothing more without psutil |
| Inventory.MemoryWithoutFailure | original_script_edited.py:50-54 | without an exception there is one line per row, in row order, and no fallback line |
| Inventory.DiskAfterFailure | original_script_edited.py:62-71 | a loop that raises after `k` good rows leaves those `k` disks followed by exactly one placeholder |
| Inventory.DiskKinds | original_script_edited.py:64-71 | each disk from a row that went through is SSD exactly when "SSD" occurs in its upper-cased model, and HDD otherwise; `N/A` appears only as the last entry, and exactly when the loop raised |
| Inventory.Classify | original_script_edited.py:65 | a model is SSD if "SSD" occurs in its upper-cased form, and only then; otherwise HDD, never `N/A` |
| Inventory.ClassifyExamples | original_script_edited.py:65 | "ssd", "ßD" and "ſsd" all upper-case to "SSD", so the last two are SSDs as well; "HDD" is an HDD |
| Inventory.ClassifyContainsMark | original_script_edited.py:65 | a model containing, anywhere, a piece that upper-cases to "SSD" is an SSD |
| Inventory.ClassifyOneForOne | original_script_edited.py:65 | for a model whose every character upper-cases to one character, SSD exactly when three adjacent characters upper-case to "S", "S" and "D" |
| Inventory.DiskEntryKind | original_script_edited.py:65-69 | a converted disk is not `N/A`, its model is present, and it is an SSD if and only if "SSD" occurs in its upper-cased model |
| Inventory.ToGiB | original_script_edited.py:53 | `bytes // 1024**3` is the floor: `g * 2^30 <= bytes < (g + 1) * 2^30` |
| Inventory.GiBExamples | original_script_edited.py:53 | 8589934592 bytes render as "8", and one byte less gives 7 |
| Inventory.MemoryLineOfCapacity | original_script_edited.py:52-54 | a capacity given as the decimal text of `bytes` is read back exactly and shown as its floor in GiB |
| Inventory.DiskEntryOfSize | original_script_edited.py:64-69 | a disk whose size is the decimal text of `bytes` is read back exactly: its entry is the kind of its model and the stripped model followed by `bytes // 2^30` and " GB)" |
| Inventory.LicenseChoice | original_script_edited.py:75-79 | the licence is the returned key if non-empty, "Não encontrada" if the key is empty, and "Não disponível (requer admin)" if the call raises; it is never empty |
| Inventory.Appended | original_script_edited.py:50-55 | the appended entries are the converted longest prefix of rows that convert, and the row after it fails |
| Inventory.AppendedLength | original_script_edited.py:50-55 | the number of entries appended is the position of the first row that fails |
| PcForm.CreatePcForm | original_script_edited.py:113-147 | a fresh tab with one empty entry per label; after a successful gather its texts are `PcTexts` of the inventory; after the WMI error every entry stays empty and the warning carries the message |
| PcForm.PcTexts | original_script_edited.py:128-147 | the populated PC tab has thirteen texts, one per label |
| PcForm.PcLabelsDistinct | original_script_edited.py:113-114 | the thirteen PC labels of either script are distinct, so each names one entry |
| PcForm.PopulatePcForm | original_script_edited.py:124-147 | populating fills exactly the `PcTexts` of the inventory, or leaves the tab empty on the WMI error or an escaping exception |
| PcForm.FillFields | original_script_edited.py:128-132 | the five single-valued entries receive name, processor, board, OS and licence; the others stay empty |
| PcForm.FillSlots | original_script_edited.py:134-147 | the memory, SSD and HDD slots receive the first two entries of their lists, where they exist |
| PcForm.FillPair | original_script_edited.py:135-138 | one `len > 0` / `len > 1` pair puts `xs[0]` and `xs[1]` in front of the two entries, where they exist, and changes nothing else |
| PcForm.EntryForm.Insert | original_script_edited.py:128 | `insert(0, s)` puts `s` in front of the entry with that label and changes no other entry |
| PcForm.EntryForm.Items | original_script_edited.py:119-120 | the entries as an ordered dict from label to text, one item per label, in label order |
| PcForm.CreateUserForm | original_script_edited.py:100-109 | the user tab has eight entries, all empty except "Nome do PC", which holds the host name |
| PcForm.BucketAppend | original_script_edited.py:141-142 | the SSD/HDD comprehension distributes over concatenation of the disk list |
| PcForm.Bucket | original_script_edited.py:141-142 | a bucket never holds more entries than the disk list |
| PcForm.BucketPosition | original_script_edited.py:141-142 | the buckets keep encounter order: a disk of a kind sits in its bucket right after the earlier disks of that kind |
| PcForm.BucketSkips | original_script_edited.py:141-142 | a disk of another kind is in no other bucket: removing it leaves the bucket unchanged |
| PcForm.BucketsPartition | original_script_edited.py:141-142 | every disk is in exactly one bucket: the bucket sizes add up to the number of disks |
| PcForm.DiskSlotHolds | original_script_edited.py:141-147 | the first and second SSD (HDD) of the list land in "SSD 1" and "SSD 2" ("HDD 1" and "HDD 2") |
| PcForm.DiskSlotEmpty | original_script_edited.py:144-147 | a disk slot beyond the size of its bucket stays empty |
| PcForm.MemorySlotHolds | original_script_edited.py:134-138 | "Memoria 1"/"Memoria 2" hold the first and second memory line, or stay empty when there are too few |
| PcForm.ExtraDiskDropped | original_script_edited.py:141-147 | a disk inserted anywhere after two disks of its kind, or an `N/A` disk inserted anywhere, never changes the tab |
| PcForm.ExtraDiskInBucket | original_script_edited.py:141-147 | inserting a disk of another kind, or one of the kind after two of it, leaves that kind's first two slots unchanged |
| PcForm.ExtraMemoryDropped | original_script_edited.py:134-138 | memory lines after the second never change the tab |
| PcForm.PlaceholderDropped | original_script_edited.py:141-142 | the `N/A` placeholder reaches no slot, wherever it stands in the list |
| Submit.TableData | original_script_edited.py:154-187 | a dict literal of `label -> entry.get()` exists exactly when every label has an entry; it has the table's keys in order, each with its label's text |
| Submit.EditedTablesMatchForms | original_script_edited.py:154-187 | the user table reads the eight user labels and the PC table the thirteen PC labels, once each and in tab order, under distinct keys |
| Submit.TableDataOfForm | original_script_edited.py:154-187 | reading a table over its own tab pairs each key with the text beside its label |
| Submit.EditedPcSubmission | original_script_edited.py:172-187 | `submit_pc` sends the thirteen wire keys, each with its entry's text, as a dict |
| Submit.EditedUserSubmission | original_script_edited.py:152-163 | `submit_user` sends the eight wire keys, each with its entry's text, as a dict |
| Submit.NormalizeLabelMeaning | original_script/original_script.py:157 | the normalised label is `replace(" ", "_")` then `lower()`, of the same length, with no space and no upper-case letter, keeping every other character |
| Submit.NormalizeLabel | original_script/original_script.py:157 | the key of a label has the label's length and no space |
| Submit.NormalizedData | original_script/original_script.py:157 | the comprehension is a dict whose keys are exactly the normalised labels |
| Submit.OriginalPcKeysDistinct | original_script/original_script.py:114 | the thirteen keys of the PC tab are distinct |
| Submit.OriginalPcKeysOfLabels | original_script/original_script.py:114 | each PC key is its label normalised |
| Submit.OriginalUserKeysDistinct | original_script/original_script.py:101 | the eight keys of the user tab are distinct |
| Submit.OriginalUserKeysOfLabels | original_script/original_script.py:101 | each user key is its label normalised |
| Submit.NormalizedDataDistinct | original_script/original_script.py:162 | when normalisation makes no two keys collide, the comprehension is the normalised items, unchanged and in order |
| Submit.OriginalPcSubmission | original_script/original_script.py:161-162 | `submit_pc` sends thirteen distinct keys, each the normalised label with that entry's text |
| Submit.MoveToEnd | original_script/original_script.py:158 | `data[k] = data.pop(k)` raises exactly when `k` is missing |
| Submit.MoveToEndKeepsMapping | original_script/original_script.py:158 | popping and reinserting a key keeps the same keys with the same values, now with `k` last |
| Submit.MoveToEndShape | original_script/original_script.py:158 | the reinserted item follows the remaining items |
| Submit.MoveToEndGet | original_script/original_script.py:158 | after the move every key looks up the value it had |
| Submit.OriginalUserData | original_script/original_script.py:156-158 | the user data is a dict whenever the `pop` succeeds |
| Submit.OriginalUserSubmission | original_script/original_script.py:156-158 | `submit_user` sends the eight normalised keys with their texts, with `nome_do_pc` moved last |
| Submit.Payload | original_script_edited.py:198 | the payload is a dict and adds no key |
| Submit.PayloadOfDict | original_script_edited.py:198 | the payload is exactly the non-empty items of the data, unchanged and in their order |
| Submit.PayloadGet | original_script/original_script.py:169 | a key looks up its value in the payload exactly when that value is non-empty |
| Submit.PayloadMapping | original_script/original_script.py:169 | as a mapping, the payload is the data restricted to the keys with non-empty values (`NonEmptyEntries`) |
| Submit.PayloadMapAt | original_script/original_script.py:169 | a key is in the payload exactly when the data maps it to a non-empty value, and then with that value |
| Submit.PayloadIdempotent | original_script_edited.py:198 | filtering the payload again changes nothing |
| Submit.PayloadExample | original_script_edited.py:198 | `{"nome": "Bob", "mesa": ""}` is sent as `{"nome": "Bob"}` |
| Submit.SubmitGatheredPc | original_script_edited.py:113-200 | populating the PC tab and pressing its button: the button exists exactly when the inventory was gathered; the key table then reads the tab, and the payload maps each wire key to its slot's text from `PcTexts` when that text is non-empty |
| Submit.SubmitGatheredPcOriginal | original_script/original_script.py:113-170 | the same for the original script, whose keys are the normalised labels |
| Dict.Assign | original_script/original_script.py:158 | `d[k] = v` keeps an existing key's position or appends a new key, and changes no other lookup |
| Dict.Pop | original_script/original_script.py:158 | `d.pop(k)` raises exactly when `k` is missing; otherwise it returns `k`'s value and the rest of the dict, without `k` |
| Dict.Get | original_script/original_script.py:158 | a lookup succeeds exactly when the key is present, and returns a value the dict holds under that key |
| Dict.RemoveAtItems | original_script/original_script.py:158 | removing the item at a key's position leaves exactly the other items of the dict |
| Dict.PopOthers | original_script/original_script.py:158 | popping `k` leaves every other lookup unchanged |
| Dict.PopLength | original_script/original_script.py:158 | popping removes exactly one item |
| Dict.NonEmptyItems | original_script_edited.py:198 | the items kept are exactly those whose value is non-empty |
| Dict.NonEmptyItemsAppend | original_script_edited.py:198 | the filter keeps order: it distributes over concatenation |
| Dict.NonEmptyItemsIsDict | original_script_edited.py:198 | filtering a dict leaves a dict |
| Dict.Comprehension | original_script/original_script.py:157 | a dict comprehension yields distinct keys, exactly the keys it was given |
| Dict.ComprehensionOfDict | original_script/original_script.py:157 | a comprehension over items with distinct keys rebuilds them unchanged |
| Text.Strip | original_script_edited.py:37 | `strip()` (here and on the disk model at `:68`) removes exactly the leading and trailing whitespace, leaving ends that are not whitespace; with `int()`'s whitespace set it is the trimming `int()` does |
| Text.Contains | original_script_edited.py:65 | `needle in hay` holds exactly when `needle` occurs at some offset |
| Text.Upper | original_script_edited.py:65 | `upper()` maps each character to its upper-case string, so the result is never shorter |
| Text.UpperOneForOne | original_script_edited.py:65 | when every character upper-cases to one character, `upper()` keeps the length and works position by position |
| Text.UpperAppend | original_script_edited.py:65 | `upper()` distributes over concatenation |
| Text.Lower | original_script/original_script.py:157 | `lower()` maps each character, preserving length |
| Text.SpacesToUnderscores | original_script/original_script.py:157 | `replace(" ", "_")` turns exactly the spaces into underscores, preserving length and every other character |
| Text.ParseIntOfIntToString | original_script_edited.py:53 | `int(str(n)) == n` for every integer; CPython's 4300-digit limit is not modelled |
| Text.ParseInt | original_script_edited.py:53 | `int()` succeeds only on text that holds a decimal digit |
| Text.ParseIntKeepsSeparator | original_script_edited.py:53 | U+001C is whitespace to `strip()`, but `int()` does not skip it: `int("\x1c5")` raises |
| Text.IntToString | original_script_edited.py:53 | the decimal rendering has no surrounding whitespace and begins with `-` exactly for negatives |

## Left out

- The tkinter shell is not modelled: widget creation, layout, buttons, tabs and message boxes. The WMI warning is modelled only as the `Warned` outcome of `CreatePcForm`, carrying the message.
- WMI, `socket.gethostname`, `platform.platform`/`processor` and `psutil` are foreign OS interfaces. Their results are inputs (`Machine`). The model assumes these calls return. It does not model the following exceptions, each of which would escape `gather_pc_info`:
  - an exception from `wmi.WMI()` other than `x_wmi` (`original_script_edited.py:23-26`);
  - `socket.gethostname()` raising (`:31`);
  - `platform.platform()` raising (`:32`);
  - `platform.processor()` raising in the fallback (`:39`);
  - `psutil.virtual_memory()` raising inside the `except` branch (`:58`).
- `str()` and f-string rendering of WMI property values is taken as given: manufacturer, product and speed are inputs already rendered as strings.
- `requests.post`, `raise_for_status` and the network and unexpected-error dialogs are network I/O and are not modelled. Neither are the `print` diagnostics or the endpoint constants.
- JSON serialisation (`json.dumps`, `ensure_ascii`, indentation) is library behaviour. Only the filtered mapping is modelled.
- Text.Upper: characters outside ASCII whose upper-case form holds no ASCII letter are kept as they are, while Python upper-cases them. Every character whose upper-case form does hold an ASCII letter ("ß", "ſ", "ı", the Latin ligatures such as "ﬀ" and "ﬆ", and a few letters with a combining mark) is mapped as Python maps it. An ASCII "SSD" therefore occurs in the model's upper-case form exactly when it occurs in Python's, so `Classify` and `DiskKinds` decide as the script does.
- Text.Lower: folds ASCII letters only. Every non-ASCII letter in the labels the original script normalises is already lower-case, so the keys proved for those labels are unaffected.
- Text.ParseIntOfIntToString: CPython 3.11 and later refuse, in both `str()` and `int()`, integers of more than 4300 decimal digits. The model has no such limit, so the round trip is stated for every integer.
- Text.ParseInt: reads ASCII digits only, while Python's `int()` also accepts other Unicode decimal digits, such as the Arabic-Indic ones.
- `Inventory.GatherPcInfo`: the property values a row carries are read once. The model does not capture a WMI object yielding different values on repeated access.
- `PcForm.CreatePcForm`: the model fills the slots and returns; the label and entry widgets are not modelled. The submit button appears only in `Submit.SubmitGatheredPc` and `Submit.SubmitGatheredPcOriginal`, as a payload that is `None` when the button is never created.
- What the operator types into the tabs between population and submission is not modelled. The submission lemmas take arbitrary entry texts, and `Submit.SubmitGatheredPc` submits the tab as populated.
