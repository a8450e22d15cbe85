# pemu configuration core in Dafny

`pemu.py` is a small QEMU/KVM helper. It reads an INI file with an `[env]` section, a
`[global]` section and one section per virtual machine. From these it builds a
configuration dictionary, gives each machine its virtio NIC arguments and a VNC
display number, and then assembles one QEMU command line per machine.

This project models that pipeline as pure functions over immutable data. It proves
what each step guarantees.

- `Decimal` (`decimal.dfy`) covers Python's `str()` on non-negative integers and `int()`
  on strings. It proves `int(str(n)) == n` and that `str` is injective.
- `Mac` (`mac.dfy`) models `mac_hash` and `gen_virtio_dev`. MD5 is a parameter, a
  function from strings to 32-character lower-case hex digests. `ParseVirtioDev` reads
  a NIC argument string back. The round-trip lemma shows that every generated string
  names the same `hostnet<id>` in both halves and carries the MAC derived from
  `img + str(id)`. It also shows that NIC strings for different indices never coincide.
- `Config` (`config.dfy`) models:
  - the loaded file, as sections of key/value pairs in file order;
  - the configuration reader's lookup, where the last pair for a key wins and repeated
    sections merge;
  - `cfg_get`, and the three layer builders `cfg_init_env`, `cfg_init_global` and
    `cfg_init_individual`.

  The two override loops are related to a key-by-key definition of the layer they
  build. That relation holds for any key order, so the arbitrary order of
  `dict.keys()` does not matter.
- `Populate` (`populate.dfy`) models `populate_conf` as a fold over the dictionary in a
  given iteration order, with the port counter starting at 40. It proves four things:
  - which entry every key receives;
  - that the k-th instance gets port `40 + k`, so ports are pairwise distinct and lie in
    `[40, 40 + n)`;
  - the length and contents of each NIC list;
  - that a failing run reports the first instance, in iteration order, that cannot be
    populated.
- `Parser` (`parser.dfy`) models `cfg_parser` after the file read. It proves:
  - when the parse fails and with which error;
  - what `env`, `global` and each instance end up holding.
- `Render` (`render.dfy`) models the command string `VM.run` builds, including the
  `KeyError` for the first key the expression reads that is absent. It proves that the
  command is the argument words joined by single spaces, and that every instance of a
  successful parse renders without error.

Exceptions that escape the modelled code are the `Failure` side of a `Result`:
- `MissingGlobal` for the failing `assert`;
- `KeyMissing` for a `KeyError`;
- `NotAnInteger` for a `ValueError` from `int()`.

Facts about `pemu.py` that shape the model:
- The disk-image option is `img`.
- The MAC is `52:54:` followed by four octet pairs, which carry all eight leading digest
  characters.
- Display numbers always start at 40 and cannot be configured. An instance's own
  `vnc_port` is an unrecognised option, so it is dropped when the section is read.
  `populate_conf` then sets `vnc_port` from its counter.
- The recognised options are exactly the built-in defaults. Nothing limits the number of
  instances, and nothing checks ports or images for conflicts. Two instances may share an
  image.
- Instances are numbered in dictionary iteration order, not file order.
- An empty `[global]` value leaves the built-in default in place. An empty instance value
  does override the global one.

## Model

| member | source | states |
|---|---|---|
| Decimal.NatToString | pemu.py:40-44 | `str(n)` is a non-empty run of decimal digits with no leading zero, the only string starting with `0` being `"0"` itself |
| Decimal.DigitsValueOfNatToString | pemu.py:40-44 | the digits `str(n)` writes denote `n` again |
| Decimal.NatToStringInjective | pemu.py:40-44 | different indices get different decimal strings |
| Decimal.ParseInt | pemu.py:137 | the model's `int(s)` succeeds exactly on an optionally signed non-empty digit run with no blanks, and only a leading `-` gives a negative value; Python 2 also accepts blanks, as listed under "Left out" |
| Decimal.ParseIntOfNegated | pemu.py:137 | `int("-" + str(n))` is `-n` |
| Decimal.ParseIntOfPlusSigned | pemu.py:137 | `int("+" + str(n))` is `n` |
| Decimal.DigitsValueLeadingZero | pemu.py:137 | a leading zero does not change the number a digit run denotes |
| Decimal.ParseIntLeadingZero | pemu.py:137 | `int("0" + s)` equals `int(s)` for every digit run `s` |
| Decimal.ParseIntOfPlus | pemu.py:137 | `int("+" + s)` equals `int(s)` for every digit run `s`, leading zeros included |
| Decimal.ParseIntOfMinus | pemu.py:137 | `int("-" + s)` is `-int(s)` for every digit run `s`, leading zeros included |
| Decimal.DigitsValuePositive | pemu.py:137 | a digit run that does not start with `0` denotes a positive number |
| Decimal.NatToStringOfDigits | pemu.py:137 | a digit run with no leading zero is exactly `str()` of its value, so with the leading-zero and sign lemmas every accepted string has a fixed value |
| Decimal.ParseIntOfNatToString | pemu.py:147 | a port stored as `str(n)` reads back through `int()` as `n` |
| Mac.MacHashShape | pemu.py:26-33 | the MAC is six colon-separated hex octets: `52:54:`, then the first eight digest characters; the first octet is locally administered unicast |
| Mac.GenVirtioDevRoundTrip | pemu.py:36-45 | reading the NIC string back yields the index `id`, named identically in the `-netdev` and `-device` halves, and the MAC of `s + str(id)` |
| Mac.GenVirtioDevDistinct | pemu.py:36-45 | NIC strings for different indices differ, whatever the seed strings |
| Config.Lookup | pemu.py:78-79 | the value kept for a key is absent exactly when no pair sets it, and otherwise is the last value set |
| Config.CfgGet | pemu.py:69-81 | `cfg_get` returns a value exactly when the section exists and sets the option, and that value is the last one set |
| Config.CfgGetReadsSection | pemu.py:69-81 | for an existing section, `cfg_get` agrees with the section's own lookup for every option |
| Config.VncPortIsNoQemuOption | pemu.py:12-17 | `vnc_port` is not a recognised option, so no section can set it |
| Config.OverrideNonEmpty | pemu.py:94-96 | the override loop keeps the key set, and each visited key takes the value `cfg_get` returns for it when that value is non-empty; unvisited keys keep their default |
| Config.OverrideNonEmptyBuildsLayer | pemu.py:94-96 | any visiting order that covers every default produces the same layer |
| Config.GlobalLoopBuildsLayer | pemu.py:88-96 | the `[global]` override loop over the built-in defaults yields the global layer |
| Config.EnvLoopBuildsLayer | pemu.py:119-125 | the `[env]` loop yields a dictionary holding only `vm_nb`: the `[env]` value when non-empty, else `'1'` |
| Config.CfgInitGlobal | pemu.py:83-96 | `confd` gains `global`, holding the global layer, and no other entry changes |
| Config.CfgInitEnv | pemu.py:114-125 | `confd` gains `env`, holding the env layer, and no other entry changes |
| Config.Overlay | pemu.py:107-112 | copying a dictionary and then applying a section's pairs adds and overwrites exactly the recognised keys the section sets, empty values included; other keys are dropped |
| Config.CfgInitIndividual | pemu.py:98-112 | `env` and `global` are skipped. For an instance, the entry holds every global key plus the recognised keys the section sets, each with the section's value when it sets one and the global value otherwise. No other entry changes |
| Populate.AppendedValues | pemu.py:138-146 | the appending loop leaves `n` entries, entry `i` being the value generated for `i` |
| Populate.NicsValues | pemu.py:139-146 | the NIC list has `n` entries, entry `i` being `gen_virtio_dev(img, i)` |
| Populate.PopulateInstance | pemu.py:136-148 | one instance populates without error exactly when `nic_nb` exists and is an integer, and `img` exists when NICs are wanted; otherwise it fails with the matching `KeyError`/`ValueError` |
| Populate.PopulateInstanceResult | pemu.py:136-148 | a populated instance has `max(0, int(nic_nb))` NICs in index order, and its options gain only `vnc_port`, which is exactly `str(port)` of the counter and so reads back as it |
| Populate.PopulateFrom | pemu.py:134-148 | the fold succeeds exactly when every instance in the order can be populated, and then it keys exactly the visited names |
| Populate.PopulateFromEntry | pemu.py:134-148 | the key at position `i` holds its populated entry, using the counter advanced once per earlier instance; `env`/`global` pass through |
| Populate.PopulateFromError | pemu.py:134-137 | a failing fold raises the error of the first instance in iteration order that cannot be populated |
| Populate.PopulateConf | pemu.py:127-148 | `populate_conf` succeeds exactly when every instance can be populated and keeps the key set; on failure, the error belongs to the first failing instance |
| Populate.PopulateEntry | pemu.py:132-148 | each key holds its populated entry, the counter at `40 +` the number of instances iterated before it |
| Populate.PopulatePort | pemu.py:132-148 | an instance's `vnc_port` is exactly `str(40 + k)`, `k` the number of instances before it, and reads back as `40 + k` |
| Populate.PopulatePorts | pemu.py:132-148 | every instance's `vnc_port` is `str(40 + k)` for the `k` instances before it, that port lies in `[40, 40 + n)`, and no two instances share a port |
| Populate.PortsDiffer | pemu.py:147-148 | two distinct instances receive different `vnc_port` strings |
| Populate.PopulatedInstance | pemu.py:134-148 | after population one instance has `max(0, int(nic_nb))` NICs in index order, its other options unchanged, and `vnc_port` equal to `str(40 + k)` for the `k` instances before it |
| Populate.PopulateNics | pemu.py:134-148 | every instance gets its NIC list and `vnc_port`, with its other options unchanged; `env` and `global` are unchanged and get no NICs |
| Parser.InstanceOptions | pemu.py:105-112 | an instance's layered options have exactly the recognised keys |
| Parser.InstanceOptionsValues | pemu.py:105-112 | each recognised option is the section's value when the section sets it, else the global layer's |
| Parser.ExtendedInstanceOptions | pemu.py:105-112 | the same holds once `vnc_port` is added |
| Parser.InitIndividuals | pemu.py:165-166 | the section loop adds exactly the instance sections, each as the global layer overlaid with its own pairs; other entries are unchanged |
| Parser.InitIndividualsKeys | pemu.py:165-166 | after the loop the dictionary holds `env`, `global` and every section name |
| Parser.LayeredConfdKeys | pemu.py:162-166 | the layered dictionary's keys are `env`, `global` and the section names |
| Parser.InitIndividualsEntries | pemu.py:165-166 | the section loop keeps `env` and `global`, and each instance gets its overlay |
| Parser.LayeredConfdEntries | pemu.py:162-166 | `env` is the env layer, `global` is the global layer, and each instance holds its layered options |
| Parser.PopulateLayered | pemu.py:134-137 | with every option present, populating fails only with `ValueError`, and exactly when some `nic_nb` is not an integer |
| Parser.CfgParser | pemu.py:150-168 | no `[global]` section raises the assertion. Otherwise the parse succeeds exactly when every instance's layered `nic_nb` is an integer; it then keys `env`, `global` and every section |
| Parser.CfgParserEnvGlobal | pemu.py:162-168 | after a parse, `env` holds only `vm_nb` and `global` holds the global layer; neither has NICs |
| Parser.CfgParserInstance | pemu.py:162-168 | after a parse, an instance holds every recognised option (its own value, else the global one), `vnc_port` equal to `str(40 + k)` for the `k` instances iterated before it, and `max(0, int(nic_nb))` NICs generated from its `img` |
| Parser.InstanceEntry | pemu.py:134-148 | a populated entry restated through the section and the global layer, with `vnc_port` exactly `str(port)` |
| Parser.CfgParserPorts | pemu.py:132-168 | after a parse, each `vnc_port` is `str(40 + k)` for the `k` instances before it, the ports lie in `[40, 40 + n)`, and they are pairwise distinct |
| Render.JoinAppend | pemu.py:191 | `' '.join` of two non-empty runs is the two joins with one separator between them |
| Render.FirstMissing | pemu.py:188-191 | finds the first key, in reading order, that the options lack; none exactly when all are present |
| Render.Command | pemu.py:183-191 | the command is built exactly when `qemu`, `memory`, `cpu`, `smp`, `img`, `nic` and `vnc_port` are present; otherwise it raises `KeyError` for the first absent one in reading order |
| Render.CommandArgs | pemu.py:188-191 | the command is its argument words joined by single spaces. The space-joined NIC list is one word, and it may be empty: with no NICs, two spaces stand between the image and `-vnc` |
| Render.CfgParserInstanceRuns | pemu.py:167-191 | every instance a successful parse produces renders without `KeyError`, into its words joined by spaces |

## Left out

- `sh`, `start_vm`, `test()` and the `dry_run` print in `VM.run` are left out: they spawn processes or print.
- Reading the file from disk is left out. The model starts from the loaded sections.
- Three configuration-reader features are not modelled: the `DEFAULT` section, lower-casing of option names, and `%(...)` interpolation. The model sees keys and values as they stand.
- The `logging.warning` for an unrecognised option is left out; the option is dropped silently.
- MD5 itself is not modelled. It is the parameter `md5`, and any function giving 32 lower-case hex characters may stand in for it.
- Dictionary iteration order is not modelled. It is the parameter `order`, which must list every key exactly once.
- Python dictionaries are mutated in place. When an exception stops `populate_conf`, earlier instances keep their `nic` and `vnc_port` changes. The model returns the error and drops the partial dictionary, because `cfg_parser` propagates the exception and never returns it.
- `VM.__init__` only stores its arguments. It is the `Vm` datatype.
- The populated dictionary holds the NIC list under the key `nic`, alongside the string options. The model keeps it in a separate field, `Entry.nic`.
- Populate.PopulateInstance: builds a NIC list of any length. For a huge `nic_nb`, Python 2's `range(nic_nb)` raises `OverflowError` or `MemoryError` instead, and the model does not have that error path.
- Decimal.ParseInt: accepts no blanks, while Python 2's `int()` skips them in two places. It strips blanks around the number, and it skips blanks between the sign and the digits, so `int("+ 2") == 2` and `int("- 5") == -5`. The configuration reader strips the blanks around a value but not those after a sign. So a `nic_nb` such as `+ 2` gives 2 NICs in `pemu.py`, while the model fails with `NotAnInteger`.
- Parser.CfgParser: states that a failure is the missing `[global]` or a `ValueError`, not which section raised it. `Populate.PopulateConf` states that.
- The global and env layers are defined key by key. `Config.GlobalLoopBuildsLayer` and `Config.EnvLoopBuildsLayer` tie them to the source loops.
