/** The parsed configuration file, option lookup (`cfg_get`) and the three
    option layers: built-in defaults, `[global]`, and each instance section. */
module Config {
  import opened Wrappers

  /** One dictionary of option name to string value. */
  type Options = map<string, string>

  /** The key/value pairs of one section, in file order. */
  type Items = seq<(string, string)>

  datatype RawSection = RawSection(name: string, items: Items)

  /** The loaded file: its sections in file order. A name may occur twice; the
      occurrences then form one section, as the configuration reader merges them. */
  type RawConfig = seq<RawSection>

  /** The exceptions that escape the pipeline. */
  datatype Error =
    | MissingGlobal              // the file has no `[global]` section
    | KeyMissing(key: string)    // `KeyError` from a dictionary lookup
    | NotAnInteger(text: string) // `ValueError` from `int()`

  /** Built-in defaults for every option an instance recognises. */
  const QemuOptions: Options := map[
    "qemu" := "qemu-system-x86_64",
    "img" := "/home/haishanh/images/arch-copy.qcow2",
    "memory" := "2G",
    "cpu" := "host",
    "smp" := "cores=2,threads=1,sockets=1",
    "nic_nb" := "1"
  ]

  /** The keys of `QemuOptions`, in the order the overriding loop visits them. */
  const QemuKeyOrder: seq<string> := ["qemu", "img", "memory", "cpu", "smp", "nic_nb"]

  lemma QemuKeyOrderCoversQemuOptions()
    ensures forall k :: k in QemuOptions <==> k in QemuKeyOrder
    ensures forall i | 0 <= i < |QemuKeyOrder| :: QemuKeyOrder[i] in QemuOptions
  {
    assert QemuOptions.Keys == {"qemu", "img", "memory", "cpu", "smp", "nic_nb"};
  }

  lemma QemuOptionNames()
    ensures "qemu" in QemuOptions && "img" in QemuOptions && "memory" in QemuOptions
    ensures "cpu" in QemuOptions && "smp" in QemuOptions && "nic_nb" in QemuOptions
  {
  }

  /** The key `populate_conf` adds is not a recognised option, so no section can set it. */
  lemma VncPortIsNoQemuOption()
    ensures "vnc_port" !in QemuOptions
  {
    assert QemuOptions.Keys == {"qemu", "img", "memory", "cpu", "smp", "nic_nb"};
  }

  /** The one `[env]` option and its default. */
  const EnvDefaults: Options := map["vm_nb" := "1"]

  const EnvKeyOrder: seq<string> := ["vm_nb"]

  /** Section names that never describe a VM. */
  predicate IsInstance(name: string) {
    name != "env" && name != "global"
  }

  function SectionNames(cfg: RawConfig): (names: seq<string>)
    ensures |names| == |cfg|
    ensures forall i | 0 <= i < |cfg| :: names[i] == cfg[i].name
  {
    seq(|cfg|, i requires 0 <= i < |cfg| => cfg[i].name)
  }

  /** All pairs written under `name`, across every occurrence of the section, in file order. */
  function ItemsOf(cfg: RawConfig, name: string): Items
    decreases |cfg|
  {
    if cfg == [] then []
    else (if cfg[0].name == name then cfg[0].items else []) + ItemsOf(cfg[1..], name)
  }

  /** `v` is what `key` was last set to in `items`. */
  ghost predicate IsLastValue(items: Items, key: string, v: string) {
    exists i | 0 <= i < |items| :: items[i] == (key, v) && forall j | i < j < |items| :: items[j].0 != key
  }

  /** The value the reader keeps for `key`: a later pair overwrites an earlier one. */
  function Lookup(items: Items, key: string): (r: Option<string>)
    ensures r.None? <==> forall j | 0 <= j < |items| :: items[j].0 != key
    ensures r.Some? ==> IsLastValue(items, key, r.value)
    decreases |items|
  {
    if items == [] then None
    else if items[|items| - 1].0 == key then Some(items[|items| - 1].1)
    else
      Lookup(items[..|items| - 1], key)
  }

  /** `cfg.has_option(section, option)` */
  predicate HasOption(cfg: RawConfig, section: string, option: string) {
    section in SectionNames(cfg) && Lookup(ItemsOf(cfg, section), option).Some?
  }

  /** `cfg_get(cfg.get, option, section)`: the option's value, or `None` when the
      section does not exist or does not set the option. */
  function CfgGet(cfg: RawConfig, option: string, section: string): (r: Option<string>)
    ensures r.Some? <==> section in SectionNames(cfg) && exists v :: (option, v) in ItemsOf(cfg, section)
    ensures r.Some? ==> IsLastValue(ItemsOf(cfg, section), option, r.value)
  {
    var items := ItemsOf(cfg, section);
    assert (exists v :: (option, v) in items) <==> exists j | 0 <= j < |items| :: items[j].0 == option by {
      if exists j | 0 <= j < |items| :: items[j].0 == option {
        var j :| 0 <= j < |items| && items[j].0 == option;
        assert (option, items[j].1) in items;
      }
    }
    if HasOption(cfg, section, option) then Lookup(items, option) else None
  }

  /** Python truthiness of what `cfg_get` returned: present and non-empty. */
  predicate Truthy(x: Option<string>) {
    x.Some? && x.value != ""
  }

  /** `cfg_get` on one section, as a function of the option name: what the override loops
      consult. */
  function Reader(cfg: RawConfig, section: string): string -> Option<string> {
    option => CfgGet(cfg, option, section)
  }

  /** The override loop of `cfg_init_global` and `cfg_init_env`: visit the keys in turn,
      and give each the value `get` returns for it when that value is non-empty. */
  function OverrideNonEmpty(get: string -> Option<string>, d: Options, keys: seq<string>): (r: Options)
    requires forall i | 0 <= i < |keys| :: keys[i] in d
    ensures r.Keys == d.Keys
    ensures forall k | k in r :: r[k] == if k in keys && Truthy(get(k)) then get(k).value else d[k]
    decreases |keys|
  {
    if keys == [] then d
    else
      var x := get(keys[0]);
      OverrideNonEmpty(get, d[keys[0] := if Truthy(x) then x.value else d[keys[0]]], keys[1..])
  }

  /** `d.update(items)` restricted to recognised keys: each pair whose key is in
      `QemuOptions` overwrites, empty values included; other keys are dropped. */
  function Overlay(d: Options, items: Items): (r: Options)
    ensures forall k :: k in r <==> k in d || (k in QemuOptions && Lookup(items, k).Some?)
    ensures forall k | k in r ::
              r[k] == if k in QemuOptions && Lookup(items, k).Some? then Lookup(items, k).value else d[k]
    decreases |items|
  {
    if items == [] then d
    else
      var (opt, val) := items[|items| - 1];
      var before := Overlay(d, items[..|items| - 1]);
      if opt in QemuOptions then before[opt := val] else before
  }

  /** A layer: each default replaced by the value `get` returns for its key when that value
      is present and non-empty. */
  function Layer(get: string -> Option<string>, defaults: Options): Options {
    map k | k in defaults :: if Truthy(get(k)) then get(k).value else defaults[k]
  }

  /** Overriding key by key, in any order that visits every default, builds the layer. */
  lemma {:induction false} OverrideNonEmptyBuildsLayer(get: string -> Option<string>, defaults: Options, keys: seq<string>)
    requires forall i | 0 <= i < |keys| :: keys[i] in defaults
    requires forall k | k in defaults :: k in keys
    ensures OverrideNonEmpty(get, defaults, keys) == Layer(get, defaults)
  {
    var r := OverrideNonEmpty(get, defaults, keys);
    var l := Layer(get, defaults);
    assert l.Keys == defaults.Keys;
    forall k | k in r ensures r[k] == l[k] {
      assert k in keys;
    }
    MapsAgree(r, l);
  }

  /** Two maps with the same keys and the same value at every key are equal. */
  lemma MapsAgree(a: Options, b: Options)
    requires a.Keys == b.Keys
    requires forall k | k in a :: a[k] == b[k]
    ensures a == b
  {
  }

  /** The `[global]` layer: the built-in defaults, each one replaced by the `[global]` value
      when that value is present and non-empty; other `[global]` keys are ignored. */
  function GlobalLayer(cfg: RawConfig): Options {
    Layer(Reader(cfg, "global"), QemuOptions)
  }

  /** The `[env]` layer: `vm_nb` alone, `'1'` unless `[env]` gives a non-empty value. */
  function EnvLayer(cfg: RawConfig): Options {
    Layer(Reader(cfg, "env"), EnvDefaults)
  }

  /** The loop of `cfg_init_global`, run over the keys of the built-in defaults, yields the
      global layer; it holds exactly the built-in options. */
  lemma GlobalLoopBuildsLayer(cfg: RawConfig)
    ensures OverrideNonEmpty(Reader(cfg, "global"), QemuOptions, QemuKeyOrder) == GlobalLayer(cfg)
  {
    QemuKeyOrderCoversQemuOptions();
    OverrideNonEmptyBuildsLayer(Reader(cfg, "global"), QemuOptions, QemuKeyOrder);
  }

  /** The loop of `cfg_init_env`, run over its one key, yields the env layer, which maps
      `vm_nb` alone. */
  lemma EnvLoopBuildsLayer(cfg: RawConfig)
    ensures OverrideNonEmpty(Reader(cfg, "env"), EnvDefaults, EnvKeyOrder) == EnvLayer(cfg)
    ensures EnvLayer(cfg)
            == map["vm_nb" := if Truthy(CfgGet(cfg, "vm_nb", "env")) then CfgGet(cfg, "vm_nb", "env").value else "1"]
  {
    OverrideNonEmptyBuildsLayer(Reader(cfg, "env"), EnvDefaults, EnvKeyOrder);
    var e := EnvLayer(cfg);
    assert e.Keys == {"vm_nb"};
  }

  /** `cfg_init_global`: installs the `[global]` layer as `confd['global']`, leaving every
      other entry alone. */
  function CfgInitGlobal(cfg: RawConfig, confd: map<string, Options>): (r: map<string, Options>)
    ensures r.Keys == confd.Keys + {"global"}
    ensures forall s | s in confd && s != "global" :: r[s] == confd[s]
    ensures r["global"] == GlobalLayer(cfg)
  {
    confd["global" := GlobalLayer(cfg)]
  }

  /** `cfg_init_env`: installs the `[env]` layer as `confd['env']`, leaving every other
      entry alone. */
  function CfgInitEnv(cfg: RawConfig, confd: map<string, Options>): (r: map<string, Options>)
    ensures r.Keys == confd.Keys + {"env"}
    ensures forall s | s in confd && s != "env" :: r[s] == confd[s]
    ensures r["env"] == EnvLayer(cfg)
  {
    confd["env" := EnvLayer(cfg)]
  }

  /** `cfg_init_individual`: for an instance section, `confd[vm]` is the global layer
      overwritten by every recognised option the section sets, empty values included;
      `env` and `global` are left alone. */
  function CfgInitIndividual(cfg: RawConfig, confd: map<string, Options>, vm: string): (r: map<string, Options>)
    requires IsInstance(vm) ==> "global" in confd && vm in SectionNames(cfg)
    ensures !IsInstance(vm) ==> r == confd
    ensures IsInstance(vm) ==> r.Keys == confd.Keys + {vm}
    ensures forall s | s in confd && s != vm :: r[s] == confd[s]
    ensures IsInstance(vm) ==>
              r[vm].Keys == confd["global"].Keys + (set k | k in QemuOptions && CfgGet(cfg, k, vm).Some?)
    ensures IsInstance(vm) ==>
              forall k | k in r[vm] ::
                r[vm][k] == if k in QemuOptions && CfgGet(cfg, k, vm).Some? then CfgGet(cfg, k, vm).value
                            else confd["global"][k]
  {
    if !IsInstance(vm) then confd
    else
      var d := Overlay(confd["global"], ItemsOf(cfg, vm));
      CfgGetReadsSection(cfg, vm);
      confd[vm := d]
  }

  /** For an existing section, `cfg_get` is the last value the section's pairs give. */
  lemma CfgGetReadsSection(cfg: RawConfig, section: string)
    requires section in SectionNames(cfg)
    ensures forall k :: CfgGet(cfg, k, section) == Lookup(ItemsOf(cfg, section), k)
  {
    forall k ensures CfgGet(cfg, k, section) == Lookup(ItemsOf(cfg, section), k) {
    }
  }
}
