/** `cfg_parser` without the file read: layers `[env]`, `[global]` and every instance
    section, then populates NICs and ports. */
module Parser {
  import opened Wrappers
  import opened Decimal
  import opened Mac
  import opened Config
  import opened Populate

  /** The keys of the configuration dictionary `cfg_parser` builds. */
  function ConfdKeys(cfg: RawConfig): set<string> {
    {"env", "global"} + (set i | 0 <= i < |cfg| :: cfg[i].name)
  }

  lemma SectionNamesAreConfdKeys(cfg: RawConfig)
    ensures forall s :: s in ConfdKeys(cfg) <==> s == "env" || s == "global" || s in SectionNames(cfg)
  {
    var names := SectionNames(cfg);
    forall s ensures s in ConfdKeys(cfg) <==> s == "env" || s == "global" || s in names {
      if s in names {
        var i :| 0 <= i < |names| && names[i] == s;
        assert cfg[i].name == s;
      }
      if s in ConfdKeys(cfg) && s != "env" && s != "global" {
        var i :| 0 <= i < |cfg| && cfg[i].name == s;
        assert names[i] == s;
      }
    }
  }

  /** The options of instance section `s` before population: the global layer
      overridden by the section's recognised options. */
  function InstanceOptions(cfg: RawConfig, s: string): (o: Options)
    ensures o.Keys == QemuOptions.Keys
  {
    Overlay(GlobalLayer(cfg), ItemsOf(cfg, s))
  }

  /** An instance section's options: every recognised option the section sets, empty
      values included, and the global layer for the rest. */
  lemma InstanceOptionsValues(cfg: RawConfig, s: string)
    requires s in SectionNames(cfg)
    ensures forall k | k in QemuOptions ::
              InstanceOptions(cfg, s)[k] == if CfgGet(cfg, k, s).Some? then CfgGet(cfg, k, s).value else GlobalLayer(cfg)[k]
  {
    CfgGetReadsSection(cfg, s);
  }

  /** The section loop of `cfg_parser`: `cfg_init_individual` applied to each section name
      in turn. */
  function InitIndividuals(cfg: RawConfig, confd: map<string, Options>, secs: seq<string>): (r: map<string, Options>)
    requires "global" in confd
    requires forall i | 0 <= i < |secs| :: secs[i] in SectionNames(cfg)
    ensures forall s :: s in r <==> s in confd || (s in secs && IsInstance(s))
    ensures forall s | s in r ::
              r[s] == if s in secs && IsInstance(s) then Overlay(confd["global"], ItemsOf(cfg, s)) else confd[s]
    decreases |secs|
  {
    if secs == [] then confd
    else
      InitIndividualStep(cfg, confd, secs[0]);
      InitIndividuals(cfg, CfgInitIndividual(cfg, confd, secs[0]), secs[1..])
  }

  /** One `cfg_init_individual` call, stated through the overlay it installs. */
  lemma InitIndividualStep(cfg: RawConfig, confd: map<string, Options>, vm: string)
    requires "global" in confd && vm in SectionNames(cfg)
    ensures var r := CfgInitIndividual(cfg, confd, vm);
            && (forall s :: s in r <==> s in confd || (s == vm && IsInstance(vm)))
            && "global" in r && r["global"] == confd["global"]
            && (forall s | s in r ::
                  r[s] == if s == vm && IsInstance(vm) then Overlay(confd["global"], ItemsOf(cfg, vm)) else confd[s])
  {
  }

  /** The dictionary handed to `populate_conf`: `cfg_init_env`, `cfg_init_global`, then
      `cfg_init_individual` for every section in file order. */
  function LayeredConfd(cfg: RawConfig): map<string, Options> {
    InitIndividuals(cfg, CfgInitGlobal(cfg, CfgInitEnv(cfg, map[])), SectionNames(cfg))
  }

  /** Running `cfg_init_individual` over every section of the file adds exactly the
      instance sections to a dictionary that holds `env` and `global`. */
  lemma InitIndividualsKeys(cfg: RawConfig, confd: map<string, Options>)
    requires confd.Keys == {"env", "global"}
    ensures InitIndividuals(cfg, confd, SectionNames(cfg)).Keys == ConfdKeys(cfg)
  {
    SectionNamesAreConfdKeys(cfg);
    var r := InitIndividuals(cfg, confd, SectionNames(cfg));
    assert forall s :: s in r <==> s in ConfdKeys(cfg);
  }

  /** The layered dictionary has an entry for `env`, `global` and every section of the file. */
  lemma LayeredConfdKeys(cfg: RawConfig)
    ensures LayeredConfd(cfg).Keys == ConfdKeys(cfg)
  {
    var withEnv := CfgInitEnv(cfg, map[]);
    InitIndividualsKeys(cfg, CfgInitGlobal(cfg, withEnv));
  }

  /** Running `cfg_init_individual` over the sections keeps `env` and `global` and gives every
      instance the global layer overridden by its own section. */
  lemma InitIndividualsEntries(cfg: RawConfig, confd: map<string, Options>)
    requires confd.Keys == {"env", "global"}
    ensures "env" in InitIndividuals(cfg, confd, SectionNames(cfg))
    ensures "global" in InitIndividuals(cfg, confd, SectionNames(cfg))
    ensures InitIndividuals(cfg, confd, SectionNames(cfg))["env"] == confd["env"]
    ensures InitIndividuals(cfg, confd, SectionNames(cfg))["global"] == confd["global"]
    ensures forall s | s in InitIndividuals(cfg, confd, SectionNames(cfg)) && IsInstance(s) ::
              InitIndividuals(cfg, confd, SectionNames(cfg))[s] == Overlay(confd["global"], ItemsOf(cfg, s))
  {
    var r := InitIndividuals(cfg, confd, SectionNames(cfg));
    forall s | s in r && IsInstance(s) ensures r[s] == Overlay(confd["global"], ItemsOf(cfg, s)) {
      assert s in SectionNames(cfg);
    }
  }

  /** Its `env` and `global` entries are the layers built from `[env]` and `[global]` alone,
      and each instance entry is the global layer overridden by that instance's section. */
  lemma LayeredConfdEntries(cfg: RawConfig)
    ensures "env" in LayeredConfd(cfg) && "global" in LayeredConfd(cfg)
    ensures LayeredConfd(cfg)["env"] == EnvLayer(cfg)
    ensures LayeredConfd(cfg)["global"] == GlobalLayer(cfg)
    ensures forall s | s in LayeredConfd(cfg) && IsInstance(s) :: LayeredConfd(cfg)[s] == InstanceOptions(cfg, s)
  {
    var withEnv := CfgInitEnv(cfg, map[]);
    InitIndividualsEntries(cfg, CfgInitGlobal(cfg, withEnv));
  }

  /** Every instance section's layered `nic_nb` is an integer. */
  predicate NicCountsParse(cfg: RawConfig) {
    forall s | s in SectionNames(cfg) && IsInstance(s) ::
      "nic_nb" in InstanceOptions(cfg, s) && ParseInt(InstanceOptions(cfg, s)["nic_nb"]).Some?
  }

  /** Populating a dictionary whose instances hold exactly the QEMU options succeeds exactly
      when every instance's `nic_nb` is an integer, and otherwise raises `ValueError`. */
  lemma PopulateLayered(md5: Hasher, confd: map<string, Options>, order: seq<string>)
    requires Enumerates(order, confd.Keys)
    requires forall s | s in confd && IsInstance(s) :: confd[s].Keys == QemuOptions.Keys
    ensures PopulateConf(md5, confd, order).Success? <==>
              forall s | s in confd && IsInstance(s) :: "nic_nb" in confd[s] && ParseInt(confd[s]["nic_nb"]).Some?
    ensures PopulateConf(md5, confd, order).Failure? ==> PopulateConf(md5, confd, order).error.NotAnInteger?
  {
    QemuOptionNames();
  }

  /** `cfg_parser()`, the file already read into `cfg` and the configuration dictionary
      iterated in order `order`. Fails when there is no `[global]` section, and otherwise
      exactly when some instance's `nic_nb` is not an integer. */
  function CfgParser(md5: Hasher, cfg: RawConfig, order: seq<string>): (r: Result<map<string, Entry>, Error>)
    requires Enumerates(order, ConfdKeys(cfg))
    ensures "global" !in SectionNames(cfg) ==> r == Failure(MissingGlobal)
    ensures r.Success? <==> "global" in SectionNames(cfg) && NicCountsParse(cfg)
    ensures r.Failure? ==> r.error == MissingGlobal || r.error.NotAnInteger?
    ensures r.Success? ==> r.value.Keys == ConfdKeys(cfg)
  {
    if "global" !in SectionNames(cfg) then Failure(MissingGlobal)
    else
      var confd := LayeredConfd(cfg);
      LayeredConfdKeys(cfg);
      LayeredConfdEntries(cfg);
      SectionNamesAreConfdKeys(cfg);
      PopulateLayered(md5, confd, order);
      PopulateConf(md5, confd, order)
  }

  /** After a successful parse, `env` holds only `vm_nb` (the `[env]` value when non-empty,
      else `'1'`), `global` holds the global layer, and neither has NICs. */
  lemma CfgParserEnvGlobal(md5: Hasher, cfg: RawConfig, order: seq<string>)
    requires Enumerates(order, ConfdKeys(cfg))
    requires "global" in SectionNames(cfg) && NicCountsParse(cfg)
    ensures var r := CfgParser(md5, cfg, order).value;
            && "env" in r && "global" in r
            && r["env"] == Entry(map["vm_nb" := if Truthy(CfgGet(cfg, "vm_nb", "env")) then CfgGet(cfg, "vm_nb", "env").value else "1"], None)
            && r["global"] == Entry(GlobalLayer(cfg), None)
  {
    var confd := LayeredConfd(cfg);
    LayeredConfdKeys(cfg);
    assert CfgParser(md5, cfg, order) == PopulateConf(md5, confd, order);
    LayeredConfdEntries(cfg);
    PopulateEntry(md5, confd, order, "env");
    PopulateEntry(md5, confd, order, "global");
    EnvLoopBuildsLayer(cfg);
  }

  /** Options that extend `InstanceOptions(cfg, s)` by `vnc_port` hold, for every QEMU
      option, the section's own value when it sets one and the global layer's otherwise. */
  lemma ExtendedInstanceOptions(cfg: RawConfig, s: string, opts: Options)
    requires s in SectionNames(cfg)
    requires opts.Keys == InstanceOptions(cfg, s).Keys + {"vnc_port"}
    requires forall k | k in InstanceOptions(cfg, s) && k != "vnc_port" :: opts[k] == InstanceOptions(cfg, s)[k]
    ensures opts.Keys == QemuOptions.Keys + {"vnc_port"}
    ensures forall k | k in QemuOptions ::
              opts[k] == if CfgGet(cfg, k, s).Some? then CfgGet(cfg, k, s).value else GlobalLayer(cfg)[k]
  {
    VncPortIsNoQemuOption();
    InstanceOptionsValues(cfg, s);
  }

  /** After a successful parse, an instance section `s` carries every QEMU option, each the
      section's own value when it sets one and the global layer's otherwise, plus a
      `vnc_port` holding `str()` of 40 plus the number of instances iterated before it; its NIC
      list has `max(0, int(nic_nb))` entries, entry `i` being `gen_virtio_dev(img, i)`. */
  lemma CfgParserInstance(md5: Hasher, cfg: RawConfig, order: seq<string>, s: string)
    requires Enumerates(order, ConfdKeys(cfg))
    requires "global" in SectionNames(cfg) && NicCountsParse(cfg)
    requires s in SectionNames(cfg) && IsInstance(s)
    ensures s in CfgParser(md5, cfg, order).value
    ensures var e := CfgParser(md5, cfg, order).value[s];
            && e.opts.Keys == QemuOptions.Keys + {"vnc_port"}
            && (forall k | k in QemuOptions ::
                  e.opts[k] == if CfgGet(cfg, k, s).Some? then CfgGet(cfg, k, s).value else GlobalLayer(cfg)[k])
            && e.opts["vnc_port"] == NatToString(BaseVncPort + InstancesBefore(order, s))
            && ParseInt(e.opts["vnc_port"]) == Some(BaseVncPort + InstancesBefore(order, s))
            && ParseInt(e.opts["nic_nb"]).Some?
            && e.nic.Some?
            && |e.nic.value| == RangeLength(ParseInt(e.opts["nic_nb"]).value)
            && forall i | 0 <= i < |e.nic.value| :: e.nic.value[i] == GenVirtioDev(md5, e.opts["img"], i)
  {
    var confd := LayeredConfd(cfg);
    LayeredConfdKeys(cfg);
    assert CfgParser(md5, cfg, order) == PopulateConf(md5, confd, order);
    LayeredConfdEntries(cfg);
    SectionNamesAreConfdKeys(cfg);
    PopulatedInstance(md5, confd, order, s);
    InstanceEntry(md5, cfg, s, CfgParser(md5, cfg, order).value[s], BaseVncPort + InstancesBefore(order, s));
  }

  /** An entry populated from `InstanceOptions(cfg, s)`, restated in terms of the section and
      the global layer. */
  lemma InstanceEntry(md5: Hasher, cfg: RawConfig, s: string, e: Entry, port: nat)
    requires s in SectionNames(cfg)
    requires InstanceOk(InstanceOptions(cfg, s))
    requires var conf := InstanceOptions(cfg, s);
             var n := RangeLength(ParseInt(conf["nic_nb"]).value);
             && e.nic.Some?
             && |e.nic.value| == n
             && (forall i | 0 <= i < n :: e.nic.value[i] == GenVirtioDev(md5, conf["img"], i))
             && e.opts.Keys == conf.Keys + {"vnc_port"}
             && (forall k | k in conf && k != "vnc_port" :: e.opts[k] == conf[k])
             && e.opts["vnc_port"] == NatToString(port)
    ensures e.opts.Keys == QemuOptions.Keys + {"vnc_port"}
    ensures "vnc_port" in e.opts && "nic_nb" in e.opts && "img" in e.opts
    ensures forall k | k in QemuOptions ::
              e.opts[k] == if CfgGet(cfg, k, s).Some? then CfgGet(cfg, k, s).value else GlobalLayer(cfg)[k]
    ensures e.opts["vnc_port"] == NatToString(port)
    ensures ParseInt(e.opts["vnc_port"]) == Some(port)
    ensures ParseInt(e.opts["nic_nb"]).Some?
    ensures e.nic.Some?
    ensures |e.nic.value| == RangeLength(ParseInt(e.opts["nic_nb"]).value)
    ensures forall i | 0 <= i < |e.nic.value| :: e.nic.value[i] == GenVirtioDev(md5, e.opts["img"], i)
  {
    var conf := InstanceOptions(cfg, s);
    ExtendedInstanceOptions(cfg, s, e.opts);
    QemuOptionNames();
    VncPortIsNoQemuOption();
    assert e.opts["nic_nb"] == conf["nic_nb"];
    assert e.opts["img"] == conf["img"];
    ParseIntOfNatToString(port);
  }

  /** The instances' ports are pairwise distinct and lie in `[40, 40 + n)`, `n` the number
      of instance sections. */
  lemma CfgParserPorts(md5: Hasher, cfg: RawConfig, order: seq<string>)
    requires Enumerates(order, ConfdKeys(cfg))
    requires "global" in SectionNames(cfg) && NicCountsParse(cfg)
    ensures var r := CfgParser(md5, cfg, order).value;
            forall s | s in r && IsInstance(s) ::
              && "vnc_port" in r[s].opts
              && r[s].opts["vnc_port"] == NatToString(BaseVncPort + InstancesBefore(order, s))
              && ParseInt(r[s].opts["vnc_port"]).Some?
              && BaseVncPort <= ParseInt(r[s].opts["vnc_port"]).value < BaseVncPort + InstanceCount(order)
    ensures var r := CfgParser(md5, cfg, order).value;
            forall s, t | s in r && t in r && IsInstance(s) && IsInstance(t) && s != t ::
              "vnc_port" in r[s].opts && "vnc_port" in r[t].opts && r[s].opts["vnc_port"] != r[t].opts["vnc_port"]
  {
    LayeredConfdKeys(cfg);
    assert CfgParser(md5, cfg, order) == PopulateConf(md5, LayeredConfd(cfg), order);
    PopulatePorts(md5, LayeredConfd(cfg), order);
  }
}
