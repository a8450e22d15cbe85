/** The QEMU command line `VM.run` assembles for one populated instance. */
module Render {
  import opened Wrappers
  import opened Config
  import opened Populate
  import opened Mac
  import opened Parser

  /** Python's `sep.join(xs)`: the items with `sep` between neighbours. */
  function Join(sep: string, xs: seq<string>): string
    decreases |xs|
  {
    if xs == [] then ""
    else if |xs| == 1 then xs[0]
    else xs[0] + sep + Join(sep, xs[1..])
  }

  /** Joining two non-empty runs is joining each and putting `sep` between the halves. */
  lemma {:induction false} JoinAppend(sep: string, a: seq<string>, b: seq<string>)
    requires a != [] && b != []
    ensures Join(sep, a + b) == Join(sep, a) + sep + Join(sep, b)
    decreases |a|
  {
    if |a| == 1 {
      assert (a + b)[1..] == b;
    } else {
      assert (a + b)[1..] == a[1..] + b;
      JoinAppend(sep, a[1..], b);
    }
  }

  /** A VM to bring up: a section name and its populated dictionary. */
  datatype Vm = Vm(name: string, conf: Entry)

  /** The string options `run` reads, in the order its expression reads them. */
  const RunKeysBeforeNic: seq<string> := ["qemu", "memory", "cpu", "smp", "img"]

  /** `opts` has every string option `run` reads before the NIC arguments. */
  predicate HasRunKeys(opts: Options) {
    "qemu" in opts && "memory" in opts && "cpu" in opts && "smp" in opts && "img" in opts
  }

  lemma RunKeysPresent(opts: Options)
    ensures HasRunKeys(opts) <==> forall i | 0 <= i < |RunKeysBeforeNic| :: RunKeysBeforeNic[i] in opts
  {
    assert RunKeysBeforeNic[0] == "qemu" && RunKeysBeforeNic[1] == "memory" && RunKeysBeforeNic[2] == "cpu"
           && RunKeysBeforeNic[3] == "smp" && RunKeysBeforeNic[4] == "img";
  }

  lemma RunKeysAreQemuOptions(opts: Options)
    requires QemuOptions.Keys <= opts.Keys
    ensures HasRunKeys(opts)
  {
    QemuKeyOrderCoversQemuOptions();
    assert QemuKeyOrder[0] == "qemu" && QemuKeyOrder[1] == "img" && QemuKeyOrder[2] == "memory"
           && QemuKeyOrder[3] == "cpu" && QemuKeyOrder[4] == "smp";
  }

  /** The first key of `keys` that `opts` lacks, if any. */
  function FirstMissing(opts: Options, keys: seq<string>): (r: Option<string>)
    ensures r.None? <==> forall i | 0 <= i < |keys| :: keys[i] in opts
    ensures r.Some? ==> exists i | 0 <= i < |keys| ::
                          && keys[i] == r.value && r.value !in opts
                          && forall j | 0 <= j < i :: keys[j] in opts
    decreases |keys|
  {
    if keys == [] then None
    else if keys[0] !in opts then Some(keys[0])
    else
      var r := FirstMissing(opts, keys[1..]);
      if r.Some? then
        var i :| 0 <= i < |keys[1..]| && keys[1..][i] == r.value && r.value !in opts
                 && forall j | 0 <= j < i :: keys[1..][j] in opts;
        assert keys[i + 1] == r.value;
        r
      else r
  }

  /** The command `VM.run` builds: the emulator, KVM and no graphics, the memory, CPU,
      SMP and disk options, the NIC arguments joined by spaces, and the VNC display.
      A missing option raises `KeyError` for the first key the expression reads. */
  function Command(vm: Vm): (r: Result<string, Error>)
    ensures r.Success? <==>
              && HasRunKeys(vm.conf.opts)
              && vm.conf.nic.Some?
              && "vnc_port" in vm.conf.opts
    ensures r.Failure? ==>
              r.error == KeyMissing(
                if FirstMissing(vm.conf.opts, RunKeysBeforeNic).Some? then FirstMissing(vm.conf.opts, RunKeysBeforeNic).value
                else if vm.conf.nic.None? then "nic"
                else "vnc_port")
  {
    var opts := vm.conf.opts;
    match FirstMissing(opts, RunKeysBeforeNic)
    case Some(k) => RunKeysPresent(opts); Failure(KeyMissing(k))
    case None =>
      RunKeysPresent(opts);
      if vm.conf.nic.None? then Failure(KeyMissing("nic"))
      else if "vnc_port" !in opts then Failure(KeyMissing("vnc_port"))
      else
        Success(opts["qemu"] + " --enable-kvm" + " -nographic"
                + " -m " + opts["memory"] + " -cpu " + opts["cpu"]
                + " -smp " + opts["smp"] + " -hda " + opts["img"]
                + " " + Join(" ", vm.conf.nic.value) + " -vnc :" + opts["vnc_port"])
  }

  /** The words of the command before the NIC arguments. */
  function HeadArgs(opts: Options): seq<string>
    requires HasRunKeys(opts)
  {
    [opts["qemu"], "--enable-kvm", "-nographic", "-m", opts["memory"], "-cpu", opts["cpu"],
     "-smp", opts["smp"], "-hda", opts["img"]]
  }

  /** The words of the command after the NIC arguments. */
  function TailArgs(opts: Options): seq<string>
    requires "vnc_port" in opts
  {
    ["-vnc", ":" + opts["vnc_port"]]
  }

  /** The command is its argument words joined by single spaces, the NIC arguments
      counting as one (empty) word when there are none. */
  lemma CommandArgs(vm: Vm)
    requires Command(vm).Success?
    ensures var opts := vm.conf.opts;
            var nic := vm.conf.nic.value;
            && Command(vm).value == Join(" ", HeadArgs(opts) + [Join(" ", nic)] + TailArgs(opts))
            && (nic != [] ==> Command(vm).value == Join(" ", HeadArgs(opts) + nic + TailArgs(opts)))
  {
    var opts := vm.conf.opts;
    var nic := vm.conf.nic.value;
    var head, tail := HeadArgs(opts), TailArgs(opts);
    var n := Join(" ", nic);
    JoinAppend(" ", head, [n]);
    JoinAppend(" ", head + [n], tail);
    assert Join(" ", tail) == "-vnc" + " " + (":" + opts["vnc_port"]) by {
      assert tail[1..] == [":" + opts["vnc_port"]];
    }
    assert Join(" ", head) == opts["qemu"] + " --enable-kvm" + " -nographic"
                              + " -m " + opts["memory"] + " -cpu " + opts["cpu"]
                              + " -smp " + opts["smp"] + " -hda " + opts["img"] by {
      JoinHead(opts);
    }
    if nic != [] {
      JoinAppend(" ", head, nic);
      JoinAppend(" ", head + nic, tail);
    }
  }

  lemma JoinHead(opts: Options)
    requires HasRunKeys(opts)
    ensures Join(" ", HeadArgs(opts)) == opts["qemu"] + " --enable-kvm" + " -nographic"
                                         + " -m " + opts["memory"] + " -cpu " + opts["cpu"]
                                         + " -smp " + opts["smp"] + " -hda " + opts["img"]
  {
    JoinHeadWords(opts["qemu"], opts["memory"], opts["cpu"], opts["smp"], opts["img"]);
  }

  lemma JoinHeadWords(q: string, m: string, c: string, s: string, i: string)
    ensures Join(" ", [q, "--enable-kvm", "-nographic", "-m", m, "-cpu", c, "-smp", s, "-hda", i])
            == q + " --enable-kvm" + " -nographic" + " -m " + m + " -cpu " + c + " -smp " + s + " -hda " + i
  {
    var a := [q, "--enable-kvm", "-nographic", "-m", m];
    var b := ["-cpu", c, "-smp", s, "-hda", i];
    assert a + b == [q, "--enable-kvm", "-nographic", "-m", m, "-cpu", c, "-smp", s, "-hda", i];
    JoinAppend(" ", a, b);
    JoinHeadFront(q, m);
    JoinHeadBack(q + " --enable-kvm" + " -nographic" + " -m " + m, c, s, i);
  }

  lemma JoinHeadFront(q: string, m: string)
    ensures Join(" ", [q, "--enable-kvm", "-nographic", "-m", m]) == q + " --enable-kvm" + " -nographic" + " -m " + m
  {
    JoinFive(" ", q, "--enable-kvm", "-nographic", "-m", m);
    Respace(q, "--enable-kvm", "-nographic", "-m", m, " --enable-kvm", " -nographic", " -m ");
  }

  lemma JoinHeadBack(x: string, c: string, s: string, i: string)
    ensures x + " " + Join(" ", ["-cpu", c, "-smp", s, "-hda", i]) == x + " -cpu " + c + " -smp " + s + " -hda " + i
  {
    JoinSix(" ", "-cpu", c, "-smp", s, "-hda", i);
    RespaceTail(x, "-cpu", c, "-smp", s, "-hda", i, " -cpu ", " -smp ", " -hda ");
  }

  lemma JoinFive(sep: string, a: string, b: string, c: string, d: string, e: string)
    ensures Join(sep, [a, b, c, d, e]) == a + sep + b + sep + c + sep + d + sep + e
  {
    JoinCons(sep, d, [e]);
    JoinCons(sep, c, [d, e]);
    assert [c] + [d, e] == [c, d, e];
    JoinCons(sep, b, [c, d, e]);
    assert [b] + [c, d, e] == [b, c, d, e];
    JoinCons(sep, a, [b, c, d, e]);
    assert [a] + [b, c, d, e] == [a, b, c, d, e];
  }

  lemma JoinSix(sep: string, a: string, b: string, c: string, d: string, e: string, f: string)
    ensures Join(sep, [a, b, c, d, e, f]) == a + sep + b + sep + c + sep + d + sep + e + sep + f
  {
    JoinFive(sep, b, c, d, e, f);
    JoinCons(sep, a, [b, c, d, e, f]);
    assert [a] + [b, c, d, e, f] == [a, b, c, d, e, f];
  }

  /** Regrouping the emulator words: a space before each flag is part of the flag's literal. */
  lemma Respace(a: string, b: string, c: string, d: string, e: string, b': string, c': string, d': string)
    requires b' == " " + b && c' == " " + c && d' == " " + d + " "
    ensures a + " " + b + " " + c + " " + d + " " + e == a + b' + c' + d' + e
  {
  }

  lemma RespaceTail(x: string, a: string, b: string, c: string, d: string, e: string, f: string,
                    a': string, c': string, e': string)
    requires a' == " " + a + " " && c' == " " + c + " " && e' == " " + e + " "
    ensures x + " " + (a + " " + b + " " + c + " " + d + " " + e + " " + f) == x + a' + b + c' + d + e' + f
  {
  }

  lemma JoinCons(sep: string, x: string, rest: seq<string>)
    requires rest != []
    ensures Join(sep, [x] + rest) == x + sep + Join(sep, rest)
  {
    assert ([x] + rest)[1..] == rest;
  }

  /** Every instance a successful parse produces can be run: its command is built without
      `KeyError`, from the layered options, the generated NICs and the assigned port. */
  lemma CfgParserInstanceRuns(md5: Hasher, cfg: RawConfig, order: seq<string>, s: string)
    requires Enumerates(order, ConfdKeys(cfg))
    requires "global" in SectionNames(cfg) && NicCountsParse(cfg)
    requires s in SectionNames(cfg) && IsInstance(s)
    ensures s in CfgParser(md5, cfg, order).value
    ensures var e := CfgParser(md5, cfg, order).value[s];
            && Command(Vm(s, e)).Success?
            && HasRunKeys(e.opts) && "vnc_port" in e.opts && e.nic.Some?
            && Command(Vm(s, e)).value == Join(" ", HeadArgs(e.opts) + [Join(" ", e.nic.value)] + TailArgs(e.opts))
  {
    CfgParserInstance(md5, cfg, order, s);
    var e := CfgParser(md5, cfg, order).value[s];
    RunKeysAreQemuOptions(e.opts);
    CommandArgs(Vm(s, e));
  }
}
