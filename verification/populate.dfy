/** `populate_conf`: per-instance NIC arguments and VNC display ports. */
module Populate {
  import opened Wrappers
  import opened Decimal
  import opened Mac
  import opened Config

  /** The port counter's starting value. */
  const BaseVncPort: nat := 40

  /** One entry of the populated configuration: its options and, for an instance,
      the list stored under `nic` (`None` for `env` and `global`, which get no `nic`). */
  datatype Entry = Entry(opts: Options, nic: Option<seq<string>>)

  /** The list built by appending `f(i)` for each index `i` below `n`, starting from `[]`. */
  function Appended(f: nat -> string, n: nat): seq<string>
    decreases n
  {
    if n == 0 then [] else Appended(f, n - 1) + [f(n - 1)]
  }

  /** The appending loop leaves `n` entries, entry `i` being `f(i)`. */
  lemma {:induction false} AppendedValues(f: nat -> string, n: nat)
    ensures |Appended(f, n)| == n
    ensures forall i | 0 <= i < n :: Appended(f, n)[i] == f(i)
    decreases n
  {
    if n > 0 {
      AppendedValues(f, n - 1);
      var before := Appended(f, n - 1);
      assert forall i | 0 <= i < n - 1 :: (before + [f(n - 1)])[i] == before[i];
    }
  }

  /** NIC `i` of an instance whose disk image is `img`. */
  function NicArg(md5: Hasher, img: string): nat -> string {
    (i: nat) => GenVirtioDev(md5, img, i)
  }

  /** The NIC arguments of an instance that wants `n` of them: `gen_virtio_dev(img, i)` for
      each index `i` below `n`, in index order. */
  function Nics(md5: Hasher, img: string, n: nat): seq<string> {
    Appended(NicArg(md5, img), n)
  }

  /** The list has `n` entries, entry `i` being `gen_virtio_dev(img, i)`. */
  lemma NicsValues(md5: Hasher, img: string, n: nat)
    ensures |Nics(md5, img, n)| == n
    ensures forall i | 0 <= i < n :: Nics(md5, img, n)[i] == GenVirtioDev(md5, img, i)
  {
    AppendedValues(NicArg(md5, img), n);
  }

  /** How many iterations `range(n)` makes. */
  function RangeLength(n: int): nat {
    if n < 0 then 0 else n
  }

  /** The instance dictionary can be populated without raising: `nic_nb` exists and is an
      integer, and `img` exists whenever the NIC loop runs at least once. */
  predicate InstanceOk(conf: Options) {
    && "nic_nb" in conf
    && ParseInt(conf["nic_nb"]).Some?
    && (ParseInt(conf["nic_nb"]).value > 0 ==> "img" in conf)
  }

  /** The exception populating `conf` raises: `KeyError` for a missing `nic_nb`,
      `ValueError` for a non-integer one, `KeyError` for `img` when NICs are wanted. */
  function InstanceError(conf: Options): Error
    requires !InstanceOk(conf)
  {
    if "nic_nb" !in conf then KeyMissing("nic_nb")
    else if ParseInt(conf["nic_nb"]).None? then NotAnInteger(conf["nic_nb"])
    else KeyMissing("img")
  }

  /** The loop body of `populate_conf` for one instance dictionary, given the current
      counter value `port`: build the NIC list, then store `str(port)` as `vnc_port`. */
  function PopulateInstance(md5: Hasher, conf: Options, port: nat): (r: Result<Entry, Error>)
    ensures r.Success? <==> InstanceOk(conf)
    ensures r.Failure? ==> r.error == InstanceError(conf)
  {
    if "nic_nb" !in conf then Failure(KeyMissing("nic_nb"))
    else
      match ParseInt(conf["nic_nb"])
      case None => Failure(NotAnInteger(conf["nic_nb"]))
      case Some(n) =>
        if n > 0 && "img" !in conf then Failure(KeyMissing("img"))
        else
          var nic := if n > 0 then Nics(md5, conf["img"], n) else [];
          Success(Entry(conf["vnc_port" := NatToString(port)], Some(nic)))
  }

  /** A populated instance: `max(0, int(nic_nb))` NIC arguments, entry `i` being
      `gen_virtio_dev(img, i)`; the options gain `vnc_port`, holding `str(port)`,
      and otherwise stay as they were. */
  lemma PopulateInstanceResult(md5: Hasher, conf: Options, port: nat)
    requires InstanceOk(conf)
    ensures var e := PopulateInstance(md5, conf, port).value;
            var n := RangeLength(ParseInt(conf["nic_nb"]).value);
            && e.nic.Some?
            && |e.nic.value| == n
            && (forall i | 0 <= i < n :: e.nic.value[i] == GenVirtioDev(md5, conf["img"], i))
            && e.opts.Keys == conf.Keys + {"vnc_port"}
            && (forall k | k in conf && k != "vnc_port" :: e.opts[k] == conf[k])
            && e.opts["vnc_port"] == NatToString(port)
            && ParseInt(e.opts["vnc_port"]) == Some(port)
  {
    ParseIntOfNatToString(port);
    var n := ParseInt(conf["nic_nb"]).value;
    if n > 0 {
      NicsValues(md5, conf["img"], n);
    }
  }

  /** Number of instance names (neither `env` nor `global`) in `names`. */
  function InstanceCount(names: seq<string>): nat
    decreases |names|
  {
    if names == [] then 0
    else InstanceCount(names[..|names| - 1]) + (if IsInstance(names[|names| - 1]) then 1 else 0)
  }

  predicate Distinct(names: seq<string>) {
    forall i, j | 0 <= i < j < |names| :: names[i] != names[j]
  }

  /** `order` lists every key of the dictionary exactly once: a dictionary iteration order. */
  predicate Enumerates(order: seq<string>, keys: set<string>) {
    && Distinct(order)
    && (forall i | 0 <= i < |order| :: order[i] in keys)
    && (forall k | k in keys :: k in order)
  }

  lemma InstanceCountStep(names: seq<string>, i: nat)
    requires i < |names|
    ensures InstanceCount(names[..i + 1]) == InstanceCount(names[..i]) + (if IsInstance(names[i]) then 1 else 0)
  {
    assert names[..i + 1][..i] == names[..i];
  }

  /** Counting instances over a longer prefix never gives less. */
  lemma {:induction false} InstanceCountMonotone(names: seq<string>, i: nat, j: nat)
    requires i <= j <= |names|
    ensures InstanceCount(names[..i]) <= InstanceCount(names[..j])
    decreases j - i
  {
    if i < j {
      InstanceCountStep(names, j - 1);
      InstanceCountMonotone(names, i, j - 1);
    }
  }

  /** The fold of `populate_conf` over the keys in iteration order `order`, with the
      counter at `port`: `env` and `global` pass through unchanged and do not advance
      the counter; each instance takes the current value and advances it by one. The
      first instance in `order` that cannot be populated stops the fold with its error. */
  function PopulateFrom(md5: Hasher, confd: map<string, Options>, order: seq<string>, port: nat)
    : (r: Result<map<string, Entry>, Error>)
    requires forall i | 0 <= i < |order| :: order[i] in confd
    ensures r.Success? <==> forall i | 0 <= i < |order| && IsInstance(order[i]) :: InstanceOk(confd[order[i]])
    ensures r.Success? ==> forall k :: k in r.value <==> k in order
    decreases |order|
  {
    if order == [] then Success(map[])
    else
      var sec := order[0];
      if !IsInstance(sec) then
        var tail :- PopulateFrom(md5, confd, order[1..], port);
        Success(tail[sec := Entry(confd[sec], None)])
      else
        var entry :- PopulateInstance(md5, confd[sec], port);
        var tail :- PopulateFrom(md5, confd, order[1..], port + 1);
        Success(tail[sec := entry])
  }

  /** One step of a successful fold: the head key's entry over the fold of the rest. */
  lemma PopulateFromStep(md5: Hasher, confd: map<string, Options>, order: seq<string>, port: nat)
    requires forall j | 0 <= j < |order| :: order[j] in confd
    requires order != []
    requires PopulateFrom(md5, confd, order, port).Success?
    ensures var next := if IsInstance(order[0]) then port + 1 else port;
            && PopulateFrom(md5, confd, order[1..], next).Success?
            && PopulateFrom(md5, confd, order, port).value
               == PopulateFrom(md5, confd, order[1..], next).value[order[0] :=
                    if IsInstance(order[0]) then PopulateInstance(md5, confd[order[0]], port).value
                    else Entry(confd[order[0]], None)]
  {
  }

  /** What the fold stores under the key at position `i`: `env` and `global` unchanged,
      an instance populated with the counter `q`, advanced once per earlier instance. */
  lemma {:induction false} PopulateFromEntry(md5: Hasher, confd: map<string, Options>, order: seq<string>, port: nat, i: nat, q: nat)
    requires forall j | 0 <= j < |order| :: order[j] in confd
    requires Distinct(order)
    requires PopulateFrom(md5, confd, order, port).Success?
    requires i < |order|
    requires q == port + InstanceCount(order[..i])
    ensures PopulateFrom(md5, confd, order, port).value[order[i]]
            == if IsInstance(order[i]) then PopulateInstance(md5, confd[order[i]], q).value
               else Entry(confd[order[i]], None)
    decreases i
  {
    if i == 0 {
      assert order[..0] == [];
      PopulateFromHead(md5, confd, order, port);
    } else {
      var next := if IsInstance(order[0]) then port + 1 else port;
      PopulateFromStep(md5, confd, order, port);
      var rest := PopulateFrom(md5, confd, order[1..], next).value;
      assert order[1..][i - 1] == order[i];
      assert order[i] != order[0];
      assert PopulateFrom(md5, confd, order, port).value[order[i]] == rest[order[i]];
      assert Distinct(order[1..]);
      PrefixCount(order, i);
      PopulateFromEntry(md5, confd, order[1..], next, i - 1, q);
    }
  }

  lemma PopulateFromHead(md5: Hasher, confd: map<string, Options>, order: seq<string>, port: nat)
    requires forall j | 0 <= j < |order| :: order[j] in confd
    requires PopulateFrom(md5, confd, order, port).Success?
    requires order != []
    ensures PopulateFrom(md5, confd, order, port).value[order[0]]
            == if IsInstance(order[0]) then PopulateInstance(md5, confd[order[0]], port).value
               else Entry(confd[order[0]], None)
  {
    PopulateFromStep(md5, confd, order, port);
  }

  /** Position `i` of `order` holds the first instance, in iteration order, that cannot be
      populated. */
  predicate FirstFailure(confd: map<string, Options>, order: seq<string>, i: int) {
    && 0 <= i < |order|
    && IsInstance(order[i]) && order[i] in confd && !InstanceOk(confd[order[i]])
    && forall j | 0 <= j < i :: IsInstance(order[j]) ==> order[j] in confd && InstanceOk(confd[order[j]])
  }

  lemma FirstFailureShift(confd: map<string, Options>, order: seq<string>, k: int)
    requires order != []
    requires FirstFailure(confd, order[1..], k)
    requires IsInstance(order[0]) ==> order[0] in confd && InstanceOk(confd[order[0]])
    ensures FirstFailure(confd, order, k + 1)
  {
    assert forall j | 1 <= j < k + 1 :: order[j] == order[1..][j - 1];
  }

  /** A failing fold reports the error of the first instance, in iteration order, that
      cannot be populated. */
  lemma {:induction false} PopulateFromError(md5: Hasher, confd: map<string, Options>, order: seq<string>, port: nat)
    requires forall i | 0 <= i < |order| :: order[i] in confd
    requires PopulateFrom(md5, confd, order, port).Failure?
    ensures exists i :: FirstFailure(confd, order, i)
                        && PopulateFrom(md5, confd, order, port).error == InstanceError(confd[order[i]])
    decreases |order|
  {
    var sec := order[0];
    var rest := order[1..];
    var next := if IsInstance(sec) then port + 1 else port;
    PopulateFromFailStep(md5, confd, order, port);
    if IsInstance(sec) && !InstanceOk(confd[sec]) {
      assert FirstFailure(confd, order, 0);
    } else {
      PopulateFromError(md5, confd, rest, next);
      var k :| FirstFailure(confd, rest, k) && PopulateFrom(md5, confd, rest, next).error == InstanceError(confd[rest[k]]);
      FirstFailureShift(confd, order, k);
      assert order[k + 1] == rest[k];
    }
  }

  /** One step of a failing fold: either the head instance fails, or the head passes and
      the fold of the rest fails with the same error. */
  lemma PopulateFromFailStep(md5: Hasher, confd: map<string, Options>, order: seq<string>, port: nat)
    requires forall i | 0 <= i < |order| :: order[i] in confd
    requires PopulateFrom(md5, confd, order, port).Failure?
    ensures order != []
    ensures var sec := order[0];
            var next := if IsInstance(sec) then port + 1 else port;
            if IsInstance(sec) && !InstanceOk(confd[sec]) then
              PopulateFrom(md5, confd, order, port).error == InstanceError(confd[sec])
            else
              && PopulateFrom(md5, confd, order[1..], next).Failure?
              && PopulateFrom(md5, confd, order, port).error == PopulateFrom(md5, confd, order[1..], next).error
  {
  }

  lemma {:induction false} PrefixCount(order: seq<string>, i: nat)
    requires 1 <= i <= |order|
    ensures InstanceCount(order[..i]) == (if IsInstance(order[0]) then 1 else 0) + InstanceCount(order[1..][..i - 1])
    decreases i
  {
    if i > 1 {
      PrefixCount(order, i - 1);
      InstanceCountStep(order, i - 1);
      InstanceCountStep(order[1..], i - 2);
    } else {
      assert order[..1] == [order[0]];
      assert order[..1][..0] == [];
    }
  }

  /** `populate_conf(confd)`, the dictionary iterated in order `order`, counter from 40. */
  function PopulateConf(md5: Hasher, confd: map<string, Options>, order: seq<string>)
    : (r: Result<map<string, Entry>, Error>)
    requires Enumerates(order, confd.Keys)
    ensures r.Success? <==> forall s | s in confd && IsInstance(s) :: InstanceOk(confd[s])
    ensures r.Success? ==> r.value.Keys == confd.Keys
    ensures r.Failure? ==>
              exists s | s in confd && IsInstance(s) ::
                !InstanceOk(confd[s]) && r.error == InstanceError(confd[s])
    ensures r.Failure? ==>
              exists i :: FirstFailure(confd, order, i) && r.error == InstanceError(confd[order[i]])
  {
    var r := PopulateFrom(md5, confd, order, BaseVncPort);
    if r.Success? then
      r
    else
      PopulateFromError(md5, confd, order, BaseVncPort);
      r
  }

  /** Position of `s` in `order`. */
  function IndexOf(order: seq<string>, s: string): (i: nat)
    requires s in order
    ensures i < |order| && order[i] == s
    decreases |order|
  {
    if order[0] == s then 0 else 1 + IndexOf(order[1..], s)
  }

  /** Number of instances that precede `s` in iteration order: the counter's advance
      when `s` is reached. */
  function InstancesBefore(order: seq<string>, s: string): nat
    requires s in order
  {
    InstanceCount(order[..IndexOf(order, s)])
  }

  /** What `populate_conf` stores under each key. */
  lemma PopulateEntry(md5: Hasher, confd: map<string, Options>, order: seq<string>, s: string)
    requires Enumerates(order, confd.Keys)
    requires PopulateConf(md5, confd, order).Success?
    requires s in confd
    ensures s in PopulateConf(md5, confd, order).value
    ensures PopulateConf(md5, confd, order).value[s]
            == if IsInstance(s) then PopulateInstance(md5, confd[s], BaseVncPort + InstancesBefore(order, s)).value
               else Entry(confd[s], None)
  {
    PopulateFromEntry(md5, confd, order, BaseVncPort, IndexOf(order, s), BaseVncPort + InstancesBefore(order, s));
  }

  /** The port one instance receives is `str()` of 40 plus the number of instances before it. */
  lemma PopulatePort(md5: Hasher, confd: map<string, Options>, order: seq<string>, s: string)
    requires Enumerates(order, confd.Keys)
    requires PopulateConf(md5, confd, order).Success?
    requires s in confd && IsInstance(s)
    ensures s in PopulateConf(md5, confd, order).value
    ensures "vnc_port" in PopulateConf(md5, confd, order).value[s].opts
    ensures PopulateConf(md5, confd, order).value[s].opts["vnc_port"]
            == NatToString(BaseVncPort + InstancesBefore(order, s))
    ensures ParseInt(PopulateConf(md5, confd, order).value[s].opts["vnc_port"])
            == Some(BaseVncPort + InstancesBefore(order, s))
  {
    var p := BaseVncPort + InstancesBefore(order, s);
    PopulateEntry(md5, confd, order, s);
    PopulateInstanceResult(md5, confd[s], p);
  }

  /** The k-th instance in iteration order gets port `40 + k`; so the ports handed out
      are pairwise distinct and all lie in `[40, 40 + n)`, `n` the number of instances. */
  lemma PopulatePorts(md5: Hasher, confd: map<string, Options>, order: seq<string>)
    requires Enumerates(order, confd.Keys)
    requires PopulateConf(md5, confd, order).Success?
    ensures var r := PopulateConf(md5, confd, order).value;
            forall s | s in r && IsInstance(s) ::
              && "vnc_port" in r[s].opts
              && r[s].opts["vnc_port"] == NatToString(BaseVncPort + InstancesBefore(order, s))
              && ParseInt(r[s].opts["vnc_port"]) == Some(BaseVncPort + InstancesBefore(order, s))
              && InstancesBefore(order, s) < InstanceCount(order)
    ensures var r := PopulateConf(md5, confd, order).value;
            forall s, t | s in r && t in r && IsInstance(s) && IsInstance(t) && s != t ::
              "vnc_port" in r[s].opts && "vnc_port" in r[t].opts && r[s].opts["vnc_port"] != r[t].opts["vnc_port"]
  {
    var r := PopulateConf(md5, confd, order).value;
    forall s | s in r && IsInstance(s)
      ensures "vnc_port" in r[s].opts
      ensures r[s].opts["vnc_port"] == NatToString(BaseVncPort + InstancesBefore(order, s))
      ensures ParseInt(r[s].opts["vnc_port"]) == Some(BaseVncPort + InstancesBefore(order, s))
      ensures InstancesBefore(order, s) < InstanceCount(order)
    {
      PopulatePort(md5, confd, order, s);
      var i := IndexOf(order, s);
      InstanceCountStep(order, i);
      InstanceCountMonotone(order, i + 1, |order|);
      assert order[..|order|] == order;
    }
    forall s, t | s in r && t in r && IsInstance(s) && IsInstance(t) && s != t
      ensures "vnc_port" in r[s].opts && "vnc_port" in r[t].opts && r[s].opts["vnc_port"] != r[t].opts["vnc_port"]
    {
      PortsDiffer(md5, confd, order, s, t);
    }
  }

  lemma PortsDiffer(md5: Hasher, confd: map<string, Options>, order: seq<string>, s: string, t: string)
    requires Enumerates(order, confd.Keys)
    requires PopulateConf(md5, confd, order).Success?
    requires s in confd && t in confd && IsInstance(s) && IsInstance(t) && s != t
    ensures var r := PopulateConf(md5, confd, order).value;
            s in r && t in r && "vnc_port" in r[s].opts && "vnc_port" in r[t].opts
            && r[s].opts["vnc_port"] != r[t].opts["vnc_port"]
  {
    PopulatePort(md5, confd, order, s);
    PopulatePort(md5, confd, order, t);
    var i, j := IndexOf(order, s), IndexOf(order, t);
    if i < j {
      InstanceCountStep(order, i);
      InstanceCountMonotone(order, i + 1, j);
    } else {
      InstanceCountStep(order, j);
      InstanceCountMonotone(order, j + 1, i);
    }
  }

  /** What populating gives one instance: the options gain `vnc_port`, holding `str()` of
      40 plus the number of instances before it, and otherwise stay as layered; the NIC list
      has `max(0, int(nic_nb))` entries, entry `i` being `gen_virtio_dev(img, i)`. */
  lemma PopulatedInstance(md5: Hasher, confd: map<string, Options>, order: seq<string>, s: string)
    requires Enumerates(order, confd.Keys)
    requires PopulateConf(md5, confd, order).Success?
    requires s in confd && IsInstance(s)
    ensures s in PopulateConf(md5, confd, order).value
    ensures var e := PopulateConf(md5, confd, order).value[s];
            var n := RangeLength(ParseInt(confd[s]["nic_nb"]).value);
            && InstanceOk(confd[s])
            && e.nic.Some?
            && |e.nic.value| == n
            && (forall i | 0 <= i < n :: e.nic.value[i] == GenVirtioDev(md5, confd[s]["img"], i))
            && e.opts.Keys == confd[s].Keys + {"vnc_port"}
            && (forall k | k in confd[s] && k != "vnc_port" :: e.opts[k] == confd[s][k])
            && e.opts["vnc_port"] == NatToString(BaseVncPort + InstancesBefore(order, s))
            && ParseInt(e.opts["vnc_port"]) == Some(BaseVncPort + InstancesBefore(order, s))
  {
    PopulateEntry(md5, confd, order, s);
    PopulateInstanceResult(md5, confd[s], BaseVncPort + InstancesBefore(order, s));
  }

  /** Every instance's NIC list has `max(0, int(nic_nb))` entries, entry `i` being
      `gen_virtio_dev(img, i)`; its options gain `vnc_port` and otherwise stay as layered;
      `env` and `global` are left unchanged and get no `nic`. */
  lemma PopulateNics(md5: Hasher, confd: map<string, Options>, order: seq<string>)
    requires Enumerates(order, confd.Keys)
    requires PopulateConf(md5, confd, order).Success?
    ensures var r := PopulateConf(md5, confd, order).value;
            forall s | s in r && IsInstance(s) ::
              var n := RangeLength(ParseInt(confd[s]["nic_nb"]).value);
              && r[s].nic.Some?
              && |r[s].nic.value| == n
              && forall i | 0 <= i < n :: r[s].nic.value[i] == GenVirtioDev(md5, confd[s]["img"], i)
    ensures var r := PopulateConf(md5, confd, order).value;
            forall s | s in r && IsInstance(s) ::
              && r[s].opts.Keys == confd[s].Keys + {"vnc_port"}
              && forall k | k in confd[s] && k != "vnc_port" :: r[s].opts[k] == confd[s][k]
    ensures var r := PopulateConf(md5, confd, order).value;
            forall s | s in r && !IsInstance(s) :: r[s] == Entry(confd[s], None)
  {
    var r := PopulateConf(md5, confd, order).value;
    forall s | s in r && IsInstance(s)
      ensures var n := RangeLength(ParseInt(confd[s]["nic_nb"]).value);
              && InstanceOk(confd[s])
              && r[s].nic.Some?
              && |r[s].nic.value| == n
              && (forall i | 0 <= i < n :: r[s].nic.value[i] == GenVirtioDev(md5, confd[s]["img"], i))
              && r[s].opts.Keys == confd[s].Keys + {"vnc_port"}
              && (forall k | k in confd[s] && k != "vnc_port" :: r[s].opts[k] == confd[s][k])
    {
      PopulatedInstance(md5, confd, order, s);
    }
    forall s | s in r && !IsInstance(s) ensures r[s] == Entry(confd[s], None) {
      PopulateEntry(md5, confd, order, s);
    }
  }
}
