/** MAC derivation (`mac_hash`) and virtio NIC argument generation (`gen_virtio_dev`). */
module Mac {
  import opened Wrappers
  import opened Decimal

  predicate IsLowerHex(c: char) {
    '0' <= c <= '9' || 'a' <= c <= 'f'
  }

  predicate IsHexDigest(s: string) {
    |s| == 32 && forall i | 0 <= i < |s| :: IsLowerHex(s[i])
  }

  /** What `hashlib.md5(...).hexdigest()` returns: 32 lower-case hex characters. */
  type Digest = s: string | IsHexDigest(s) witness "00000000000000000000000000000000"

  /** MD5 itself is not modelled: every operation that hashes takes the digest function as a parameter. */
  type Hasher = string -> Digest

  /** Two lower-case hex characters starting at position `p`. */
  predicate OctetAt(mac: string, p: nat)
    requires p + 2 <= |mac|
  {
    IsLowerHex(mac[p]) && IsLowerHex(mac[p + 1])
  }

  /** Six colon-separated octets, each two lower-case hex characters. */
  predicate IsMac(mac: string) {
    && |mac| == 17
    && OctetAt(mac, 0) && mac[2] == ':'
    && OctetAt(mac, 3) && mac[5] == ':'
    && OctetAt(mac, 6) && mac[8] == ':'
    && OctetAt(mac, 9) && mac[11] == ':'
    && OctetAt(mac, 12) && mac[14] == ':'
    && OctetAt(mac, 15)
  }

  function HexValue(c: char): nat
    requires IsLowerHex(c)
  {
    if c <= '9' then c as int - '0' as int else c as int - 'a' as int + 10
  }

  /** Numeric value of the first octet of a MAC. */
  function FirstOctet(mac: string): nat
    requires IsMac(mac)
  {
    HexValue(mac[0]) * 16 + HexValue(mac[1])
  }

  /** The eight hex characters of a MAC that follow the fixed `52:54:` prefix, colons removed. */
  function MacTail(mac: string): string
    requires IsMac(mac)
  {
    [mac[6], mac[7], mac[9], mac[10], mac[12], mac[13], mac[15], mac[16]]
  }

  /** `mac_hash(s)`: `52:54:` followed by the first eight digest characters in four pairs.
      The first octet 0x52 has bit 1 set and bit 0 clear: a locally administered unicast address. */
  function MacHash(md5: Hasher, s: string): string {
    var m := md5(s);
    ['5', '2', ':', '5', '4', ':', m[0], m[1], ':', m[2], m[3], ':', m[4], m[5], ':', m[6], m[7]]
  }

  /** The derived MAC is well formed, carries the fixed `52:54:` prefix and then the
      first eight digest characters. */
  lemma MacHashShape(md5: Hasher, s: string)
    ensures var mac := MacHash(md5, s);
            && IsMac(mac)
            && mac[..6] == "52:54:"
            && MacTail(mac) == md5(s)[..8]
            && FirstOctet(mac) % 4 == 2
  {
    var m := md5(s);
    assert m[..8] == [m[0], m[1], m[2], m[3], m[4], m[5], m[6], m[7]];
  }

  const NetdevHead := "-netdev tap,id=hostnet"
  const NetdevTail := ",script=no,downscript=no,vhost=on"
  const DeviceHead := "-device virtio-net-pci,netdev=hostnet"
  const MacField := ",mac="

  /** What a NIC argument string identifies: the `hostnet<id>` index and the MAC. */
  datatype Nic = Nic(id: nat, mac: string)

  /** Length of the longest prefix of `s` made of decimal digits. */
  function DigitRun(s: string): (k: nat)
    ensures k <= |s| && AllDigits(s[..k])
    ensures k < |s| ==> !IsDigit(s[k])
    decreases |s|
  {
    if s == [] || !IsDigit(s[0]) then 0
    else
      var k := 1 + DigitRun(s[1..]);
      assert s[..k] == [s[0]] + s[1..][..k - 1];
      k
  }

  /** Reads a NIC argument string back: the `-netdev` half must name `hostnet<id>`,
      the `-device` half must name the same `hostnet<id>`, and the rest is the MAC. */
  function ParseVirtioDev(dev: string): Option<Nic> {
    if !(NetdevHead <= dev) then None
    else
      var rest := dev[|NetdevHead|..];
      var k := DigitRun(rest);
      var digits := rest[..k];
      var expected := NetdevTail + " " + DeviceHead + digits + MacField;
      if k == 0 || !(expected <= rest[k..]) then None
      else Some(Nic(DigitsValue(digits), rest[k..][|expected|..]))
  }

  lemma {:induction false} DigitRunOfDigitsThen(d: string, t: string)
    requires AllDigits(d)
    requires t != [] && !IsDigit(t[0])
    ensures DigitRun(d + t) == |d|
    decreases |d|
  {
    if d != [] {
      assert (d + t)[1..] == d[1..] + t;
      DigitRunOfDigitsThen(d[1..], t);
    }
  }

  /** After a fixed `head`, the digit run of `head + digits + tail` is exactly `digits`
      when `tail` does not start with a digit. */
  lemma SplitAfterHead(head: string, digits: string, tail: string)
    requires AllDigits(digits)
    requires tail != [] && !IsDigit(tail[0])
    ensures head <= head + digits + tail
    ensures var rest := (head + digits + tail)[|head|..];
            && DigitRun(rest) == |digits|
            && rest[..|digits|] == digits
            && rest[|digits|..] == tail
  {
    var rest := (head + digits + tail)[|head|..];
    assert rest == digits + tail;
    DigitRunOfDigitsThen(digits, tail);
  }

  lemma ParseAssembled(digits: string, id: nat, mac: string)
    requires digits == NatToString(id)
    ensures ParseVirtioDev(NetdevHead + digits + NetdevTail + " " + DeviceHead + digits + MacField + mac)
         == Some(Nic(id, mac))
  {
    var expected := NetdevTail + " " + DeviceHead + digits + MacField;
    var tail := expected + mac;
    Regroup(NetdevTail, " ", DeviceHead, digits, MacField, mac);
    FirstOfAppend(NetdevTail, " " + DeviceHead + digits + MacField + mac);
    assert tail[0] == ',';
    SplitAfterHead(NetdevHead, digits, tail);
    RegroupAfterTwo(NetdevHead, digits, NetdevTail, " ", DeviceHead, digits, MacField, mac);
    AppendSplits(expected, mac);
    DigitsValueOfNatToString(id);
  }

  lemma Regroup(a: string, b: string, c: string, d: string, e: string, f: string)
    ensures a + b + c + d + e + f == a + (b + c + d + e + f)
  {
  }

  lemma RegroupAfterTwo(a: string, b: string, c: string, d: string, e: string, f: string, g: string, h: string)
    ensures a + b + c + d + e + f + g + h == a + b + (c + d + e + f + g + h)
  {
  }

  lemma FirstOfAppend(a: string, b: string)
    requires a != []
    ensures (a + b)[0] == a[0]
  {
  }

  lemma AppendSplits(a: string, b: string)
    ensures a <= a + b && (a + b)[|a|..] == b
  {
    assert (a + b)[..|a|] == a;
  }

  /** `gen_virtio_dev(s, id)`: the `-netdev` and `-device` arguments of NIC `id`, joined by a space. */
  function GenVirtioDev(md5: Hasher, s: string, id: nat): string {
    var digits := NatToString(id);
    NetdevHead + digits + NetdevTail + " " + DeviceHead + digits + MacField + MacHash(md5, s + digits)
  }

  /** Reading `gen_virtio_dev(s, id)` back recovers `id`, named identically in both
      halves, and the MAC derived from `s + str(id)`. */
  lemma GenVirtioDevRoundTrip(md5: Hasher, s: string, id: nat)
    ensures ParseVirtioDev(GenVirtioDev(md5, s, id)) == Some(Nic(id, MacHash(md5, s + NatToString(id))))
  {
    ParseAssembled(NatToString(id), id, MacHash(md5, s + NatToString(id)));
  }

  /** NIC arguments generated for different indices never coincide, whatever the seeds. */
  lemma GenVirtioDevDistinct(md5: Hasher, s1: string, s2: string, i: nat, j: nat)
    requires i != j
    ensures GenVirtioDev(md5, s1, i) != GenVirtioDev(md5, s2, j)
  {
    GenVirtioDevRoundTrip(md5, s1, i);
    GenVirtioDevRoundTrip(md5, s2, j);
  }
}
