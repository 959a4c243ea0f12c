/** The name of the Harvester load balancer that backs a guest-cluster service
    (`loadBalancerName` in pkg/cloud-controller-manager/loadbalancer.go). The
    name is built over bytes, as Go's `len`, slicing and CRC are. */
module LoadBalancerNaming {
  import opened GoLib

  const MaxNameLength: nat := 63
  const LenOfSuffix: nat := 8
  /** The most bytes of `base` that are kept in front of the suffix. */
  const MaxBaseLength: nat := MaxNameLength - LenOfSuffix

  const Dash: byte := 45

  predicate IsLowerLetter(b: byte)
  {
    97 <= b <= 122
  }

  predicate IsDecimalDigit(b: byte)
  {
    48 <= b <= 57
  }

  predicate IsLabelByte(b: byte)
  {
    IsLowerLetter(b) || IsDecimalDigit(b) || b == Dash
  }

  /** `validation.IsDNS1035Label` finds nothing wrong: a label of section 2.3.1 of
      RFC 1035 — `[a-z]([-a-z0-9]*[a-z0-9])?` — of at most 63 octets (section 2.3.4). */
  predicate IsDns1035Label(s: Bytes)
  {
    && 0 < |s| <= MaxNameLength
    && IsLowerLetter(s[0])
    && (forall i :: 0 <= i < |s| ==> IsLabelByte(s[i]))
    && (IsLowerLetter(s[|s| - 1]) || IsDecimalDigit(s[|s| - 1]))
  }

  /** The cluster name after the check: prefixed with "a" when it is not a label. */
  function EffectiveClusterName(clusterName: string): (r: string)
    ensures IsDns1035Label(Utf8(clusterName)) ==> r == clusterName
    ensures !IsDns1035Label(Utf8(clusterName)) ==> |r| == |clusterName| + 1 && r[0] == 'a' && r[1..] == clusterName
  {
    if IsDns1035Label(Utf8(clusterName)) then clusterName else "a" + clusterName
  }

  /** `cluster-namespace-name-`, before truncation. */
  function Base(clusterName: string, serviceNamespace: string, serviceName: string): Bytes
  {
    Utf8(EffectiveClusterName(clusterName) + "-" + serviceNamespace + "-" + serviceName + "-")
  }

  /** The CRC-32 of the untruncated base followed by the UID. */
  function Digest(clusterName: string, serviceNamespace: string, serviceName: string, serviceUid: string): bv32
  {
    ChecksumIEEE(Base(clusterName, serviceNamespace, serviceName) + Utf8(serviceUid))
  }

  function LoadBalancerName(clusterName: string, serviceNamespace: string, serviceName: string, serviceUid: string): (r: Bytes)
    ensures LenOfSuffix < |r| <= MaxNameLength
  {
    assert |Utf8("-")| == 1;
    Utf8Concat(EffectiveClusterName(clusterName) + "-" + serviceNamespace + "-" + serviceName, "-");
    Assemble(Base(clusterName, serviceNamespace, serviceName),
             FormatHex8(Digest(clusterName, serviceNamespace, serviceName, serviceUid)))
  }

  /** The base, cut to its first 55 bytes when longer, followed by the suffix. */
  function Assemble(base: Bytes, suffix: Bytes): Bytes
  {
    (if |base| > MaxBaseLength then base[..MaxBaseLength] else base) + suffix
  }

  function Min(a: nat, b: nat): nat
  {
    if a < b then a else b
  }

  /** The cut keeps a base of at most 55 bytes whole and cuts a longer one to
      exactly 55; either way the name begins with what is kept and ends with the suffix. */
  lemma AssembleParts(base: Bytes, suffix: Bytes)
    ensures var r := Assemble(base, suffix);
            var k := Min(|base|, MaxBaseLength);
            && (|base| <= MaxBaseLength ==> r == base + suffix)
            && (|base| > MaxBaseLength ==> r == base[..MaxBaseLength] + suffix && |r| == MaxBaseLength + |suffix|)
            && |suffix| <= |r| && r[|r| - |suffix|..] == suffix
            && k <= |r| && r[..k] == base[..k]
  {
  }

  /** The name starts with the checked cluster name and a dash, as far as the
      55-byte cut keeps it. */
  lemma NamePrefix(clusterName: string, serviceNamespace: string, serviceName: string, serviceUid: string)
    ensures var r := LoadBalancerName(clusterName, serviceNamespace, serviceName, serviceUid);
            var p := Utf8(EffectiveClusterName(clusterName) + "-");
            var k := Min(|p|, MaxBaseLength);
            k <= |r| && r[..k] == p[..k]
  {
    var e := EffectiveClusterName(clusterName);
    var rest := serviceNamespace + "-" + serviceName + "-";
    var base := Base(clusterName, serviceNamespace, serviceName);
    assert e + "-" + serviceNamespace + "-" + serviceName + "-" == (e + "-") + rest;
    Utf8Concat(e + "-", rest);
    PrefixOfBaseKept(base, Utf8(e + "-"), Utf8(rest),
                     FormatHex8(Digest(clusterName, serviceNamespace, serviceName, serviceUid)));
  }

  lemma PrefixOfBaseKept(base: Bytes, head: Bytes, tail: Bytes, suffix: Bytes)
    requires base == head + tail
    ensures var r := Assemble(base, suffix);
            var k := Min(|head|, MaxBaseLength);
            k <= |r| && r[..k] == head[..k]
  {
    AssembleParts(base, suffix);
    var k := Min(|head|, MaxBaseLength);
    assert base[..k] == head[..k];
  }

  /** The last eight bytes are the CRC-32 of the untruncated `base + uid`, as
      lower-case hex that reads back as the checksum; truncation never touches them. */
  lemma NameSuffix(clusterName: string, serviceNamespace: string, serviceName: string, serviceUid: string)
    ensures var r := LoadBalancerName(clusterName, serviceNamespace, serviceName, serviceUid);
            var s := r[|r| - LenOfSuffix..];
            && s == FormatHex8(Digest(clusterName, serviceNamespace, serviceName, serviceUid))
            && ParseHex(s) == ChecksumIEEE(Base(clusterName, serviceNamespace, serviceName) + Utf8(serviceUid)) as nat
            && (forall i :: 0 <= i < LenOfSuffix ==> IsLowerHex(s[i]))
  {
    AssembleParts(Base(clusterName, serviceNamespace, serviceName),
                  FormatHex8(Digest(clusterName, serviceNamespace, serviceName, serviceUid)));
  }

  /** A base of at most 55 bytes is kept whole; a longer one is cut to exactly 55,
      so the name is then exactly 63 bytes. */
  lemma NameTruncation(clusterName: string, serviceNamespace: string, serviceName: string, serviceUid: string)
    ensures var r := LoadBalancerName(clusterName, serviceNamespace, serviceName, serviceUid);
            var base := Base(clusterName, serviceNamespace, serviceName);
            var suffix := FormatHex8(Digest(clusterName, serviceNamespace, serviceName, serviceUid));
            && (|base| <= MaxBaseLength ==> r == base + suffix)
            && (|base| > MaxBaseLength ==> r == base[..MaxBaseLength] + suffix && |r| == MaxNameLength)
  {
    AssembleParts(Base(clusterName, serviceNamespace, serviceName),
                  FormatHex8(Digest(clusterName, serviceNamespace, serviceName, serviceUid)));
  }

  /** The name is the base, cut to 55 bytes, as far as the cut keeps it. */
  lemma NameStartsWithBase(clusterName: string, serviceNamespace: string, serviceName: string, serviceUid: string)
    ensures var r := LoadBalancerName(clusterName, serviceNamespace, serviceName, serviceUid);
            var base := Base(clusterName, serviceNamespace, serviceName);
            var k := Min(|base|, MaxBaseLength);
            k <= |r| && r[..k] == base[..k]
  {
    AssembleParts(Base(clusterName, serviceNamespace, serviceName),
                  FormatHex8(Digest(clusterName, serviceNamespace, serviceName, serviceUid)));
  }

  predicate IsLabelChar(c: char)
  {
    'a' <= c <= 'z' || '0' <= c <= '9' || c == '-'
  }

  predicate IsLabelText(s: string)
  {
    forall i :: 0 <= i < |s| ==> IsLabelChar(s[i])
  }

  /** A label-shaped head followed by eight hex digits is a DNS-1035 label. */
  lemma HeadAndSuffixFormLabel(head: Bytes, suffix: Bytes)
    requires 0 < |head| <= MaxBaseLength && IsLowerLetter(head[0])
    requires forall i :: 0 <= i < |head| ==> IsLabelByte(head[i])
    requires |suffix| == LenOfSuffix && forall i :: 0 <= i < |suffix| ==> IsLowerHex(suffix[i])
    ensures IsDns1035Label(head + suffix)
  {
    var r := head + suffix;
    forall i | 0 <= i < |r|
      ensures IsLabelByte(r[i])
    {
      if i >= |head| {
        assert r[i] == suffix[i - |head|];
      }
    }
    assert r[|r| - 1] == suffix[LenOfSuffix - 1];
  }

  /** When the cluster name, namespace and service name use only `[-a-z0-9]` (as
      Kubernetes namespace and object names do), the derived name is a DNS-1035
      label: the "a" prefix repairs a cluster name that starts with a digit or a
      dash, or is empty. */
  lemma NameIsDns1035Label(clusterName: string, serviceNamespace: string, serviceName: string, serviceUid: string)
    requires IsLabelText(clusterName) && IsLabelText(serviceNamespace) && IsLabelText(serviceName)
    ensures IsDns1035Label(LoadBalancerName(clusterName, serviceNamespace, serviceName, serviceUid))
  {
    var e := EffectiveClusterName(clusterName);
    EffectiveClusterNameStartsWithLetter(clusterName);
    var text := e + "-" + serviceNamespace + "-" + serviceName + "-";
    assert text[0] == e[0];
    assert IsLabelText(text);
    LabelTextBytes(text);
    LabelBaseAssembled(Utf8(text), FormatHex8(Digest(clusterName, serviceNamespace, serviceName, serviceUid)));
  }

  /** A cluster name of label characters, after the check, starts with a letter. */
  lemma EffectiveClusterNameStartsWithLetter(clusterName: string)
    requires IsLabelText(clusterName)
    ensures var e := EffectiveClusterName(clusterName);
            |e| > 0 && 'a' <= e[0] <= 'z' && IsLabelText(e)
  {
    if IsDns1035Label(Utf8(clusterName)) {
      Utf8Ascii(clusterName);
      assert Utf8(clusterName)[0] as int == clusterName[0] as int;
    } else {
      var e := "a" + clusterName;
      assert forall i :: 1 <= i < |e| ==> e[i] == clusterName[i - 1];
    }
  }

  /** Text of label characters starting with a letter encodes to label bytes starting with a letter. */
  lemma LabelTextBytes(text: string)
    requires |text| > 0 && 'a' <= text[0] <= 'z' && IsLabelText(text)
    ensures var b := Utf8(text);
            |b| > 0 && IsLowerLetter(b[0]) && forall i :: 0 <= i < |b| ==> IsLabelByte(b[i])
  {
    Utf8Ascii(text);
  }

  /** Any label-shaped base, cut and followed by eight hex digits, is a DNS-1035 label. */
  lemma LabelBaseAssembled(base: Bytes, suffix: Bytes)
    requires |base| > 0 && IsLowerLetter(base[0]) && forall i :: 0 <= i < |base| ==> IsLabelByte(base[i])
    requires |suffix| == LenOfSuffix && forall i :: 0 <= i < |suffix| ==> IsLowerHex(suffix[i])
    ensures IsDns1035Label(Assemble(base, suffix))
  {
    AssembleParts(base, suffix);
    var head := if |base| > MaxBaseLength then base[..MaxBaseLength] else base;
    HeadAndSuffixFormLabel(head, suffix);
  }
}
