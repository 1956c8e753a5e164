/** Reading a cluster specification: the doubling document reader, validation of the resources, and
    merging of several files. YAML decoding is a parameter. */
module Cluster {
  import opened Options

  type Text = seq<char>

  const MAX_BYTES := 16 * 1024 * 1024

  // ---------- resources ----------

  datatype NetworkType = Internal | External | Bmc | OtherType

  datatype NetworkSpec = NetworkSpec(name: Text, typ: NetworkType, useNat: bool, address: Text)

  datatype NetNSApp = NetNSApp(name: Text, command: seq<Text>)

  datatype NetNSSpec = NetNSSpec(name: Text, interfaces: seq<Text>, apps: seq<NetNSApp>)

  datatype DeviceClassSpec = DeviceClassSpec(name: Text, path: Text)

  datatype VolumeKind = ImageVolume | Localds | RawVolume | HostPath | OtherKind

  datatype VolumeSpec = VolumeSpec(
    kind: VolumeKind, image: Text, userData: Text, size: Text, path: Text, cache: Text, format: Text)

  datatype SmpSpec = SmpSpec(cpus: int, cores: int, threads: int, dies: int, sockets: int, maxCpus: int)

  datatype NodeSpec = NodeSpec(name: Text, volumes: seq<VolumeSpec>, cpu: int, smp: Option<SmpSpec>)

  datatype ImageSpec = ImageSpec(name: Text, url: Text, file: Text)

  /** A decoded document: of a known kind, of an unknown kind, or not decodable. */
  datatype Resource =
    | Network(network: NetworkSpec)
    | NetworkNamespace(netns: NetNSSpec)
    | DeviceClass(device: DeviceClassSpec)
    | Node(node: NodeSpec)
    | Image(image: ImageSpec)
    | UnknownKind
    | Undecodable

  type Decoder = Text -> Resource

  /** An empty document decodes to no kind at all. */
  predicate EmptyHasNoKind(decode: Decoder) {
    decode([]).UnknownKind? || decode([]).Undecodable?
  }

  // ---------- validation ----------

  predicate ValidNetwork(n: NetworkSpec) {
    |n.name| <= 15
    && match n.typ
       case Internal => !n.useNat && n.address == []
       case External => n.address != []
       case Bmc => !n.useNat && n.address != []
       case OtherType => false
  }

  predicate ValidNetNS(n: NetNSSpec) {
    n.name != [] && n.interfaces != [] && forall i :: 0 <= i < |n.apps| ==> n.apps[i].command != []
  }

  predicate IsAbs(path: Text) {
    path != [] && path[0] == '/'
  }

  predicate ValidDeviceClass(d: DeviceClassSpec) {
    d.name != [] && d.path != [] && IsAbs(d.path)
  }

  predicate ValidImage(i: ImageSpec) {
    i.name != [] && (i.url != [] || i.file != []) && !(i.url != [] && i.file != [])
  }

  predicate KnownCache(cache: Text) {
    cache in {"writeback", "none", "writethrough", "directsync", "unsafe"}
  }

  /** NodeVolumeSpec.validate on the volume it is called on: defaults filled in, or None. */
  function ValidatedVolume(v: VolumeSpec): Option<VolumeSpec> {
    if v.cache != [] && !KnownCache(v.cache) then None
    else
      var v' := if v.cache == [] then v.(cache := "none") else v;
      match v'.kind
      case ImageVolume => if v'.image == [] then None else Some(v')
      case Localds => if v'.userData == [] then None else Some(v')
      case RawVolume =>
        if v'.size == [] then None
        else if v'.format == [] then Some(v'.(format := "qcow2"))
        else if v'.format == "qcow2" || v'.format == "raw" then Some(v')
        else None
      case HostPath => if v'.path == [] || !IsAbs(v'.path) then None else Some(v')
      case OtherKind => None
  }

  /** NodeSpec.validate: cpu becomes smp. The loop over the volumes validates a copy of each, so the
      node's own volumes stay as they were. */
  function ValidatedNode(n: NodeSpec): Option<NodeSpec> {
    if n.name == [] then None
    else if exists i :: 0 <= i < |n.volumes| && ValidatedVolume(n.volumes[i]).None? then None
    else if n.cpu != 0 && n.smp.Some? then None
    else if n.cpu == 0 && n.smp.None? then None
    else if n.cpu != 0 then Some(n.(smp := Some(SmpSpec(n.cpu, 0, 0, 0, 0, 0)), cpu := 0))
    else Some(n)
  }

  method ValidateNode(n: NodeSpec) returns (r: Option<NodeSpec>)
    ensures r == ValidatedNode(n)
  {
    if n.name == [] {
      return None;
    }
    for i := 0 to |n.volumes|
      invariant forall k :: 0 <= k < i ==> ValidatedVolume(n.volumes[k]).Some?
    {
      var volume := n.volumes[i];
      var validated := ValidatedVolume(volume);
      if validated.None? {
        return None;
      }
      volume := validated.value;
    }
    if n.cpu != 0 && n.smp.Some? {
      return None;
    }
    if n.cpu == 0 && n.smp.None? {
      return None;
    }
    r := Some(n);
    if n.cpu != 0 {
      r := Some(n.(smp := Some(SmpSpec(n.cpu, 0, 0, 0, 0, 0)), cpu := 0));
    }
  }

  // ---------- the cluster ----------

  datatype ClusterSpec = ClusterSpec(
    networks: seq<NetworkSpec>,
    netnss: seq<NetNSSpec>,
    devices: seq<DeviceClassSpec>,
    nodes: seq<NodeSpec>,
    images: seq<ImageSpec>)
  {
    function Append(other: ClusterSpec): ClusterSpec {
      ClusterSpec(networks + other.networks, netnss + other.netnss, devices + other.devices,
                  nodes + other.nodes, images + other.images)
    }

    function Size(): nat {
      |networks| + |netnss| + |devices| + |nodes| + |images|
    }
  }

  const EMPTY := ClusterSpec([], [], [], [], [])

  /** The one-resource cluster of an accepted document. */
  function Accepted(r: Resource): Option<ClusterSpec> {
    match r
    case Network(n) => if ValidNetwork(n) then Some(EMPTY.(networks := [n])) else None
    case NetworkNamespace(n) => if ValidNetNS(n) then Some(EMPTY.(netnss := [n])) else None
    case DeviceClass(d) => if ValidDeviceClass(d) then Some(EMPTY.(devices := [d])) else None
    case Node(n) =>
      (match ValidatedNode(n)
       case None => None
       case Some(n') => Some(EMPTY.(nodes := [n'])))
    case Image(i) => if ValidImage(i) then Some(EMPTY.(images := [i])) else None
    case UnknownKind => None
    case Undecodable => None
  }

  /** What a document contributes: nothing but an error when it is too large. */
  function Contribution(decode: Decoder, frame: Text): Option<ClusterSpec> {
    if |frame| > MAX_BYTES then None else Accepted(decode(frame))
  }

  function Merge(a: Option<ClusterSpec>, b: Option<ClusterSpec>): Option<ClusterSpec> {
    if a.Some? && b.Some? then Some(a.value.Append(b.value)) else None
  }

  /** The cluster of a file, given as its documents; None when one is rejected. */
  function Loaded(decode: Decoder, frames: seq<Text>): Option<ClusterSpec> {
    if frames == [] then Some(EMPTY)
    else Merge(Contribution(decode, frames[0]), Loaded(decode, frames[1..]))
  }

  // ---------- reading documents ----------

  datatype ReadError = NoError | ShortBuffer | Eof

  /** The framer: the documents not yet read, the first of them possibly read in part. A read takes as
      much of it as fits and reports a short buffer exactly when some of it remains. */
  class FrameReader {
    var frames: seq<Text>

    constructor (frames: seq<Text>)
      ensures this.frames == frames
    {
      this.frames := frames;
    }

    method Read(n: nat) returns (data: Text, err: ReadError)
      modifies this
      ensures old(frames) == [] ==> data == [] && err == Eof && frames == []
      ensures old(frames) != [] && |old(frames)[0]| <= n ==>
                data == old(frames)[0] && err == NoError && frames == old(frames)[1..]
      ensures old(frames) != [] && |old(frames)[0]| > n ==>
                data == old(frames)[0][..n] && err == ShortBuffer && frames == old(frames)[0 := old(frames)[0][n..]]
    {
      if frames == [] {
        data, err := [], Eof;
      } else if |frames[0]| <= n {
        data, err := frames[0], NoError;
        frames := frames[1..];
      } else {
        data, err := frames[0][..n], ShortBuffer;
        frames := frames[0 := frames[0][n..]];
      }
    }
  }

  /** The size of the buffer after j doublings. */
  ghost function Doubled(j: nat): nat {
    if j == 0 then 1024 else 2 * Doubled(j - 1)
  }

  lemma {:induction false} FourteenDoublings(j: nat)
    requires j <= 14
    ensures Doubled(j) <= MAX_BYTES
    ensures Doubled(j) < MAX_BYTES <==> j < 14
  {
    assert Doubled(4) == 16 * 1024;
    assert Doubled(8) == 16 * Doubled(4);
    assert Doubled(12) == 16 * Doubled(8);
    assert Doubled(14) == 4 * Doubled(12);
    if j < 14 {
      DoubledGrows(j, 14);
    }
  }

  lemma {:induction false} DoubledGrows(i: nat, j: nat)
    requires i < j
    ensures 1024 <= Doubled(i) < Doubled(j)
    decreases j
  {
    if i < j - 1 {
      DoubledGrows(i, j - 1);
    } else if i > 0 {
      DoubledGrows(i - 1, i);
    }
  }

  lemma DoubledNext(j: nat)
    ensures Doubled(j + 1) == 2 * Doubled(j)
    ensures Doubled(0) == 1024
  {
  }

  datatype Doc = Frame(bytes: Text) | TooLarge | NoMore

  /** readSingleYamlDoc: returns exactly the next document when it is at most 16 MiB, and an error
      exactly when it is larger; it always terminates. */
  method ReadSingleYamlDoc(reader: FrameReader) returns (doc: Doc)
    modifies reader
    ensures old(reader.frames) == [] ==> doc == NoMore && reader.frames == []
    ensures old(reader.frames) != [] && |old(reader.frames)[0]| <= MAX_BYTES ==>
              doc == Frame(old(reader.frames)[0]) && reader.frames == old(reader.frames)[1..]
    ensures old(reader.frames) != [] && |old(reader.frames)[0]| > MAX_BYTES ==> doc == TooLarge
  {
    hide Doubled;
    DoubledNext(0);
    ghost var frames := reader.frames;
    var size := 1024;
    var content: Text := [];
    ghost var j := 0;
    while true
      invariant j <= 14 && size == Doubled(j) && |content| <= size
      invariant |content| == (if j == 0 then 0 else Doubled(j - 1))
      invariant frames == [] ==> reader.frames == [] && j == 0
      invariant frames != [] ==>
                  && reader.frames != [] && reader.frames[1..] == frames[1..]
                  && content + reader.frames[0] == frames[0]
      decreases 14 - j
    {
      FourteenDoublings(j);
      DoubledNext(j);
      ghost var before := content;
      var data, err := reader.Read(size - |content|);
      if err == ShortBuffer {
        if size < MAX_BYTES {
          content := content + data;
          assert before + (data + reader.frames[0]) == content + reader.frames[0];
          size := 2 * size;
          j := j + 1;
        } else {
          return TooLarge;
        }
      } else if err == Eof {
        return NoMore;
      } else {
        return Frame(content + data);
      }
    }
  }

  /** Parse: the error of a too large document is not looked at, and its missing content is decoded. */
  method Parse(decode: Decoder, reader: FrameReader) returns (r: Option<ClusterSpec>)
    requires EmptyHasNoKind(decode)
    modifies reader
    ensures r == Loaded(decode, old(reader.frames))
  {
    var cluster := EMPTY;
    ghost var whole := Loaded(decode, reader.frames);
    MergeUnit(whole);
    while true
      invariant whole == Merge(Some(cluster), Loaded(decode, reader.frames))
      decreases |reader.frames|
    {
      ghost var frames := reader.frames;
      var doc := ReadSingleYamlDoc(reader);
      if doc == NoMore {
        AppendEmpty(cluster);
        return Some(cluster);
      }
      var bytes := if doc.Frame? then doc.bytes else [];
      var accepted := Accept(decode(bytes));
      if accepted.None? {
        return None;
      }
      AppendAssociative(cluster, accepted.value, Loaded(decode, frames[1..]));
      cluster := cluster.Append(accepted.value);
    }
  }

  /** The switch over the kinds, with the validation of each. */
  method Accept(r: Resource) returns (c: Option<ClusterSpec>)
    ensures c == Accepted(r)
  {
    match r {
      case Network(n) => c := if ValidNetwork(n) then Some(EMPTY.(networks := [n])) else None;
      case NetworkNamespace(n) => c := if ValidNetNS(n) then Some(EMPTY.(netnss := [n])) else None;
      case DeviceClass(d) => c := if ValidDeviceClass(d) then Some(EMPTY.(devices := [d])) else None;
      case Node(n) =>
        var n' := ValidateNode(n);
        c := if n'.None? then None else Some(EMPTY.(nodes := [n'.value]));
      case Image(i) => c := if ValidImage(i) then Some(EMPTY.(images := [i])) else None;
      case _ => c := None;
    }
  }

  lemma AppendEmpty(c: ClusterSpec)
    ensures c.Append(EMPTY) == c && EMPTY.Append(c) == c
  {
  }

  lemma MergeUnit(c: Option<ClusterSpec>)
    ensures Merge(Some(EMPTY), c) == c
  {
    if c.Some? {
      AppendEmpty(c.value);
    }
  }

  lemma AppendAssociative(a: ClusterSpec, b: ClusterSpec, c: Option<ClusterSpec>)
    ensures Merge(Some(a), Merge(Some(b), c)) == Merge(Some(a.Append(b)), c)
  {
    if c.Some? {
      assert a.Append(b.Append(c.value)) == a.Append(b).Append(c.value);
    }
  }

  // ---------- merging files ----------

  /** Loading two lists of documents one after the other is merging what each loads to, errors included. */
  lemma {:induction false} LoadedConcat(decode: Decoder, a: seq<Text>, b: seq<Text>)
    ensures Loaded(decode, a + b) == Merge(Loaded(decode, a), Loaded(decode, b))
    decreases |a|
  {
    if a == [] {
      assert a + b == b;
      MergeUnit(Loaded(decode, b));
    } else {
      assert (a + b)[0] == a[0] && (a + b)[1..] == a[1..] + b;
      LoadedConcat(decode, a[1..], b);
      var first := Contribution(decode, a[0]);
      if first.Some? && Loaded(decode, a[1..]).Some? {
        AppendAssociative(first.value, Loaded(decode, a[1..]).value, Loaded(decode, b));
      }
    }
  }

  function Concat(files: seq<seq<Text>>): seq<Text> {
    if files == [] then [] else files[0] + Concat(files[1..])
  }

  /** loadClusterFromFiles gives what one file holding all their documents would. */
  method LoadClusterFromFiles(decode: Decoder, files: seq<seq<Text>>) returns (r: Option<ClusterSpec>)
    requires EmptyHasNoKind(decode)
    ensures r == Loaded(decode, Concat(files))
  {
    var cluster := EMPTY;
    ghost var whole := Loaded(decode, Concat(files));
    MergeUnit(whole);
    assert files[0..] == files;
    for i := 0 to |files|
      invariant whole == Merge(Some(cluster), Loaded(decode, Concat(files[i..])))
    {
      assert files[i..][0] == files[i] && files[i..][1..] == files[i + 1..];
      LoadedConcat(decode, files[i], Concat(files[i + 1..]));
      var reader := new FrameReader(files[i]);
      var c := Parse(decode, reader);
      if c.None? {
        return None;
      }
      AppendAssociative(cluster, c.value, Loaded(decode, Concat(files[i + 1..])));
      cluster := cluster.Append(c.value);
    }
    assert files[|files|..] == [];
    AppendEmpty(cluster);
    r := Some(cluster);
  }

  // ---------- what a loaded cluster holds ----------

  function AsNetwork(r: Resource): Option<NetworkSpec> {
    if r.Network? then Some(r.network) else None
  }

  function AsNetNS(r: Resource): Option<NetNSSpec> {
    if r.NetworkNamespace? then Some(r.netns) else None
  }

  function AsDevice(r: Resource): Option<DeviceClassSpec> {
    if r.DeviceClass? then Some(r.device) else None
  }

  function AsNode(r: Resource): Option<NodeSpec> {
    if r.Node? then Some(r.node) else None
  }

  function AsImage(r: Resource): Option<ImageSpec> {
    if r.Image? then Some(r.image) else None
  }

  function One<T>(x: Option<T>): seq<T> {
    if x.Some? then [x.value] else []
  }

  /** The documents of one kind, in order. */
  function Picked<T>(pick: Resource -> Option<T>, decode: Decoder, frames: seq<Text>): seq<T> {
    if frames == [] then [] else One(pick(decode(frames[0]))) + Picked(pick, decode, frames[1..])
  }

  /** A node as loaded: the same but for the cpu count, which moved into smp. */
  predicate SameNode(loaded: NodeSpec, doc: NodeSpec) {
    && loaded.name == doc.name && loaded.volumes == doc.volumes && loaded.cpu == 0
    && loaded.smp == (if doc.cpu != 0 then Some(SmpSpec(doc.cpu, 0, 0, 0, 0, 0)) else doc.smp)
  }

  predicate SameNodes(loaded: seq<NodeSpec>, docs: seq<NodeSpec>) {
    |loaded| == |docs| && forall i :: 0 <= i < |docs| ==> SameNode(loaded[i], docs[i])
  }

  /** Loading succeeds exactly when every document is small enough and accepted. */
  lemma {:induction false} LoadedIff(decode: Decoder, frames: seq<Text>)
    ensures Loaded(decode, frames).Some? <==>
            forall i :: 0 <= i < |frames| ==> Contribution(decode, frames[i]).Some?
    decreases |frames|
  {
    hide Contribution;
    if frames != [] {
      var rest := frames[1..];
      LoadedIff(decode, rest);
      if Loaded(decode, frames).Some? {
        forall i | 0 <= i < |frames|
          ensures Contribution(decode, frames[i]).Some?
        {
          assert i > 0 ==> frames[i] == rest[i - 1];
        }
      } else if Contribution(decode, frames[0]).Some? {
        var i :| 0 <= i < |rest| && Contribution(decode, rest[i]).None?;
        assert frames[i + 1] == rest[i];
      }
    }
  }

  /** The cluster holds each kind's documents in order, and none is lost. */
  ghost predicate HoldsAll(c: ClusterSpec, decode: Decoder, frames: seq<Text>) {
    && c.networks == Picked(AsNetwork, decode, frames) && c.netnss == Picked(AsNetNS, decode, frames)
    && c.devices == Picked(AsDevice, decode, frames) && c.images == Picked(AsImage, decode, frames)
    && SameNodes(c.nodes, Picked(AsNode, decode, frames))
    && c.Size() == |frames|
  }

  lemma PickedOne<T>(pick: Resource -> Option<T>, decode: Decoder, frame: Text)
    ensures Picked(pick, decode, [frame]) == One(pick(decode(frame)))
  {
  }

  lemma OneDocument(decode: Decoder, frame: Text)
    requires Contribution(decode, frame).Some?
    ensures HoldsAll(Contribution(decode, frame).value, decode, [frame])
  {
    hide ValidNetwork, ValidNetNS, ValidDeviceClass, ValidImage, ValidatedVolume, Picked;
    PickedOne(AsNetwork, decode, frame);
    PickedOne(AsNetNS, decode, frame);
    PickedOne(AsDevice, decode, frame);
    PickedOne(AsImage, decode, frame);
    PickedOne(AsNode, decode, frame);
  }

  lemma PickedMore<T>(pick: Resource -> Option<T>, decode: Decoder, frames: seq<Text>)
    requires frames != []
    ensures Picked(pick, decode, frames) == Picked(pick, decode, [frames[0]]) + Picked(pick, decode, frames[1..])
  {
  }

  /** One more document in front. */
  lemma HoldsMore(decode: Decoder, frames: seq<Text>, a: ClusterSpec, b: ClusterSpec)
    requires frames != [] && HoldsAll(a, decode, [frames[0]]) && HoldsAll(b, decode, frames[1..])
    ensures HoldsAll(a.Append(b), decode, frames)
  {
    hide SameNode, Picked;
    PickedMore(AsNetwork, decode, frames);
    PickedMore(AsNetNS, decode, frames);
    PickedMore(AsDevice, decode, frames);
    PickedMore(AsImage, decode, frames);
    PickedMore(AsNode, decode, frames);
    NodesAppend(a.nodes, b.nodes, Picked(AsNode, decode, [frames[0]]), Picked(AsNode, decode, frames[1..]));
  }

  lemma NodesAppend(a: seq<NodeSpec>, b: seq<NodeSpec>, da: seq<NodeSpec>, db: seq<NodeSpec>)
    requires SameNodes(a, da) && SameNodes(b, db)
    ensures SameNodes(a + b, da + db)
  {
  }

  lemma {:induction false} LoadedKeepsAll(decode: Decoder, frames: seq<Text>)
    requires Loaded(decode, frames).Some?
    ensures HoldsAll(Loaded(decode, frames).value, decode, frames)
    decreases |frames|
  {
    if frames != [] {
      hide HoldsAll, Contribution;
      LoadedKeepsAll(decode, frames[1..]);
      OneDocument(decode, frames[0]);
      HoldsMore(decode, frames, Contribution(decode, frames[0]).value, Loaded(decode, frames[1..]).value);
    }
  }

  /** What later code dereferences without a check. */
  predicate SafeToUse(c: ClusterSpec) {
    && (forall i :: 0 <= i < |c.nodes| ==> c.nodes[i].smp.Some?)
    && (forall i :: 0 <= i < |c.networks| ==> c.networks[i].useNat ==> c.networks[i].address != [])
  }

  /** Every node of a loaded cluster has its smp set and every NAT network an address. */
  lemma {:induction false} LoadedIsSafe(decode: Decoder, frames: seq<Text>)
    requires Loaded(decode, frames).Some?
    ensures SafeToUse(Loaded(decode, frames).value)
    decreases |frames|
  {
    if frames != [] {
      LoadedIsSafe(decode, frames[1..]);
      var first := Contribution(decode, frames[0]).value;
      assert SafeToUse(first);
    }
  }

  // ---------- which documents are accepted ----------

  /** A volume: a known cache or none given, and what its kind needs. */
  predicate AcceptableVolume(v: VolumeSpec) {
    && v.cache in {"", "writeback", "none", "writethrough", "directsync", "unsafe"}
    && (|| (v.kind == ImageVolume && v.image != "")
        || (v.kind == Localds && v.userData != "")
        || (v.kind == RawVolume && v.size != "" && v.format in {"", "qcow2", "raw"})
        || (v.kind == HostPath && |v.path| > 0 && v.path[0] == '/'))
  }

  /** What a document has to be, kind by kind. */
  ghost predicate Acceptable(r: Resource) {
    || (&& r.Network? && |r.network.name| < 16
        && (|| (r.network.typ == Internal && !r.network.useNat && r.network.address == "")
            || (r.network.typ == External && r.network.address != "")
            || (r.network.typ == Bmc && !r.network.useNat && r.network.address != "")))
    || (&& r.NetworkNamespace? && r.netns.name != "" && |r.netns.interfaces| > 0
        && !exists i :: 0 <= i < |r.netns.apps| && r.netns.apps[i].command == [])
    || (r.DeviceClass? && r.device.name != "" && |r.device.path| > 0 && r.device.path[0] == '/')
    || (r.Image? && r.image.name != "" && (r.image.url == "" <==> r.image.file != ""))
    || (&& r.Node? && r.node.name != "" && (r.node.cpu == 0 <==> r.node.smp.Some?)
        && forall i :: 0 <= i < |r.node.volumes| ==> AcceptableVolume(r.node.volumes[i]))
  }

  lemma VolumeAcceptedIff(v: VolumeSpec)
    ensures ValidatedVolume(v).Some? <==> AcceptableVolume(v)
  {
  }

  lemma NodeAcceptedIff(n: NodeSpec)
    ensures ValidatedNode(n).Some? <==> Acceptable(Node(n))
  {
    hide ValidatedVolume, AcceptableVolume;
    forall i | 0 <= i < |n.volumes|
      ensures ValidatedVolume(n.volumes[i]).Some? <==> AcceptableVolume(n.volumes[i])
    {
      VolumeAcceptedIff(n.volumes[i]);
    }
  }

  /** A file loads exactly when each of its documents has at most 16 MiB and is acceptable. */
  lemma LoadsIff(decode: Decoder, frames: seq<Text>)
    ensures Loaded(decode, frames).Some? <==>
            forall i :: 0 <= i < |frames| ==> |frames[i]| <= 16777216 && Acceptable(decode(frames[i]))
  {
    LoadedIff(decode, frames);
    hide Loaded, Contribution, Acceptable;
    forall i | 0 <= i < |frames|
      ensures Contribution(decode, frames[i]).Some? <==> |frames[i]| <= 16777216 && Acceptable(decode(frames[i]))
    {
      DocumentAcceptedIff(decode, frames[i]);
    }
  }

  lemma DocumentAcceptedIff(decode: Decoder, frame: Text)
    ensures Contribution(decode, frame).Some? <==> |frame| <= 16777216 && Acceptable(decode(frame))
  {
    hide ValidatedNode;
    if decode(frame).Node? {
      NodeAcceptedIff(decode(frame).node);
    }
  }

  // ---------- volume defaults ----------

  predicate KnownFormat(format: Text) {
    format in {"qcow2", "raw"}
  }

  predicate AllCached(volumes: seq<VolumeSpec>) {
    forall i :: 0 <= i < |volumes| ==> KnownCache(volumes[i].cache)
  }

  predicate RawFormatted(volumes: seq<VolumeSpec>) {
    forall i :: 0 <= i < |volumes| && volumes[i].kind.RawVolume? ==> KnownFormat(volumes[i].format)
  }

  /** validate fills in defaults only in its copy: every volume of an accepted node has a known cache
      exactly when the document named one for each, and every raw volume a known format exactly when the
      document named one for each of those. */
  lemma DefaultsAreLost(n: NodeSpec)
    requires ValidatedNode(n).Some?
    ensures var volumes := ValidatedNode(n).value.volumes;
            && (AllCached(volumes) <==> forall i :: 0 <= i < |n.volumes| ==> n.volumes[i].cache != [])
            && (RawFormatted(volumes) <==>
                  forall i :: 0 <= i < |n.volumes| && n.volumes[i].kind.RawVolume? ==> n.volumes[i].format != [])
  {
    var volumes := ValidatedNode(n).value.volumes;
    assert volumes == n.volumes;
    forall i | 0 <= i < |volumes|
      ensures KnownCache(volumes[i].cache) <==> n.volumes[i].cache != []
      ensures volumes[i].kind.RawVolume? ==> (KnownFormat(volumes[i].format) <==> n.volumes[i].format != [])
    {
      assert ValidatedVolume(n.volumes[i]).Some?;
    }
  }

  /** Accepted nodes whose volume still has no cache, or still no format. */
  lemma DefaultsAreLostWitness()
    ensures var v := VolumeSpec(ImageVolume, "ubuntu", [], [], [], [], []);
            var n := NodeSpec("worker", [v], 1, None);
            && ValidatedVolume(v) == Some(v.(cache := "none"))
            && ValidatedNode(n).Some? && ValidatedNode(n).value.volumes == [v]
    ensures var v := VolumeSpec(RawVolume, [], [], "10G", [], "none", []);
            var n := NodeSpec("worker", [v], 1, None);
            && ValidatedVolume(v) == Some(v.(format := "qcow2"))
            && ValidatedNode(n).Some? && ValidatedNode(n).value.volumes == [v]
  {
  }

  /** The cache and, for a raw volume, the format that newNodeVolume gives to a volume, or None when it
      refuses one of them. */
  function Chosen(v: VolumeSpec): Option<(Text, Text)> {
    var cache := if v.cache == [] then "none" else v.cache;
    var format := if !v.kind.RawVolume? then [] else if v.format == [] then "qcow2" else v.format;
    if KnownCache(cache) && (v.kind.RawVolume? ==> KnownFormat(format)) then Some((cache, format)) else None
  }

  lemma ChosenAsValidated(v: VolumeSpec)
    requires ValidatedVolume(v).Some?
    ensures ChosenOk(v)
  {
  }

  /** The loss does no harm: in every loaded cluster each volume is later given exactly the cache and
      format that validation had filled into its copy, and none is refused for them. */
  lemma {:induction false} DefaultsReturn(decode: Decoder, frames: seq<Text>)
    requires Loaded(decode, frames).Some?
    ensures NodesChosen(Loaded(decode, frames).value.nodes)
    decreases |frames|
  {
    hide ValidatedVolume, Chosen, ValidNetwork, ValidNetNS, ValidDeviceClass, ValidImage;
    if frames != [] {
      DefaultsReturn(decode, frames[1..]);
      var first := Contribution(decode, frames[0]).value.nodes;
      forall i, j | 0 <= i < |first| && 0 <= j < |first[i].volumes|
        ensures ChosenOk(first[i].volumes[j])
      {
        ChosenAsValidated(first[i].volumes[j]);
      }
    }
  }

  predicate ChosenOk(v: VolumeSpec) {
    && ValidatedVolume(v).Some? && Chosen(v).Some?
    && Chosen(v).value.0 == ValidatedVolume(v).value.cache
    && (v.kind.RawVolume? ==> Chosen(v).value.1 == ValidatedVolume(v).value.format)
  }

  predicate NodesChosen(nodes: seq<NodeSpec>) {
    forall i, j :: 0 <= i < |nodes| && 0 <= j < |nodes[i].volumes| ==> ChosenOk(nodes[i].volumes[j])
  }
}
