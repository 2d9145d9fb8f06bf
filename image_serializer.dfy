/** The `ImageSerializer#as_json` behaviour: an image of a template becomes the
    orchestrator-facing hash, with the keys of each port and volume renamed. */
module ImageSerializer {
  import opened Wrappers
  import opened JsonValues
  import opened Sequences

  /** An image of a template. Ports and volumes are lists of hashes with the template's
      snake_case keys; an image without ports, volumes or volumes_from has empty lists. */
  datatype Image = Image(
    name: Json,
    source: Json,
    categories: Json,
    command: Json,
    environment: Json,
    links: Json,
    expose: Json,
    ports: seq<Hash>,
    volumes: seq<Hash>,
    volumesFrom: seq<Json>,
    deployment: Json)

  /** The keys of every serialized image, and no others. */
  const ServiceKeys: set<string> := {
    "name", "source", "categories", "command", "environment", "links", "expose",
    "ports", "volumes", "volumesFrom", "deployment"
  }

  const PortKeys: set<string> := {"containerPort", "hostPort", "protocol"}
  const VolumeKeys: set<string> := {"containerPath", "hostPath"}

  /** One port entry, its keys renamed; a key the entry lacks yields nil. */
  function PortAsJson(p: Hash): Json
  {
    Obj(map[
      "containerPort" := Get(p, "container_port"),
      "hostPort" := Get(p, "host_port"),
      "protocol" := Get(p, "proto")])
  }

  /** One volume entry, its keys renamed. */
  function VolumeAsJson(v: Hash): Json
  {
    Obj(map[
      "containerPath" := Get(v, "container_path"),
      "hostPath" := Get(v, "host_path")])
  }

  lemma PortShape(p: Hash)
    ensures PortAsJson(p).Obj? && PortAsJson(p).fields.Keys == PortKeys
  {
  }

  lemma VolumeShape(v: Hash)
    ensures VolumeAsJson(v).Obj? && VolumeAsJson(v).fields.Keys == VolumeKeys
  {
  }

  /** The serialized image. Whatever the image holds, the key set is fixed. */
  function AsJson(img: Image): (r: Hash)
    ensures r.Keys == ServiceKeys
  {
    map[
      "name" := img.name,
      "source" := img.source,
      "categories" := img.categories,
      "command" := img.command,
      "environment" := img.environment,
      "links" := img.links,
      "expose" := img.expose,
      "ports" := Arr(Map(PortAsJson, img.ports)),
      "volumes" := Arr(Map(VolumeAsJson, img.volumes)),
      "volumesFrom" := Arr(img.volumesFrom),
      "deployment" := img.deployment]
  }

  // ----- What the serializer's examples assert, for every image -----

  /** There are as many serialized ports as the image has, each carrying the image's
      container_port, host_port and proto under containerPort, hostPort and protocol. */
  lemma PortsRemapped(img: Image)
    ensures AsJson(img)["ports"].Arr?
    ensures |AsJson(img)["ports"].items| == |img.ports|
    ensures forall i :: 0 <= i < |img.ports| ==>
      var port := AsJson(img)["ports"].items[i];
      && port.Obj?
      && port.fields.Keys == PortKeys
      && port.fields["containerPort"] == Get(img.ports[i], "container_port")
      && port.fields["hostPort"] == Get(img.ports[i], "host_port")
      && port.fields["protocol"] == Get(img.ports[i], "proto")
  {
    forall i | 0 <= i < |img.ports| ensures AsJson(img)["ports"].items[i] == PortAsJson(img.ports[i]) {
      PortShape(img.ports[i]);
    }
  }

  /** There are as many serialized volumes as the image has, each carrying the image's
      container_path and host_path under containerPath and hostPath. */
  lemma VolumesRemapped(img: Image)
    ensures AsJson(img)["volumes"].Arr?
    ensures |AsJson(img)["volumes"].items| == |img.volumes|
    ensures forall i :: 0 <= i < |img.volumes| ==>
      var volume := AsJson(img)["volumes"].items[i];
      && volume.Obj?
      && volume.fields.Keys == VolumeKeys
      && volume.fields["containerPath"] == Get(img.volumes[i], "container_path")
      && volume.fields["hostPath"] == Get(img.volumes[i], "host_path")
  {
    forall i | 0 <= i < |img.volumes| ensures AsJson(img)["volumes"].items[i] == VolumeAsJson(img.volumes[i]) {
      VolumeShape(img.volumes[i]);
    }
  }

  /** volumes_from is passed through as it is, under the key volumesFrom. */
  lemma VolumesFromPassedThrough(img: Image)
    ensures AsJson(img)["volumesFrom"] == Arr(img.volumesFrom)
  {
  }

  /** The image of the serializer's examples: one UDP port, one volume, one volumes_from. */
  lemma ExampleImage()
    ensures var img := Image(
      Null, Null, Null, Null, Null, Null, Null,
      [map["container_port" := Num(1111), "host_port" := Num(2222), "proto" := Str("UDP")]],
      [map["container_path" := Str("a/b"), "host_path" := Str("c/d")]],
      [Obj(map["service" := Str("svc1")])],
      Null);
      var out := AsJson(img);
      && out["ports"] == Arr([Obj(map["containerPort" := Num(1111), "hostPort" := Num(2222), "protocol" := Str("UDP")])])
      && out["volumes"] == Arr([Obj(map["containerPath" := Str("a/b"), "hostPath" := Str("c/d")])])
      && out["volumesFrom"] == Arr([Obj(map["service" := Str("svc1")])])
  {
    var port := map["container_port" := Num(1111), "host_port" := Num(2222), "proto" := Str("UDP")];
    var volume := map["container_path" := Str("a/b"), "host_path" := Str("c/d")];
    assert Map(PortAsJson, [port]) == [PortAsJson(port)];
    assert Map(VolumeAsJson, [volume]) == [VolumeAsJson(volume)];
  }

  // ----- The inverse: reading a serialized image back -----

  /** A port entry restricted to the three keys the serializer reads (absent ones as nil). */
  function CanonicalPort(p: Hash): Hash
  {
    map["container_port" := Get(p, "container_port"), "host_port" := Get(p, "host_port"), "proto" := Get(p, "proto")]
  }

  function CanonicalVolume(v: Hash): Hash
  {
    map["container_path" := Get(v, "container_path"), "host_path" := Get(v, "host_path")]
  }

  /** The image with everything the serializer ignores dropped. */
  function Normalized(img: Image): Image
  {
    img.(ports := Map(CanonicalPort, img.ports), volumes := Map(CanonicalVolume, img.volumes))
  }

  function PortOf(j: Json): Option<Hash>
  {
    if j.Obj? && j.fields.Keys == PortKeys then
      Some(map[
        "container_port" := j.fields["containerPort"],
        "host_port" := j.fields["hostPort"],
        "proto" := j.fields["protocol"]])
    else None
  }

  function VolumeOf(j: Json): Option<Hash>
  {
    if j.Obj? && j.fields.Keys == VolumeKeys then
      Some(map["container_path" := j.fields["containerPath"], "host_path" := j.fields["hostPath"]])
    else None
  }

  /** Every entry read back, or None as soon as one entry is not a serialized port. */
  function PortsOf(js: seq<Json>): (r: Option<seq<Hash>>)
    ensures r.Some? ==> |r.value| == |js|
  {
    if js == [] then Some([])
    else match (PortOf(js[0]), PortsOf(js[1..]))
      case (Some(p), Some(ps)) => Some([p] + ps)
      case _ => None
  }

  function VolumesOf(js: seq<Json>): (r: Option<seq<Hash>>)
    ensures r.Some? ==> |r.value| == |js|
  {
    if js == [] then Some([])
    else match (VolumeOf(js[0]), VolumesOf(js[1..]))
      case (Some(v), Some(vs)) => Some([v] + vs)
      case _ => None
  }

  /** The image a serialized hash stands for, if it has the shape `AsJson` produces. */
  function ImageOf(h: Hash): Option<Image>
  {
    if h.Keys == ServiceKeys && h["ports"].Arr? && h["volumes"].Arr? && h["volumesFrom"].Arr? then
      match (PortsOf(h["ports"].items), VolumesOf(h["volumes"].items))
      case (Some(ports), Some(volumes)) =>
        Some(Image(
          h["name"], h["source"], h["categories"], h["command"], h["environment"],
          h["links"], h["expose"], ports, volumes, h["volumesFrom"].items, h["deployment"]))
      case _ => None
    else None
  }

  lemma PortRoundTrip(p: Hash)
    ensures PortOf(PortAsJson(p)) == Some(CanonicalPort(p))
    ensures PortAsJson(CanonicalPort(p)) == PortAsJson(p)
  {
    PortShape(p);
  }

  lemma VolumeRoundTrip(v: Hash)
    ensures VolumeOf(VolumeAsJson(v)) == Some(CanonicalVolume(v))
    ensures VolumeAsJson(CanonicalVolume(v)) == VolumeAsJson(v)
  {
    VolumeShape(v);
  }

  lemma {:induction false} PortsRoundTrip(ps: seq<Hash>)
    ensures PortsOf(Map(PortAsJson, ps)) == Some(Map(CanonicalPort, ps))
  {
    if ps == [] {
      assert Map(PortAsJson, ps) == [] && Map(CanonicalPort, ps) == [];
    } else {
      var js := Map(PortAsJson, ps);
      assert js[0] == PortAsJson(ps[0]);
      assert js[1..] == Map(PortAsJson, ps[1..]);
      PortsRoundTrip(ps[1..]);
      PortRoundTrip(ps[0]);
      assert Map(CanonicalPort, ps) == [CanonicalPort(ps[0])] + Map(CanonicalPort, ps[1..]);
    }
  }

  lemma {:induction false} VolumesRoundTrip(vs: seq<Hash>)
    ensures VolumesOf(Map(VolumeAsJson, vs)) == Some(Map(CanonicalVolume, vs))
  {
    if vs == [] {
      assert Map(VolumeAsJson, vs) == [] && Map(CanonicalVolume, vs) == [];
    } else {
      var js := Map(VolumeAsJson, vs);
      assert js[0] == VolumeAsJson(vs[0]);
      assert js[1..] == Map(VolumeAsJson, vs[1..]);
      VolumesRoundTrip(vs[1..]);
      VolumeRoundTrip(vs[0]);
      assert Map(CanonicalVolume, vs) == [CanonicalVolume(vs[0])] + Map(CanonicalVolume, vs[1..]);
    }
  }

  /** Reading a serialized image back gives the image, less what the serializer ignores. */
  lemma RoundTrip(img: Image)
    ensures ImageOf(AsJson(img)) == Some(Normalized(img))
  {
    PortsRoundTrip(img.ports);
    VolumesRoundTrip(img.volumes);
  }

  /** Normalizing an image does not change its serialization: nothing it drops is ever emitted. */
  lemma NormalizedSerializesAlike(img: Image)
    ensures AsJson(Normalized(img)) == AsJson(img)
  {
    forall i | 0 <= i < |img.ports| ensures PortAsJson(CanonicalPort(img.ports[i])) == PortAsJson(img.ports[i]) {
      PortRoundTrip(img.ports[i]);
    }
    forall i | 0 <= i < |img.volumes| ensures VolumeAsJson(CanonicalVolume(img.volumes[i])) == VolumeAsJson(img.volumes[i]) {
      VolumeRoundTrip(img.volumes[i]);
    }
    assert Map(PortAsJson, Normalized(img).ports) == Map(PortAsJson, img.ports);
    assert Map(VolumeAsJson, Normalized(img).volumes) == Map(VolumeAsJson, img.volumes);
  }

  lemma {:induction false} PortsOfInverse(js: seq<Json>)
    requires PortsOf(js).Some?
    ensures Map(PortAsJson, PortsOf(js).value) == js
  {
    if js != [] {
      PortsOfInverse(js[1..]);
      var ps := PortsOf(js).value;
      assert ps[1..] == PortsOf(js[1..]).value;
      assert PortAsJson(ps[0]) == js[0];
    }
  }

  lemma {:induction false} VolumesOfInverse(js: seq<Json>)
    requires VolumesOf(js).Some?
    ensures Map(VolumeAsJson, VolumesOf(js).value) == js
  {
    if js != [] {
      VolumesOfInverse(js[1..]);
      var vs := VolumesOf(js).value;
      assert vs[1..] == VolumesOf(js[1..]).value;
      assert VolumeAsJson(vs[0]) == js[0];
    }
  }

  /** Every hash the reader accepts is exactly the serialization of what it reads. */
  lemma ReadThenSerialize(h: Hash)
    requires ImageOf(h).Some?
    ensures AsJson(ImageOf(h).value) == h
  {
    PortsOfInverse(h["ports"].items);
    VolumesOfInverse(h["volumes"].items);
  }
}
