/** Pods as the webhook sees them: immutable data, and the object whose fields the defaulters update. */
module Pods {
  import opened Prelude
  import opened Features

  /** valueFrom stands for whatever source an environment entry names instead of a literal value. */
  datatype EnvVar = EnvVar(name: string, value: string, valueFrom: Option<string>)

  datatype VolumeMount = VolumeMount(name: string, readOnly: bool, mountPath: string, subPath: string)

  datatype VolumeSource = TrustBundleProjection(bundle: string, path: string) | OtherSource(description: string)

  datatype Volume = Volume(name: string, source: VolumeSource)

  datatype Container = Container(name: string, image: string, env: seq<EnvVar>, volumeMounts: seq<VolumeMount>)

  /** A pod as a value. owners are its owner references. */
  datatype PodData = PodData(
    namespace: string,
    owners: seq<string>,
    annotations: Annotations,
    initContainers: seq<Container>,
    containers: seq<Container>,
    volumes: seq<Volume>,
    imagePullSecrets: seq<string>)

  function EnvNames(env: seq<EnvVar>): (names: seq<string>)
    ensures |names| == |env|
  {
    seq(|env|, i requires 0 <= i < |env| => env[i].name)
  }

  function MountNames(mounts: seq<VolumeMount>): (names: seq<string>)
    ensures |names| == |mounts|
  {
    seq(|mounts|, i requires 0 <= i < |mounts| => mounts[i].name)
  }

  function VolumeNames(volumes: seq<Volume>): (names: seq<string>)
    ensures |names| == |volumes|
  {
    seq(|volumes|, i requires 0 <= i < |volumes| => volumes[i].name)
  }

  /** Writing one annotation; a nil map is replaced by a fresh one first. */
  function Annotated(p: PodData, key: string, value: string): PodData {
    p.(annotations := Some(Entries(p.annotations)[key := value]))
  }

  /** The pod object of an admission request. Its two container lists never change length. */
  class Pod {
    const namespace: string
    const owners: seq<string>
    var annotations: Annotations
    const initContainers: array<Container>
    const containers: array<Container>
    var volumes: seq<Volume>
    var imagePullSecrets: seq<string>

    /** The two lists are separate objects, as they are in a decoded request. */
    ghost predicate Valid() {
      initContainers != containers
    }

    ghost function Data(): PodData
      reads this, initContainers, containers
    {
      PodData(namespace, owners, annotations, initContainers[..], containers[..], volumes, imagePullSecrets)
    }

    constructor (data: PodData)
      ensures Valid() && fresh(initContainers) && fresh(containers)
      ensures Data() == data
    {
      namespace, owners, annotations := data.namespace, data.owners, data.annotations;
      initContainers := new Container[|data.initContainers|](
        i requires 0 <= i < |data.initContainers| => data.initContainers[i]);
      containers := new Container[|data.containers|](i requires 0 <= i < |data.containers| => data.containers[i]);
      volumes, imagePullSecrets := data.volumes, data.imagePullSecrets;
    }

    /** A nil annotation map is made before it is written to. */
    method Annotate(key: string, value: string)
      modifies this`annotations
      ensures annotations == Some(Entries(old(annotations))[key := value])
    {
      if annotations.None? {
        annotations := Some(map[]);
      }
      annotations := Some(annotations.value[key := value]);
    }
  }
}
