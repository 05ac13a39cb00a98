/** The Kubernetes objects the controllers share, as plain values. */
module Kube {
  datatype Option<+T> = None | Some(value: T)

  /** A Go `(value, error)` pair. */
  datatype Result<+T, +E> = Ok(value: T) | Err(error: E) {
    predicate IsFailure() {
      Err?
    }

    function PropagateFailure<U>(): Result<U, E>
      requires Err?
    {
      Err(error)
    }

    function Extract(): T
      requires Ok?
    {
      value
    }
  }

  /** types.NamespacedName */
  datatype Key = Key(namespace: string, name: string)

  datatype VolumeMode = Filesystem | Block

  datatype Phase = Pending | Bound | Lost

  datatype ConditionType = Resizing | FileSystemResizePending | OtherCondition(name: string)

  datatype ConditionStatus = ConditionTrue | ConditionFalse | ConditionUnknown

  datatype Condition = Condition(kind: ConditionType, status: ConditionStatus)

  /** A PersistentVolumeClaim: `version` is its resourceVersion, sizes are in bytes,
      and a nil annotation or label map is the empty map. */
  datatype Pvc = Pvc(
    version: nat,
    annotations: map<string, string>,
    labels: map<string, string>,
    request: int,
    capacity: int,
    volumeMode: Option<VolumeMode>,
    phase: Phase,
    className: Option<string>,
    conditions: seq<Condition>)

  function Lookup<K, V>(m: map<K, V>, k: K): Option<V> {
    if k in m then Some(m[k]) else None
  }

  function OrElse<T>(first: Option<T>, second: Option<T>): Option<T> {
    if first.Some? then first else second
  }

  /** The sequence without its element i. */
  function Without<T>(s: seq<T>, i: nat): seq<T>
    requires i < |s|
  {
    s[..i] + s[i + 1..]
  }

  function Max(a: int, b: int): int {
    if a < b then b else a
  }
}
