/** The storage-class cache (pkg/cache/storage.go) and what a class says about expansion. */
module Storage {
  import opened Kube

  datatype StorageClass = StorageClass(allowExpansion: Option<bool>, parameters: map<string, string>)

  const FS_TYPE := "fsType"
  const CSI_FS_TYPE := "csi.storage.k8s.io/fstype"
  const DEFAULT_FS_TYPE := "ext4"

  function Expandable(class_: StorageClass): bool {
    class_.allowExpansion == Some(true)
  }

  function FsType(class_: StorageClass): string {
    if FS_TYPE in class_.parameters then class_.parameters[FS_TYPE]
    else if CSI_FS_TYPE in class_.parameters then class_.parameters[CSI_FS_TYPE]
    else DEFAULT_FS_TYPE
  }

  /** The parameter "fsType" wins over the CSI one; without either it is "ext4". */
  lemma FsTypeMeans(class_: StorageClass)
    ensures "fsType" in class_.parameters ==> FsType(class_) == class_.parameters["fsType"]
    ensures "fsType" !in class_.parameters && "csi.storage.k8s.io/fstype" in class_.parameters ==>
              FsType(class_) == class_.parameters["csi.storage.k8s.io/fstype"]
    ensures "fsType" !in class_.parameters && "csi.storage.k8s.io/fstype" !in class_.parameters ==>
              FsType(class_) == "ext4"
  {
  }

  type Classes = map<string, StorageClass>

  /** Every cached answer is the class's own; `pending` are the names whose expandability is
      cached while the file-system type is not yet. */
  ghost predicate Coherent(flags: map<string, bool>, fsTypes: map<string, string>, classes: Classes,
                           pending: set<string>)
  {
    && (forall n :: n in flags ==> n in classes && flags[n] == Expandable(classes[n]))
    && (forall n :: n in fsTypes ==> n in classes && fsTypes[n] == FsType(classes[n]))
    && fsTypes.Keys + pending == flags.Keys
  }

  class StorageClassCache {
    var flags: map<string, bool>
    var fsTypes: map<string, string>

    constructor ()
      ensures flags == map[] && fsTypes == map[]
    {
      flags, fsTypes := map[], map[];
    }

    method Get(name: string) returns (expandable: bool, exists_: bool)
      ensures exists_ <==> name in flags
      ensures exists_ ==> expandable == flags[name]
      ensures !exists_ ==> !expandable
    {
      exists_ := name in flags;
      expandable := if exists_ then flags[name] else false;
    }

    method Set(name: string, expandable: bool)
      modifies this`flags
      ensures flags == old(flags)[name := expandable]
    {
      flags := flags[name := expandable];
    }

    method GetFsType(name: string) returns (fsType: string, exists_: bool)
      ensures exists_ <==> name in fsTypes
      ensures exists_ ==> fsType == fsTypes[name]
      ensures !exists_ ==> fsType == ""
    {
      exists_ := name in fsTypes;
      fsType := if exists_ then fsTypes[name] else "";
    }

    method SetFsType(name: string, fsType: string)
      modifies this`fsTypes
      ensures fsTypes == old(fsTypes)[name := fsType]
    {
      fsTypes := fsTypes[name := fsType];
    }

    method Clear()
      modifies this
      ensures flags == map[] && fsTypes == map[]
    {
      flags, fsTypes := map[], map[];
    }
  }
}
