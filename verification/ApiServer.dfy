/** The API server as the controllers see it: versioned objects under optimistic
    concurrency. An update that carries a stale resourceVersion is refused, and any update may
    be refused for reasons of its own. */
module ApiServer {
  import opened Kube

  type Pvcs = map<Key, Pvc>

  /** The update carries the version the server holds. */
  predicate IsCurrent(pvcs: Pvcs, key: Key, pvc: Pvc) {
    key in pvcs && pvcs[key].version == pvc.version
  }

  /** The objects after an accepted update, which receives a fresh version. */
  function Put(pvcs: Pvcs, revision: nat, key: Key, pvc: Pvc): Pvcs {
    pvcs[key := pvc.(version := revision)]
  }

  /** One item of a list response. */
  datatype Listed = Listed(key: Key, pvc: Pvc)

  /** `items` lists exactly the objects of `pvcs`, each once, in some order. */
  ghost predicate Lists(items: seq<Listed>, pvcs: Pvcs) {
    if items == [] then pvcs.Keys == {}
    else
      var last := items[|items| - 1];
      last.key in pvcs && pvcs[last.key] == last.pvc && Lists(items[..|items| - 1], pvcs - {last.key})
  }

  function ListedKeys(items: seq<Listed>): set<Key> {
    if items == [] then {} else ListedKeys(items[..|items| - 1]) + {items[|items| - 1].key}
  }

  lemma {:induction false} ListingIsExact(items: seq<Listed>, pvcs: Pvcs)
    requires Lists(items, pvcs)
    ensures ListedKeys(items) == pvcs.Keys && |items| == |pvcs|
  {
    if items == [] {
      assert |pvcs.Keys| == 0;
    } else {
      var key := items[|items| - 1].key;
      ListingIsExact(items[..|items| - 1], pvcs - {key});
      assert (pvcs - {key}).Keys == pvcs.Keys - {key};
    }
  }

  /** Item i of a listing is an object not listed before it. */
  lemma {:induction false} ListedItem(items: seq<Listed>, pvcs: Pvcs, i: nat)
    requires Lists(items, pvcs) && i < |items|
    ensures items[i].key in pvcs && pvcs[items[i].key] == items[i].pvc
    ensures items[i].key !in ListedKeys(items[..i])
    ensures ListedKeys(items[..i + 1]) == ListedKeys(items[..i]) + {items[i].key}
    ensures ListedKeys(items[..i]) <= pvcs.Keys
  {
    var n := |items| - 1;
    assert items[..i + 1][..i] == items[..i];
    if i == n {
      ListingIsExact(items[..n], pvcs - {items[n].key});
    } else {
      ListedItem(items[..n], pvcs - {items[n].key}, i);
      assert items[..n][..i] == items[..i];
    }
  }

  function InNamespace(pvcs: Pvcs, namespace: string): Pvcs {
    map key | key in pvcs && key.namespace == namespace :: pvcs[key]
  }

  class Server {
    var pvcs: Pvcs
    var revision: nat

    constructor (pvcs: Pvcs, revision: nat)
      ensures this.pvcs == pvcs && this.revision == revision
    {
      this.pvcs, this.revision := pvcs, revision;
    }

    /** `refused` is the server's own answer: an admission plugin, a quota, a lost connection. */
    method Update(key: Key, pvc: Pvc, refused: bool) returns (ok: bool)
      modifies this
      ensures ok <==> key in old(pvcs) && old(pvcs)[key].version == pvc.version && !refused
      ensures ok ==> pvcs == old(pvcs)[key := pvc.(version := old(revision))] && revision == old(revision) + 1
      ensures !ok ==> pvcs == old(pvcs) && revision == old(revision)
    {
      if refused || !IsCurrent(pvcs, key, pvc) {
        return false;
      }
      pvcs := Put(pvcs, revision, key, pvc);
      revision := revision + 1;
      return true;
    }

    method List(namespace: string) returns (items: seq<Listed>)
      ensures Lists(items, InNamespace(pvcs, namespace))
    {
      items := [];
      var todo := InNamespace(pvcs, namespace).Keys;
      while todo != {}
        invariant todo <= InNamespace(pvcs, namespace).Keys
        invariant Lists(items, InNamespace(pvcs, namespace) - todo)
        decreases todo
      {
        var key :| key in todo;
        var before := items;
        items := items + [Listed(key, pvcs[key])];
        assert items[..|before|] == before;
        assert InNamespace(pvcs, namespace) - (todo - {key}) - {key} == InNamespace(pvcs, namespace) - todo;
        todo := todo - {key};
      }
      assert InNamespace(pvcs, namespace) - {} == InNamespace(pvcs, namespace);
    }
  }
}
