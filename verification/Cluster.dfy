/** The Kubernetes cluster behind the broker, as the client calls of k8s/k8sfabricator.go see it. */
module Cluster {
  import opened Decimal

  datatype Kind = Secret | Claim | StatefulSet | Deployment | Service | ServiceAccount

  /** Where an environment variable without a literal value comes from. */
  datatype Source = NoSource | FromSecret(secret: string, key: string) | OtherSource

  datatype EnvVar = EnvVar(name: string, value: string, from: Source)
  datatype Container = Container(name: string, env: seq<EnvVar>)
  datatype Object = Object(
    kind: Kind, name: string, labels: map<string, string>, containers: seq<Container>, data: map<string, string>
  ) {
    function Key(): (Kind, string) {
      (kind, name)
    }

    predicate Labelled(tag: string, v: string) {
      tag in labels && labels[tag] == v
    }
  }

  type Objects = map<(Kind, string), Object>

  /** What becomes of one call: done, refused without effect, or done with the reply lost. */
  datatype Reply = Done | Refused | Lost

  const SERVICE_ID_LABEL := "service_id"
  const MANAGED_BY_LABEL := "managed_by"

  predicate AllDone(replies: seq<Reply>) {
    forall i :: 0 <= i < |replies| ==> replies[i].Done?
  }

  predicate Consistent(objects: Objects) {
    forall k :: k in objects ==> objects[k].Key() == k
  }

  /** The objects of `os` added in order. */
  function AddAll(objects: Objects, os: seq<Object>): Objects {
    if os == [] then objects else AddAll(objects, os[..|os|-1])[os[|os|-1].Key() := os[|os|-1]]
  }

  /** The objects without those of one service instance. */
  function Without(objects: Objects, id: string): Objects {
    map k | k in objects && !objects[k].Labelled(SERVICE_ID_LABEL, id) :: objects[k]
  }

  /** `items` lists the objects of a kind with a label, each once. */
  ghost predicate Lists(items: seq<Object>, objects: Objects, kind: Kind, tag: string, v: string) {
    && (forall i :: 0 <= i < |items| ==> items[i].Key() in objects && objects[items[i].Key()] == items[i])
    && (forall i, j :: 0 <= i < j < |items| ==> items[i].name != items[j].name)
    && (forall i :: 0 <= i < |items| ==> items[i].kind == kind && items[i].Labelled(tag, v))
    && (forall k :: k in objects && k.0 == kind && objects[k].Labelled(tag, v) ==> objects[k] in items)
  }

  class Api {
    var objects: Objects
    /** The replies still to come; a call beyond the script is done. */
    var script: seq<Reply>

    ghost predicate Valid()
      reads this
    {
      Consistent(objects)
    }

    constructor (objects: Objects, script: seq<Reply>)
      requires Consistent(objects)
      ensures Valid() && this.objects == objects && this.script == script
    {
      this.objects, this.script := objects, script;
    }

    method NextReply() returns (r: Reply)
      modifies this`script
      ensures r == if old(script) == [] then Done else old(script)[0]
      ensures script == if old(script) == [] then [] else old(script)[1..]
      ensures AllDone(old(script)) ==> r.Done? && AllDone(script)
    {
      r := if script == [] then Done else script[0];
      script := if script == [] then [] else script[1..];
    }

    /** Create fails on a name already taken. */
    method Create(o: Object) returns (ok: bool)
      requires Valid()
      modifies this
      ensures Valid()
      ensures ok ==> o.Key() !in old(objects) && objects == old(objects)[o.Key() := o]
      ensures !ok ==> objects == old(objects) || (o.Key() !in old(objects) && objects == old(objects)[o.Key() := o])
      ensures AllDone(old(script)) ==> AllDone(script) && (ok <==> o.Key() !in old(objects))
    {
      var reply := NextReply();
      if reply.Refused? || o.Key() in objects {
        return false;
      }
      objects := objects[o.Key() := o];
      return reply.Done?;
    }

    /** Delete fails on a name that does not exist. */
    method Delete(kind: Kind, name: string) returns (ok: bool)
      requires Valid()
      modifies this
      ensures Valid()
      ensures ok ==> (kind, name) in old(objects) && objects == old(objects) - {(kind, name)}
      ensures !ok ==> objects == old(objects) || objects == old(objects) - {(kind, name)}
      ensures AllDone(old(script)) ==> AllDone(script) && (ok <==> (kind, name) in old(objects))
    {
      var reply := NextReply();
      if reply.Refused? || (kind, name) !in objects {
        return false;
      }
      objects := objects - {(kind, name)};
      return reply.Done?;
    }

    method List(kind: Kind, tag: string, v: string) returns (items: Option<seq<Object>>)
      requires Valid()
      modifies this`script
      ensures items.Some? ==> Lists(items.value, objects, kind, tag, v)
      ensures AllDone(old(script)) ==> AllDone(script) && items.Some?
    {
      var reply := NextReply();
      if !reply.Done? {
        return None;
      }
      var keys := set k | k in objects && k.0 == kind && objects[k].Labelled(tag, v);
      var found := Enumerate(objects, keys);
      return Some(found);
    }
  }

  /** The objects under some keys, in an arbitrary order. */
  method Enumerate(objects: Objects, keys: set<(Kind, string)>) returns (found: seq<Object>)
    requires Consistent(objects) && keys <= objects.Keys
    ensures forall i :: 0 <= i < |found| ==> found[i].Key() in keys && objects[found[i].Key()] == found[i]
    ensures forall i, j :: 0 <= i < j < |found| ==> found[i].Key() != found[j].Key()
    ensures forall k :: k in keys ==> objects[k] in found
  {
    found := [];
    var left := keys;
    while left != {}
      invariant left <= keys
      invariant forall i :: 0 <= i < |found| ==> found[i].Key() in keys - left && objects[found[i].Key()] == found[i]
      invariant forall i, j :: 0 <= i < j < |found| ==> found[i].Key() != found[j].Key()
      invariant forall k :: k in keys - left ==> objects[k] in found
    {
      var k :| k in left;
      found := found + [objects[k]];
      left := left - {k};
    }
  }
}
