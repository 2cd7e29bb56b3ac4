/** The `_slim*` projections: each domain object is cut down to an allow-list
    of properties, in a fixed order, before it is encoded. */
module Sanitize {
  import opened JsValues

  const LockKeys: seq<string> := ["id", "ip", "name", "state", "door_1", "door_2"]
  const CabinetKeys: seq<string> := ["id", "name", "frontLock", "backLock"]
  const RowKeys: seq<string> := ["id", "name"]
  const CageKeys: seq<string> := ["id", "name", "color"]

  /** The object literal `{ k1: o.k1, ..., kn: o.kn }`: one entry per listed key,
      in the listed order, each holding the input's property (undefined when
      the input lacks it). */
  function Project(o: Obj, keys: seq<string>): (r: Obj)
    ensures Keys(r) == keys
    ensures forall i :: 0 <= i < |keys| ==> r[i].1 == Get(o, keys[i])
  {
    if keys == [] then []
    else [(keys[0], Get(o, keys[0]))] + Project(o, keys[1..])
  }

  /** What every `_slim*` function does: null stays null, anything else is
      projected onto the allow-list. */
  function Slim(ref: Option<Obj>, keys: seq<string>): (r: Option<Obj>)
    ensures r.None? <==> ref.None?
    ensures r.Some? ==> Keys(r.value) == keys
    ensures r.Some? ==> forall i :: 0 <= i < |keys| ==> r.value[i].1 == Get(ref.value, keys[i])
  {
    match ref
    case None => None
    case Some(o) => Some(Project(o, keys))
  }

  function SlimLock(lock: Option<Obj>): (r: Option<Obj>)
    ensures r.None? <==> lock.None?
    ensures r.Some? ==> Keys(r.value) == ["id", "ip", "name", "state", "door_1", "door_2"]
    ensures r.Some? ==> forall i :: 0 <= i < |LockKeys| ==> r.value[i].1 == Get(lock.value, LockKeys[i])
  {
    Slim(lock, LockKeys)
  }

  function SlimCabinet(cab: Option<Obj>): (r: Option<Obj>)
    ensures r.None? <==> cab.None?
    ensures r.Some? ==> Keys(r.value) == ["id", "name", "frontLock", "backLock"]
    ensures r.Some? ==> forall i :: 0 <= i < |CabinetKeys| ==> r.value[i].1 == Get(cab.value, CabinetKeys[i])
  {
    Slim(cab, CabinetKeys)
  }

  function SlimRow(row: Option<Obj>): (r: Option<Obj>)
    ensures r.None? <==> row.None?
    ensures r.Some? ==> Keys(r.value) == ["id", "name"]
    ensures r.Some? ==> forall i :: 0 <= i < |RowKeys| ==> r.value[i].1 == Get(row.value, RowKeys[i])
  {
    Slim(row, RowKeys)
  }

  function SlimCage(cage: Option<Obj>): (r: Option<Obj>)
    ensures r.None? <==> cage.None?
    ensures r.Some? ==> Keys(r.value) == ["id", "name", "color"]
    ensures r.Some? ==> forall i :: 0 <= i < |CageKeys| ==> r.value[i].1 == Get(cage.value, CageKeys[i])
  {
    Slim(cage, CageKeys)
  }

  /** The projection sees nothing but the allow-listed properties: two inputs
      that agree on those keys, whatever else they carry, slim to the same
      object. */
  lemma {:induction false} ProjectIgnoresOtherKeys(o1: Obj, o2: Obj, keys: seq<string>)
    requires forall k :: k in keys ==> Get(o1, k) == Get(o2, k)
    ensures Project(o1, keys) == Project(o2, keys)
  {
    if keys != [] {
      ProjectIgnoresOtherKeys(o1, o2, keys[1..]);
    }
  }

  /** Adding a property that is not allow-listed to an object changes nothing
      in what is sent about it. */
  lemma SlimIgnoresExtraEntry(o: Obj, extra: Entry, keys: seq<string>)
    requires extra.0 !in keys
    ensures Slim(Some(o + [extra]), keys) == Slim(Some(o), keys)
  {
    forall k | k in keys
      ensures Get(o + [extra], k) == Get(o, k)
    {
      GetAppendOther(o, extra, k);
    }
    ProjectIgnoresOtherKeys(o + [extra], o, keys);
  }

  lemma {:induction false} GetAppendOther(o: Obj, extra: Entry, k: string)
    requires extra.0 != k
    ensures Get(o + [extra], k) == Get(o, k)
  {
    if o == [] {
      assert Get([extra], k) == Get([extra][1..], k);
    } else {
      assert (o + [extra])[0] == o[0] && (o + [extra])[1..] == o[1..] + [extra];
      GetAppendOther(o[1..], extra, k);
    }
  }
}
