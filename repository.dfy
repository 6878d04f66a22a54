/**
 * BaseInMemoryModelRepository: the keyed in-memory store every repository is
 * built on, with its Add and Update rules. The store's own base class is not
 * part of this model; its dictionary is the map `models`.
 */
module Repository {
  import opened Wrappers
  import opened Models
  import opened Ordering

  type Store<P> = map<Guid, Model<P>>

  /** Every record is filed under its own id, and no record has the default id. */
  ghost predicate Keyed<P>(models: Store<P>)
  {
    forall k :: k in models ==> k != EmptyGuid && models[k].id == k
  }

  /** What a store operation returns, and the store it leaves behind. */
  datatype Change<P, T> = Change(result: Result<T, Error>, models: Store<P>)

  /** `Guid.NewGuid()`: an id that is neither the default id nor in use. */
  function FreshId(keys: set<Guid>): (id: Guid)
    ensures id != EmptyGuid && id !in keys
  {
    if keys == {} then 1 else Greatest(keys) + 1
  }

  /** `OnAddOrUpdate`: stamp the modification time, and the creation time when it is unset. */
  function Stamp<P>(m: Model<P>, now: Time): (r: Model<P>)
    ensures r.modifiedOn == now
    ensures m.createdOn != DefaultTime ==> r.createdOn == m.createdOn
    ensures m.createdOn == DefaultTime ==> r.createdOn == r.modifiedOn
    ensures r.id == m.id && r.data == m.data
  {
    var stamped := m.(modifiedOn := now);
    if stamped.createdOn == DefaultTime then stamped.(createdOn := stamped.modifiedOn) else stamped
  }

  /** The outcome of `Add(model)` on the store `models` at time `now`. */
  function AddTo<P>(models: Store<P>, model: Option<Model<P>>, now: Time): (c: Change<P, Guid>)
    ensures model.None? ==> c == Change(Failure(ArgumentNull), models)
    ensures model.Some? && model.value.id != EmptyGuid ==> c == Change(Failure(ArgumentOutOfRange), models)
    ensures model.Some? && model.value.id == EmptyGuid ==>
      && c.result.Success?
      && var id := c.result.value;
      && id != EmptyGuid && id !in models
      && c.models.Keys == models.Keys + {id}
      && (forall k :: k in models ==> c.models[k] == models[k])
      && c.models[id].id == id
      && c.models[id].data == model.value.data
      && c.models[id].modifiedOn == now
      && c.models[id].createdOn == (if model.value.createdOn == DefaultTime then now else model.value.createdOn)
    ensures Keyed(models) ==> Keyed(c.models)
  {
    if model.None? then Change(Failure(ArgumentNull), models)
    else if model.value.id != EmptyGuid then Change(Failure(ArgumentOutOfRange), models)
    else
      var added := Stamp(model.value.(id := FreshId(models.Keys)), now);
      Change(Success(added.id), models[added.id := added])
  }

  /** The outcome of `Update(model)` on the store `models` at time `now`. */
  function UpdateIn<P>(models: Store<P>, model: Option<Model<P>>, now: Time): (c: Change<P, Model<P>>)
    ensures model.None? ==> c == Change(Failure(ArgumentNull), models)
    ensures model.Some? && model.value.id == EmptyGuid ==> c == Change(Failure(ArgumentOutOfRange), models)
    ensures model.Some? && model.value.id != EmptyGuid && model.value.id !in models ==>
      c == Change(Failure(RecordMissing), models)
    ensures model.Some? && model.value.id != EmptyGuid && model.value.id in models ==>
      && var id := model.value.id;
      && c.result.Success?
      && c.models == models[id := c.result.value]
      && c.result.value.id == id
      && c.result.value.data == model.value.data
      && c.result.value.modifiedOn == now
      && c.result.value.createdOn == (if models[id].createdOn == DefaultTime then now else models[id].createdOn)
    ensures Keyed(models) ==> Keyed(c.models)
  {
    if model.None? then Change(Failure(ArgumentNull), models)
    else if model.value.id == EmptyGuid then Change(Failure(ArgumentOutOfRange), models)
    else if model.value.id !in models then Change(Failure(RecordMissing), models)
    else
      var updated := Stamp(model.value.(createdOn := models[model.value.id].createdOn), now);
      Change(Success(updated), models[updated.id := updated])
  }

  // ---------------------------------------------------------------------------
  // Queries over the store's values

  /** The keys of the records that satisfy `p`. */
  function KeysWhere<P>(models: Store<P>, p: Model<P> -> bool): (ks: set<Guid>)
    ensures forall k :: k in ks <==> k in models && p(models[k])
  {
    set k | k in models && p(models[k])
  }

  /** `Values.FirstOrDefault(p)`: some record satisfying `p`, or null when there is none. */
  function FirstWhere<P(==)>(models: Store<P>, p: Model<P> -> bool): (r: Option<Model<P>>)
    ensures r.Some? ==> r.value in models.Values && p(r.value)
    ensures r.None? ==> forall m :: m in models.Values ==> !p(m)
  {
    var ks := KeysWhere(models, p);
    if ks == {} then None else Some(models[Least(ks)])
  }

  /** The records filed under the keys `ks`, in the order of `ks`. */
  function ValuesAt<P>(models: Store<P>, ks: seq<Guid>): (r: seq<Model<P>>)
    requires forall k :: k in ks ==> k in models
    ensures |r| == |ks|
    ensures forall i :: 0 <= i < |ks| ==> r[i] == models[ks[i]]
  {
    seq(|ks|, i requires 0 <= i < |ks| => models[ks[i]])
  }

  /** In a keyed store, the records under distinct keys are distinct. */
  lemma ValuesAtDistinct<P>(models: Store<P>, ks: seq<Guid>)
    requires Keyed(models) && Distinct(ks)
    requires forall k :: k in ks ==> k in models
    ensures Distinct(ValuesAt(models, ks))
  {
    var r := ValuesAt(models, ks);
    forall i, j | 0 <= i < j < |r| ensures r[i] != r[j] {
      assert ks[i] in ks && ks[j] in ks;
      assert r[i].id == ks[i] && r[j].id == ks[j];
    }
  }

  /** Listing every key of `KeysWhere(models, p)` lists every record satisfying `p`. */
  lemma ValuesAtWhere<P(!new)>(models: Store<P>, p: Model<P> -> bool, ks: seq<Guid>)
    requires forall k :: k in ks <==> k in KeysWhere(models, p)
    ensures forall m :: m in ValuesAt(models, ks) <==> m in models.Values && p(m)
  {
    var r := ValuesAt(models, ks);
    forall m | m in models.Values && p(m) ensures m in r {
      var k :| k in models && models[k] == m;
      assert k in ks;
      var i :| 0 <= i < |ks| && ks[i] == k;
      assert r[i] == m;
    }
    forall m | m in r ensures m in models.Values && p(m) {
      var i :| 0 <= i < |r| && r[i] == m;
      assert ks[i] in ks;
    }
  }

  /** `Values.Where(p)`: every record satisfying `p`, each once. */
  function Where<P(==,!new)>(models: Store<P>, p: Model<P> -> bool): (r: seq<Model<P>>)
    ensures forall m :: m in r <==> m in models.Values && p(m)
    ensures |r| == |KeysWhere(models, p)|
    ensures Keyed(models) ==> Distinct(r)
  {
    var ks := Ascending(KeysWhere(models, p));
    ValuesAtWhere(models, p, ks);
    assert Keyed(models) ==> Distinct(ValuesAt(models, ks)) by {
      if Keyed(models) {
        ValuesAtDistinct(models, ks);
      }
    }
    ValuesAt(models, ks)
  }

  /** The least key among the newest records of `ks`. */
  function Newest<P>(models: Store<P>, ks: set<Guid>): (k: Guid)
    requires ks != {} && ks <= models.Keys
    ensures k in ks && forall j :: j in ks ==> models[j].createdOn <= models[k].createdOn
  {
    var times := set j | j in ks :: models[j].createdOn;
    var some :| some in ks;
    assert models[some].createdOn in times;
    var newest := Greatest(times);
    var w :| w in ks && models[w].createdOn == newest;
    var latest := set j | j in ks && models[j].createdOn == newest;
    assert w in latest;
    assert forall j :: j in ks ==> models[j].createdOn in times;
    Least(latest)
  }

  /** The keys of `ks` listed newest record first. */
  function NewestFirstKeys<P>(models: Store<P>, ks: set<Guid>): (r: seq<Guid>)
    requires ks <= models.Keys
    ensures |r| == |ks|
    ensures forall k :: k in r <==> k in ks
    ensures forall i, j :: 0 <= i < j < |r| ==> models[r[i]].createdOn >= models[r[j]].createdOn
    decreases ks
  {
    if ks == {} then []
    else
      var k := Newest(models, ks);
      var rest := NewestFirstKeys(models, ks - {k});
      assert forall j :: 0 < j < |rest| + 1 ==> ([k] + rest)[j] == rest[j - 1];
      [k] + rest
  }

  /** The newest-first listing names each key once. */
  lemma {:induction false} NewestFirstKeysDistinct<P>(models: Store<P>, ks: set<Guid>)
    requires ks <= models.Keys
    ensures Distinct(NewestFirstKeys(models, ks))
    decreases ks
  {
    if ks != {} {
      var k := Newest(models, ks);
      var rest := NewestFirstKeys(models, ks - {k});
      NewestFirstKeysDistinct(models, ks - {k});
      assert k !in rest;
      ConsDistinct(k, rest);
    }
  }

  /** `Values.Where(p).OrderByDescending(m => m.CreatedOn)`, ties in no promised order. */
  function NewestFirstWhere<P(==,!new)>(models: Store<P>, p: Model<P> -> bool): (r: seq<Model<P>>)
    ensures forall m :: m in r <==> m in models.Values && p(m)
    ensures |r| == |KeysWhere(models, p)|
    ensures forall i, j :: 0 <= i < j < |r| ==> r[i].createdOn >= r[j].createdOn
    ensures Keyed(models) ==> Distinct(r)
  {
    var ks := NewestFirstKeys(models, KeysWhere(models, p));
    ValuesAtWhere(models, p, ks);
    assert Keyed(models) ==> Distinct(ValuesAt(models, ks)) by {
      if Keyed(models) {
        NewestFirstKeysDistinct(models, KeysWhere(models, p));
        ValuesAtDistinct(models, ks);
      }
    }
    ValuesAt(models, ks)
  }

  // ---------------------------------------------------------------------------
  // The store object

  class Repository<P> {
    var models: Store<P>

    ghost predicate Valid()
      reads this
    {
      Keyed(models)
    }

    constructor ()
      ensures Valid() && models == map[]
    {
      models := map[];
    }

    /** `Add`: refuse null and an already-set id, then file the record under a fresh id. */
    method Add(model: Option<Model<P>>, now: Time) returns (id: Result<Guid, Error>)
      requires Valid()
      modifies this
      ensures Valid()
      ensures Change(id, models) == AddTo(old(models), model, now)
    {
      if model.None? {
        return Failure(ArgumentNull);
      }
      var m := model.value;
      if m.id != EmptyGuid {
        return Failure(ArgumentOutOfRange);
      }
      m := m.(id := FreshId(models.Keys));
      m := Stamp(m, now);
      models := models[m.id := m];
      id := Success(m.id);
    }

    /** `Update`: refuse null, the default id and an unknown id; keep the stored creation time. */
    method Update(model: Option<Model<P>>, now: Time) returns (updated: Result<Model<P>, Error>)
      requires Valid()
      modifies this
      ensures Valid()
      ensures Change(updated, models) == UpdateIn(old(models), model, now)
    {
      if model.None? {
        return Failure(ArgumentNull);
      }
      var m := model.value;
      if m.id == EmptyGuid {
        return Failure(ArgumentOutOfRange);
      }
      if m.id !in models {
        return Failure(RecordMissing);
      }
      var existing := models[m.id];
      m := m.(createdOn := existing.createdOn);
      m := Stamp(m, now);
      models := models[m.id := m];
      updated := Success(m);
    }
  }
}
