/**
 * `Static`: a data source over an in-memory record collection. `create`
 * appends, `read` finds the first record with the key, `update` overlays the
 * first match with the given fields, `delete` removes the first match, and
 * `list` runs the query of `StaticQuery` and caches its result. Every
 * successful write fires its event with the records it concerns.
 */
module StaticSource {
  import opened Wrappers
  import opened Source
  import opened StaticQuery
  import opened Emitter

  /** The status `update` and `delete` answer when no record has the key. */
  function NotFound(keyField: string): Status
  {
    ErrorStatus("Not found by " + keyField)
  }

  /** `k` is the first position whose record has `id` in its key field. */
  predicate FirstMatch(data: seq<Record>, keyField: string, id: Value, k: int)
  {
    0 <= k < |data| && Get(data[k], keyField) == id &&
    forall j :: 0 <= j < k ==> Get(data[j], keyField) != id
  }

  /** `data.find(item => item[keyField] === id)`, or None. */
  function Lookup(data: seq<Record>, keyField: string, id: Value): (r: Option<Record>)
    ensures r.None? <==> forall i :: 0 <= i < |data| ==> Get(data[i], keyField) != id
    ensures r.Some? ==> exists k :: FirstMatch(data, keyField, id, k) && r.value == data[k]
  {
    var k := FindIndex(data, keyField, id);
    if k == -1 then None else (assert FirstMatch(data, keyField, id, k); Some(data[k]))
  }

  /** A record's fields overlaid by a patch's: `{...record, ...patch}`. */
  function Merge(record: Record, patch: Record): (m: Record)
    ensures m.Keys == record.Keys + patch.Keys
    ensures forall f :: Get(m, f) == if f in patch then patch[f] else Get(record, f)
  {
    record + patch
  }

  /**
   * The collection after `update(patch)`: the first record whose key equals
   * the patch's key is overlaid by the patch; None when there is none.
   */
  function Updated(data: seq<Record>, keyField: string, patch: Record): (r: Option<seq<Record>>)
    ensures r.None? <==> Lookup(data, keyField, Get(patch, keyField)).None?
    ensures r.Some? ==> |r.value| == |data|
    ensures r.Some? ==> exists k :: FirstMatch(data, keyField, Get(patch, keyField), k) &&
                                    r.value[k] == Merge(data[k], patch) &&
                                    forall j :: 0 <= j < |data| && j != k ==> r.value[j] == data[j]
  {
    var k := FindIndex(data, keyField, Get(patch, keyField));
    if k == -1 then None
    else
      assert FirstMatch(data, keyField, Get(patch, keyField), k);
      Some(data[k := Merge(data[k], patch)])
  }

  /**
   * The collection after `delete(id)` and the removed record: the first
   * record with the key is taken out; None when there is none.
   */
  function Deleted(data: seq<Record>, keyField: string, id: Value): (r: Option<(seq<Record>, Record)>)
    ensures r.None? <==> Lookup(data, keyField, id).None?
    ensures r.Some? ==> |r.value.0| == |data| - 1
    ensures r.Some? ==> multiset(r.value.0) + multiset{r.value.1} == multiset(data)
    ensures r.Some? ==> exists k :: FirstMatch(data, keyField, id, k) && r.value.1 == data[k] &&
                                    r.value.0 == data[..k] + data[k + 1..]
  {
    var k := FindIndex(data, keyField, id);
    if k == -1 then None
    else
      assert FirstMatch(data, keyField, id, k);
      assert data == data[..k] + [data[k]] + data[k + 1..];
      Some((data[..k] + data[k + 1..], data[k]))
  }

  lemma FirstMatchUnique(data: seq<Record>, keyField: string, id: Value, k: int, k': int)
    requires FirstMatch(data, keyField, id, k) && FirstMatch(data, keyField, id, k')
    ensures k == k'
  {
  }

  /** After `create(items)`, a key present before still reads its old record; otherwise the first new record with it. */
  lemma {:induction false} ReadAfterCreate(data: seq<Record>, items: seq<Record>, keyField: string, id: Value)
    ensures Lookup(data + items, keyField, id) ==
            if Lookup(data, keyField, id).Some? then Lookup(data, keyField, id) else Lookup(items, keyField, id)
  {
    var all := data + items;
    var r := Lookup(all, keyField, id);
    if Lookup(data, keyField, id).Some? {
      var k :| FirstMatch(data, keyField, id, k) && Lookup(data, keyField, id).value == data[k];
      assert FirstMatch(all, keyField, id, k);
      var k' :| FirstMatch(all, keyField, id, k') && r.value == all[k'];
      FirstMatchUnique(all, keyField, id, k, k');
    } else if Lookup(items, keyField, id).Some? {
      var k :| FirstMatch(items, keyField, id, k) && Lookup(items, keyField, id).value == items[k];
      assert FirstMatch(all, keyField, id, |data| + k) by {
        forall j | 0 <= j < |data| + k ensures Get(all[j], keyField) != id {
          if j >= |data| { assert all[j] == items[j - |data|]; }
        }
      }
      var k' :| FirstMatch(all, keyField, id, k') && r.value == all[k'];
      FirstMatchUnique(all, keyField, id, |data| + k, k');
    } else {
      assert forall i :: 0 <= i < |all| ==> Get(all[i], keyField) != id by {
        forall i | 0 <= i < |all| ensures Get(all[i], keyField) != id {
          if i < |data| { assert all[i] == data[i]; } else { assert all[i] == items[i - |data|]; }
        }
      }
    }
  }

  /** After a successful `update(patch)`, reading the patch's key gives the merged record. */
  lemma ReadAfterUpdate(data: seq<Record>, keyField: string, patch: Record)
    requires Updated(data, keyField, patch).Some?
    ensures Lookup(Updated(data, keyField, patch).value, keyField, Get(patch, keyField))
            == Some(Merge(Lookup(data, keyField, Get(patch, keyField)).value, patch))
  {
    var id := Get(patch, keyField);
    var after := Updated(data, keyField, patch).value;
    var k :| FirstMatch(data, keyField, id, k) && after[k] == Merge(data[k], patch) &&
             forall j :: 0 <= j < |data| && j != k ==> after[j] == data[j];
    var k0 :| FirstMatch(data, keyField, id, k0) && Lookup(data, keyField, id).value == data[k0];
    FirstMatchUnique(data, keyField, id, k, k0);
    assert Get(after[k], keyField) == id;
    assert FirstMatch(after, keyField, id, k);
    var k1 :| FirstMatch(after, keyField, id, k1) && Lookup(after, keyField, id).value == after[k1];
    FirstMatchUnique(after, keyField, id, k, k1);
  }

  /** When the key is unique, after a successful `delete(id)` no record has it. */
  lemma ReadAfterDeleteUnique(data: seq<Record>, keyField: string, id: Value)
    requires forall i, j :: 0 <= i < j < |data| ==> Get(data[i], keyField) != id || Get(data[j], keyField) != id
    requires Deleted(data, keyField, id).Some?
    ensures Lookup(Deleted(data, keyField, id).value.0, keyField, id).None?
  {
    var rest := Deleted(data, keyField, id).value.0;
    var k :| FirstMatch(data, keyField, id, k) && rest == data[..k] + data[k + 1..];
    forall i | 0 <= i < |rest| ensures Get(rest[i], keyField) != id {
      if i < k { assert rest[i] == data[i]; } else { assert rest[i] == data[i + 1]; }
    }
  }

  /** The records a source built from `bundle` starts with: the bundle's list data, else none. */
  function SeedRecords(bundle: Option<Bundle>): (r: seq<Record>)
    ensures bundle.Some? && bundle.value.data.Listing? ==> r == bundle.value.data.list.data
    ensures !(bundle.Some? && bundle.value.data.Listing?) ==> r == []
  {
    if bundle.Some? && bundle.value.data.Listing? then bundle.value.data.list.data else []
  }

  class Static {
    const keyField: string
    var data: seq<Record>
    var cache: Cache
    const emitter: EventEmitter

    /** Seeds the collection with a copy of the bundle's list data and the cache with the bundle's entry. */
    constructor(keyField: string, bundle: Option<Bundle>)
      ensures this.keyField == keyField
      ensures data == SeedRecords(bundle) && cache == SeedCache(bundle)
      ensures fresh(emitter) && emitter.handlers == map[]
    {
      this.keyField := keyField;
      cache := SeedCache(bundle);
      emitter := new EventEmitter();
      if bundle.Some? && bundle.value.data.Listing? {
        data := bundle.value.data.list.data;
      } else {
        data := [];
      }
    }

    /** `create(items)`: appends the items, fires onCreate with them, answers OK. */
    method Create(items: seq<Record>) returns (status: Status, calls: seq<Call>)
      modifies this
      ensures data == old(data) + items && cache == old(cache)
      ensures status == OkStatus()
      ensures calls == Deliveries(emitter.HandlersFor(OnCreate), OnCreate, Records(items))
    {
      data := data + items;
      calls := emitter.Fire(OnCreate, Records(items));
      status := OkStatus();
    }

    /** `read(id)`: the first record with the key, or null; nothing changes. */
    method Read(id: Value) returns (r: Option<Record>)
      ensures r == Lookup(data, keyField, id)
    {
      var k := FindIndex(data, keyField, id);
      if k == -1 {
        r := None;
      } else {
        r := Some(data[k]);
      }
    }

    /**
     * `update(patch)`: overlays the first record whose key equals the patch's
     * key and fires onUpdate with `[merged]`; without such a record nothing
     * changes and nothing fires.
     */
    method Update(patch: Record) returns (status: Status, calls: seq<Call>)
      modifies this
      ensures cache == old(cache)
      ensures Updated(old(data), keyField, patch).None? ==>
                data == old(data) && status == NotFound(keyField) && calls == []
      ensures Updated(old(data), keyField, patch).Some? ==>
                data == Updated(old(data), keyField, patch).value && status == OkStatus() &&
                calls == Deliveries(emitter.HandlersFor(OnUpdate), OnUpdate,
                                    Records([Merge(Lookup(old(data), keyField, Get(patch, keyField)).value, patch)]))
    {
      var rowIndex := FindIndex(data, keyField, Get(patch, keyField));
      if rowIndex == -1 {
        status, calls := NotFound(keyField), [];
      } else {
        data := data[rowIndex := Merge(data[rowIndex], patch)];
        calls := emitter.Fire(OnUpdate, Records([data[rowIndex]]));
        status := OkStatus();
      }
    }

    /**
     * `delete(id)`: removes the first record with the key and fires onDelete
     * with `[removed]`; without such a record nothing changes and nothing fires.
     */
    method Delete(id: Value) returns (status: Status, calls: seq<Call>)
      modifies this
      ensures cache == old(cache)
      ensures Deleted(old(data), keyField, id).None? ==>
                data == old(data) && status == NotFound(keyField) && calls == []
      ensures Deleted(old(data), keyField, id).Some? ==>
                data == Deleted(old(data), keyField, id).value.0 && status == OkStatus() &&
                calls == Deliveries(emitter.HandlersFor(OnDelete), OnDelete,
                                    Records([Deleted(old(data), keyField, id).value.1]))
    {
      var rowIndex := FindIndex(data, keyField, id);
      if rowIndex == -1 {
        status, calls := NotFound(keyField), [];
      } else {
        var deleted := data[rowIndex];
        data := data[..rowIndex] + data[rowIndex + 1..];
        calls := emitter.Fire(OnDelete, Records([deleted]));
        status := OkStatus();
      }
    }

    /**
     * `list(filter, pagination, sorting)`: filters, re-sorts once per sort
     * entry, slices the page, and caches the answer under the query's key;
     * the collection itself is left as it was.
     */
    method List(filter: seq<FilterNode>, pagination: Pagination, sorting: Option<seq<SortEntry>>)
      returns (r: ListResult)
      modifies this
      ensures r == Query(old(data), filter, pagination, sorting)
      ensures data == old(data)
      ensures cache == old(cache)[ListKey(filter, pagination, sorting) := Listing(r)]
    {
      var selected := Select(data, filter);
      var entries := sorting.GetOr([]);
      var filtered := selected;
      var i := 0;
      while i < |entries|
        invariant 0 <= i <= |entries|
        invariant filtered == ApplySorts(selected, entries[..i])
        modifies {}
      {
        assert SortBy(entries[i], filtered) == ApplySorts(selected, entries[..i + 1]) by {
          ApplySortsStep(selected, entries, i);
        }
        filtered := SortBy(entries[i], filtered);
        i := i + 1;
      }
      assert filtered == ApplySorts(selected, entries) by {
        assert entries[..i] == entries;
      }
      // the page from `page * countOnPage`, and whether a record follows it
      r := PageOf(filtered, pagination);
      assert r == Query(data, filter, pagination, sorting);
      cache := cache[ListKey(filter, pagination, sorting) := Listing(r)];
    }
  }
}
