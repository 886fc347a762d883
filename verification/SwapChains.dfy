/** The collection of swap chains as an object. The methods for one critical section are the atomic
    steps of `Registry`; the public calls run them one after the other. */
module SwapChains {
  import opened Surfaces
  import opened DeviceApi
  import S = ChainSpec
  import opened Chains
  import opened Registry

  class Collection {
    var ids: map<nat, set<ChainId>>
    var table: map<ChainId, SwapChainData>

    constructor ()
      ensures Value() == Tables(map[], map[])
    {
      ids, table := map[], map[];
    }

    /** The tables as the registry sees them: of a chain, only its producer matters. */
    function Value(): Tables
      reads this
    {
      Tables(ids, map id | id in table :: table[id].contextId)
    }

    method InsertEntry(id: ChainId, chain: SwapChainData)
      modifies this`table
      ensures Value() == old(Value()).Insert(id, chain.contextId)
      ensures table == old(table)[id := chain]
    {
      table := table[id := chain];
    }

    method RecordId(id: ChainId, context: Context)
      modifies this`ids
      ensures Value() == old(Value()).Record(id, context.id)
    {
      var known := if context.id in ids then ids[context.id] else {};
      ids := ids[context.id := known + {id}];
    }

    method RemoveEntry(id: ChainId)
      modifies this`table
      ensures Value() == old(Value()).Remove(id)
      ensures table == old(table) - {id}
    {
      table := table - {id};
    }

    method ForgetId(id: ChainId, context: Context)
      modifies this`ids
      ensures Value() == old(Value()).Forget(id, context.id)
    {
      if context.id in ids {
        ids := ids[context.id := ids[context.id] - {id}];
      }
    }

    /** Rejects an id that is in the table, before creating anything. */
    method CreateDetachedSwapChain(
        id: ChainId, size: Size, device: Device, context: Context, creates: bool)
      returns (r: Outcome<()>)
      modifies this, device
      ensures r.Ok? <==> id !in old(table) && creates
      ensures !r.Ok? ==> Value() == old(Value()) && device.Value() == old(device.Value())
      ensures r.Ok? ==> Value() == old(Value()).Insert(id, context.id).Record(id, context.id)
      ensures r.Ok? ==> id in table && fresh(table[id])
                        && S.CreateDetached(old(device.Value()), context.Value(), size, true)
                        == (device.Value(), Ok(table[id].Value()))
    {
      if id in table {
        return Err(Failed);
      }
      var chain := CreateDetached(device, context, size, creates);
      if !chain.Ok? {
        return if chain.Err? then Err(chain.error) else Panic;
      }
      InsertEntry(id, chain.value);
      RecordId(id, context);
      return Ok(());
    }

    method CreateAttachedSwapChain(id: ChainId, context: Context) returns (r: Outcome<()>)
      modifies this
      ensures r.Err? <==> id in old(table)
      ensures r.Ok? <==> id !in old(table) && context.framebuffer.Bound?
      ensures !r.Ok? ==> Value() == old(Value())
      ensures r.Ok? ==> Value() == old(Value()).Insert(id, context.id).Record(id, context.id)
      ensures r.Ok? ==> id in table && fresh(table[id])
                        && S.CreateAttached(context.Value()) == Ok(table[id].Value())
    {
      if id in table {
        return Err(Failed);
      }
      var chain := CreateAttached(context);
      if !chain.Ok? {
        return Panic;
      }
      InsertEntry(id, chain.value);
      RecordId(id, context);
      return Ok(());
    }

    /** The entry is removed in any case; the id is forgotten only if the chain could be destroyed. */
    method Destroy(id: ChainId, device: Device, context: Context) returns (r: Outcome<()>)
      modifies this, device, context, if id in table then {table[id]} else {}
      ensures r.Ok? ==> Value() == old(Value()).Remove(id).Forget(id, context.id)
      ensures !r.Ok? ==> Value() == old(Value()).Remove(id)
      ensures id !in old(table) ==> r == Ok(()) && device.Value() == old(device.Value())
      ensures id in old(table) ==>
                (old(table)[id].State(device, context), r) == S.Destroy(old(table[id].State(device, context)))
    {
      if id in table {
        var chain := table[id];
        RemoveEntry(id);
        r := chain.Destroy(device, context);
        if !r.Ok? {
          return;
        }
      } else {
        assert table - {id} == table;
        r := Ok(());
      }
      ForgetId(id, context);
    }

    /** The chains of a producer, looked up one at a time. */
    method Iter(context: Context) returns (found: map<ChainId, SwapChainData>)
      ensures found.Keys == Value().IdsOf(context.id) * table.Keys
      ensures forall id :: id in found ==> found[id] == table[id]
    {
      found := map[];
      var todo := if context.id in ids then ids[context.id] else {};
      ghost var all := todo;
      while todo != {}
        invariant todo <= all
        invariant found.Keys == (all - todo) * table.Keys
        invariant forall id :: id in found ==> found[id] == table[id]
        decreases |todo|
      {
        var id :| id in todo;
        if id in table {
          found := found[id := table[id]];
        }
        todo := todo - {id};
      }
    }

    method Get(id: ChainId) returns (r: Option<SwapChainData>)
      ensures r.Some? <==> id in Value().table
      ensures r.Some? ==> r.value == table[id] && r.value.contextId == Value().table[id]
    {
      r := if id in table then Some(table[id]) else None;
    }
  }
}
