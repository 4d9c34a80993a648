/** The dictionary of funnels, which list item ids, and the dictionary of items. */
module Farms {
  import opened Items
  import opened Indexes

  class Farm {
    var itemDict: map<int, Item>
    var funnelDict: map<int, map<int, int>>

    constructor ()
      ensures itemDict == map[] && funnelDict == map[]
    {
      itemDict := map[];
      funnelDict := map[];
    }

    /** Puts `item` into a funnel; an item already there counts as attached again only on `upsert`.
        The item dictionary keeps the first item stored under an id. */
    method Attach(funnelId: int, item: Item, upsert: bool) returns (attached: bool)
      modifies this
      ensures attached == (upsert || Gains(old(funnelDict), funnelId, item.id))
      ensures funnelDict == FunnelsAfter(old(funnelDict), funnelId, item.id, upsert)
      ensures itemDict == ItemsAfter(old(itemDict), item, attached)
      ensures attached ==> itemDict == WithFirst(old(itemDict), item)
      ensures !attached ==> itemDict == old(itemDict)
    {
      if funnelId !in funnelDict {
        funnelDict := funnelDict[funnelId := map[]];
      }
      var funnel := funnelDict[funnelId];
      attached := false;
      if item.id !in funnel {
        funnel := funnel[item.id := item.id];
        attached := true;
      } else if upsert {
        funnel := funnel[item.id := item.id];
        attached := true;
      }
      funnelDict := funnelDict[funnelId := funnel];
      if attached {
        if item.id !in itemDict {
          itemDict := itemDict[item.id := item];
        }
      }
    }

    /** The funnel with the given id; an unknown one is empty. */
    function Funnel(id: int): (funnel: map<int, int>)
      reads this
      ensures id !in funnelDict ==> funnel == map[]
      ensures forall i :: i in funnel <==> id in funnelDict && i in funnelDict[id]
    {
      if id in funnelDict then funnelDict[id] else map[]
    }

    /** The item with the given id, if there is one. */
    function ItemOf(id: int): (item: Option<Item>)
      reads this
      ensures item.Some? <==> id in itemDict
      ensures item.Some? ==> item.value == itemDict[id]
    {
      if id in itemDict then Some(itemDict[id]) else None
    }
  }

  /** Attaches one item to the funnels it is called with. */
  class AttachCallback {
    const farm: Farm
    const item: Item
    const upsert: bool
    var attached: bool

    constructor (farm: Farm, item: Item, upsert: bool)
      ensures this.farm == farm && this.item == item && this.upsert == upsert && !attached
    {
      this.farm, this.item, this.upsert, attached := farm, item, upsert, false;
    }

    /** Remembers the outcome of the last call only. */
    method Call(id: int)
      modifies this, farm
      ensures attached == (upsert || Gains(old(farm.funnelDict), id, item.id))
      ensures farm.funnelDict == FunnelsAfter(old(farm.funnelDict), id, item.id, upsert)
      ensures farm.itemDict == ItemsAfter(old(farm.itemDict), item, attached)
    {
      attached := farm.Attach(id, item, upsert);
    }
  }
}
