/**
 * A delivery route (backend-python app/models/rota.py): its status
 * predicates and the list of order ids it carries, which
 * `adicionar_pedido` and `remover_pedido` change in place while keeping
 * `quantidade_pedidos` equal to the list's length.
 */
module RouteModel {
  import opened Wrappers

  datatype RouteStatus = Planejada | EmCarregamento | Carregada | EmRota | Finalizada | Cancelada

  /** No id occurs twice. */
  predicate Distinct(ids: seq<string>)
  {
    forall i, j :: 0 <= i < j < |ids| ==> ids[i] != ids[j]
  }

  /** The list after adding `id`: appended at the end unless already present. */
  function AddId(ids: seq<string>, id: string): (r: seq<string>)
    ensures id in r
    ensures id in ids ==> r == ids
    ensures id !in ids ==> r == ids + [id]
  {
    if id in ids then ids else ids + [id]
  }

  /** The position of the first occurrence of `id`. */
  function IndexOf(ids: seq<string>, id: string): (k: nat)
    requires id in ids
    ensures k < |ids| && ids[k] == id && forall j :: 0 <= j < k ==> ids[j] != id
  {
    if ids[0] == id then 0 else 1 + IndexOf(ids[1..], id)
  }

  /** `list.remove(id)`: the first occurrence is taken out, the others keep their order. */
  function RemoveFirst(ids: seq<string>, id: string): (r: seq<string>)
    requires id in ids
    ensures |r| == |ids| - 1
    ensures r == ids[..IndexOf(ids, id)] + ids[IndexOf(ids, id) + 1..]
  {
    var k := IndexOf(ids, id);
    ids[..k] + ids[k + 1..]
  }

  /** Adding keeps a list free of duplicates, and adding the same id twice is the same as adding it once. */
  lemma AddKeepsDistinct(ids: seq<string>, id: string)
    requires Distinct(ids)
    ensures Distinct(AddId(ids, id))
    ensures AddId(AddId(ids, id), id) == AddId(ids, id)
  {
  }

  /** In a list without duplicates, removing an id leaves no trace of it and keeps every other id. */
  lemma RemoveFromDistinct(ids: seq<string>, id: string)
    requires Distinct(ids) && id in ids
    ensures Distinct(RemoveFirst(ids, id))
    ensures id !in RemoveFirst(ids, id)
    ensures forall x :: x != id ==> (x in RemoveFirst(ids, id) <==> x in ids)
  {
    var k := IndexOf(ids, id);
    var r := RemoveFirst(ids, id);
    forall x | x != id && x in ids
      ensures x in r
    {
      var i :| 0 <= i < |ids| && ids[i] == x;
      if i < k {
        assert r[i] == x;
      } else {
        assert r[i - 1] == x;
      }
    }
    forall i | 0 <= i < |r|
      ensures r[i] != id
    {
      if i >= k {
        assert r[i] == ids[i + 1] && ids[k] == id;
      }
    }
  }

  /** Removing an id that was just added to a list without it gives the list back. */
  lemma RemoveUndoesAdd(ids: seq<string>, id: string)
    requires id !in ids
    ensures RemoveFirst(AddId(ids, id), id) == ids
  {
    var added := ids + [id];
    var k := IndexOf(added, id);
    assert k == |ids|;
    assert added[..k] == ids;
  }

  class Route {
    var status: RouteStatus
    /** The JSON `pedidos_ids` column; `None` when it does not hold a list. */
    var pedidosIds: Option<seq<string>>
    var quantidadePedidos: int
    var entregasConcluidas: int
    var entregasFalhadas: int

    /** A planned route with the column defaults: an empty list and zero counters. */
    constructor()
      ensures status == Planejada && pedidosIds == Some([])
      ensures quantidadePedidos == 0 && entregasConcluidas == 0 && entregasFalhadas == 0
    {
      status := Planejada;
      pedidosIds := Some([]);
      quantidadePedidos := 0;
      entregasConcluidas := 0;
      entregasFalhadas := 0;
    }

    /** The ids as `adicionar_pedido` sees them: a non-list counts as empty. */
    function Ids(): seq<string>
      reads this
    {
      if pedidosIds.Some? then pedidosIds.value else []
    }

    /** The counter agrees with the list and the list has no duplicates. */
    predicate Consistent()
      reads this
    {
      pedidosIds.Some? && quantidadePedidos == |pedidosIds.value| && Distinct(pedidosIds.value)
    }

    /** `em_andamento`. */
    predicate EmAndamento()
      reads this
    {
      status == EmCarregamento || status == Carregada || status == EmRota
    }

    /** `pode_ser_editada`. */
    predicate PodeSerEditada()
      reads this
    {
      status == Planejada || status == EmCarregamento
    }

    /** `todas_entregas_concluidas`: some orders, and as many deliveries concluded or failed. */
    predicate TodasEntregasConcluidas()
      reads this
    {
      quantidadePedidos != 0 && entregasConcluidas + entregasFalhadas >= quantidadePedidos
    }

    /**
     * `adicionar_pedido`: a non-list is first replaced by an empty list; an
     * absent id is appended and the counter set to the new length; a
     * present id changes nothing.
     */
    method AdicionarPedido(id: string)
      modifies this
      ensures pedidosIds == Some(AddId(old(Ids()), id))
      ensures quantidadePedidos == if id in old(Ids()) then old(quantidadePedidos) else |pedidosIds.value|
      ensures old(Consistent()) ==> Consistent()
      ensures old(pedidosIds).None? ==> Consistent()
      ensures status == old(status)
      ensures entregasConcluidas == old(entregasConcluidas) && entregasFalhadas == old(entregasFalhadas)
    {
      if pedidosIds.None? {
        pedidosIds := Some([]);
      }
      var ids := pedidosIds.value;
      if id !in ids {
        pedidosIds := Some(ids + [id]);
        quantidadePedidos := |ids| + 1;
      }
    }

    /**
     * `remover_pedido`: when the column is a list holding the id, its first
     * occurrence is removed and the counter set to the new length; otherwise
     * nothing changes.
     */
    method RemoverPedido(id: string)
      modifies this
      ensures old(pedidosIds).Some? && id in old(pedidosIds).value ==>
        pedidosIds == Some(RemoveFirst(old(pedidosIds).value, id)) && quantidadePedidos == |pedidosIds.value|
      ensures !(old(pedidosIds).Some? && id in old(pedidosIds).value) ==>
        pedidosIds == old(pedidosIds) && quantidadePedidos == old(quantidadePedidos)
      ensures old(Consistent()) ==> Consistent() && id !in pedidosIds.value
      ensures status == old(status)
      ensures entregasConcluidas == old(entregasConcluidas) && entregasFalhadas == old(entregasFalhadas)
    {
      if pedidosIds.Some? && id in pedidosIds.value {
        if Consistent() {
          RemoveFromDistinct(pedidosIds.value, id);
        }
        pedidosIds := Some(RemoveFirst(pedidosIds.value, id));
        quantidadePedidos := |pedidosIds.value|;
      }
    }
  }

  /**
   * Editable and in-progress routes overlap only while loading; finished and
   * cancelled routes are neither, and every other status is one of the two.
   */
  lemma StatusPhases(r: Route)
    ensures r.PodeSerEditada() && r.EmAndamento() <==> r.status == EmCarregamento
    ensures !r.PodeSerEditada() && !r.EmAndamento() <==> r.status == Finalizada || r.status == Cancelada
  {
  }

  /**
   * A route without orders is never complete; a consistent route is complete
   * once its concluded and failed deliveries reach the number of orders in
   * its list, and stays so as more deliveries are counted.
   */
  lemma CompletionFollowsCounts(r: Route, moreConcluded: nat, moreFailed: nat)
    requires r.Consistent()
    ensures r.TodasEntregasConcluidas() <==>
      |r.pedidosIds.value| > 0 && r.entregasConcluidas + r.entregasFalhadas >= |r.pedidosIds.value|
    ensures r.TodasEntregasConcluidas() ==>
      r.entregasConcluidas + moreConcluded + r.entregasFalhadas + moreFailed >= r.quantidadePedidos
  {
  }

  /** Adding an order and removing it again restores a consistent route's list and counter. */
  method AddThenRemove(r: Route, id: string)
    requires r.Consistent() && id !in r.pedidosIds.value
    modifies r
    ensures r.pedidosIds == old(r.pedidosIds) && r.quantidadePedidos == old(r.quantidadePedidos)
    ensures r.Consistent()
  {
    var before := r.pedidosIds.value;
    r.AdicionarPedido(id);
    RemoveUndoesAdd(before, id);
    r.RemoverPedido(id);
  }
}
