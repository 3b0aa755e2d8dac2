/**
 * The read-only properties of a shipping order (backend-python
 * app/models/pedido.py): the three stage predicates of the warehouse flow,
 * lateness against a forecast date, and the delivery address line.
 *
 * Instants are integers; the clock is the parameter `now`.
 */
module PedidoModel {
  import opened Wrappers
  import Addresses

  datatype OrderStatus =
    | PendenteExpedicao | EmSeparacao | Separado | EmConferencia | Conferido | AguardandoCarga
    | Expedido | EmRota | Entregue | Cancelado | EntregaFalhou

  datatype Pedido = Pedido(status: OrderStatus, forecastDelivery: Option<int>, deliveryAddress: Addresses.JsonAddress)

  /** `pode_separar`. */
  predicate PodeSeparar(p: Pedido) { p.status == PendenteExpedicao }

  /** `pode_conferir`. */
  predicate PodeConferir(p: Pedido) { p.status == Separado }

  /** `pode_expedir`. */
  predicate PodeExpedir(p: Pedido) { p.status == Conferido }

  /** `esta_em_atraso`, with the clock as a parameter: a forecast date, still open, and past it. */
  predicate EstaEmAtraso(p: Pedido, now: int)
  {
    p.forecastDelivery.Some? && p.status != Entregue && p.status != Cancelado && now > p.forecastDelivery.value
  }

  /** `endereco_entrega_formatado`, with the order's Portuguese key names. */
  function EnderecoEntregaFormatado(p: Pedido): string
  {
    Addresses.FormatAddress(p.deliveryAddress, Addresses.PedidoKeys)
  }

  /** Every one of the seven address keys holds a non-empty value. */
  predicate AllPartsPresent(d: map<string, string>)
  {
    Addresses.Present(d, "logradouro") && Addresses.Present(d, "numero") && Addresses.Present(d, "complemento")
    && Addresses.Present(d, "bairro") && Addresses.Present(d, "cidade") && Addresses.Present(d, "estado")
    && Addresses.Present(d, "cep")
  }

  /** At most one of the three warehouse steps is open at a time, and none once the order has shipped. */
  lemma OneStepAtATime(p: Pedido)
    ensures !(PodeSeparar(p) && PodeConferir(p)) && !(PodeConferir(p) && PodeExpedir(p)) && !(PodeSeparar(p) && PodeExpedir(p))
    ensures p.status in {Expedido, EmRota, Entregue, Cancelado, EntregaFalhou} ==>
      !PodeSeparar(p) && !PodeConferir(p) && !PodeExpedir(p)
  {
  }

  /**
   * An order without a forecast, delivered or cancelled is never late; an
   * open order with a forecast is late exactly after it, and stays late as
   * time passes.
   */
  lemma LatenessRules(p: Pedido, now: int, later: int)
    ensures p.forecastDelivery.None? || p.status == Entregue || p.status == Cancelado ==> !EstaEmAtraso(p, now)
    ensures p.forecastDelivery.Some? && p.status != Entregue && p.status != Cancelado ==>
      (EstaEmAtraso(p, now) <==> now > p.forecastDelivery.value)
    ensures EstaEmAtraso(p, now) && later >= now ==> EstaEmAtraso(p, later)
  {
  }

  /**
   * The delivery address: "not registered" without an address object, the
   * "incomplete" text without any usable part, and with every part filled in
   * `logradouro, numero, complemento, bairro, cidade/estado, CEP: cep`.
   */
  lemma DeliveryAddressLine(p: Pedido)
    ensures !p.deliveryAddress.AddressDict? || p.deliveryAddress.fields == map[] ==>
      EnderecoEntregaFormatado(p) == Addresses.NotRegistered
    ensures p.deliveryAddress.AddressDict? && p.deliveryAddress.fields != map[]
            && Addresses.PresentSlots(p.deliveryAddress.fields, Addresses.PedidoKeys) == 0 ==>
      EnderecoEntregaFormatado(p) == Addresses.Incomplete
    ensures p.deliveryAddress.AddressDict? && AllPartsPresent(p.deliveryAddress.fields) ==>
      var d := p.deliveryAddress.fields;
      EnderecoEntregaFormatado(p) == d["logradouro"] + ", " + d["numero"] + ", " + d["complemento"] + ", "
        + d["bairro"] + ", " + d["cidade"] + "/" + d["estado"] + ", " + "CEP: " + d["cep"]
  {
    Addresses.AddressOutcomes(p.deliveryAddress, Addresses.PedidoKeys);
    var a := p.deliveryAddress;
    if a.AddressDict? && AllPartsPresent(a.fields) {
      Addresses.CompleteAddressLine(a, Addresses.PedidoKeys);
    }
  }
}
