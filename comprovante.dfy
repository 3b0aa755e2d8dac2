/**
 * A proof of delivery (backend-python app/models/comprovante_entrega.py):
 * when it counts as complete, and the two methods that append an incident
 * or an extra photo to its JSON lists in place.
 *
 * The current time, which the methods stamp as ISO text, is the parameter
 * `nowIso`. A boolean column that is still null reads as false.
 */
module ComprovanteModel {
  import opened Wrappers

  /** An entry of the `ocorrencias` list. */
  datatype Ocorrencia = Ocorrencia(tipo: string, descricao: string, dataHora: string, resolvido: bool)

  /** An entry of the `fotos_adicionais` list. */
  datatype Foto = Foto(url: string, googleDriveId: string, descricao: string, dataHora: string)

  /** A JSON list column; `None` when the column does not hold a list. */
  function ListOrEmpty<T>(column: Option<seq<T>>): seq<T>
  {
    if column.Some? then column.value else []
  }

  class ComprovanteEntrega {
    var entregaBemSucedida: bool
    var recebedorNome: Option<string>
    var assinaturaCapturada: bool
    var fotoCapturada: bool
    var geolocalizacaoCapturada: bool
    var observacoes: Option<string>
    var teveOcorrencia: bool
    var ocorrencias: Option<seq<Ocorrencia>>
    var fotosAdicionais: Option<seq<Foto>>

    /** A new proof with the column defaults: a successful delivery, nothing captured, no incidents. */
    constructor(recebedorNome: string)
      ensures entregaBemSucedida && this.recebedorNome == Some(recebedorNome)
      ensures !assinaturaCapturada && !fotoCapturada && !geolocalizacaoCapturada
      ensures observacoes == None && !teveOcorrencia
      ensures ocorrencias == Some([]) && fotosAdicionais == Some([])
    {
      entregaBemSucedida := true;
      this.recebedorNome := Some(recebedorNome);
      assinaturaCapturada := false;
      fotoCapturada := false;
      geolocalizacaoCapturada := false;
      observacoes := None;
      teveOcorrencia := false;
      ocorrencias := Some([]);
      fotosAdicionais := Some([]);
    }

    /**
     * `comprovante_completo`: a failed delivery needs a note saying why; a
     * successful one needs the receiver's name, a signature or a photo, and
     * the geolocation.
     */
    predicate ComprovanteCompleto()
      reads this
    {
      if !entregaBemSucedida then Truthy(observacoes)
      else Truthy(recebedorNome) && (assinaturaCapturada || fotoCapturada) && geolocalizacaoCapturada
    }

    /**
     * `adicionar_ocorrencia`: a non-list is first replaced by an empty list;
     * one unresolved incident stamped `nowIso` is appended after the existing
     * ones and the incident flag is set. Nothing else changes, so neither
     * does completeness.
     */
    method AdicionarOcorrencia(tipo: string, descricao: string, nowIso: string)
      modifies this
      ensures ocorrencias == Some(ListOrEmpty(old(ocorrencias)) + [Ocorrencia(tipo, descricao, nowIso, false)])
      ensures teveOcorrencia
      ensures fotosAdicionais == old(fotosAdicionais)
      ensures entregaBemSucedida == old(entregaBemSucedida) && recebedorNome == old(recebedorNome)
      ensures assinaturaCapturada == old(assinaturaCapturada) && fotoCapturada == old(fotoCapturada)
      ensures geolocalizacaoCapturada == old(geolocalizacaoCapturada) && observacoes == old(observacoes)
      ensures ComprovanteCompleto() == old(ComprovanteCompleto())
    {
      if ocorrencias.None? {
        ocorrencias := Some([]);
      }
      var ocorrencia := Ocorrencia(tipo, descricao, nowIso, false);
      ocorrencias := Some(ocorrencias.value + [ocorrencia]);
      teveOcorrencia := true;
    }

    /**
     * `adicionar_foto_adicional`: a non-list is first replaced by an empty
     * list; one photo entry stamped `nowIso` is appended after the existing
     * ones. No other field changes.
     */
    method AdicionarFotoAdicional(url: string, googleDriveId: string, descricao: string, nowIso: string)
      modifies this
      ensures fotosAdicionais == Some(ListOrEmpty(old(fotosAdicionais)) + [Foto(url, googleDriveId, descricao, nowIso)])
      ensures ocorrencias == old(ocorrencias) && teveOcorrencia == old(teveOcorrencia)
      ensures entregaBemSucedida == old(entregaBemSucedida) && recebedorNome == old(recebedorNome)
      ensures assinaturaCapturada == old(assinaturaCapturada) && fotoCapturada == old(fotoCapturada)
      ensures geolocalizacaoCapturada == old(geolocalizacaoCapturada) && observacoes == old(observacoes)
      ensures ComprovanteCompleto() == old(ComprovanteCompleto())
    {
      if fotosAdicionais.None? {
        fotosAdicionais := Some([]);
      }
      fotosAdicionais := Some(fotosAdicionais.value + [Foto(url, googleDriveId, descricao, nowIso)]);
    }
  }

  /**
   * Completeness of a failed delivery turns only on its note; a successful
   * delivery with neither a signature nor a photo, or without geolocation,
   * is never complete, whatever its note says.
   */
  lemma CompletenessRules(c: ComprovanteEntrega)
    ensures !c.entregaBemSucedida ==> (c.ComprovanteCompleto() <==> c.observacoes.Some? && c.observacoes.value != "")
    ensures c.entregaBemSucedida && (!(c.assinaturaCapturada || c.fotoCapturada) || !c.geolocalizacaoCapturada) ==>
      !c.ComprovanteCompleto()
    ensures c.entregaBemSucedida && c.ComprovanteCompleto() ==>
      c.recebedorNome.Some? && c.recebedorNome.value != "" && c.geolocalizacaoCapturada
  {
  }

  /**
   * Appending records one after another keeps all of them in arrival order:
   * two incidents land at the end of the list, the first before the second,
   * each unresolved.
   */
  method TwoIncidents(c: ComprovanteEntrega, tipo: string, first: string, second: string, nowIso: string)
    modifies c
    ensures var before := ListOrEmpty(old(c.ocorrencias));
      c.ocorrencias.Some? && |c.ocorrencias.value| == |before| + 2
      && c.ocorrencias.value[..|before|] == before
      && c.ocorrencias.value[|before|].descricao == first && c.ocorrencias.value[|before| + 1].descricao == second
      && !c.ocorrencias.value[|before|].resolvido && !c.ocorrencias.value[|before| + 1].resolvido
    ensures c.teveOcorrencia
  {
    c.AdicionarOcorrencia(tipo, first, nowIso);
    c.AdicionarOcorrencia(tipo, second, nowIso);
  }
}
