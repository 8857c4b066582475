/** The frontend `CepService` (cep.service.ts): normalise the code, ask the
    backend, and only when that request fails ask ViaCEP directly. The two
    HTTP replies are parameters; `calls` records which requests were made. */
module FrontendCepService {
  import opened Wrappers
  import opened Text
  import opened Json
  import Backend = CepService

  /** The `CepInfo` interface; `mensagem` is optional. */
  datatype CepInfo = CepInfo(
    cep: string,
    uf: string,
    cidade: string,
    bairro: string,
    logradouro: string,
    valido: bool,
    mensagem: Option<string>)

  /** The backend's `/cep/{cep}` reply as the HTTP client delivers it. */
  datatype BackendReply = Answered(info: CepInfo) | BackendFailed

  /** ViaCEP's reply: a parsed JSON body, or an HTTP or parse error. */
  datatype ViaCepReply = Body(data: Json) | ViaCepFailed

  datatype Call = BackendCall | ViaCepCall

  datatype Consulta = Consulta(info: CepInfo, calls: seq<Call>)

  const NotFoundMessage := "CEP não encontrado"
  const LookupErrorMessage := "Erro ao consultar CEP"

  /** JavaScript truthiness of a JSON value (`undefined` is `JMissing`). */
  predicate Truthy(v: Json) {
    match v
    case JObject(_) => true
    case JArray(_) => true
    case JText(t) => t != ""
    case JBool(b) => b
    case JInt(n) => n != 0
    case JNull => false
    case JMissing => false
  }

  /** `v || ''` for a field the interface declares as a string. */
  function TextOr(v: Json): (r: string)
    ensures v.JText? ==> r == v.text
    ensures !v.JText? ==> r == ""
  {
    if v.JText? then v.text else ""
  }

  /** The invalid answers built in the service: every address field empty. */
  function Rejected(cep: string, message: string): (r: CepInfo)
    ensures !r.valido && r.cep == cep && r.mensagem == Some(message)
    ensures r.uf == "" && r.cidade == "" && r.bairro == "" && r.logradouro == ""
  {
    CepInfo(cep, "", "", "", "", false, Some(message))
  }

  /** `consultarViaCepDireto`. Reading `data.erro` on a `null` body throws,
      and `catchError` turns that into the same answer as an HTTP error. */
  function ConsultarViaCepDireto(cep: string, reply: ViaCepReply): (r: CepInfo)
    ensures r.cep == cep
    ensures r.valido <==> reply.Body? && !(reply.data.JNull? || reply.data.JMissing?)
                          && !Truthy(Path(reply.data, "erro"))
    ensures r.valido ==>
              && r.uf == TextOr(Path(reply.data, "uf"))
              && r.cidade == TextOr(Path(reply.data, "localidade"))
              && r.bairro == TextOr(Path(reply.data, "bairro"))
              && r.logradouro == TextOr(Path(reply.data, "logradouro"))
              && r.mensagem.None?
    ensures !r.valido ==> r.uf == "" && r.cidade == "" && r.bairro == "" && r.logradouro == ""
    ensures !r.valido ==> r.mensagem == Some(NotFoundMessage) || r.mensagem == Some(LookupErrorMessage)
    ensures r.mensagem == Some(NotFoundMessage) <==>
              reply.Body? && !(reply.data.JNull? || reply.data.JMissing?) && Truthy(Path(reply.data, "erro"))
  {
    match reply
    case ViaCepFailed => Rejected(cep, LookupErrorMessage)
    case Body(data) =>
      if data.JNull? || data.JMissing? then Rejected(cep, LookupErrorMessage)
      else if Truthy(Path(data, "erro")) then Rejected(cep, NotFoundMessage)
      else CepInfo(cep, TextOr(Path(data, "uf")), TextOr(Path(data, "localidade")),
                   TextOr(Path(data, "bairro")), TextOr(Path(data, "logradouro")), true, None)
  }

  /** `consultar`. */
  function Consultar(cep: string, backend: BackendReply, viaCep: ViaCepReply): (r: Consulta)
    ensures |Digits(cep)| != 8 ==> r == Consulta(Rejected(Digits(cep), Backend.FormatMessage), [])
    ensures |Digits(cep)| == 8 ==> r.calls != [] && r.calls[0] == BackendCall
    ensures |Digits(cep)| == 8 ==> (ViaCepCall in r.calls <==> backend.BackendFailed?)
    ensures |Digits(cep)| == 8 && backend.Answered? ==> r.info == backend.info
    ensures |Digits(cep)| == 8 && backend.BackendFailed? ==> r.info == ConsultarViaCepDireto(Digits(cep), viaCep)
  {
    var limpo := Digits(cep);
    if |limpo| != 8 then Consulta(Rejected(limpo, Backend.FormatMessage), [])
    else
      match backend
      case Answered(info) => Consulta(info, [BackendCall])
      case BackendFailed => Consulta(ConsultarViaCepDireto(limpo, viaCep), [BackendCall, ViaCepCall])
  }

  /** The frontend and the backend refuse the same codes without any
      request, with the same message; the frontend reports the normalised
      code, the backend the code as typed. */
  lemma FormatRuleSharedWithBackend(cep: string, backend: BackendReply, viaCep: ViaCepReply, net: Backend.Network)
    ensures Consultar(cep, backend, viaCep).calls == [] <==> Backend.ConsultarCep(cep, net).consulted == []
    ensures Consultar(cep, backend, viaCep).calls == [] ==>
              && Consultar(cep, backend, viaCep).info.mensagem == Backend.ConsultarCep(cep, net).result.mensagem
              && Consultar(cep, backend, viaCep).info.cep == Digits(cep)
              && Backend.ConsultarCep(cep, net).result.cep == cep
  {
  }

  /** A frontend answer is never valid without a request: a valid answer
      comes from the backend or from a ViaCEP body. */
  lemma ValidNeedsARequest(cep: string, backend: BackendReply, viaCep: ViaCepReply)
    requires Consultar(cep, backend, viaCep).info.valido
    ensures |Digits(cep)| == 8
    ensures (backend.Answered? && backend.info.valido) || (backend.BackendFailed? && viaCep.Body?)
  {
  }

  /** Where ViaCEP sends strings or leaves a field out, the direct lookup
      reads the same address as the backend's ViaCEP call on the same body. */
  lemma DirectLookupAgreesWithBackend(cep: string, body: string, node: Json)
    requires node.JObject? && !Has(node, "erro")
    requires forall name | name in {"uf", "localidade", "bairro", "logradouro"} ::
               !Has(node, name) || Path(node, name).JText?
    ensures var direct := ConsultarViaCepDireto(cep, Body(node));
            var backend := Backend.ConsultarViaCep(cep, Backend.Answers(200, body, Backend.Parsed(node)));
            && direct.valido && backend.Returned? && backend.dto.valido
            && backend.dto.uf == Some(direct.uf) && backend.dto.cidade == Some(direct.cidade)
            && backend.dto.bairro == Some(direct.bairro) && backend.dto.logradouro == Some(direct.logradouro)
  {
    assert "uf" in {"uf", "localidade", "bairro", "logradouro"};
    assert "localidade" in {"uf", "localidade", "bairro", "logradouro"};
    assert "bairro" in {"uf", "localidade", "bairro", "logradouro"};
    assert "logradouro" in {"uf", "localidade", "bairro", "logradouro"};
  }

  /** The two services read ViaCEP's "erro" flag differently: they agree on
      a boolean and on the text "true", but the text "false" is a not-found
      answer for the frontend (a non-empty string is truthy) while the
      backend's `asBoolean` reads it as false. */
  lemma ErroFlagReadings(b: bool)
    ensures Truthy(JBool(b)) == AsBoolean(JBool(b))
    ensures Truthy(JText("true")) && AsBoolean(JText("true"))
    ensures Truthy(JText("false")) && !AsBoolean(JText("false"))
  {
  }
}
