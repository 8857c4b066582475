/** The backend's CEP (Brazilian postal code) resolver, `CepService`:
    normalise the code, ask cep.la, fall back to ViaCEP, and never throw.
    The HTTP exchanges are inputs: each one either raised an exception or
    answered with a status, a body and the tree `readTree` made of it. */
module CepService {
  import opened Wrappers
  import opened Text
  import opened Json

  /** `CepDTO`; the nullable strings are `Option`s. */
  datatype CepDTO = CepDTO(
    cep: string,
    uf: Option<string>,
    cidade: Option<string>,
    bairro: Option<string>,
    logradouro: Option<string>,
    valido: bool,
    mensagem: Option<string>)

  /** What `objectMapper.readTree(body)` did: produced a tree, or threw. */
  datatype Tree = Parsed(node: Json) | Malformed(reason: string)

  /** How one `httpClient.send` to a provider turned out. */
  datatype Exchange =
    | Raises(message: string)
    | Answers(status: int, body: string, tree: Tree)

  /** The exchanges one resolution may perform, in call order: cep.la, the
      first ViaCEP call and the second ViaCEP call. */
  datatype Network = Network(cepLa: Exchange, viaCep: Exchange, viaCepRetry: Exchange)

  /** A provider method either returns a DTO or throws with a message. */
  datatype Attempt = Returned(dto: CepDTO) | Raised(message: string)

  datatype Provider = CepLa | ViaCep

  /** The resolver's answer and the providers it consulted, in order. */
  datatype Lookup = Lookup(result: CepDTO, consulted: seq<Provider>)

  const FormatMessage := "CEP deve conter 8 dígitos"
  const CepLaNotFoundMessage := "CEP não encontrado na API cep.la"
  const ViaCepNotFoundMessage := "CEP não encontrado"
  const ViaCepHttpPrefix := "Erro ao consultar ViaCEP: HTTP "
  const UnavailablePrefix := "Não foi possível validar o CEP: "

  /** A DTO built with `valido(false)` and a message only. */
  function Invalid(cep: string, message: string): CepDTO {
    CepDTO(cep, None, None, None, None, false, Some(message))
  }

  /** The four address fields of a DTO are set, as they are on every DTO a
      provider accepts. */
  predicate AddressSet(dto: CepDTO) {
    dto.uf.Some? && dto.cidade.Some? && dto.bairro.Some? && dto.logradouro.Some?
  }

  /** The shape every DTO this service builds has: a valid one carries the
      whole address and no message, an invalid one a message and no address. */
  predicate WellShaped(dto: CepDTO) {
    if dto.valido then AddressSet(dto) && dto.mensagem.None?
    else dto.mensagem.Some? && dto.uf.None? && dto.cidade.None? && dto.bairro.None? && dto.logradouro.None?
  }

  /** The node cep.la's fields are read from: the first element of a
      non-empty array, otherwise the node itself. */
  function CepLaRecord(node: Json): Json {
    if node.JArray? && |node.items| > 0 then node.items[0] else node
  }

  /** cep.la found the code: HTTP 200, a non-blank body, and a record whose
      "uf" is present and not blank. */
  predicate CepLaFound(x: Exchange) {
    && x.Answers? && x.status == 200 && !IsBlank(x.body) && x.tree.Parsed?
    && var rec := CepLaRecord(x.tree.node);
       Has(rec, "uf") && !IsBlank(AsText(Get(rec, "uf")))
  }

  /** `consultarCepLa`: the address of the found record, the fixed "not
      found" answer, or the exception of the call or of the parser. */
  function ConsultarCepLa(cep: string, x: Exchange): (r: Attempt)
    ensures r.Returned? ==> r.dto.cep == cep && WellShaped(r.dto)
    ensures r.Returned? && r.dto.valido <==> CepLaFound(x)
    ensures r.Returned? && !r.dto.valido ==> r.dto == Invalid(cep, CepLaNotFoundMessage)
    ensures r.Raised? <==> x.Raises? || (x.status == 200 && !IsBlank(x.body) && x.tree.Malformed?)
    ensures r.Returned? && r.dto.valido ==>
              var rec := CepLaRecord(x.tree.node);
              && r.dto.uf == Some(AsText(Path(rec, "uf"))) && r.dto.cidade == Some(AsText(Path(rec, "cidade")))
              && r.dto.bairro == Some(AsText(Path(rec, "bairro")))
              && r.dto.logradouro == Some(AsText(Path(rec, "logradouro")))
  {
    match x
    case Raises(m) => Raised(m)
    case Answers(status, body, tree) =>
      if status == 200 && !IsBlank(body) then
        (match tree
        case Malformed(reason) => Raised(reason)
        case Parsed(node) =>
          var rec := CepLaRecord(node);
          if Has(rec, "uf") && !IsBlank(AsText(Get(rec, "uf"))) then
            Returned(CepDTO(cep, Some(AsText(Path(rec, "uf"))), Some(AsText(Path(rec, "cidade"))),
                            Some(AsText(Path(rec, "bairro"))), Some(AsText(Path(rec, "logradouro"))),
                            true, None))
          else Returned(Invalid(cep, CepLaNotFoundMessage)))
      else Returned(Invalid(cep, CepLaNotFoundMessage))
  }

  /** ViaCEP flags an unknown code with an "erro" field that reads as true. */
  predicate ViaCepSaysNotFound(node: Json) {
    Has(node, "erro") && AsBoolean(Get(node, "erro"))
  }

  /** `consultarViaCep`: on HTTP 200 the address (the city from
      "localidade") unless "erro" is set; any other status is reported with
      its code. */
  function ConsultarViaCep(cep: string, x: Exchange): (r: Attempt)
    ensures r.Returned? ==> r.dto.cep == cep && WellShaped(r.dto)
    ensures r.Raised? <==> x.Raises? || (x.status == 200 && x.tree.Malformed?)
    ensures r.Returned? && r.dto.valido <==> x.Answers? && x.status == 200 && x.tree.Parsed? && !ViaCepSaysNotFound(x.tree.node)
    ensures r.Returned? && r.dto.valido ==>
              && r.dto.uf == Some(AsText(Path(x.tree.node, "uf")))
              && r.dto.cidade == Some(AsText(Path(x.tree.node, "localidade")))
              && r.dto.bairro == Some(AsText(Path(x.tree.node, "bairro")))
              && r.dto.logradouro == Some(AsText(Path(x.tree.node, "logradouro")))
    ensures x.Answers? && x.status == 200 && x.tree.Parsed? && ViaCepSaysNotFound(x.tree.node) ==>
              r == Returned(Invalid(cep, ViaCepNotFoundMessage))
    ensures x.Answers? && x.status != 200 ==> r == Returned(Invalid(cep, ViaCepHttpPrefix + IntToText(x.status)))
  {
    match x
    case Raises(m) => Raised(m)
    case Answers(status, body, tree) =>
      if status == 200 then
        (match tree
        case Malformed(reason) => Raised(reason)
        case Parsed(node) =>
          if Has(node, "erro") && AsBoolean(Get(node, "erro")) then
            Returned(Invalid(cep, ViaCepNotFoundMessage))
          else
            Returned(CepDTO(cep, Some(AsText(Path(node, "uf"))), Some(AsText(Path(node, "localidade"))),
                            Some(AsText(Path(node, "bairro"))), Some(AsText(Path(node, "logradouro"))),
                            true, None)))
      else Returned(Invalid(cep, ViaCepHttpPrefix + IntToText(status)))
  }

  /** The catch block's last ViaCEP call: its answer, or an invalid DTO that
      carries the exception's message. */
  function LastViaCep(cep: string, x: Exchange, consulted: seq<Provider>): (r: Lookup)
    ensures r.consulted == consulted && r.result.cep == cep && WellShaped(r.result)
    ensures ConsultarViaCep(cep, x).Returned? ==> r.result == ConsultarViaCep(cep, x).dto
    ensures ConsultarViaCep(cep, x).Raised? ==> r.result == Invalid(cep, UnavailablePrefix + ConsultarViaCep(cep, x).message)
  {
    match ConsultarViaCep(cep, x)
    case Returned(dto) => Lookup(dto, consulted)
    case Raised(m) => Lookup(Invalid(cep, UnavailablePrefix + m), consulted)
  }

  /** `consultarCep`. It never throws: every outcome is a DTO. */
  function ConsultarCep(cep: string, net: Network): (r: Lookup)
    ensures WellShaped(r.result)
    ensures |Digits(cep)| != 8 ==> r == Lookup(Invalid(cep, FormatMessage), [])
    ensures |Digits(cep)| == 8 ==> r.result.cep == Digits(cep)
    ensures |Digits(cep)| == 8 ==> 1 <= |r.consulted| <= 3 && r.consulted[0] == CepLa
    ensures forall i | 1 <= i < |r.consulted| :: r.consulted[i] == ViaCep
    ensures var d := Digits(cep);
            |d| == 8 && !CepLaFound(net.cepLa) && ConsultarViaCep(d, net.viaCep).Returned? ==>
              r.result == ConsultarViaCep(d, net.viaCep).dto
    ensures var d := Digits(cep);
            |d| == 8 && ConsultarCepLa(d, net.cepLa).Returned? && !CepLaFound(net.cepLa)
            && ConsultarViaCep(d, net.viaCep).Raised? ==>
              r == LastViaCep(d, net.viaCepRetry, [CepLa, ViaCep, ViaCep])
    ensures var d := Digits(cep);
            |d| == 8 && ConsultarCepLa(d, net.cepLa).Raised? ==> r == LastViaCep(d, net.viaCep, [CepLa, ViaCep])
  {
    var limpo := Digits(cep);
    if |limpo| != 8 then Lookup(Invalid(cep, FormatMessage), [])
    else
      match ConsultarCepLa(limpo, net.cepLa)
      case Returned(dto) =>
        if dto.valido then Lookup(dto, [CepLa])
        else (
          match ConsultarViaCep(limpo, net.viaCep)
          case Returned(v) => Lookup(v, [CepLa, ViaCep])
          case Raised(_) => LastViaCep(limpo, net.viaCepRetry, [CepLa, ViaCep, ViaCep]))
      case Raised(_) => LastViaCep(limpo, net.viaCep, [CepLa, ViaCep])
  }

  /** When cep.la finds the code its DTO is the answer and ViaCEP is not
      consulted. */
  lemma CepLaWins(cep: string, net: Network)
    requires |Digits(cep)| == 8 && CepLaFound(net.cepLa)
    ensures ConsultarCep(cep, net) == Lookup(ConsultarCepLa(Digits(cep), net.cepLa).dto, [CepLa])
    ensures ConsultarCep(cep, net).result.valido
  {
  }

  /** ViaCEP is consulted exactly when the code has eight digits and cep.la
      did not find it. */
  lemma ViaCepOnlyAsFallback(cep: string, net: Network)
    ensures ViaCep in ConsultarCep(cep, net).consulted <==> |Digits(cep)| == 8 && !CepLaFound(net.cepLa)
  {
  }

  /** ViaCEP is called a second time exactly when cep.la answered "not
      found" and the first ViaCEP call threw; a cep.la exception leaves a
      single ViaCEP call. */
  lemma ViaCepRetriedExactlyWhen(cep: string, net: Network)
    ensures multiset(ConsultarCep(cep, net).consulted)[ViaCep] == 2 <==>
              |Digits(cep)| == 8 && ConsultarCepLa(Digits(cep), net.cepLa).Returned?
              && !CepLaFound(net.cepLa) && ConsultarViaCep(Digits(cep), net.viaCep).Raised?
  {
  }

  /** An exception from the last ViaCEP call becomes an invalid answer that
      carries the exception's message. */
  lemma LastExceptionReported(cep: string, net: Network)
    requires |Digits(cep)| == 8 && !CepLaFound(net.cepLa)
    ensures var last := if ConsultarCepLa(Digits(cep), net.cepLa).Raised? || ConsultarViaCep(Digits(cep), net.viaCep).Returned?
                        then net.viaCep else net.viaCepRetry;
            ConsultarViaCep(Digits(cep), last).Raised? ==>
              ConsultarCep(cep, net).result == Invalid(Digits(cep), UnavailablePrefix + ConsultarViaCep(Digits(cep), last).message)
  {
  }

  /** A valid answer is the answer of a provider that accepted the code:
      cep.la, or one of the two ViaCEP calls. */
  lemma ValidAnswerComesFromProvider(cep: string, net: Network)
    requires ConsultarCep(cep, net).result.valido
    ensures var dto := ConsultarCep(cep, net).result;
            || (CepLaFound(net.cepLa) && ConsultarCepLa(Digits(cep), net.cepLa) == Returned(dto))
            || ConsultarViaCep(Digits(cep), net.viaCep) == Returned(dto)
            || ConsultarViaCep(Digits(cep), net.viaCepRetry) == Returned(dto)
  {
  }

  /** After cep.la's "not found" or exception, ViaCEP's own verdict is the
      answer: its "erro" flag gives "CEP não encontrado" and a status other
      than 200 gives "Erro ao consultar ViaCEP: HTTP " and the status. */
  lemma ViaCepVerdictPassedThrough(cep: string, net: Network)
    requires |Digits(cep)| == 8 && !CepLaFound(net.cepLa) && net.viaCep.Answers?
    ensures var x := net.viaCep;
            x.status == 200 && x.tree.Parsed? && ViaCepSaysNotFound(x.tree.node) ==>
              ConsultarCep(cep, net).result == Invalid(Digits(cep), ViaCepNotFoundMessage)
    ensures var x := net.viaCep;
            x.status != 200 ==>
              ConsultarCep(cep, net).result == Invalid(Digits(cep), ViaCepHttpPrefix + IntToText(x.status))
  {
  }
}
