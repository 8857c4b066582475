/** `FornecedorService`: supplier create, update and delete. Create and
    update run `validarRequest` (uniqueness, then the shape the person type
    demands) and then the CEP lookup, and write only when every check
    passed. */
module FornecedorService {
  import opened Wrappers
  import opened Text
  import opened Entities
  import opened FornecedorRepository
  import opened CepService
  import opened Persistence
  import FornecedorDTO

  /** The uniqueness check of `validarRequest`: on create (`idAtual` null)
      any holder of the document, on update only another supplier. */
  predicate Duplicate(fornecedores: map<Id, Fornecedor>, cpfCnpj: string, idAtual: Option<Id>) {
    if idAtual.None? then ExistsByCpfCnpj(fornecedores, cpfCnpj)
    else ExistsByCpfCnpjAndIdNot(fornecedores, cpfCnpj, idAtual.value)
  }

  function DuplicateFailure(cpfCnpj: string, idAtual: Option<Id>): Failure {
    if idAtual.None? then Business("CPF/CNPJ já cadastrado: " + cpfCnpj)
    else Business("CPF/CNPJ já cadastrado por outro fornecedor: " + cpfCnpj)
  }

  const CpfLengthMessage := "Pessoa Física deve informar CPF com 11 dígitos"
  const RgMessage := "RG é obrigatório para Pessoa Física"
  const BirthDateMessage := "Data de Nascimento é obrigatória para Pessoa Física"
  const CnpjLengthMessage := "Pessoa Jurídica deve informar CNPJ com 14 dígitos"

  /** `validarRequest`: the first failing check decides, in the order
      uniqueness, document length, RG, birth date. */
  function ValidarRequest(fornecedores: map<Id, Fornecedor>, request: FornecedorDTO.Request, idAtual: Option<Id>): (r: Outcome<Failure>)
    ensures r.Pass? <==>
              !Duplicate(fornecedores, request.cpfCnpj, idAtual)
              && ShapeOk(request.tipoPessoa, request.cpfCnpj, request.rg, request.dataNascimento)
    ensures Duplicate(fornecedores, request.cpfCnpj, idAtual) ==> r == Fail(DuplicateFailure(request.cpfCnpj, idAtual))
    ensures !Duplicate(fornecedores, request.cpfCnpj, idAtual) && request.tipoPessoa == Fisica ==>
              && (Utf16Length(request.cpfCnpj) != 11 ==> r == Fail(Business(CpfLengthMessage)))
              && (Utf16Length(request.cpfCnpj) == 11 && (request.rg.None? || IsBlank(request.rg.value)) ==> r == Fail(Business(RgMessage)))
              && (Utf16Length(request.cpfCnpj) == 11 && request.rg.Some? && !IsBlank(request.rg.value) && request.dataNascimento.None? ==>
                    r == Fail(Business(BirthDateMessage)))
    ensures !Duplicate(fornecedores, request.cpfCnpj, idAtual) && request.tipoPessoa != Fisica && Utf16Length(request.cpfCnpj) != 14 ==>
              r == Fail(Business(CnpjLengthMessage))
  {
    if idAtual.None? && ExistsByCpfCnpj(fornecedores, request.cpfCnpj) then
      Fail(Business("CPF/CNPJ já cadastrado: " + request.cpfCnpj))
    else if idAtual.Some? && ExistsByCpfCnpjAndIdNot(fornecedores, request.cpfCnpj, idAtual.value) then
      Fail(Business("CPF/CNPJ já cadastrado por outro fornecedor: " + request.cpfCnpj))
    else if request.tipoPessoa == Fisica then
      if Utf16Length(request.cpfCnpj) != 11 then Fail(Business(CpfLengthMessage))
      else if request.rg.None? || IsBlank(request.rg.value) then Fail(Business(RgMessage))
      else if request.dataNascimento.None? then Fail(Business(BirthDateMessage))
      else Pass
    else if Utf16Length(request.cpfCnpj) != 14 then Fail(Business(CnpjLengthMessage))
    else Pass
  }

  /** Bean Validation lets either document length through for either
      person type; the service then rejects the one that does not fit.
      Digits are one UTF-16 unit each, so `length()` here counts digits. */
  lemma ValidatedDocumentOfWrongType(fornecedores: map<Id, Fornecedor>, request: FornecedorDTO.Request, idAtual: Option<Id>)
    requires FornecedorDTO.Violations(request) == {}
    requires !Duplicate(fornecedores, request.cpfCnpj, idAtual)
    ensures request.tipoPessoa == Fisica && |request.cpfCnpj| == 14 ==>
              ValidarRequest(fornecedores, request, idAtual) == Fail(Business(CpfLengthMessage))
    ensures request.tipoPessoa == Juridica ==>
              (ValidarRequest(fornecedores, request, idAtual).Pass? <==> |request.cpfCnpj| == 14)
  {
    FornecedorDTO.ValidRequest(request);
    Utf16LengthOfDigits(request.cpfCnpj);
  }

  /** An update may keep the supplier's own document, which a create of the
      same request refuses. */
  lemma UpdateMayKeepOwnDocument(fornecedores: map<Id, Fornecedor>, request: FornecedorDTO.Request, id: Id)
    requires CpfCnpjUnique(fornecedores) && id in fornecedores && fornecedores[id].cpfCnpj == request.cpfCnpj
    requires ShapeOk(request.tipoPessoa, request.cpfCnpj, request.rg, request.dataNascimento)
    ensures ValidarRequest(fornecedores, request, Some(id)) == Pass
    ensures ValidarRequest(fornecedores, request, None) == Fail(Business("CPF/CNPJ já cadastrado: " + request.cpfCnpj))
  {
    OwnCpfCnpjDoesNotCount(fornecedores, request.cpfCnpj, id);
  }

  /** Every request field and the lookup's address, as create and update
      store them. */
  predicate Copies(f: Fornecedor, request: FornecedorDTO.Request, info: CepDTO) {
    && f.cpfCnpj == request.cpfCnpj && f.tipoPessoa == request.tipoPessoa
    && f.nome == request.nome && f.email == request.email && f.cep == request.cep
    && f.rg == request.rg && f.dataNascimento == request.dataNascimento
    && f.logradouro == info.logradouro && f.bairro == info.bairro
    && f.cidade == info.cidade && f.uf == info.uf
  }

  /** `getFornecedorOrThrow`. */
  function GetFornecedorOrThrow(db: Database, id: Id): (r: Result<Fornecedor, Failure>)
    reads db
    ensures r.Ok? <==> id in db.fornecedores
    ensures r.Ok? ==> r.value == db.fornecedores[id]
    ensures r.Err? ==> r.error == NotFound("Fornecedor", id)
  {
    if id in db.fornecedores then Ok(db.fornecedores[id]) else Err(NotFound("Fornecedor", id))
  }

  /** `create`: `validarRequest`, then a valid CEP, then insert. */
  method Create(db: Database, request: FornecedorDTO.Request, net: Network) returns (r: Result<Id, Failure>)
    modifies db
    ensures old(db.Valid()) ==> db.Valid()
    ensures old(db.Valid()) && r.Ok? ==> r.value !in old(db.fornecedores)
    ensures r.Err? ==> unchanged(db)
    ensures var check := ValidarRequest(old(db.fornecedores), request, None);
            check.Fail? ==> r == Err(check.error)
    ensures var info := ConsultarCep(request.cep, net).result;
            ValidarRequest(old(db.fornecedores), request, None).Pass? && !info.valido ==> r == Err(CepRejected(info))
    ensures r.Ok? <==> ValidarRequest(old(db.fornecedores), request, None).Pass? && ConsultarCep(request.cep, net).result.valido
    ensures r.Ok? ==>
              && r.value == old(db.nextFornecedorId)
              && r.value in db.fornecedores
              && db.fornecedores == old(db.fornecedores)[r.value := db.fornecedores[r.value]]
              && Copies(db.fornecedores[r.value], request, ConsultarCep(request.cep, net).result)
              && db.nextFornecedorId == old(db.nextFornecedorId) + 1
              && db.empresas == old(db.empresas) && db.vinculos == old(db.vinculos)
              && db.nextEmpresaId == old(db.nextEmpresaId)
  {
    var check := ValidarRequest(db.fornecedores, request, None);
    if check.Fail? {
      return Err(check.error);
    }
    var info := ConsultarCep(request.cep, net).result;
    if !info.valido {
      return Err(CepRejected(info));
    }
    var fornecedor := Fornecedor(request.cpfCnpj, request.tipoPessoa, request.nome, request.email, request.cep,
                                 request.rg, request.dataNascimento,
                                 info.logradouro, info.bairro, info.cidade, info.uf);
    var id := db.nextFornecedorId;
    db.fornecedores := db.fornecedores[id := fornecedor];
    db.nextFornecedorId := id + 1;
    r := Ok(id);
  }

  /** `update`: the supplier must exist (checked before any validation),
      then `validarRequest` excluding its own id, then a valid CEP, then every
      field is replaced. */
  method Update(db: Database, id: Id, request: FornecedorDTO.Request, net: Network) returns (r: Result<(), Failure>)
    modifies db
    ensures old(db.Valid()) ==> db.Valid()
    ensures r.Err? ==> unchanged(db)
    ensures id !in old(db.fornecedores) ==> r == Err(NotFound("Fornecedor", id))
    ensures var check := ValidarRequest(old(db.fornecedores), request, Some(id));
            id in old(db.fornecedores) && check.Fail? ==> r == Err(check.error)
    ensures var info := ConsultarCep(request.cep, net).result;
            id in old(db.fornecedores) && ValidarRequest(old(db.fornecedores), request, Some(id)).Pass? && !info.valido ==>
              r == Err(CepRejected(info))
    ensures r.Ok? <==> id in old(db.fornecedores) && ValidarRequest(old(db.fornecedores), request, Some(id)).Pass?
                       && ConsultarCep(request.cep, net).result.valido
    ensures r.Ok? ==>
              && db.fornecedores.Keys == old(db.fornecedores.Keys)
              && Copies(db.fornecedores[id], request, ConsultarCep(request.cep, net).result)
              && (forall other | other in old(db.fornecedores) && other != id :: db.fornecedores[other] == old(db.fornecedores[other]))
              && db.empresas == old(db.empresas) && db.vinculos == old(db.vinculos)
              && db.nextEmpresaId == old(db.nextEmpresaId) && db.nextFornecedorId == old(db.nextFornecedorId)
  {
    var found := GetFornecedorOrThrow(db, id);
    if found.Err? {
      return Err(found.error);
    }
    var check := ValidarRequest(db.fornecedores, request, Some(id));
    if check.Fail? {
      return Err(check.error);
    }
    var info := ConsultarCep(request.cep, net).result;
    if !info.valido {
      return Err(CepRejected(info));
    }
    var fornecedor := found.value.(cpfCnpj := request.cpfCnpj, tipoPessoa := request.tipoPessoa,
                                   nome := request.nome, email := request.email, cep := request.cep,
                                   rg := request.rg, dataNascimento := request.dataNascimento,
                                   logradouro := info.logradouro, bairro := info.bairro,
                                   cidade := info.cidade, uf := info.uf);
    db.fornecedores := db.fornecedores[id := fornecedor];
    r := Ok(());
  }

  /** `delete`: remove the supplier from the set of every company it is
      linked to, one company at a time, then remove the row. */
  method Delete(db: Database, id: Id) returns (r: Result<(), Failure>)
    modifies db
    ensures old(db.Valid()) ==> db.Valid()
    ensures r.Err? ==> unchanged(db)
    ensures r.Ok? <==> id in old(db.fornecedores)
    ensures r.Err? ==> r.error == NotFound("Fornecedor", id)
    ensures r.Ok? ==>
              && (forall p :: p in db.vinculos <==> p in old(db.vinculos) && p.1 != id)
              && db.fornecedores == old(db.fornecedores) - {id}
              && db.empresas == old(db.empresas)
              && db.nextEmpresaId == old(db.nextEmpresaId) && db.nextFornecedorId == old(db.nextFornecedorId)
  {
    var found := GetFornecedorOrThrow(db, id);
    if found.Err? {
      return Err(found.error);
    }
    var pending := db.EmpresasDe(id);
    while pending != {}
      invariant pending <= old(db.EmpresasDe(id))
      invariant forall p :: p in db.vinculos <==> p in old(db.vinculos) && (p.1 != id || p.0 in pending)
      invariant db.empresas == old(db.empresas) && db.fornecedores == old(db.fornecedores)
      invariant db.nextEmpresaId == old(db.nextEmpresaId) && db.nextFornecedorId == old(db.nextFornecedorId)
      decreases pending
    {
      var e :| e in pending;
      db.vinculos := db.vinculos - {(e, id)};
      pending := pending - {e};
    }
    db.fornecedores := db.fornecedores - {id};
    r := Ok(());
  }
}
