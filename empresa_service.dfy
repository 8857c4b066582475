/** `EmpresaService`: company create, update and delete, and linking and
    unlinking suppliers under the Paraná age rule. Each operation checks
    first and writes last, so a failure leaves the database as it was. The
    CEP lookup's network exchanges and today's date are parameters. */
module EmpresaService {
  import opened Wrappers
  import opened Text
  import opened Calendar
  import opened Entities
  import opened EmpresaRepository
  import opened Estados
  import opened CepService
  import opened Persistence
  import EmpresaDTO
  import FornecedorService

  /** The row a successful create or update stores: the request's CNPJ,
      trade name and CEP, and the lookup's address. */
  predicate Copies(e: Empresa, request: EmpresaDTO.Request, info: CepDTO) {
    && e.cnpj == request.cnpj && e.nomeFantasia == request.nomeFantasia && e.cep == request.cep
    && e.logradouro == info.logradouro && e.bairro == info.bairro
    && e.cidade == info.cidade && e.uf == info.uf
  }

  /** `getEmpresaOrThrow`. */
  function GetEmpresaOrThrow(db: Database, id: Id): (r: Result<Empresa, Failure>)
    reads db
    ensures r.Ok? <==> id in db.empresas
    ensures r.Ok? ==> r.value == db.empresas[id]
    ensures r.Err? ==> r.error == NotFound("Empresa", id)
  {
    if id in db.empresas then Ok(db.empresas[id]) else Err(NotFound("Empresa", id))
  }

  /** `create`: unique CNPJ, then a valid CEP, then insert under a fresh id. */
  method Create(db: Database, request: EmpresaDTO.Request, net: Network) returns (r: Result<Id, Failure>)
    modifies db
    ensures old(db.Valid()) ==> db.Valid()
    ensures old(db.Valid()) && r.Ok? ==> r.value !in old(db.empresas)
    ensures r.Err? ==> unchanged(db)
    ensures ExistsByCnpj(old(db.empresas), request.cnpj) ==>
              r == Err(Business("CNPJ já cadastrado: " + request.cnpj))
    ensures var info := ConsultarCep(request.cep, net).result;
            !ExistsByCnpj(old(db.empresas), request.cnpj) && !info.valido ==> r == Err(CepRejected(info))
    ensures r.Ok? <==> !ExistsByCnpj(old(db.empresas), request.cnpj) && ConsultarCep(request.cep, net).result.valido
    ensures r.Ok? ==>
              && r.value == old(db.nextEmpresaId)
              && r.value in db.empresas
              && db.empresas == old(db.empresas)[r.value := db.empresas[r.value]]
              && Copies(db.empresas[r.value], request, ConsultarCep(request.cep, net).result)
              && db.nextEmpresaId == old(db.nextEmpresaId) + 1
              && db.fornecedores == old(db.fornecedores) && db.vinculos == old(db.vinculos)
              && db.nextFornecedorId == old(db.nextFornecedorId)
  {
    if ExistsByCnpj(db.empresas, request.cnpj) {
      return Err(Business("CNPJ já cadastrado: " + request.cnpj));
    }
    var info := ConsultarCep(request.cep, net).result;
    if !info.valido {
      return Err(CepRejected(info));
    }
    var empresa := Empresa(request.cnpj, request.nomeFantasia, request.cep,
                           info.logradouro, info.bairro, info.cidade, info.uf);
    var id := db.nextEmpresaId;
    db.empresas := db.empresas[id := empresa];
    db.nextEmpresaId := id + 1;
    r := Ok(id);
  }

  /** `update`: the company must exist; its CNPJ may be kept but not taken
      from another company; the CEP must be valid; then the row's fields are
      replaced. */
  method Update(db: Database, id: Id, request: EmpresaDTO.Request, net: Network) returns (r: Result<(), Failure>)
    modifies db
    ensures old(db.Valid()) ==> db.Valid()
    ensures r.Err? ==> unchanged(db)
    ensures id !in old(db.empresas) ==> r == Err(NotFound("Empresa", id))
    ensures id in old(db.empresas) && ExistsByCnpjAndIdNot(old(db.empresas), request.cnpj, id) ==>
              r == Err(Business("CNPJ já cadastrado por outra empresa: " + request.cnpj))
    ensures var info := ConsultarCep(request.cep, net).result;
            id in old(db.empresas) && !ExistsByCnpjAndIdNot(old(db.empresas), request.cnpj, id) && !info.valido ==>
              r == Err(CepRejected(info))
    ensures r.Ok? <==> id in old(db.empresas) && !ExistsByCnpjAndIdNot(old(db.empresas), request.cnpj, id)
                       && ConsultarCep(request.cep, net).result.valido
    ensures r.Ok? ==>
              && db.empresas.Keys == old(db.empresas.Keys)
              && Copies(db.empresas[id], request, ConsultarCep(request.cep, net).result)
              && (forall other | other in old(db.empresas) && other != id :: db.empresas[other] == old(db.empresas[other]))
              && db.fornecedores == old(db.fornecedores) && db.vinculos == old(db.vinculos)
              && db.nextEmpresaId == old(db.nextEmpresaId) && db.nextFornecedorId == old(db.nextFornecedorId)
  {
    var found := GetEmpresaOrThrow(db, id);
    if found.Err? {
      return Err(found.error);
    }
    if ExistsByCnpjAndIdNot(db.empresas, request.cnpj, id) {
      return Err(Business("CNPJ já cadastrado por outra empresa: " + request.cnpj));
    }
    var info := ConsultarCep(request.cep, net).result;
    if !info.valido {
      return Err(CepRejected(info));
    }
    var empresa := found.value.(cnpj := request.cnpj, nomeFantasia := request.nomeFantasia, cep := request.cep,
                                logradouro := info.logradouro, bairro := info.bairro,
                                cidade := info.cidade, uf := info.uf);
    db.empresas := db.empresas[id := empresa];
    r := Ok(());
  }

  /** `delete`: clear the company's supplier set, then remove the row. */
  method Delete(db: Database, id: Id) returns (r: Result<(), Failure>)
    modifies db
    ensures old(db.Valid()) ==> db.Valid()
    ensures r.Err? ==> unchanged(db)
    ensures r.Ok? <==> id in old(db.empresas)
    ensures r.Err? ==> r.error == NotFound("Empresa", id)
    ensures r.Ok? ==>
              && (forall p :: p in db.vinculos <==> p in old(db.vinculos) && p.0 != id)
              && db.empresas == old(db.empresas) - {id}
              && db.fornecedores == old(db.fornecedores)
              && db.nextEmpresaId == old(db.nextEmpresaId) && db.nextFornecedorId == old(db.nextFornecedorId)
  {
    var found := GetEmpresaOrThrow(db, id);
    if found.Err? {
      return Err(found.error);
    }
    db.vinculos := set p | p in db.vinculos && p.0 != id;
    db.empresas := db.empresas - {id};
    r := Ok(());
  }

  /** The company's state is Paraná: `"PR".equalsIgnoreCase(uf)`, false
      for a null `uf`. */
  predicate UfIsParana(uf: Option<string>) {
    uf.Some? && EqualsIgnoreCase("PR", uf.value)
  }

  /** The message of the age rule, with the computed age. */
  function MenorParanaMessage(idade: int): string {
    "Empresas do " + "Paraná" + " não podem cadastrar fornecedor pessoa física " + "menor de idade" + ". "
    + "Idade do fornecedor: " + IntToText(idade) + " anos."
  }

  /** `validarFornecedorMenorParana` with today's date as a parameter: a
      Paraná company may not link an individual whose recorded birth date
      makes them under 18 in whole `Period` years. */
  function ValidarFornecedorMenorParana(empresa: Empresa, fornecedor: Fornecedor, today: Date): (r: Outcome<Failure>)
    ensures r.Fail? <==>
              && UfIsParana(empresa.uf) && fornecedor.tipoPessoa == Fisica && fornecedor.dataNascimento.Some?
              && PeriodYears(fornecedor.dataNascimento.value, today) < 18
    ensures r.Fail? ==> r.error == Business(MenorParanaMessage(PeriodYears(fornecedor.dataNascimento.value, today)))
  {
    if UfIsParana(empresa.uf) && fornecedor.tipoPessoa == Fisica && fornecedor.dataNascimento.Some? then
      var idade := PeriodYears(fornecedor.dataNascimento.value, today);
      if idade < 18 then Fail(Business(MenorParanaMessage(idade))) else Pass
    else Pass
  }

  /** The age rule in calendar terms: for real dates the link is refused
      exactly for a Paraná company and an individual with a recorded birth
      date whose 18th birthday is still ahead; on that birthday it is
      allowed. Companies elsewhere, organisations and individuals without a
      birth date always pass. */
  lemma MenorParanaByBirthday(empresa: Empresa, fornecedor: Fornecedor, today: Date)
    requires ValidDate(today)
    requires fornecedor.dataNascimento.Some? ==> ValidDate(fornecedor.dataNascimento.value)
    ensures ValidarFornecedorMenorParana(empresa, fornecedor, today).Fail? <==>
              && UfIsParana(empresa.uf) && fornecedor.tipoPessoa == Fisica && fornecedor.dataNascimento.Some?
              && var b := fornecedor.dataNascimento.value; Before(today, Date(b.year + 18, b.month, b.day))
  {
    if fornecedor.dataNascimento.Some? {
      YearsAtLeast(fornecedor.dataNascimento.value, today, 18);
    }
  }

  /** A message assembled from eight pieces names its second and fourth. */
  lemma PiecesContained(a: string, b: string, c: string, d: string, e: string, f: string, g: string, h: string)
    ensures Contains(a + b + c + d + e + f + g + h, b)
    ensures Contains(a + b + c + d + e + f + g + h, d)
  {
    ContainsPrefix(b, b);
    ContainsBefore(a, b, b);
    ContainsAfter(a + b, b, c);
    ContainsAfter(a + b + c, b, d);
    ContainsPrefix(d, d);
    ContainsBefore(a + b + c, d, d);
    ContainsAfter(a + b + c + d, b, e);
    ContainsAfter(a + b + c + d, d, e);
    ContainsAfter(a + b + c + d + e, b, f);
    ContainsAfter(a + b + c + d + e, d, f);
    ContainsAfter(a + b + c + d + e + f, b, g);
    ContainsAfter(a + b + c + d + e + f, d, g);
    ContainsAfter(a + b + c + d + e + f + g, b, h);
    ContainsAfter(a + b + c + d + e + f + g, d, h);
  }

  /** The refusal names Paraná and "menor de idade". */
  lemma MenorParanaMessageWording(idade: int)
    ensures Contains(MenorParanaMessage(idade), "Paraná")
    ensures Contains(MenorParanaMessage(idade), "menor de idade")
  {
    PiecesContained("Empresas do ", "Paraná", " não podem cadastrar fornecedor pessoa física ", "menor de idade",
                    ". ", "Idade do fornecedor: ", IntToText(idade), " anos.");
  }

  /** The hard-coded "PR" test agrees with the `Estado` table: a `uf` names
      Paraná ignoring case exactly when it is a state that does not allow
      under-age suppliers. */
  lemma ParanaRuleMatchesEstadoTable(uf: string)
    ensures UfIsParana(Some(uf)) <==> FromSigla(uf).Ok? && !PermiteMenorIdade(FromSigla(uf).value)
  {
    OnlyParanaForbidsMinors(PR);
    if UfIsParana(Some(uf)) {
      FromSiglaIgnoresCase(PR, uf);
    }
    if FromSigla(uf).Ok? && !PermiteMenorIdade(FromSigla(uf).value) {
      OnlyParanaForbidsMinors(FromSigla(uf).value);
    }
  }

  /** `vincularFornecedor`: company, then supplier, then the age rule, then
      add the pair to the company's set (adding a present pair changes
      nothing). */
  method VincularFornecedor(db: Database, empresaId: Id, fornecedorId: Id, today: Date) returns (r: Result<(), Failure>)
    modifies db
    ensures old(db.Valid()) ==> db.Valid()
    ensures r.Err? ==> unchanged(db)
    ensures empresaId !in old(db.empresas) ==> r == Err(NotFound("Empresa", empresaId))
    ensures empresaId in old(db.empresas) && fornecedorId !in old(db.fornecedores) ==>
              r == Err(NotFound("Fornecedor", fornecedorId))
    ensures empresaId in old(db.empresas) && fornecedorId in old(db.fornecedores) ==>
              var rule := ValidarFornecedorMenorParana(old(db.empresas[empresaId]), old(db.fornecedores[fornecedorId]), today);
              (rule.Fail? ==> r == Err(rule.error)) && (rule.Pass? ==> r.Ok?)
    ensures r.Ok? ==>
              && db.vinculos == old(db.vinculos) + {(empresaId, fornecedorId)}
              && db.empresas == old(db.empresas) && db.fornecedores == old(db.fornecedores)
              && db.nextEmpresaId == old(db.nextEmpresaId) && db.nextFornecedorId == old(db.nextFornecedorId)
    ensures (empresaId, fornecedorId) in old(db.vinculos) ==> db.vinculos == old(db.vinculos)
  {
    var empresa := GetEmpresaOrThrow(db, empresaId);
    if empresa.Err? {
      return Err(empresa.error);
    }
    var fornecedor := FornecedorService.GetFornecedorOrThrow(db, fornecedorId);
    if fornecedor.Err? {
      return Err(fornecedor.error);
    }
    var rule := ValidarFornecedorMenorParana(empresa.value, fornecedor.value, today);
    if rule.Fail? {
      return Err(rule.error);
    }
    db.vinculos := db.vinculos + {(empresaId, fornecedorId)};
    r := Ok(());
  }

  /** `desvincularFornecedor`: company, then supplier, then remove the pair
      (removing an absent pair changes nothing). */
  method DesvincularFornecedor(db: Database, empresaId: Id, fornecedorId: Id) returns (r: Result<(), Failure>)
    modifies db
    ensures old(db.Valid()) ==> db.Valid()
    ensures r.Err? ==> unchanged(db)
    ensures empresaId !in old(db.empresas) ==> r == Err(NotFound("Empresa", empresaId))
    ensures empresaId in old(db.empresas) && fornecedorId !in old(db.fornecedores) ==>
              r == Err(NotFound("Fornecedor", fornecedorId))
    ensures r.Ok? <==> empresaId in old(db.empresas) && fornecedorId in old(db.fornecedores)
    ensures r.Ok? ==>
              && db.vinculos == old(db.vinculos) - {(empresaId, fornecedorId)}
              && db.empresas == old(db.empresas) && db.fornecedores == old(db.fornecedores)
              && db.nextEmpresaId == old(db.nextEmpresaId) && db.nextFornecedorId == old(db.nextFornecedorId)
  {
    var empresa := GetEmpresaOrThrow(db, empresaId);
    if empresa.Err? {
      return Err(empresa.error);
    }
    var fornecedor := FornecedorService.GetFornecedorOrThrow(db, fornecedorId);
    if fornecedor.Err? {
      return Err(fornecedor.error);
    }
    db.vinculos := db.vinculos - {(empresaId, fornecedorId)};
    r := Ok(());
  }
}
