/** The persistent state behind the two repositories: the company and
    supplier tables, the `empresa_fornecedor` join table of the many-to-many
    relation, and the identity counters. `Empresa.fornecedores` (the owning
    side) and `Fornecedor.empresas` (the `mappedBy` side) are both read off
    the join table. */
module Persistence {
  import opened Entities
  import opened EmpresaRepository
  import opened FornecedorRepository

  /** The four address columns are filled, as a valid CEP lookup fills them. */
  predicate EmpresaAddressSet(e: Empresa) {
    e.logradouro.Some? && e.bairro.Some? && e.cidade.Some? && e.uf.Some?
  }

  predicate FornecedorAddressSet(f: Fornecedor) {
    f.logradouro.Some? && f.bairro.Some? && f.cidade.Some? && f.uf.Some?
  }

  class Database {
    var empresas: map<Id, Empresa>
    var fornecedores: map<Id, Fornecedor>
    /** Rows `(empresa_id, fornecedor_id)` of the join table. */
    var vinculos: set<(Id, Id)>
    var nextEmpresaId: Id
    var nextFornecedorId: Id

    /** What the services keep true: every link joins two stored rows, the
        natural keys are unique, fresh ids are above every stored one, every
        supplier has the shape its person type demands, and every stored
        address came from a successful lookup. */
    ghost predicate Valid()
      reads this
    {
      && (forall p | p in vinculos :: p.0 in empresas && p.1 in fornecedores)
      && (forall id | id in empresas :: id < nextEmpresaId)
      && (forall id | id in fornecedores :: id < nextFornecedorId)
      && CnpjUnique(empresas)
      && CpfCnpjUnique(fornecedores)
      && (forall id | id in empresas :: EmpresaAddressSet(empresas[id]))
      && (forall id | id in fornecedores :: FornecedorAddressSet(fornecedores[id]))
      && (forall id | id in fornecedores ::
            var f := fornecedores[id]; ShapeOk(f.tipoPessoa, f.cpfCnpj, f.rg, f.dataNascimento))
    }

    /** An empty database, ids starting at 1. */
    constructor ()
      ensures Valid()
      ensures empresas == map[] && fornecedores == map[] && vinculos == {}
      ensures nextEmpresaId == 1 && nextFornecedorId == 1
    {
      empresas, fornecedores, vinculos := map[], map[], {};
      nextEmpresaId, nextFornecedorId := 1, 1;
    }

    /** `empresa.getFornecedores()`: ids of the suppliers linked to a company. */
    function FornecedoresDe(empresaId: Id): (ids: set<Id>)
      reads this
      ensures forall f :: f in ids <==> (empresaId, f) in vinculos
    {
      set p | p in vinculos && p.0 == empresaId :: p.1
    }

    /** `fornecedor.getEmpresas()`: ids of the companies linked to a supplier. */
    function EmpresasDe(fornecedorId: Id): (ids: set<Id>)
      reads this
      ensures forall e :: e in ids <==> (e, fornecedorId) in vinculos
    {
      set p | p in vinculos && p.1 == fornecedorId :: p.0
    }
  }

  /** Each side lists the other: the relation reads the same from both ends. */
  lemma LinkVisibleFromBothSides(db: Database, e: Id, f: Id)
    ensures f in db.FornecedoresDe(e) <==> e in db.EmpresasDe(f)
  {
  }
}
