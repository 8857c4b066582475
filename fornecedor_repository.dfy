/** The queries of `FornecedorRepository`, over the supplier table as a
    map from id to row. */
module FornecedorRepository {
  import opened Wrappers
  import opened Text
  import opened Entities

  /** `existsByCpfCnpj`. */
  predicate ExistsByCpfCnpj(fornecedores: map<Id, Fornecedor>, cpfCnpj: string) {
    exists id | id in fornecedores :: fornecedores[id].cpfCnpj == cpfCnpj
  }

  /** `existsByCpfCnpjAndIdNot`: some other supplier holds the document. */
  predicate ExistsByCpfCnpjAndIdNot(fornecedores: map<Id, Fornecedor>, cpfCnpj: string, id: Id) {
    exists other | other in fornecedores :: fornecedores[other].cpfCnpj == cpfCnpj && other != id
  }

  /** No two suppliers share a document (the column's unique constraint). */
  ghost predicate CpfCnpjUnique(fornecedores: map<Id, Fornecedor>) {
    forall a, b | a in fornecedores && b in fornecedores && fornecedores[a].cpfCnpj == fornecedores[b].cpfCnpj :: a == b
  }

  /** A supplier's own document never counts against it. */
  lemma OwnCpfCnpjDoesNotCount(fornecedores: map<Id, Fornecedor>, cpfCnpj: string, id: Id)
    ensures ExistsByCpfCnpjAndIdNot(fornecedores, cpfCnpj, id) <==> ExistsByCpfCnpj(fornecedores - {id}, cpfCnpj)
    ensures ExistsByCpfCnpjAndIdNot(fornecedores, cpfCnpj, id) ==> ExistsByCpfCnpj(fornecedores, cpfCnpj)
    ensures CpfCnpjUnique(fornecedores) && id in fornecedores && fornecedores[id].cpfCnpj == cpfCnpj ==>
              !ExistsByCpfCnpjAndIdNot(fornecedores, cpfCnpj, id)
  {
    if ExistsByCpfCnpj(fornecedores - {id}, cpfCnpj) {
      var other :| other in fornecedores - {id} && (fornecedores - {id})[other].cpfCnpj == cpfCnpj;
      assert fornecedores[other].cpfCnpj == cpfCnpj && other != id;
    }
    if ExistsByCpfCnpjAndIdNot(fornecedores, cpfCnpj, id) {
      var other :| other in fornecedores && fornecedores[other].cpfCnpj == cpfCnpj && other != id;
      assert other in fornecedores - {id};
    }
  }

  /** `findByCpfCnpj`: the supplier holding the document, if any. */
  ghost function FindByCpfCnpj(fornecedores: map<Id, Fornecedor>, cpfCnpj: string): (r: Option<Id>)
    ensures r.Some? <==> ExistsByCpfCnpj(fornecedores, cpfCnpj)
    ensures r.Some? ==> r.value in fornecedores && fornecedores[r.value].cpfCnpj == cpfCnpj
  {
    if ExistsByCpfCnpj(fornecedores, cpfCnpj) then
      Some(var id :| id in fornecedores && fornecedores[id].cpfCnpj == cpfCnpj; id)
    else None
  }

  /** The `nome` filter: absent or empty keeps everyone, otherwise a
      case-insensitive substring of the name. */
  predicate NomeAccepts(f: Fornecedor, nome: Option<string>) {
    nome == None || nome == Some("") || Contains(Lower(f.nome), Lower(nome.value))
  }

  /** The `cpfCnpj` filter: absent or empty keeps everyone, otherwise a
      substring of the document as written. */
  predicate CpfCnpjAccepts(f: Fornecedor, cpfCnpj: Option<string>) {
    cpfCnpj == None || cpfCnpj == Some("") || Contains(f.cpfCnpj, cpfCnpj.value)
  }

  /** The ids `findByFilters` returns, before paging. */
  function FindByFilters(fornecedores: map<Id, Fornecedor>, nome: Option<string>, cpfCnpj: Option<string>): (ids: set<Id>)
    ensures ids <= fornecedores.Keys
    ensures forall id | id in fornecedores ::
              id in ids <==> NomeAccepts(fornecedores[id], nome) && CpfCnpjAccepts(fornecedores[id], cpfCnpj)
  {
    set id | id in fornecedores && NomeAccepts(fornecedores[id], nome) && CpfCnpjAccepts(fornecedores[id], cpfCnpj)
  }

  /** The two filters combine by AND: the result is the intersection of
      what each filter alone returns, and an absent filter returns all. */
  lemma FiltersIntersect(fornecedores: map<Id, Fornecedor>, nome: Option<string>, cpfCnpj: Option<string>)
    ensures FindByFilters(fornecedores, nome, cpfCnpj) ==
              FindByFilters(fornecedores, nome, None) * FindByFilters(fornecedores, None, cpfCnpj)
    ensures FindByFilters(fornecedores, None, None) == fornecedores.Keys
  {
  }

  /** The document filter is case-sensitive and the name filter is not: a
      supplier is found by its full document and by its name in any case. */
  lemma FiltersFindOwnKeys(fornecedores: map<Id, Fornecedor>, id: Id, typed: string)
    requires id in fornecedores && Lower(typed) == Lower(fornecedores[id].nome)
    ensures id in FindByFilters(fornecedores, Some(typed), Some(fornecedores[id].cpfCnpj))
  {
    var f := fornecedores[id];
    ContainsPrefix(f.cpfCnpj, f.cpfCnpj);
    ContainsPrefix(Lower(f.nome), Lower(typed));
  }
}
