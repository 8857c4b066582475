/** The queries of `EmpresaRepository`, over the company table as a map
    from id to row. */
module EmpresaRepository {
  import opened Wrappers
  import opened Text
  import opened Entities

  /** `existsByCnpj`. */
  predicate ExistsByCnpj(empresas: map<Id, Empresa>, cnpj: string) {
    exists id | id in empresas :: empresas[id].cnpj == cnpj
  }

  /** `existsByCnpjAndIdNot`: some other company holds the CNPJ. */
  predicate ExistsByCnpjAndIdNot(empresas: map<Id, Empresa>, cnpj: string, id: Id) {
    exists other | other in empresas :: empresas[other].cnpj == cnpj && other != id
  }

  /** No two companies share a CNPJ (the column's unique constraint). */
  ghost predicate CnpjUnique(empresas: map<Id, Empresa>) {
    forall a, b | a in empresas && b in empresas && empresas[a].cnpj == empresas[b].cnpj :: a == b
  }

  /** A company's own CNPJ never counts against it: the "other company"
      test differs from plain existence only by the row with that id. */
  lemma OwnCnpjDoesNotCount(empresas: map<Id, Empresa>, cnpj: string, id: Id)
    ensures ExistsByCnpjAndIdNot(empresas, cnpj, id) <==> ExistsByCnpj(empresas - {id}, cnpj)
    ensures ExistsByCnpjAndIdNot(empresas, cnpj, id) ==> ExistsByCnpj(empresas, cnpj)
    ensures CnpjUnique(empresas) && id in empresas && empresas[id].cnpj == cnpj ==>
              !ExistsByCnpjAndIdNot(empresas, cnpj, id)
  {
    if ExistsByCnpj(empresas - {id}, cnpj) {
      var other :| other in empresas - {id} && (empresas - {id})[other].cnpj == cnpj;
      assert empresas[other].cnpj == cnpj && other != id;
    }
    if ExistsByCnpjAndIdNot(empresas, cnpj, id) {
      var other :| other in empresas && empresas[other].cnpj == cnpj && other != id;
      assert other in empresas - {id};
    }
  }

  /** `findByCnpj`: the company holding the CNPJ, if any. */
  ghost function FindByCnpj(empresas: map<Id, Empresa>, cnpj: string): (r: Option<Id>)
    ensures r.Some? <==> ExistsByCnpj(empresas, cnpj)
    ensures r.Some? ==> r.value in empresas && empresas[r.value].cnpj == cnpj
  {
    if ExistsByCnpj(empresas, cnpj) then
      Some(var id :| id in empresas && empresas[id].cnpj == cnpj; id)
    else None
  }

  /** Under the unique constraint `findByCnpj` finds the one holder. */
  lemma FindByCnpjUnique(empresas: map<Id, Empresa>, id: Id)
    requires CnpjUnique(empresas) && id in empresas
    ensures FindByCnpj(empresas, empresas[id].cnpj) == Some(id)
  {
  }

  /** The `findBySearch` filter: no search, or an empty one, keeps every
      company; otherwise the lower-cased trade name contains the lower-cased
      search, or the CNPJ contains it as written. */
  predicate MatchesSearch(e: Empresa, search: Option<string>) {
    || search == None || search == Some("")
    || Contains(Lower(e.nomeFantasia), Lower(search.value))
    || Contains(e.cnpj, search.value)
  }

  /** The ids `findBySearch` returns, before paging. */
  function FindBySearch(empresas: map<Id, Empresa>, search: Option<string>): (ids: set<Id>)
    ensures ids <= empresas.Keys
    ensures search == None || search == Some("") ==> ids == empresas.Keys
    ensures forall id | id in empresas :: id in ids <==> MatchesSearch(empresas[id], search)
  {
    set id | id in empresas && MatchesSearch(empresas[id], search)
  }

  /** A company is found by its full CNPJ, and by its trade name typed in
      any letter case. */
  lemma SearchFindsOwnKeys(empresas: map<Id, Empresa>, id: Id, typed: string)
    requires id in empresas && Lower(typed) == Lower(empresas[id].nomeFantasia)
    ensures id in FindBySearch(empresas, Some(empresas[id].cnpj))
    ensures id in FindBySearch(empresas, Some(typed))
  {
    var e := empresas[id];
    ContainsPrefix(e.cnpj, e.cnpj);
    ContainsPrefix(Lower(e.nomeFantasia), Lower(typed));
  }
}
