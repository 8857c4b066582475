/** The persisted entities `Empresa` and `Fornecedor`, the `TipoPessoa`
    enum, and the two exceptions the services throw. Identifiers, audit
    timestamps and the many-to-many sets live in `Persistence.Database`. */
module Entities {
  import opened Wrappers
  import opened Text
  import opened Calendar
  import opened CepService

  /** A database identity (`Long id`, assigned on insert). */
  type Id = nat

  datatype TipoPessoa = Fisica | Juridica

  /** A company row; the address columns are nullable. */
  datatype Empresa = Empresa(
    cnpj: string,
    nomeFantasia: string,
    cep: string,
    logradouro: Option<string>,
    bairro: Option<string>,
    cidade: Option<string>,
    uf: Option<string>)

  /** A supplier row; `rg`, `dataNascimento` and the address are nullable. */
  datatype Fornecedor = Fornecedor(
    cpfCnpj: string,
    tipoPessoa: TipoPessoa,
    nome: string,
    email: string,
    cep: string,
    rg: Option<string>,
    dataNascimento: Option<Date>,
    logradouro: Option<string>,
    bairro: Option<string>,
    cidade: Option<string>,
    uf: Option<string>)

  /** `ResourceNotFoundException` and `BusinessException`. */
  datatype Failure =
    | NotFound(resource: string, id: Id)
    | Business(message: string)

  /** Java's `"..." + s` for a nullable string. */
  function ConcatText(s: Option<string>): string {
    if s.Some? then s.value else "null"
  }

  /** Both services' failure for a CEP the lookup did not accept. */
  function CepRejected(info: CepDTO): Failure {
    Business("CEP inválido: " + ConcatText(info.mensagem))
  }

  /** The supplier shape the service enforces: an individual has an
      11-character document, a non-blank RG and a birth date; anyone else a
      14-character document. */
  predicate ShapeOk(tipo: TipoPessoa, cpfCnpj: string, rg: Option<string>, dataNascimento: Option<Date>) {
    if tipo == Fisica then Utf16Length(cpfCnpj) == 11 && rg.Some? && !IsBlank(rg.value) && dataNascimento.Some?
    else Utf16Length(cpfCnpj) == 14
  }
}
