/** `FornecedorDTO.Request` and the Bean Validation constraints on its
    fields. The individual-only fields `rg` and `dataNascimento` carry no
    constraint here: the service checks them. */
module FornecedorDTO {
  import opened Wrappers
  import opened Text
  import opened Calendar
  import opened Entities

  datatype Request = Request(
    cpfCnpj: string,
    tipoPessoa: TipoPessoa,
    nome: string,
    email: string,
    cep: string,
    rg: Option<string>,
    dataNascimento: Option<Date>)

  /** `\d{11}|\d{14}` matched against the whole value. */
  predicate CpfOrCnpjPattern(s: string) {
    (|s| == 11 || |s| == 14) && AllDigits(s)
  }

  /** The messages of the violated constraints (`@Email` syntax aside). */
  function Violations(r: Request): set<string> {
    (if NotBlank(r.cpfCnpj) then {} else {"CPF/CNPJ é obrigatório"})
    + (if CpfOrCnpjPattern(r.cpfCnpj) then {} else {"CPF deve ter 11 dígitos ou CNPJ 14 dígitos"})
    + (if NotBlank(r.nome) then {} else {"Nome é obrigatório"})
    + (if Utf16Length(r.nome) <= 200 then {} else {"Nome deve ter no máximo 200 caracteres"})
    + (if NotBlank(r.email) then {} else {"E-mail é obrigatório"})
    + (if NotBlank(r.cep) then {} else {"CEP é obrigatório"})
    + (if |r.cep| == 8 && AllDigits(r.cep) then {} else {"CEP deve conter 8 dígitos numéricos"})
  }

  /** A request passes validation exactly when its document is 11 or 14
      digits, its name is non-blank and at most 200 characters, its e-mail
      is non-blank and its CEP is 8 digits; `rg` and `dataNascimento` play
      no part. */
  lemma ValidRequest(r: Request)
    ensures Violations(r) == {} <==>
              && CpfOrCnpjPattern(r.cpfCnpj)
              && NotBlank(r.nome) && Utf16Length(r.nome) <= 200
              && NotBlank(r.email)
              && |r.cep| == 8 && AllDigits(r.cep)
  {
    if CpfOrCnpjPattern(r.cpfCnpj) {
      assert r.cpfCnpj[0] > ' ';
    }
    if |r.cep| == 8 && AllDigits(r.cep) {
      assert r.cep[0] > ' ';
    }
    if Violations(r) == {} {
      assert "CPF deve ter 11 dígitos ou CNPJ 14 dígitos" !in Violations(r);
      assert "Nome é obrigatório" !in Violations(r);
      assert "Nome deve ter no máximo 200 caracteres" !in Violations(r);
      assert "E-mail é obrigatório" !in Violations(r);
      assert "CEP deve conter 8 dígitos numéricos" !in Violations(r);
    }
  }

  /** Validation does not tie the document length to the person type: an
      individual with a 14-digit document passes it and is left for the
      service to reject. */
  lemma ValidationIgnoresPersonType(r: Request)
    requires Violations(r) == {}
    ensures Violations(r.(tipoPessoa := Fisica)) == {} && Violations(r.(tipoPessoa := Juridica)) == {}
    ensures Violations(r.(rg := None, dataNascimento := None)) == {}
  {
  }
}
