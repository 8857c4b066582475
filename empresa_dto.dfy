/** `EmpresaDTO.Request` and the Bean Validation constraints on its fields,
    checked by `@Valid` before the service runs. */
module EmpresaDTO {
  import opened Text

  datatype Request = Request(cnpj: string, nomeFantasia: string, cep: string)

  /** The messages of the violated constraints, as the validator collects
      them: `@NotBlank`, `@Pattern` and `@Size` of each field. */
  function Violations(r: Request): set<string> {
    (if NotBlank(r.cnpj) then {} else {"CNPJ é obrigatório"})
    + (if |r.cnpj| == 14 && AllDigits(r.cnpj) then {} else {"CNPJ deve conter 14 dígitos numéricos"})
    + (if NotBlank(r.nomeFantasia) then {} else {"Nome Fantasia é obrigatório"})
    + (if Utf16Length(r.nomeFantasia) <= 200 then {} else {"Nome Fantasia deve ter no máximo 200 caracteres"})
    + (if NotBlank(r.cep) then {} else {"CEP é obrigatório"})
    + (if |r.cep| == 8 && AllDigits(r.cep) then {} else {"CEP deve conter 8 dígitos numéricos"})
  }

  /** A request passes validation when no constraint is violated: 14 digits
      of CNPJ, a non-blank name of at most 200 characters and 8 digits of
      CEP. */
  lemma ValidRequest(r: Request)
    ensures Violations(r) == {} <==>
              && |r.cnpj| == 14 && AllDigits(r.cnpj)
              && NotBlank(r.nomeFantasia) && Utf16Length(r.nomeFantasia) <= 200
              && |r.cep| == 8 && AllDigits(r.cep)
  {
    if |r.cnpj| == 14 && AllDigits(r.cnpj) {
      assert r.cnpj[0] > ' ';
    }
    if |r.cep| == 8 && AllDigits(r.cep) {
      assert r.cep[0] > ' ';
    }
    if Violations(r) == {} {
      assert "CNPJ deve conter 14 dígitos numéricos" !in Violations(r);
      assert "Nome Fantasia é obrigatório" !in Violations(r);
      assert "Nome Fantasia deve ter no máximo 200 caracteres" !in Violations(r);
      assert "CEP deve conter 8 dígitos numéricos" !in Violations(r);
    }
  }

  /** The CEP of a valid request is already normalised: the resolver's
      digit stripping leaves it unchanged and its length check passes. */
  lemma ValidCepIsNormalised(r: Request)
    requires Violations(r) == {}
    ensures Digits(r.cep) == r.cep && |Digits(r.cep)| == 8
  {
    ValidRequest(r);
    DigitsOfAllDigits(r.cep);
  }
}
