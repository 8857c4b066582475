# desafio-fullstack in Dafny

A model of the business core of *desafio-fullstack*, a company and supplier
registry with a Spring backend and an Angular frontend.

- **Companies** (`Empresa`) are identified by a 14-digit CNPJ.
- **Suppliers** (`Fornecedor`) are individuals (CPF, RG and birth date) or
  organisations (CNPJ).
- Companies and suppliers are linked many-to-many.
- Every address comes from a CEP (Brazilian postal code) lookup.

The model covers:

- **CEP resolution** in the backend (`CepService`): the digits are
  normalised, cep.la is asked first, and ViaCEP is asked as a fallback with
  one retry. Each provider's HTTP exchange is an input; the result also
  records which providers were consulted.
- **Request validation** as Bean Validation performs it (`EmpresaDTO`,
  `FornecedorDTO`), as a set of violation messages.
- **Repository queries** over an in-memory table: existence by key,
  existence "by key and id not", and the search queries.
- **The store** (`Persistence.Database`): company and supplier tables, the
  join table and the identity counters. `Valid()` is the invariant that
  every service operation preserves:
  - links resolve to existing rows;
  - CNPJ and CPF/CNPJ are unique;
  - addresses are filled in;
  - every supplier has the shape its person type demands.
- **The company service**: create, update, delete, link and unlink a
  supplier. It includes the Paraná rule: a company in Paraná may not link
  an individual under 18. Age is computed exactly as Java's
  `Period.between(...).getYears()` computes it, and is proved equivalent to
  "the 18th birthday is still ahead".
- **The supplier service**: create, update and delete, with
  `validarRequest` as an ordered chain of checks.
- **The `Estado` enum**: the 27 states, `fromSigla`, and which states allow
  under-age suppliers.
- **On the frontend**:
  - the CEP service, with its direct ViaCEP fallback;
  - the `cepFormat` pipe;
  - the notification queue, as a class with a counter and a list.

Modules follow the source files. `Wrappers`, `Text`, `Json`, `Calendar`,
`Entities` and `Persistence` hold the Java and JavaScript library semantics
the core relies on:

- `\D` stripping, `isBlank`, `@NotBlank`, `equalsIgnoreCase` and `LIKE`;
- Jackson's `has`, `path`, `asText` and `asBoolean`;
- `LocalDate` and `Period`;
- the entities and the store.

Clocks, HTTP and randomness are parameters:

- `today` for `LocalDate.now()`;
- a `Network` of exchanges for the backend's HTTP calls;
- `BackendReply` and `ViaCepReply` for the frontend's requests.

The code is followed wherever the tests disagree with it.
`EmpresaServiceTest.java:331` expects the refusal text to contain "menores
de idade", but the service writes "menor de idade" (`EmpresaService.java:144`).
The model uses the service's wording.

## Model

| member | source | states |
|---|---|---|
| Text.Digits | backend/src/main/java/com/desafio/fullstack/service/CepService.java:29 | Stripping `\D` leaves only ASCII digits and never lengthens the code. |
| Text.DigitsAppend | frontend/src/app/services/cep.service.ts:12 | Normalisation works piecewise: `Digits(a + b) == Digits(a) + Digits(b)`. |
| Text.DigitsOfAllDigits | backend/src/main/java/com/desafio/fullstack/service/CepService.java:29 | A code made only of digits is left unchanged by normalisation. |
| Text.DigitsCount | frontend/src/app/services/cep.service.ts:12 | Every digit keeps its number of occurrences, and every non-digit is removed. |
| Text.IsBlank | backend/src/main/java/com/desafio/fullstack/service/FornecedorService.java:111 | `isBlank()`: every character is `Character.isWhitespace`. |
| Text.NotBlank | backend/src/main/java/com/desafio/fullstack/dto/EmpresaDTO.java:17 | `@NotBlank`: some character is above U+0020, so `trim()` leaves something. |
| Text.CharEqualsIgnoreCase | backend/src/main/java/com/desafio/fullstack/enums/Estado.java:52 | For an ASCII letter, the characters `equalsIgnoreCase` accepts: itself, its other case, and the non-ASCII letters whose upper or lower case is it ('ı', 'İ', 'ſ', Kelvin sign). |
| Text.EqualsIgnoreCase | backend/src/main/java/com/desafio/fullstack/enums/Estado.java:52 | Same length and each character pair equal ignoring case. |
| Text.EqualsIgnoreCaseReflexive | backend/src/main/java/com/desafio/fullstack/enums/Estado.java:52 | Every string equals itself ignoring case. |
| Text.CapitalsEqualIgnoringCase | backend/src/main/java/com/desafio/fullstack/enums/Estado.java:52 | Two all-capital strings equal ignoring case are equal. |
| Text.OneCapitalPerCharacter | backend/src/main/java/com/desafio/fullstack/enums/Estado.java:52 | No character equals two different capitals ignoring case. |
| Text.Lower | backend/src/main/java/com/desafio/fullstack/repository/EmpresaRepository.java:24 | `LOWER` keeps the length and maps each character on its own: ASCII capitals and the Latin-1 capitals U+00C0..U+00DE (except '×') move down by 32, and every other character is kept. |
| Text.ContainsPrefix | backend/src/main/java/com/desafio/fullstack/repository/EmpresaRepository.java:25 | `LIKE '%t%'` matches whenever `t` is a prefix of the column. |
| Text.NatToText | backend/src/main/java/com/desafio/fullstack/service/EmpresaService.java:145 | A non-negative `int` prints as at least one digit whose decimal value is the number, with no leading zero: a text starting with '0' is exactly "0". |
| Text.IntToText | backend/src/main/java/com/desafio/fullstack/service/CepService.java:122 | An `int` prints with a leading '-' exactly when it is negative, and the digits after the sign read back as its absolute value, with no leading zero ("0" alone for zero). |
| Text.Utf16Length | backend/src/main/java/com/desafio/fullstack/service/FornecedorService.java:108 | `length()` counts UTF-16 units: between the number of characters and twice it, and equal to it when every character is in the Basic Multilingual Plane. |
| Text.Utf16LengthOfDigits | backend/src/main/java/com/desafio/fullstack/service/FornecedorService.java:107-121 | A digit string's `length()` is its number of digits. |
| Json.Path | backend/src/main/java/com/desafio/fullstack/service/CepService.java:77-80 | `path(name)` is the object's field when present, and `MissingNode` otherwise (also for arrays and scalars). |
| Json.AsText | backend/src/main/java/com/desafio/fullstack/service/CepService.java:77-80 | `asText()`: a string node's text, a scalar's literal, "null" for JSON null, and "" for containers and missing nodes. |
| Json.AsBoolean | backend/src/main/java/com/desafio/fullstack/service/CepService.java:101 | `asBoolean()`: a true boolean, a text whose trimmed value is "true", or a non-zero integer. |
| Json.Trim | backend/src/main/java/com/desafio/fullstack/service/CepService.java:101 | `trim()` never lengthens the text and leaves no character up to U+0020 at either end. |
| Json.TrimIsASlice | backend/src/main/java/com/desafio/fullstack/service/CepService.java:101 | `trim()` is the slice left after removing a leading run and a trailing run of characters up to U+0020, and nothing else. |
| Calendar.JavaDiv | backend/src/main/java/com/desafio/fullstack/service/EmpresaService.java:141 | Java's `/` truncates toward zero: the remainder has the dividend's sign and is smaller than the divisor in magnitude. |
| Calendar.PeriodYears | backend/src/main/java/com/desafio/fullstack/service/EmpresaService.java:141 | `Period.between(start, end).getYears()` has the sign of the month difference between the dates, and twelve times it never exceeds that difference in magnitude. |
| Calendar.PeriodAntisymmetric | backend/src/main/java/com/desafio/fullstack/service/EmpresaService.java:141 | Swapping the two dates negates `getYears()`. |
| Calendar.YearsAtLeast | backend/src/main/java/com/desafio/fullstack/service/EmpresaService.java:141 | `Period.between(b, t).getYears() >= n` exactly when `t` is on or after the n-th anniversary of `b`. |
| Calendar.PeriodOnAnniversary | backend/src/main/java/com/desafio/fullstack/service/EmpresaService.java:141 | On the n-th anniversary, `getYears()` is exactly n. |
| Calendar.NoYearsBeforeBirth | backend/src/main/java/com/desafio/fullstack/service/EmpresaService.java:141 | For a date up to the birth date, `getYears()` is at most 0. |
| Estados.Values | backend/src/main/java/com/desafio/fullstack/enums/Estado.java:6-32 | `values()` lists 27 constants. |
| Estados.Ordinal | backend/src/main/java/com/desafio/fullstack/enums/Estado.java:6-32 | Every constant has a declaration position below 27. |
| Estados.ValuesAtOrdinal | backend/src/main/java/com/desafio/fullstack/enums/Estado.java:6-32 | `values()[ordinal(e)] == e` for every constant. |
| Estados.OrdinalOfValues | backend/src/main/java/com/desafio/fullstack/enums/Estado.java:6-32 | `ordinal(values()[k]) == k` for each of the 27 positions. |
| Estados.TwentySevenDistinctNames | backend/src/main/java/com/desafio/fullstack/enums/Estado.java:6-32 | `values()` holds every constant once, and the 27 names are pairwise distinct. |
| Estados.Name | backend/src/main/java/com/desafio/fullstack/enums/Estado.java:6-32 | Each constant's `name()` is two upper-case letters. |
| Estados.Nome | backend/src/main/java/com/desafio/fullstack/enums/Estado.java:46-48 | `getNome()` is the full state name the table gives each constant ("Paraná" for PR). |
| Estados.PermiteMenorIdade | backend/src/main/java/com/desafio/fullstack/enums/Estado.java:42-44 | `permiteMenorIdade()` is the table's flag, false only for PR. |
| Estados.FirstMatching | backend/src/main/java/com/desafio/fullstack/enums/Estado.java:51-53 | The stream's `filter(...).findFirst()` finds a constant that matches ignoring case, and finds none exactly when no constant matches. |
| Estados.FromSigla | backend/src/main/java/com/desafio/fullstack/enums/Estado.java:50-55 | On success, the state's name equals the sigla ignoring case. It fails exactly when no state matches, with "UF inválida: " + sigla. |
| Estados.LowerInjectiveOnNames | backend/src/main/java/com/desafio/fullstack/enums/Estado.java:52 | Two state names that are equal ignoring case are equal. |
| Estados.SiglaNamesOneState | backend/src/main/java/com/desafio/fullstack/enums/Estado.java:52 | At most one state name equals a given sigla ignoring case, so `findFirst` never has to choose. |
| Estados.NamesDistinct | backend/src/main/java/com/desafio/fullstack/enums/Estado.java:6-32 | Two states with the same name are the same state. |
| Estados.FromSiglaOfName | backend/src/main/java/com/desafio/fullstack/enums/Estado.java:50-55 | Round trip: `fromSigla(e.name()) == e`. |
| Estados.FromSiglaIgnoresCase | backend/src/main/java/com/desafio/fullstack/enums/Estado.java:50-55 | Any spelling of a state's name, in either case, resolves to that state. |
| Estados.FromSiglaNonAsciiLetters | backend/src/main/java/com/desafio/fullstack/enums/Estado.java:50-55 | `equalsIgnoreCase` also accepts 'ı' and 'İ' for 'I' and 'ſ' for 'S': "pı" and "Pİ" resolve to PI, and "ſp" to SP. |
| Estados.OnlyParanaForbidsMinors | backend/src/main/java/com/desafio/fullstack/enums/Estado.java:6-32 | `permiteMenorIdade` is false exactly for PR. |
| CepService.ConsultarCepLa | backend/src/main/java/com/desafio/fullstack/service/CepService.java:59-87 | A non-blank 200 answer with a non-blank `uf` (taken from the first element of an array) is a valid address whose `uf`, `cidade`, `bairro` and `logradouro` are that record's fields read with `path(...).asText()`. Any other answer is "CEP não encontrado na API cep.la". A transport failure or unparsable body raises. |
| CepService.ConsultarViaCep | backend/src/main/java/com/desafio/fullstack/service/CepService.java:89-124 | On 200, "erro" read as true gives "CEP não encontrado"; otherwise the address is valid, and its `uf`, `cidade`, `bairro` and `logradouro` are the body's `uf`, `localidade`, `bairro` and `logradouro` read with `path(...).asText()`. Another status gives "Erro ao consultar ViaCEP: HTTP " + status. Transport and parse failures raise. |
| CepService.LastViaCep | backend/src/main/java/com/desafio/fullstack/service/CepService.java:47-55 | The catch block's ViaCEP call: a returned DTO is passed through unchanged, and an exception becomes an invalid DTO for the normalised code with "Não foi possível validar o CEP: " + its message. |
| CepService.ConsultarCep | backend/src/main/java/com/desafio/fullstack/service/CepService.java:28-57 | It never raises. A valid DTO has an address and no message; an invalid one has a message and no address. A code without 8 digits is refused as typed, with no request. Otherwise cep.la is consulted first, then at most two ViaCEP calls, and the DTO carries the normalised code. After a cep.la miss, ViaCEP's answer is returned as it is; after a cep.la exception, or a miss followed by a ViaCEP exception, the result is the catch block's call. |
| CepService.ViaCepVerdictPassedThrough | backend/src/main/java/com/desafio/fullstack/service/CepService.java:45 | After a cep.la miss, ViaCEP's "CEP não encontrado" and its "Erro ao consultar ViaCEP: HTTP " + status reach the caller unchanged. |
| CepService.CepLaWins | backend/src/main/java/com/desafio/fullstack/service/CepService.java:40-43 | When cep.la finds the code, its answer is returned and ViaCEP is not consulted. |
| CepService.ViaCepOnlyAsFallback | backend/src/main/java/com/desafio/fullstack/service/CepService.java:39-49 | ViaCEP is consulted exactly when the code has 8 digits and cep.la did not find it. |
| CepService.ViaCepRetriedExactlyWhen | backend/src/main/java/com/desafio/fullstack/service/CepService.java:45-48 | ViaCEP is called twice exactly when cep.la said "not found" and the first ViaCEP call threw. |
| CepService.LastExceptionReported | backend/src/main/java/com/desafio/fullstack/service/CepService.java:49-54 | The last ViaCEP exception becomes "Não foi possível validar o CEP: " + its message. |
| CepService.ValidAnswerComesFromProvider | backend/src/main/java/com/desafio/fullstack/service/CepService.java:28-57 | A valid result is exactly the answer of a provider that accepted the code. |
| EmpresaDTO.Violations | backend/src/main/java/com/desafio/fullstack/dto/EmpresaDTO.java:17-27 | The violated constraints' messages: `@NotBlank`, `@Pattern` and `@Size(max = 200)` of each field, checked independently. |
| EmpresaDTO.ValidRequest | backend/src/main/java/com/desafio/fullstack/dto/EmpresaDTO.java:17-27 | A request has no violations exactly when its CNPJ is 14 digits, its name is non-blank and at most 200 UTF-16 units long (`@Size` counts `length()`), and its CEP is 8 digits. |
| EmpresaDTO.ValidCepIsNormalised | backend/src/main/java/com/desafio/fullstack/dto/EmpresaDTO.java:25-27 | A validated CEP is already normalised and passes the lookup's length check. |
| FornecedorDTO.Violations | backend/src/main/java/com/desafio/fullstack/dto/FornecedorDTO.java:17-34 | The violated constraints' messages, including the `\d{11}|\d{14}` document pattern; `rg` and `dataNascimento` carry none. |
| FornecedorDTO.ValidRequest | backend/src/main/java/com/desafio/fullstack/dto/FornecedorDTO.java:17-38 | A request has no violations exactly when the document is 11 or 14 digits, the name is non-blank and at most 200 UTF-16 units long, the e-mail is non-blank and the CEP is 8 digits. |
| FornecedorDTO.ValidationIgnoresPersonType | backend/src/main/java/com/desafio/fullstack/dto/FornecedorDTO.java:21-38 | Validation does not tie the document to the person type, and does not require the RG or the birth date. |
| EmpresaRepository.ExistsByCnpj | backend/src/main/java/com/desafio/fullstack/repository/EmpresaRepository.java:18 | Some stored company has exactly that CNPJ. |
| EmpresaRepository.ExistsByCnpjAndIdNot | backend/src/main/java/com/desafio/fullstack/repository/EmpresaRepository.java:20 | Some stored company other than that id has exactly that CNPJ. |
| EmpresaRepository.OwnCnpjDoesNotCount | backend/src/main/java/com/desafio/fullstack/repository/EmpresaRepository.java:18-20 | `existsByCnpjAndIdNot` is `existsByCnpj` on the table without that id. Under uniqueness, a company's own CNPJ does not count. |
| EmpresaRepository.FindByCnpj | backend/src/main/java/com/desafio/fullstack/repository/EmpresaRepository.java:16 | It finds a row exactly when one exists with that CNPJ. |
| EmpresaRepository.FindByCnpjUnique | backend/src/main/java/com/desafio/fullstack/repository/EmpresaRepository.java:16 | Under uniqueness, looking up a company's CNPJ finds that company. |
| EmpresaRepository.MatchesSearch | backend/src/main/java/com/desafio/fullstack/repository/EmpresaRepository.java:23-25 | The query's condition: a null or empty search, `LOWER(nomeFantasia)` containing `LOWER(search)`, or the CNPJ containing the search. |
| EmpresaRepository.FindBySearch | backend/src/main/java/com/desafio/fullstack/repository/EmpresaRepository.java:22-26 | A null or empty search returns every company. Otherwise a company is returned exactly when its name contains the search ignoring case, or its CNPJ contains it. |
| EmpresaRepository.SearchFindsOwnKeys | backend/src/main/java/com/desafio/fullstack/repository/EmpresaRepository.java:22-26 | Searching for a company's CNPJ, or for its name in any case, finds it. |
| FornecedorRepository.ExistsByCpfCnpj | backend/src/main/java/com/desafio/fullstack/repository/FornecedorRepository.java:18 | Some stored supplier has exactly that document. |
| FornecedorRepository.ExistsByCpfCnpjAndIdNot | backend/src/main/java/com/desafio/fullstack/repository/FornecedorRepository.java:20 | Some stored supplier other than that id has exactly that document. |
| FornecedorRepository.OwnCpfCnpjDoesNotCount | backend/src/main/java/com/desafio/fullstack/repository/FornecedorRepository.java:18-20 | `existsByCpfCnpjAndIdNot` is `existsByCpfCnpj` without that id. Under uniqueness, a supplier's own document does not count. |
| FornecedorRepository.FindByCpfCnpj | backend/src/main/java/com/desafio/fullstack/repository/FornecedorRepository.java:16 | It finds a row exactly when one exists with that document. |
| FornecedorRepository.NomeAccepts | backend/src/main/java/com/desafio/fullstack/repository/FornecedorRepository.java:23 | The name filter: null or empty, or `LOWER(nome)` contains `LOWER(filter)`. |
| FornecedorRepository.CpfCnpjAccepts | backend/src/main/java/com/desafio/fullstack/repository/FornecedorRepository.java:24 | The document filter: null or empty, or the document contains the filter as written. |
| FornecedorRepository.FindByFilters | backend/src/main/java/com/desafio/fullstack/repository/FornecedorRepository.java:22-29 | A supplier is returned exactly when it passes both filters: a null or empty filter keeps everyone, the name filter is a substring ignoring case, and the document filter is a substring as written. |
| FornecedorRepository.FiltersIntersect | backend/src/main/java/com/desafio/fullstack/repository/FornecedorRepository.java:22-24 | The two filters are independent and combine by intersection. With no filters, every supplier is returned. |
| FornecedorRepository.FiltersFindOwnKeys | backend/src/main/java/com/desafio/fullstack/repository/FornecedorRepository.java:22-24 | Filtering by a supplier's name, in any case, and its document finds it. |
| Entities.ShapeOk | backend/src/main/java/com/desafio/fullstack/service/FornecedorService.java:107-121 | An individual has a document of `length()` 11, a non-blank RG and a birth date; an organisation a document of `length()` 14. |
| Persistence.Database.constructor | backend/src/main/java/com/desafio/fullstack/entity/Empresa.java:47-54 | An empty store, with both counters at 1, satisfies the invariant. |
| Persistence.Database.FornecedoresDe | backend/src/main/java/com/desafio/fullstack/entity/Empresa.java:47-54 | The suppliers of a company are exactly the pairs in the join table for it. |
| Persistence.Database.EmpresasDe | backend/src/main/java/com/desafio/fullstack/entity/Fornecedor.java:64-66 | The companies of a supplier are the same join table read from the other side. |
| Persistence.LinkVisibleFromBothSides | backend/src/main/java/com/desafio/fullstack/entity/Fornecedor.java:64-66 | `mappedBy`: a link is visible from the company exactly when it is visible from the supplier. |
| EmpresaService.GetEmpresaOrThrow | backend/src/main/java/com/desafio/fullstack/service/EmpresaService.java:153-156 | The stored company, or NotFound("Empresa", id) exactly when the id is absent. |
| EmpresaService.UfIsParana | backend/src/main/java/com/desafio/fullstack/service/EmpresaService.java:137 | `"PR".equalsIgnoreCase(uf)`, false for a null `uf`. |
| EmpresaService.MenorParanaMessage | backend/src/main/java/com/desafio/fullstack/service/EmpresaService.java:143-146 | The refusal text with the computed age printed in decimal. |
| EmpresaService.Create | backend/src/main/java/com/desafio/fullstack/service/EmpresaService.java:44-69 | A duplicate CNPJ is refused first, then an invalid CEP with "CEP inválido: " + the lookup's message. A failure changes nothing. On success, a fresh id holds the request's fields and the lookup's address. The invariant is kept. |
| EmpresaService.Update | backend/src/main/java/com/desafio/fullstack/service/EmpresaService.java:71-96 | Checks run in order: NotFound, then a CNPJ held by another company, then the CEP. On success, only that row is replaced. The invariant is kept. |
| EmpresaService.Delete | backend/src/main/java/com/desafio/fullstack/service/EmpresaService.java:98-103 | NotFound for an absent id. Otherwise the company's links are cleared, the company is removed, and nothing else changes. |
| EmpresaService.ValidarFornecedorMenorParana | backend/src/main/java/com/desafio/fullstack/service/EmpresaService.java:136-149 | The rule fails exactly for a PR company (ignoring case), an individual with a birth date, and a `Period` age under 18. The message carries that age. |
| EmpresaService.MenorParanaByBirthday | backend/src/main/java/com/desafio/fullstack/service/EmpresaService.java:136-149 | For real dates, the link is refused exactly when the 18th birthday is still ahead; on the birthday it is allowed. |
| EmpresaService.MenorParanaMessageWording | backend/src/main/java/com/desafio/fullstack/service/EmpresaService.java:143-146 | The refusal mentions "Paraná" and "menor de idade". |
| EmpresaService.ParanaRuleMatchesEstadoTable | backend/src/main/java/com/desafio/fullstack/service/EmpresaService.java:137 | The hard-coded "PR" test agrees with the `Estado` table: exactly the state that forbids under-age suppliers. |
| EmpresaService.VincularFornecedor | backend/src/main/java/com/desafio/fullstack/service/EmpresaService.java:105-117 | Checks run in order: company, supplier, then the age rule. On success, the pair is added, so linking twice changes nothing. The invariant is kept. |
| EmpresaService.DesvincularFornecedor | backend/src/main/java/com/desafio/fullstack/service/EmpresaService.java:119-128 | Company, then supplier, must exist. On success, exactly that pair is removed, even if it was never linked. |
| FornecedorService.ValidarRequest | backend/src/main/java/com/desafio/fullstack/service/FornecedorService.java:99-122 | It passes exactly when there is no duplicate (any holder on create, another supplier on update) and the shape fits the type: a document whose `length()` is 11 with a non-blank RG and a birth date, or one whose `length()` is 14. Otherwise the first failing check's message is returned. |
| FornecedorService.UpdateMayKeepOwnDocument | backend/src/main/java/com/desafio/fullstack/service/FornecedorService.java:100-105 | An update may keep the supplier's own document; a create with the same document is refused. |
| FornecedorService.ValidatedDocumentOfWrongType | backend/src/main/java/com/desafio/fullstack/service/FornecedorService.java:107-121 | A request that passed Bean Validation is a digit string, so `length()` counts its digits: an individual with 14 digits is refused with the CPF message, and an organisation passes exactly when it has 14 digits. |
| FornecedorService.GetFornecedorOrThrow | backend/src/main/java/com/desafio/fullstack/service/FornecedorService.java:125-128 | The stored supplier, or NotFound("Fornecedor", id) exactly when the id is absent. The company service's link and unlink look suppliers up the same way (`EmpresaService.java:108-109`, `122-123`). |
| FornecedorService.Create | backend/src/main/java/com/desafio/fullstack/service/FornecedorService.java:39-64 | `validarRequest` runs first, then the CEP check. A failure changes nothing. On success, a fresh id holds every request field and the lookup's address. The invariant is kept. |
| FornecedorService.Update | backend/src/main/java/com/desafio/fullstack/service/FornecedorService.java:66-90 | NotFound is checked before validation, then the CEP. On success, every field of that row is replaced and the others are untouched. The invariant is kept. |
| FornecedorService.Delete | backend/src/main/java/com/desafio/fullstack/service/FornecedorService.java:92-97 | The supplier is removed from each of its companies in a loop, then deleted. Exactly the links with that supplier are gone. |
| FrontendCepService.TextOr | frontend/src/app/services/cep.service.ts:52-55 | Defaulting a field to '' keeps a string value and gives '' for anything else. |
| FrontendCepService.Rejected | frontend/src/app/services/cep.service.ts:15-23 | An invalid answer built in the service has empty address fields and a message. |
| FrontendCepService.ConsultarViaCepDireto | frontend/src/app/services/cep.service.ts:34-71 | A truthy `erro` gives "CEP não encontrado". A null body or an HTTP error gives "Erro ao consultar CEP". Otherwise the answer is valid, the city comes from `localidade`, and missing fields become ''. |
| FrontendCepService.Consultar | frontend/src/app/services/cep.service.ts:11-31 | A code without 8 digits is refused, normalised, with no request. Otherwise the backend is asked first; its answer is passed through, even when invalid. Only an HTTP error triggers the direct ViaCEP call. |
| FrontendCepService.FormatRuleSharedWithBackend | frontend/src/app/services/cep.service.ts:12-24 | The frontend and the backend refuse the same codes without a request, with the same message. The frontend reports the normalised code; the backend reports the code as typed. |
| FrontendCepService.ValidNeedsARequest | frontend/src/app/services/cep.service.ts:11-31 | A valid answer needs 8 digits and either a valid backend answer or a ViaCEP body. |
| FrontendCepService.DirectLookupAgreesWithBackend | frontend/src/app/services/cep.service.ts:50-57 | On a ViaCEP body of strings, the direct lookup reads the same address as the backend's ViaCEP call. |
| FrontendCepService.ErroFlagReadings | frontend/src/app/services/cep.service.ts:39 | The two tiers agree on a boolean `erro` and on "true". The text "false" is not found for the frontend but valid for the backend. |
| CepFormatPipe.Transform | frontend/src/app/pipes/cep-format.pipe.ts:5-11 | '' maps to ''. Text with exactly 8 digits becomes 9 characters with '-' at position 5, and removing the '-' gives the digits. Any other text is returned unchanged. |
| CepFormatPipe.TransformKeepsDigits | frontend/src/app/pipes/cep-format.pipe.ts:7-9 | The output's digits are the input's digits, in order. |
| CepFormatPipe.TransformIdempotent | frontend/src/app/pipes/cep-format.pipe.ts:5-11 | `transform(transform(v)) == transform(v)`. |
| CepFormatPipe.FormattedCodeLooksUpTheSame | frontend/src/app/pipes/cep-format.pipe.ts:7-9 | A formatted code gets the same backend lookup as the code it came from. |
| Notifications.WithoutId | frontend/src/app/services/notification.service.ts:41-44 | The filter keeps exactly the entries whose id differs, and never grows the list. |
| Notifications.WithoutIdAppend | frontend/src/app/services/notification.service.ts:42 | The filter works entry by entry, so survivors keep their relative order. |
| Notifications.WithoutAbsentId | frontend/src/app/services/notification.service.ts:41-44 | Removing an id that is not present leaves the list unchanged. |
| Notifications.WithoutIdKeepsIncreasing | frontend/src/app/services/notification.service.ts:41-44 | Removal keeps the ids strictly increasing. |
| Notifications.WithoutPresentIdDropsOne | frontend/src/app/services/notification.service.ts:41-44 | With distinct ids, removing a present id drops exactly one entry. |
| Notifications.RemoveUndoesShow | frontend/src/app/services/notification.service.ts:36-38 | Removing a just-shown id restores the list as it was before `show`. |
| Notifications.NotificationService.constructor | frontend/src/app/services/notification.service.ts:12-13 | The counter starts at 0 and the list starts empty. |
| Notifications.NotificationService.Show | frontend/src/app/services/notification.service.ts:28-39 | The counter goes up by one, and the new id is appended at the end. Earlier entries are unchanged, and ids stay strictly increasing and at most the counter. |
| Notifications.NotificationService.Success | frontend/src/app/services/notification.service.ts:16-18 | It appends one 'success' entry with the message. |
| Notifications.NotificationService.Error | frontend/src/app/services/notification.service.ts:20-22 | It appends one 'error' entry with the message. |
| Notifications.NotificationService.Warning | frontend/src/app/services/notification.service.ts:24-26 | It appends one 'warning' entry with the message. |
| Notifications.NotificationService.Remove | frontend/src/app/services/notification.service.ts:41-44 | The list becomes the filtered list, the counter is unchanged, and the invariant is kept. |

## Left out

- HTTP, JSON parsing and timeouts: each provider's exchange is an input (`Network`, `BackendReply`, `ViaCepReply`); the URLs, headers and the 5 s and 10 s timeouts are not modelled.
- `LocalDate.now()`: the age rule takes `today` as a parameter.
- `findAll`, `findById`, `toResponse`, `buildPageResponse` and paging: they only copy stored fields into response objects. The search queries are modelled as sets of ids, without page order.
- Timestamps (`criadoEm`, `atualizadoEm`) and column lengths: these are database constraints, not service logic.
- `@Email`: the e-mail format check is not modelled; the e-mail only has to be non-blank.
- Null request fields: Bean Validation rejects them before the services run, so the request's required fields are plain strings.
- `LIKE` wildcards: a `%` or `_` typed into a search is treated as a literal character.
- Text.EqualsIgnoreCase: exact when the left-hand string is ASCII letters, as in every call here (state names and "PR"). For other left-hand characters, Java's per-character upper- and lower-case comparison is not modelled.
- Text.Lower: folds only ASCII and Latin-1 capitals. The capitals of other scripts (Greek, Cyrillic, Latin Extended) are kept, because how far `LOWER` folds them depends on the database.
- EmpresaRepository.FindBySearch: names with capitals outside ASCII and Latin-1 are matched as `Text.Lower` leaves them, so a database that folds those scripts may return more rows.
- FornecedorRepository.FindByFilters: the name filter has the same limit as `EmpresaRepository.FindBySearch`.
- The text of `ResourceNotFoundException` ("… com ID … não encontrado(a)") is not built: a not-found failure carries the resource name and the id.
- CepFormatPipe.Transform: a `null` or `undefined` value (the `!value` test) is not modelled, because the parameter is always a string. The empty string takes that branch.
- Jackson's floating-point and big-number nodes: the JSON model has integers, strings, booleans, null, arrays and objects.
- Entities are values: an update replaces the stored row with a copy whose fields are set. JPA identity and lazy collections are not modelled.
- Transactions: each service method either fails without changing the store or completes.
- The notification service's 5 s `setTimeout` auto-removal: its effect is stated by `Notifications.RemoveUndoesShow`, not scheduled.
- The notification `Info` kind has no public method in the source, so it is never produced here either.
- FrontendCepService.ConsultarViaCepDireto: a truthy non-string ViaCEP field (a number, say) is carried as-is by the JavaScript code; the model gives ''.
- The frontend `EmpresaService` and `FornecedorService` are bare HTTP wrappers and are not part of this model.
