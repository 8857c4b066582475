/** The `Estado` enum: the 27 federative units of Brazil with their full
    names and whether a company there may link an under-age individual
    supplier. */
module Estados {
  import opened Wrappers
  import opened Text

  datatype Estado =
    | RO | AC | AM | RR | PA | AP | TO | MA | PI | CE | RN | PB | PE | AL
    | SE | BA | MG | ES | RJ | SP | PR | SC | RS | MS | MT | GO | DF

  /** `values()`: the constants in declaration order. */
  function Values(): (vs: seq<Estado>)
    ensures |vs| == 27
  {
    [RO, AC, AM, RR, PA, AP, TO, MA, PI, CE, RN, PB, PE, AL,
     SE, BA, MG, ES, RJ, SP, PR, SC, RS, MS, MT, GO, DF]
  }

  /** `ordinal()`: the position in declaration order. */
  function Ordinal(e: Estado): (k: nat)
    ensures k < 27
  {
    match e
    case RO => 0 case AC => 1 case AM => 2 case RR => 3 case PA => 4
    case AP => 5 case TO => 6 case MA => 7 case PI => 8 case CE => 9
    case RN => 10 case PB => 11 case PE => 12 case AL => 13 case SE => 14
    case BA => 15 case MG => 16 case ES => 17 case RJ => 18 case SP => 19
    case PR => 20 case SC => 21 case RS => 22 case MS => 23 case MT => 24
    case GO => 25 case DF => 26
  }

  /** `values()[e.ordinal()] == e`: every constant is listed. */
  lemma ValuesAtOrdinal(e: Estado)
    ensures Values()[Ordinal(e)] == e
  {
  }

  /** `values()[k].ordinal() == k`: no constant is listed twice. */
  lemma OrdinalOfValues(k: nat)
    requires k < 27
    ensures Ordinal(Values()[k]) == k
  {
  }

  /** There are 27 constants and their names are pairwise distinct. */
  lemma TwentySevenDistinctNames()
    ensures |Values()| == 27
    ensures forall e: Estado :: e in Values()
    ensures forall i, j | 0 <= i < j < |Values()| :: Name(Values()[i]) != Name(Values()[j])
  {
    forall e: Estado ensures e in Values() {
      ValuesAtOrdinal(e);
    }
    forall i, j | 0 <= i < j < |Values()| ensures Name(Values()[i]) != Name(Values()[j]) {
      if Name(Values()[i]) == Name(Values()[j]) {
        NamesDistinct(Values()[i], Values()[j]);
        OrdinalOfValues(i);
        OrdinalOfValues(j);
      }
    }
  }

  /** `name()`: the two-letter abbreviation (sigla). */
  function Name(e: Estado): (s: string)
    ensures |s| == 2 && 'A' <= s[0] <= 'Z' && 'A' <= s[1] <= 'Z'
  {
    match e
    case RO => "RO" case AC => "AC" case AM => "AM" case RR => "RR"
    case PA => "PA" case AP => "AP" case TO => "TO" case MA => "MA"
    case PI => "PI" case CE => "CE" case RN => "RN" case PB => "PB"
    case PE => "PE" case AL => "AL" case SE => "SE" case BA => "BA"
    case MG => "MG" case ES => "ES" case RJ => "RJ" case SP => "SP"
    case PR => "PR" case SC => "SC" case RS => "RS" case MS => "MS"
    case MT => "MT" case GO => "GO" case DF => "DF"
  }

  /** `getNome()`: the full name. */
  function Nome(e: Estado): string {
    match e
    case RO => "Rondônia" case AC => "Acre" case AM => "Amazonas"
    case RR => "Roraima" case PA => "Pará" case AP => "Amapá"
    case TO => "Tocantins" case MA => "Maranhão" case PI => "Piauí"
    case CE => "Ceará" case RN => "Rio Grande do Norte" case PB => "Paraíba"
    case PE => "Pernambuco" case AL => "Alagoas" case SE => "Sergipe"
    case BA => "Bahia" case MG => "Minas Gerais" case ES => "Espírito Santo"
    case RJ => "Rio de Janeiro" case SP => "São Paulo" case PR => "Paraná"
    case SC => "Santa Catarina" case RS => "Rio Grande do Sul"
    case MS => "Mato Grosso do Sul" case MT => "Mato Grosso"
    case GO => "Goiás" case DF => "Distrito Federal"
  }

  /** `permiteMenorIdade()`: the table's flag, false for Paraná only. */
  predicate PermiteMenorIdade(e: Estado) {
    match e
    case PR => false
    case _ => true
  }

  /** The first of `vs` whose name equals `sigla` ignoring case: the
      `filter(...).findFirst()` of `fromSigla`. */
  function FirstMatching(vs: seq<Estado>, sigla: string): (r: Option<Estado>)
    ensures r.Some? ==> r.value in vs && EqualsIgnoreCase(Name(r.value), sigla)
    ensures r.None? <==> forall e | e in vs :: !EqualsIgnoreCase(Name(e), sigla)
  {
    if vs == [] then None
    else if EqualsIgnoreCase(Name(vs[0]), sigla) then Some(vs[0])
    else FirstMatching(vs[1..], sigla)
  }

  /** `fromSigla`: the constant named `sigla` ignoring case, or
      `IllegalArgumentException("UF inválida: " + sigla)`. */
  function FromSigla(sigla: string): (r: Result<Estado, string>)
    ensures r.Ok? ==> EqualsIgnoreCase(Name(r.value), sigla)
    ensures r.Err? <==> forall e: Estado :: !EqualsIgnoreCase(Name(e), sigla)
    ensures r.Err? ==> r.error == "UF inválida: " + sigla
  {
    TwentySevenDistinctNames();
    match FirstMatching(Values(), sigla)
    case Some(e) => Ok(e)
    case None => Err("UF inválida: " + sigla)
  }

  /** Two state names equal ignoring case are equal. */
  lemma LowerInjectiveOnNames(a: Estado, b: Estado)
    requires EqualsIgnoreCase(Name(a), Name(b))
    ensures Name(a) == Name(b)
  {
    var x, y := Name(a), Name(b);
    OneCapitalPerCharacter(x[0], y[0], y[0]);
    OneCapitalPerCharacter(x[1], y[1], y[1]);
    assert x == y;
  }

  /** A sigla matches at most one state name. */
  lemma SiglaNamesOneState(a: Estado, b: Estado, sigla: string)
    requires EqualsIgnoreCase(Name(a), sigla) && EqualsIgnoreCase(Name(b), sigla)
    ensures a == b
  {
    var x, y := Name(a), Name(b);
    OneCapitalPerCharacter(x[0], y[0], sigla[0]);
    OneCapitalPerCharacter(x[1], y[1], sigla[1]);
    assert x == y;
    NamesDistinct(a, b);
  }

  /** The 27 names are pairwise distinct. */
  lemma NamesDistinct(a: Estado, b: Estado)
    requires Name(a) == Name(b)
    ensures a == b
  {
    var s := Name(a);
    assert s[0] == Name(b)[0] && s[1] == Name(b)[1];
  }

  /** Round trip: `fromSigla(e.name()) == e` for every constant. */
  lemma FromSiglaOfName(e: Estado)
    ensures FromSigla(Name(e)) == Ok(e)
  {
    EqualsIgnoreCaseReflexive(Name(e));
    FromSiglaIgnoresCase(e, Name(e));
  }

  /** Abbreviations are matched ignoring case: any spelling Java's
      `equalsIgnoreCase` accepts for the name, such as "pr" or "Pr", finds
      the constant. */
  lemma FromSiglaIgnoresCase(e: Estado, sigla: string)
    requires EqualsIgnoreCase(Name(e), sigla)
    ensures FromSigla(sigla) == Ok(e)
  {
    SiglaNamesOneState(FromSigla(sigla).value, e, sigla);
  }

  /** Java's case rule lets a dotless or dotted i stand for I and a long s
      for S, so "pı", "Pİ" and "ſp" name Piauí and São Paulo. */
  lemma FromSiglaNonAsciiLetters()
    ensures FromSigla("p\U{131}") == Ok(PI)
    ensures FromSigla("P\U{130}") == Ok(PI)
    ensures FromSigla("\U{17F}p") == Ok(SP)
  {
    var dotless, dotted, longS := "p\U{131}", "P\U{130}", "\U{17F}p";
    assert EqualsIgnoreCase(Name(PI), dotless) by {
      assert CharEqualsIgnoreCase('P', dotless[0]) && CharEqualsIgnoreCase('I', dotless[1]);
    }
    assert EqualsIgnoreCase(Name(PI), dotted) by {
      assert CharEqualsIgnoreCase('P', dotted[0]) && CharEqualsIgnoreCase('I', dotted[1]);
    }
    assert EqualsIgnoreCase(Name(SP), longS) by {
      assert CharEqualsIgnoreCase('S', longS[0]) && CharEqualsIgnoreCase('P', longS[1]);
    }
    FromSiglaIgnoresCase(PI, dotless);
    FromSiglaIgnoresCase(PI, dotted);
    FromSiglaIgnoresCase(SP, longS);
  }

  /** Paraná is the only state that forbids under-age suppliers, which is
      what the service's hard-coded "PR" comparison tests. */
  lemma OnlyParanaForbidsMinors(e: Estado)
    ensures !PermiteMenorIdade(e) <==> e == PR
    ensures !PermiteMenorIdade(e) <==> EqualsIgnoreCase("PR", Name(e))
  {
    if EqualsIgnoreCase("PR", Name(e)) {
      CapitalsEqualIgnoringCase(Name(PR), Name(e));
      NamesDistinct(e, PR);
    }
  }
}
