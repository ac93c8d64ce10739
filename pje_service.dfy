/** The browser-side process service: the canonical CNJ process-number
    formatter, the anchored layout validator, and the simulated lookup.

    A unified process number is laid out `NNNNNNN-DD.AAAA.J.TR.OOOO`:
    twenty digits in groups of 7, 2, 4, 1, 2 and 4, joined by one `-` and
    four `.` (article 1 of CNJ Resolution 65/2008). Only the layout is
    checked; the mod-97 check digits are not. */
module PjeService {
  import opened Text

  // ---------------------------------------------------------------------
  // The record shown to the user (the ProcessData interface of the UI)
  // ---------------------------------------------------------------------

  /** A party on the active pole; it may carry a CPF (person identifier). */
  datatype ActiveParty = ActiveParty(nome: string, cpf: Option<string>, situacao: string, tipo: string)

  /** A party on the passive pole; it may carry a CNPJ (organisation identifier). */
  datatype PassiveParty = PassiveParty(nome: string, cnpj: Option<string>, situacao: string, tipo: string)

  datatype Movement = Movement(data: string, movimento: string, documento: Option<string>)

  datatype ProcessData = ProcessData(
    numero: string,
    dataDistribuicao: string,
    classeJudicial: string,
    assunto: string,
    jurisdicao: string,
    orgaoJulgador: string,
    poloAtivo: seq<ActiveParty>,
    poloPassivo: seq<PassiveParty>,
    movimentacoes: seq<Movement>)

  // ---------------------------------------------------------------------
  // The layout, stated position by position
  // ---------------------------------------------------------------------

  const NumberLength: nat := 25
  const DigitCount: nat := 20

  /** The separator expected at position `i` of a formatted number, or
      `None` where a digit is expected. */
  function SeparatorAt(i: nat): Option<char> {
    if i == 7 then Some('-')
    else if i == 10 || i == 15 || i == 17 || i == 20 then Some('.')
    else None
  }

  /** Character `c` is what class `e` asks for: the literal, or a digit. */
  predicate CharFits(e: Option<char>, c: char) {
    if e.Some? then c == e.value else IsDigit(c)
  }

  /** `s` is exactly 25 characters long, with the separators in place and a
      digit in every other position. */
  predicate IsCnjLayout(s: string) {
    |s| == NumberLength && forall i :: 0 <= i < |s| ==> CharFits(SeparatorAt(i), s[i])
  }

  // ---------------------------------------------------------------------
  // validarNumeroProcesso: /^\d{7}-\d{2}\.\d{4}\.\d{1}\.\d{2}\.\d{4}$/
  // ---------------------------------------------------------------------

  /** One piece of a regular expression built only from `\d{k}` and
      literal characters. */
  datatype Token = DigitRun(count: nat) | Literal(c: char)

  const CnjPattern: seq<Token> := [
    DigitRun(7), Literal('-'), DigitRun(2), Literal('.'), DigitRun(4), Literal('.'),
    DigitRun(1), Literal('.'), DigitRun(2), Literal('.'), DigitRun(4)]

  /** The number of characters the tokens of `p` from index `t` on consume. */
  function PatternLength(p: seq<Token>, t: nat): nat
    decreases |p| - t
  {
    if t >= |p| then 0
    else match p[t]
      case DigitRun(k) => k + PatternLength(p, t + 1)
      case Literal(_) => 1 + PatternLength(p, t + 1)
  }

  /** The tokens of `p` from index `t` on match `s` from position `pos`
      up to its very end (the `$` anchor). Every repetition count is fixed,
      so the match is deterministic and needs no backtracking; a match
      consumes exactly the rest of `s`. */
  predicate MatchesFrom(p: seq<Token>, t: nat, s: string, pos: nat)
    ensures MatchesFrom(p, t, s, pos) ==> pos + PatternLength(p, t) == |s|
    decreases |p| - t
  {
    if t >= |p| then pos == |s|
    else match p[t]
      case DigitRun(k) =>
        pos + k <= |s| && (forall i :: pos <= i < pos + k ==> IsDigit(s[i])) && MatchesFrom(p, t + 1, s, pos + k)
      case Literal(c) =>
        pos < |s| && s[pos] == c && MatchesFrom(p, t + 1, s, pos + 1)
  }

  predicate DigitsBetween(s: string, lo: nat, hi: nat) {
    hi <= |s| && forall i :: lo <= i < hi ==> IsDigit(s[i])
  }

  /** The layout spelled out group by group, in the order the pattern
      reads it. */
  predicate GroupsInPlace(s: string) {
    && DigitsBetween(s, 0, 7) && 7 < |s| && s[7] == '-'
    && DigitsBetween(s, 8, 10) && 10 < |s| && s[10] == '.'
    && DigitsBetween(s, 11, 15) && 15 < |s| && s[15] == '.'
    && DigitsBetween(s, 16, 17) && 17 < |s| && s[17] == '.'
    && DigitsBetween(s, 18, 20) && 20 < |s| && s[20] == '.'
    && DigitsBetween(s, 21, 25) && |s| == 25
  }

  lemma {:induction false} CnjPatternIffGroups(s: string)
    ensures MatchesFrom(CnjPattern, 0, s, 0) <==> GroupsInPlace(s)
  {
    var p := CnjPattern;
    assert MatchesFrom(p, 10, s, 21) <==> DigitsBetween(s, 21, 25) && |s| == 25;
    assert MatchesFrom(p, 9, s, 20) <==> 20 < |s| && s[20] == '.' && MatchesFrom(p, 10, s, 21);
    assert MatchesFrom(p, 8, s, 18) <==> DigitsBetween(s, 18, 20) && MatchesFrom(p, 9, s, 20);
    assert MatchesFrom(p, 7, s, 17) <==> 17 < |s| && s[17] == '.' && MatchesFrom(p, 8, s, 18);
    assert MatchesFrom(p, 6, s, 16) <==> DigitsBetween(s, 16, 17) && MatchesFrom(p, 7, s, 17);
    assert MatchesFrom(p, 5, s, 15) <==> 15 < |s| && s[15] == '.' && MatchesFrom(p, 6, s, 16);
    assert MatchesFrom(p, 4, s, 11) <==> DigitsBetween(s, 11, 15) && MatchesFrom(p, 5, s, 15);
    assert MatchesFrom(p, 3, s, 10) <==> 10 < |s| && s[10] == '.' && MatchesFrom(p, 4, s, 11);
    assert MatchesFrom(p, 2, s, 8) <==> DigitsBetween(s, 8, 10) && MatchesFrom(p, 3, s, 10);
    assert MatchesFrom(p, 1, s, 7) <==> 7 < |s| && s[7] == '-' && MatchesFrom(p, 2, s, 8);
  }

  /** The pattern, anchored at both ends, accepts exactly the CNJ layout. */
  lemma CnjPatternIffLayout(s: string)
    ensures MatchesFrom(CnjPattern, 0, s, 0) <==> IsCnjLayout(s)
  {
    CnjPatternIffGroups(s);
    if GroupsInPlace(s) {
      assert forall i :: 0 <= i < |s| ==> CharFits(SeparatorAt(i), s[i]);
    }
  }

  /** `validarNumeroProcesso`: the anchored regular expression accepts
      exactly the strings in the CNJ layout, nothing before or after. */
  function ValidarNumeroProcesso(numero: string): (ok: bool)
    ensures ok <==> IsCnjLayout(numero)
  {
    CnjPatternIffLayout(numero);
    MatchesFrom(CnjPattern, 0, numero, 0)
  }

  // ---------------------------------------------------------------------
  // formatarNumeroProcesso
  // ---------------------------------------------------------------------

  /** Twenty digits grouped 7-2-4-1-2-4 with the fixed separators. */
  function Layout(d: string): (r: string)
    requires |d| == DigitCount
    ensures |r| == NumberLength
  {
    d[0..7] + "-" + d[7..9] + "." + d[9..13] + "." + d[13..14] + "." + d[14..16] + "." + d[16..20]
  }

  /** Position `i` of a formatted number holds the separator the layout
      asks for, or the digit of index `DigitIndex(i)`. */
  function DigitIndex(i: nat): nat {
    if i < 7 then i else if i < 10 then i - 1 else if i < 15 then i - 2
    else if i < 17 then i - 3 else if i < 20 then i - 4 else i - 5
  }

  /** The position, in a formatted number, of the digit of index `j`. */
  function DigitPosition(j: nat): nat {
    if j < 7 then j else if j < 9 then j + 1 else if j < 13 then j + 2
    else if j < 14 then j + 3 else if j < 16 then j + 4 else j + 5
  }

  lemma LayoutAt(d: string)
    requires |d| == DigitCount
    ensures |Layout(d)| == NumberLength
    ensures forall i :: 0 <= i < NumberLength && SeparatorAt(i).None? ==> DigitIndex(i) < |d| && Layout(d)[i] == d[DigitIndex(i)]
    ensures forall i :: 0 <= i < NumberLength && SeparatorAt(i).Some? ==> Layout(d)[i] == SeparatorAt(i).value
  {
  }

  /** With a non-digit between them, a run of digits and the rest strip to
      the run followed by the rest's digits. */
  lemma StripAround(a: string, c: char, b: string)
    requires AllDigits(a) && !IsDigit(c)
    ensures StripNonDigits(a + [c] + b) == a + StripNonDigits(b)
  {
    assert StripNonDigits([c] + b) == StripNonDigits(b) by {
      assert ([c] + b)[1..] == b;
    }
    assert StripNonDigits(a + ([c] + b)) == a + StripNonDigits([c] + b) by {
      StripConcat(a, [c] + b);
      StripDigitsIdentity(a);
    }
    assert a + [c] + b == a + ([c] + b);
  }

  /** The layout as a right-nested concatenation of its groups. Dafny proves
      it unaided; it is a separate step only to keep `LayoutIsCnj` small and
      stable across solver runs. */
  lemma LayoutNested(d: string)
    requires |d| == DigitCount
    ensures Layout(d) == d[0..7] + ['-'] + (d[7..9] + ['.'] + (d[9..13] + ['.'] + (d[13..14] + ['.'] + (d[14..16] + ['.'] + d[16..20]))))
  {
  }

  /** Twenty digits laid out give a string in the CNJ layout that carries
      exactly those digits. */
  lemma LayoutIsCnj(d: string)
    requires |d| == DigitCount && AllDigits(d)
    ensures IsCnjLayout(Layout(d))
    ensures StripNonDigits(Layout(d)) == d
  {
    LayoutAt(d);
    LayoutNested(d);
    var g0, g1, g2, g3, g4, g5 := d[0..7], d[7..9], d[9..13], d[13..14], d[14..16], d[16..20];
    var t4 := g4 + ['.'] + g5;
    var t3 := g3 + ['.'] + t4;
    var t2 := g2 + ['.'] + t3;
    var t1 := g1 + ['.'] + t2;
    assert StripNonDigits(t4) == g4 + g5 by {
      StripAround(g4, '.', g5);
      StripDigitsIdentity(g5);
    }
    assert StripNonDigits(t3) == g3 + (g4 + g5) by {
      StripAround(g3, '.', t4);
    }
    assert StripNonDigits(t2) == g2 + (g3 + (g4 + g5)) by {
      StripAround(g2, '.', t3);
    }
    assert StripNonDigits(t1) == g1 + (g2 + (g3 + (g4 + g5))) by {
      StripAround(g1, '.', t2);
    }
    assert StripNonDigits(Layout(d)) == g0 + (g1 + (g2 + (g3 + (g4 + g5)))) by {
      StripAround(g0, '-', t1);
    }
    assert d == g0 + (g1 + (g2 + (g3 + (g4 + g5))));
  }

  /** Conversely, every string in the CNJ layout carries twenty digits and
      is the layout of them. */
  lemma CnjLayoutDigits(s: string)
    requires IsCnjLayout(s)
    ensures |StripNonDigits(s)| == DigitCount
    ensures Layout(StripNonDigits(s)) == s
  {
    var d := seq(DigitCount, j requires 0 <= j < DigitCount => s[DigitPosition(j)]);
    assert AllDigits(d) by {
      assert forall j :: 0 <= j < DigitCount ==> SeparatorAt(DigitPosition(j)).None?;
    }
    LayoutAt(d);
    assert forall i :: 0 <= i < NumberLength && SeparatorAt(i).None? ==> DigitPosition(DigitIndex(i)) == i;
    assert Layout(d) == s;
    LayoutIsCnj(d);
  }

  /** Two strings in the CNJ layout with the same digits are the same. */
  lemma CnjLayoutUnique(a: string, b: string)
    requires IsCnjLayout(a) && IsCnjLayout(b)
    requires StripNonDigits(a) == StripNonDigits(b)
    ensures a == b
  {
    CnjLayoutDigits(a);
    CnjLayoutDigits(b);
  }

  /** `formatarNumeroProcesso`: with exactly twenty digits, the number in the
      CNJ layout holding those digits; otherwise the input itself, unchanged
      (not its stripped digits). */
  function FormatarNumeroProcesso(numero: string): (r: string)
    ensures |StripNonDigits(numero)| == DigitCount ==>
      IsCnjLayout(r) && |r| == NumberLength && StripNonDigits(r) == StripNonDigits(numero)
    ensures |StripNonDigits(numero)| != DigitCount ==> r == numero
  {
    var digits := StripNonDigits(numero);
    if |digits| == DigitCount then
      LayoutIsCnj(digits);
      Layout(digits)
    else
      numero
  }

  /** Formatting an already formatted number changes nothing. */
  lemma FormatIdempotent(numero: string)
    ensures FormatarNumeroProcesso(FormatarNumeroProcesso(numero)) == FormatarNumeroProcesso(numero)
  {
    var r := FormatarNumeroProcesso(numero);
    if |StripNonDigits(numero)| == DigitCount {
      CnjLayoutUnique(FormatarNumeroProcesso(r), r);
    }
  }

  /** A number the validator accepts is a fixed point of the formatter. */
  lemma ValidIsFormatted(numero: string)
    requires ValidarNumeroProcesso(numero)
    ensures FormatarNumeroProcesso(numero) == numero
  {
    CnjLayoutDigits(numero);
    CnjLayoutUnique(FormatarNumeroProcesso(numero), numero);
  }

  /** The formatter's output passes the validator exactly when the input
      holds twenty digits. */
  lemma FormattedIsValidIff(numero: string)
    ensures ValidarNumeroProcesso(FormatarNumeroProcesso(numero)) <==> |StripNonDigits(numero)| == DigitCount
  {
    if ValidarNumeroProcesso(FormatarNumeroProcesso(numero)) && |StripNonDigits(numero)| != DigitCount {
      CnjLayoutDigits(numero);
    }
  }

  // ---------------------------------------------------------------------
  // consultarProcesso (simulated; the network delay is not modelled)
  // ---------------------------------------------------------------------

  /** The one process number the simulation knows. */
  const KnownNumber: string := "5202268-77.2022.8.13.0024"

  /** Texts of the hard-coded record. */
  const MockClasse: string := "[CÍVEL] CUMPRIMENTO DE SENTENÇA (156)"
  const MockOrgao: string := "CENTRASE Cível de Belo Horizonte - Central de Cumprimento de Sentenças"
  const MockRequerente: string := "DIEGO LEONARDO DA SILVA ARMOND"
  const MockRequerido: string := "OI S.A. - EM RECUPERAÇÃO JUDICIAL"
  const MockAssunto: string := "DIREITO CIVIL (899) - Responsabilidade Civil (10431) - Indenização por Dano Moral (10433 DIREITO DO CONSUMIDOR (1156) - Responsabilidade do Fornecedor (6220) - Indenização por Dano Moral (7779 DIREITO DO CONSUMIDOR (1156) - Responsabilidade do Fornecedor (6220) - Indenização por Dano Material (7780"
  const MockMovimentacoes: seq<Movement> := [
    Movement("03/09/2025 13.05.25", "Juntada de Petição de petição", None),
    Movement("02/09/2025 00.26.53", "Publicado Intimação em 02/09/2025", None),
    Movement("02/09/2025 00.26.53", "Disponibilizado no DJ Eletrônico em 01/09/2025", None),
    Movement("29/08/2025 14.42.00", "Expedida/certificada a comunicação eletrônica", None),
    Movement("22/04/2025 14.57.18", "Juntada de Petição de petição", None),
    Movement("11/04/2025 13.55.11", "Juntada de Petição de petição", None),
    Movement("29/03/2025 00.29.18", "Decorrido prazo de OI S.A. - EM RECUPERAÇÃO JUDICIAL em 28/03/2025 23.59", None),
    Movement("19/03/2025 15.48.44", "Juntada de Petição de petição", None)
  ]

  /** The hard-coded record returned for the known number. */
  function MockData(numero: string): (r: ProcessData)
    ensures r.numero == numero && r.dataDistribuicao == "21/09/2022" && r.jurisdicao == "Belo Horizonte"
    ensures r.classeJudicial == MockClasse && r.assunto == MockAssunto && r.orgaoJulgador == MockOrgao
    ensures |r.poloAtivo| == 1 && r.poloAtivo[0].nome == MockRequerente && r.poloAtivo[0].cpf == Some("115.451.116-26")
    ensures |r.poloPassivo| == 1 && r.poloPassivo[0].nome == MockRequerido && r.poloPassivo[0].cnpj == Some("76.535.764/0001-43")
    ensures |r.movimentacoes| == 8 && forall m :: m in r.movimentacoes ==> m.documento.None?
  {
    ProcessData(
      numero,
      "21/09/2022",
      MockClasse,
      MockAssunto,
      "Belo Horizonte",
      MockOrgao,
      [ActiveParty(MockRequerente, Some("115.451.116-26"), "Ativo", "REQUERENTE")],
      [PassiveParty(MockRequerido, Some("76.535.764/0001-43"), "Ativo", "REQUERIDO(A)")],
      MockMovimentacoes)
  }

  /** The placeholder texts of the record returned for an unknown number. */
  const UnavailableDate: string := "Data não disponível"
  const NotFoundClass: string := "Processo não encontrado ou dados indisponíveis"
  const ConsultSiteSubject: string := "Consulte o processo diretamente no site do PJE-TJMG"
  const NotApplicable: string := "N/A"
  const SimulatedMovement: string := "Processo consultado via API simulada"

  /** `consultarProcesso`. `today` stands for the browser's current date
      rendered by `toLocaleDateString("pt-BR")`. The requested number is
      always echoed back; any number other than the known one gets the
      placeholder record with no parties and a single movement. */
  function ConsultarProcesso(numeroProcesso: string, today: string): (r: ProcessData)
    ensures r.numero == numeroProcesso
    ensures numeroProcesso == KnownNumber ==> r == MockData(KnownNumber)
    ensures (r.poloAtivo != [] || r.poloPassivo != []) <==> numeroProcesso == KnownNumber
    ensures numeroProcesso != KnownNumber ==>
      && r.poloAtivo == [] && r.poloPassivo == []
      && r.movimentacoes == [Movement(today, SimulatedMovement, None)]
      && r.dataDistribuicao == UnavailableDate
      && r.classeJudicial == NotFoundClass
      && r.assunto == ConsultSiteSubject
      && r.jurisdicao == NotApplicable && r.orgaoJulgador == NotApplicable
  {
    var mockData := MockData(numeroProcesso);
    if numeroProcesso == KnownNumber then
      mockData
    else
      mockData.(
        numero := numeroProcesso,
        dataDistribuicao := UnavailableDate,
        classeJudicial := NotFoundClass,
        assunto := ConsultSiteSubject,
        jurisdicao := NotApplicable,
        orgaoJulgador := NotApplicable,
        poloAtivo := [],
        poloPassivo := [],
        movimentacoes := [Movement(today, SimulatedMovement, None)])
  }

  /** The known number is itself a well-formed, already formatted number. */
  lemma KnownNumberIsValid()
    ensures ValidarNumeroProcesso(KnownNumber)
    ensures FormatarNumeroProcesso(KnownNumber) == KnownNumber
  {
    assert forall i :: 0 <= i < |KnownNumber| ==> CharFits(SeparatorAt(i), KnownNumber[i]);
    ValidIsFormatted(KnownNumber);
  }
}
