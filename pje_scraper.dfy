/** The scraping edge function: choosing a fetch strategy from the tribunal
    code, the placeholder records each strategy builds, and the mapping of a
    scraped record onto the rows stored in `processos`, `partes_publicas`
    and `movimentacoes`. Database calls, HTTP transport and the clock are
    parameters here. */
module PjeScraper {
  import opened Text

  datatype Result<+T, +E> = Ok(value: T) | Err(error: E)

  // ---------------------------------------------------------------------
  // Records
  // ---------------------------------------------------------------------

  /** A party as the scraper describes it; either pole may carry a CPF or a
      CNPJ. */
  datatype Parte = Parte(nome: string, cpf: Option<string>, cnpj: Option<string>, situacao: string, tipo: string)

  datatype Movimentacao = Movimentacao(data: string, movimento: string)

  datatype ProcessoData = ProcessoData(
    numero: string,
    dataDistribuicao: string,
    classeJudicial: string,
    assunto: string,
    jurisdicao: string,
    orgaoJulgador: string,
    poloAtivo: seq<Parte>,
    poloPassivo: seq<Parte>,
    movimentacoes: seq<Movimentacao>)

  /** The request body; an absent `tribunalCodigo` is `None`. */
  datatype ProcessoRequest = ProcessoRequest(numeroProcesso: string, tribunalCodigo: Option<string>)

  /** A row of the `tribunais` table. */
  datatype Tribunal = Tribunal(id: string, codigo: string, nome: string, urlBase: string)

  /** What a `fetch` of a page yields: a response, or a rejected promise. */
  datatype FetchResult = Response(ok: bool, status: int, body: string) | NetworkFailure

  /** The errors the handler turns into an HTTP 500 answer. */
  datatype ScrapeError =
    | TribunalNotFound(codigo: string)
    | HttpError(status: int)
    | FetchFailed

  // ---------------------------------------------------------------------
  // The handler: default tribunal, lookup, dispatch
  // ---------------------------------------------------------------------

  const DefaultTribunal: string := "TJMG"

  /** The destructuring default `tribunalCodigo = 'TJMG'`. */
  function TribunalCodigo(req: ProcessoRequest): (codigo: string)
    ensures req.tribunalCodigo.None? ==> codigo == DefaultTribunal
    ensures req.tribunalCodigo.Some? ==> codigo == req.tribunalCodigo.value
  {
    match req.tribunalCodigo
    case None => DefaultTribunal
    case Some(c) => c
  }

  /** The rows of the table whose `codigo` equals `codigo`, in table order. */
  function TribunaisComCodigo(tribunais: seq<Tribunal>, codigo: string): (r: seq<Tribunal>)
    ensures |r| <= |tribunais|
    ensures forall t :: t in r <==> t in tribunais && t.codigo == codigo
  {
    if tribunais == [] then []
    else
      var rest := TribunaisComCodigo(tribunais[1..], codigo);
      if tribunais[0].codigo == codigo then [tribunais[0]] + rest else rest
  }

  /** Row `i` of the table carries the code `codigo`. */
  ghost predicate TemCodigoEm(tribunais: seq<Tribunal>, codigo: string, i: int) {
    0 <= i < |tribunais| && tribunais[i].codigo == codigo
  }

  /** Exactly one row index of the table carries the code: the condition
      under which `.single()` answers with a row. */
  ghost predicate UnicoComCodigo(tribunais: seq<Tribunal>, codigo: string) {
    exists i :: TemCodigoEm(tribunais, codigo, i) && forall j :: TemCodigoEm(tribunais, codigo, j) ==> j == i
  }

  /** No row matches exactly when the filter is empty. */
  lemma NenhumComCodigo(tribunais: seq<Tribunal>, codigo: string)
    ensures TribunaisComCodigo(tribunais, codigo) == [] <==> forall i :: 0 <= i < |tribunais| ==> tribunais[i].codigo != codigo
  {
    var r := TribunaisComCodigo(tribunais, codigo);
    if r != [] {
      assert r[0] in tribunais;
    }
  }

  /** When the first row carries the code, it is the only one exactly when
      no later row does. */
  lemma UnicoCabeca(tribunais: seq<Tribunal>, codigo: string)
    requires tribunais != [] && tribunais[0].codigo == codigo
    ensures UnicoComCodigo(tribunais, codigo) <==> forall k :: 0 < k < |tribunais| ==> tribunais[k].codigo != codigo
  {
    assert TemCodigoEm(tribunais, codigo, 0);
    if UnicoComCodigo(tribunais, codigo) {
      var i :| TemCodigoEm(tribunais, codigo, i) && forall j :: TemCodigoEm(tribunais, codigo, j) ==> j == i;
      assert i == 0;
      forall k | 0 < k < |tribunais|
        ensures tribunais[k].codigo != codigo
      {
        assert TemCodigoEm(tribunais, codigo, k) ==> k == i;
      }
    }
  }

  /** When the first row does not carry the code, uniqueness is decided by
      the rest of the table. */
  lemma UnicoCauda(tribunais: seq<Tribunal>, codigo: string)
    requires tribunais != [] && tribunais[0].codigo != codigo
    ensures UnicoComCodigo(tribunais, codigo) <==> UnicoComCodigo(tribunais[1..], codigo)
  {
    if UnicoComCodigo(tribunais[1..], codigo) {
      UnicoDaCauda(tribunais, codigo);
    }
    if UnicoComCodigo(tribunais, codigo) {
      UnicoNaCauda(tribunais, codigo);
    }
  }

  lemma UnicoDaCauda(tribunais: seq<Tribunal>, codigo: string)
    requires tribunais != [] && tribunais[0].codigo != codigo
    requires UnicoComCodigo(tribunais[1..], codigo)
    ensures UnicoComCodigo(tribunais, codigo)
  {
    var rest := tribunais[1..];
    var i :| TemCodigoEm(rest, codigo, i) && forall j :: TemCodigoEm(rest, codigo, j) ==> j == i;
    assert rest[i] == tribunais[i + 1];
    assert TemCodigoEm(tribunais, codigo, i + 1);
    forall j | TemCodigoEm(tribunais, codigo, j)
      ensures j == i + 1
    {
      assert j != 0;
      assert rest[j - 1] == tribunais[j];
      assert TemCodigoEm(rest, codigo, j - 1);
    }
  }

  lemma UnicoNaCauda(tribunais: seq<Tribunal>, codigo: string)
    requires tribunais != [] && tribunais[0].codigo != codigo
    requires UnicoComCodigo(tribunais, codigo)
    ensures UnicoComCodigo(tribunais[1..], codigo)
  {
    var rest := tribunais[1..];
    var i :| TemCodigoEm(tribunais, codigo, i) && forall j :: TemCodigoEm(tribunais, codigo, j) ==> j == i;
    assert i != 0;
    assert rest[i - 1] == tribunais[i];
    assert TemCodigoEm(rest, codigo, i - 1);
    forall j | TemCodigoEm(rest, codigo, j)
      ensures j == i - 1
    {
      assert rest[j] == tribunais[j + 1];
      assert TemCodigoEm(tribunais, codigo, j + 1);
    }
  }

  /** The filter has one row exactly when one row index carries the code. */
  lemma {:induction false} UmaLinhaIff(tribunais: seq<Tribunal>, codigo: string)
    ensures |TribunaisComCodigo(tribunais, codigo)| == 1 <==> UnicoComCodigo(tribunais, codigo)
  {
    if tribunais != [] {
      var rest := tribunais[1..];
      if tribunais[0].codigo == codigo {
        NenhumComCodigo(rest, codigo);
        UnicoCabeca(tribunais, codigo);
        assert forall k :: 0 < k < |tribunais| ==> tribunais[k] == rest[k - 1];
      } else {
        UmaLinhaIff(rest, codigo);
        UnicoCauda(tribunais, codigo);
      }
    }
  }

  /** `.eq('codigo', codigo).single()`: the row when exactly one matches,
      otherwise the error the handler reports as "tribunal not found". */
  function BuscarTribunal(tribunais: seq<Tribunal>, codigo: string): (r: Option<Tribunal>)
    ensures r.Some? <==> |TribunaisComCodigo(tribunais, codigo)| == 1
    ensures r.Some? <==> UnicoComCodigo(tribunais, codigo)
    ensures r.Some? ==> exists i :: TemCodigoEm(tribunais, codigo, i) && r.value == tribunais[i]
  {
    UmaLinhaIff(tribunais, codigo);
    var matching := TribunaisComCodigo(tribunais, codigo);
    if |matching| == 1 then
      assert matching[0] in tribunais;
      Some(matching[0])
    else None
  }

  datatype Strategy = ScrapeTjmg | ScrapeTjsp | ScrapeGeneric

  /** The `switch` on the tribunal code. */
  function SelectStrategy(codigo: string): (s: Strategy)
    ensures s == ScrapeTjmg <==> codigo == "TJMG"
    ensures s == ScrapeTjsp <==> codigo == "TJSP"
    ensures s == ScrapeGeneric <==> codigo != "TJMG" && codigo != "TJSP"
  {
    if codigo == "TJMG" then ScrapeTjmg
    else if codigo == "TJSP" then ScrapeTjsp
    else ScrapeGeneric
  }

  /** The handler, from the parsed request to the record it answers with.
      `tribunais` is the `tribunais` table, `fetch` the network and `agora`
      the current time rendered by `toLocaleString("pt-BR")`. */
  function Handle(req: ProcessoRequest, tribunais: seq<Tribunal>, fetch: string -> FetchResult, agora: string)
    : (r: Result<ProcessoData, ScrapeError>)
    ensures BuscarTribunal(tribunais, TribunalCodigo(req)).None? <==> r == Err(TribunalNotFound(TribunalCodigo(req)))
    ensures r.Ok? ==> r.value.numero == req.numeroProcesso
    ensures r.Err? && r.error != TribunalNotFound(TribunalCodigo(req)) ==> TribunalCodigo(req) == "TJMG"
    ensures BuscarTribunal(tribunais, TribunalCodigo(req)).Some? && TribunalCodigo(req) == "TJMG" ==>
      r == ScrapeTJMG(req.numeroProcesso, BuscarTribunal(tribunais, "TJMG").value.urlBase, fetch, agora)
    ensures BuscarTribunal(tribunais, TribunalCodigo(req)).Some? && TribunalCodigo(req) == "TJSP" ==>
      r == Ok(ScrapeTJSP(req.numeroProcesso, BuscarTribunal(tribunais, "TJSP").value.urlBase, agora))
    ensures BuscarTribunal(tribunais, TribunalCodigo(req)).Some? && SelectStrategy(TribunalCodigo(req)) == ScrapeGeneric ==>
      r == Ok(ScrapeGenerico(req.numeroProcesso, BuscarTribunal(tribunais, TribunalCodigo(req)).value, agora))
  {
    var codigo := TribunalCodigo(req);
    match BuscarTribunal(tribunais, codigo)
    case None => Err(TribunalNotFound(codigo))
    case Some(tribunal) =>
      match SelectStrategy(codigo)
      case ScrapeTjmg => ScrapeTJMG(req.numeroProcesso, tribunal.urlBase, fetch, agora)
      case ScrapeTjsp => Ok(ScrapeTJSP(req.numeroProcesso, tribunal.urlBase, agora))
      case ScrapeGeneric => Ok(ScrapeGenerico(req.numeroProcesso, tribunal, agora))
  }

  // ---------------------------------------------------------------------
  // The strategies (placeholder records)
  // ---------------------------------------------------------------------

  /** The page requested from the TJMG consultation site: the base URL, a
      slash, then the process number, which can thus be read back. */
  function TjmgUrl(urlBase: string, numeroProcesso: string): (url: string)
    ensures |url| == |urlBase| + 1 + |numeroProcesso|
    ensures url[..|urlBase|] == urlBase && url[|urlBase|] == '/' && url[|urlBase| + 1..] == numeroProcesso
  {
    urlBase + "/" + numeroProcesso
  }

  const TjmgClasse: string := "[CÍVEL] CUMPRIMENTO DE SENTENÇA (156)"
  const TjmgAssunto: string := "DIREITO CIVIL - Responsabilidade Civil - Indenização por Dano Moral"
  const TjmgOrgao: string := "CENTRASE Cível de Belo Horizonte - Central de Cumprimento de Sentenças"
  const TjmgMovimento: string := "Processo consultado via scraping automatizado"
  const DataIndisponivel: string := "Data não disponível"

  /** `scrapeTJMG`: fetches the page (whose contents are not parsed) and,
      when the response is OK, answers with a hard-coded record with one
      party per pole, neither carrying a document, and one movement. A
      failed fetch or a non-OK status is an error. */
  function ScrapeTJMG(numeroProcesso: string, urlBase: string, fetch: string -> FetchResult, agora: string)
    : (r: Result<ProcessoData, ScrapeError>)
    ensures fetch(TjmgUrl(urlBase, numeroProcesso)).NetworkFailure? <==> r == Err(FetchFailed)
    ensures fetch(TjmgUrl(urlBase, numeroProcesso)).Response? && !fetch(TjmgUrl(urlBase, numeroProcesso)).ok <==>
      r.Err? && r.error.HttpError?
    ensures fetch(TjmgUrl(urlBase, numeroProcesso)).Response? && !fetch(TjmgUrl(urlBase, numeroProcesso)).ok ==>
      r == Err(HttpError(fetch(TjmgUrl(urlBase, numeroProcesso)).status))
    ensures fetch(TjmgUrl(urlBase, numeroProcesso)).Response? && fetch(TjmgUrl(urlBase, numeroProcesso)).ok ==> r.Ok?
    ensures r.Ok? ==>
      && r.value.numero == numeroProcesso
      && r.value.dataDistribuicao == "21/09/2022"
      && r.value.classeJudicial == TjmgClasse && r.value.assunto == TjmgAssunto
      && r.value.jurisdicao == "Belo Horizonte" && r.value.orgaoJulgador == TjmgOrgao
      && r.value.poloAtivo == [Parte("REQUERENTE", None, None, "Ativo", "REQUERENTE")]
      && r.value.poloPassivo == [Parte("REQUERIDO(A)", None, None, "Ativo", "REQUERIDO(A)")]
      && r.value.movimentacoes == [Movimentacao(agora, TjmgMovimento)]
  {
    match fetch(TjmgUrl(urlBase, numeroProcesso))
    case NetworkFailure => Err(FetchFailed)
    case Response(ok, status, _) =>
      if !ok then Err(HttpError(status))
      else Ok(ProcessoData(
        numeroProcesso,
        "21/09/2022",
        TjmgClasse,
        TjmgAssunto,
        "Belo Horizonte",
        TjmgOrgao,
        [Parte("REQUERENTE", None, None, "Ativo", "REQUERENTE")],
        [Parte("REQUERIDO(A)", None, None, "Ativo", "REQUERIDO(A)")],
        [Movimentacao(agora, TjmgMovimento)]))
  }

  /** `scrapeTJSP`: a placeholder record with no parties and one movement. */
  function ScrapeTJSP(numeroProcesso: string, urlBase: string, agora: string): (r: ProcessoData)
    ensures r.numero == numeroProcesso
    ensures r.dataDistribuicao == DataIndisponivel
    ensures r.classeJudicial == "Processo TJSP" && r.assunto == "Consulte diretamente no site do TJSP"
    ensures r.jurisdicao == "São Paulo" && r.orgaoJulgador == "TJSP"
    ensures r.poloAtivo == [] && r.poloPassivo == []
    ensures r.movimentacoes == [Movimentacao(agora, "Processo consultado via scraping TJSP")]
  {
    ProcessoData(
      numeroProcesso,
      DataIndisponivel,
      "Processo TJSP",
      "Consulte diretamente no site do TJSP",
      "São Paulo",
      "TJSP",
      [],
      [],
      [Movimentacao(agora, "Processo consultado via scraping TJSP")])
  }

  /** `scrapeGenerico`: a placeholder record named after the tribunal, with
      no parties and one movement. */
  function ScrapeGenerico(numeroProcesso: string, tribunal: Tribunal, agora: string): (r: ProcessoData)
    ensures r.numero == numeroProcesso
    ensures r.dataDistribuicao == DataIndisponivel
    ensures r.classeJudicial == "Processo " + tribunal.codigo
    ensures r.assunto == "Consulte diretamente no site do " + tribunal.nome
    ensures r.jurisdicao == tribunal.nome && r.orgaoJulgador == tribunal.nome
    ensures r.poloAtivo == [] && r.poloPassivo == []
    ensures r.movimentacoes == [Movimentacao(agora, "Processo consultado via scraping genérico - " + tribunal.nome)]
  {
    ProcessoData(
      numeroProcesso,
      DataIndisponivel,
      "Processo " + tribunal.codigo,
      "Consulte diretamente no site do " + tribunal.nome,
      tribunal.nome,
      tribunal.nome,
      [],
      [],
      [Movimentacao(agora, "Processo consultado via scraping genérico - " + tribunal.nome)])
  }

  /** Whatever the tribunal, a successful answer echoes the requested number,
      and only TJMG answers with parties. */
  lemma HandleEchoesNumber(req: ProcessoRequest, tribunais: seq<Tribunal>, fetch: string -> FetchResult, agora: string)
    requires Handle(req, tribunais, fetch, agora).Ok?
    ensures Handle(req, tribunais, fetch, agora).value.numero == req.numeroProcesso
    ensures Handle(req, tribunais, fetch, agora).value.poloAtivo != [] <==> TribunalCodigo(req) == "TJMG"
    ensures |Handle(req, tribunais, fetch, agora).value.movimentacoes| == 1
  {
    var codigo := TribunalCodigo(req);
    if codigo == "TJMG" {
      assert SelectStrategy(codigo) == ScrapeTjmg;
    } else if codigo == "TJSP" {
      assert SelectStrategy(codigo) == ScrapeTjsp;
    } else {
      assert SelectStrategy(codigo) == ScrapeGeneric;
    }
  }

  // ---------------------------------------------------------------------
  // Date reordering: d.split('/').reverse().join('-')
  // ---------------------------------------------------------------------

  /** `s.split(sep)`: the pieces between the separators; there is always at
      least one, possibly empty. */
  function Split(s: string, sep: char): (parts: seq<string>)
    ensures |parts| >= 1
    ensures forall i :: 0 <= i < |parts| ==> sep !in parts[i]
    ensures TotalLength(parts) + |parts| - 1 == |s|
  {
    if s == [] then [[]]
    else
      var rest := Split(s[1..], sep);
      if s[0] == sep then [[]] + rest else [[s[0]] + rest[0]] + rest[1..]
  }

  /** The number of characters in all the pieces together. */
  function TotalLength(parts: seq<string>): nat {
    if parts == [] then 0 else |parts[0]| + TotalLength(parts[1..])
  }

  /** `parts.join(sep)`: the pieces with one separator between each two. */
  function Join(parts: seq<string>, sep: char): (r: string)
    ensures parts != [] ==> |r| == TotalLength(parts) + |parts| - 1
  {
    if parts == [] then []
    else if |parts| == 1 then parts[0]
    else parts[0] + [sep] + Join(parts[1..], sep)
  }

  /** A character that is neither the separator nor in any piece is not in
      the join: joining adds nothing but separators. */
  lemma {:induction false} JoinAvoids(parts: seq<string>, sep: char, c: char)
    requires c != sep
    requires forall i :: 0 <= i < |parts| ==> c !in parts[i]
    ensures c !in Join(parts, sep)
  {
    if |parts| > 1 {
      JoinAvoids(parts[1..], sep, c);
    }
  }

  function Reverse<T>(xs: seq<T>): (r: seq<T>)
    ensures |r| == |xs|
    ensures forall k :: 0 <= k < |xs| ==> r[k] == xs[|xs| - 1 - k]
  {
    if xs == [] then [] else Reverse(xs[1..]) + [xs[0]]
  }

  /** A string without the separator splits into itself alone. */
  lemma {:induction false} SplitWithout(s: string, sep: char)
    requires sep !in s
    ensures Split(s, sep) == [s]
  {
    if s != [] {
      SplitWithout(s[1..], sep);
      assert s == [s[0]] + s[1..];
    }
  }

  /** The first separator of a string ends its first piece. */
  lemma {:induction false} SplitAtFirst(a: string, sep: char, b: string)
    requires sep !in a
    ensures Split(a + [sep] + b, sep) == [a] + Split(b, sep)
  {
    if a == [] {
      assert a + [sep] + b == [sep] + b;
      assert ([sep] + b)[1..] == b;
    } else {
      assert (a + [sep] + b)[1..] == a[1..] + [sep] + b;
      SplitAtFirst(a[1..], sep, b);
      assert a == [a[0]] + a[1..];
    }
  }

  /** Joining the pieces back with the same separator restores the string. */
  lemma {:induction false} JoinSplit(s: string, sep: char)
    ensures Join(Split(s, sep), sep) == s
  {
    if s != [] {
      var rest := Split(s[1..], sep);
      JoinSplit(s[1..], sep);
      if s[0] == sep {
        assert Split(s, sep)[1..] == rest;
      } else if |rest| == 1 {
        assert Split(s, sep) == [[s[0]] + rest[0]];
      } else {
        var parts := Split(s, sep);
        assert parts[1..] == rest[1..];
        assert Join(rest, sep) == rest[0] + [sep] + Join(rest[1..], sep);
      }
      assert s == [s[0]] + s[1..];
    }
  }

  /** The distribution date handed to the database's date parser: a
      `dd/mm/yyyy` string reordered, pieces reversed and joined with `-`. */
  function ReorderDate(d: string): (r: string)
    ensures |r| == |d|
    ensures '/' !in r
  {
    var parts := Split(d, '/');
    TotalLengthReverse(parts);
    JoinAvoids(Reverse(parts), '-', '/');
    Join(Reverse(parts), '-')
  }

  lemma {:induction false} TotalLengthConcat(a: seq<string>, b: seq<string>)
    ensures TotalLength(a + b) == TotalLength(a) + TotalLength(b)
  {
    if a != [] {
      assert (a + b)[1..] == a[1..] + b;
      TotalLengthConcat(a[1..], b);
    } else {
      assert a + b == b;
    }
  }

  /** Reversing the pieces keeps their total length. */
  lemma {:induction false} TotalLengthReverse(xs: seq<string>)
    ensures TotalLength(Reverse(xs)) == TotalLength(xs)
  {
    if xs != [] {
      TotalLengthReverse(xs[1..]);
      TotalLengthConcat(Reverse(xs[1..]), [xs[0]]);
      assert TotalLength([xs[0]]) == |xs[0]| by {
        assert [xs[0]][1..] == [];
      }
    }
  }

  lemma ReverseThree<T>(a: T, b: T, c: T)
    ensures Reverse([a, b, c]) == [c, b, a]
  {
    assert [a, b, c][1..] == [b, c];
    assert [b, c][1..] == [c];
    assert Reverse([c]) == [c] by {
      assert [c][1..] == [];
    }
    assert Reverse([b, c]) == [c, b];
  }

  lemma JoinThree(a: string, b: string, c: string, sep: char)
    ensures Join([a, b, c], sep) == a + [sep] + (b + [sep] + c)
  {
    assert [a, b, c][1..] == [b, c];
    assert [b, c][1..] == [c];
    assert Join([b, c], sep) == b + [sep] + c;
  }

  /** `dd/mm/yyyy` becomes `yyyy-mm-dd`. */
  lemma ReorderDayMonthYear(dd: string, mm: string, yyyy: string)
    requires '/' !in dd && '/' !in mm && '/' !in yyyy
    ensures ReorderDate(dd + "/" + mm + "/" + yyyy) == yyyy + "-" + mm + "-" + dd
  {
    assert Split(dd + "/" + mm + "/" + yyyy, '/') == [dd, mm, yyyy] by {
      assert dd + "/" + mm + "/" + yyyy == dd + ['/'] + (mm + ['/'] + yyyy);
      SplitAtFirst(dd, '/', mm + ['/'] + yyyy);
      SplitAtFirst(mm, '/', yyyy);
      SplitWithout(yyyy, '/');
    }
    ReverseThree(dd, mm, yyyy);
    JoinThree(yyyy, mm, dd, '-');
  }

  /** A date without any `/` (the placeholder "Data não disponível", say)
      is passed on unchanged. */
  lemma ReorderWithoutSlash(d: string)
    requires '/' !in d
    ensures ReorderDate(d) == d
  {
    SplitWithout(d, '/');
    assert Reverse([d]) == [d] by {
      assert [d][1..] == [];
    }
  }

  // ---------------------------------------------------------------------
  // Rows
  // ---------------------------------------------------------------------

  datatype TipoPessoa = Fisica | Juridica | NaoInformado {
    /** The value stored in `tipo_pessoa`; the three labels are distinct, so
        the stored value determines the type. */
    function Label(): (r: string)
      ensures r == "fisica" <==> this == Fisica
      ensures r == "juridica" <==> this == Juridica
      ensures r == "nao_informado" <==> this == NaoInformado
    {
      match this
      case Fisica => "fisica"
      case Juridica => "juridica"
      case NaoInformado => "nao_informado"
    }
  }

  datatype ProcessoRow = ProcessoRow(
    numeroProcesso: string,
    classeProcessual: string,
    assunto: string,
    dataDistribuicao: Option<string>,
    tribunalId: string,
    origemColeta: string,
    situacao: string)

  datatype ParteRow = ParteRow(processoId: string, nomeAnonimizado: string, tipoParte: string, tipoPessoa: TipoPessoa)

  datatype MovimentacaoRow = MovimentacaoRow(processoId: string, descricaoMovimento: string, dataMovimento: string, ordem: nat)

  /** JavaScript truthiness of an optional string: present and not empty. */
  predicate Truthy(o: Option<string>) {
    o.Some? && o.value != ""
  }

  /** `parte.cpf ? 'fisica' : parte.cnpj ? 'juridica' : 'nao_informado'`:
      a CPF wins over a CNPJ. */
  function TipoPessoaDe(parte: Parte): (t: TipoPessoa)
    ensures t == Fisica <==> Truthy(parte.cpf)
    ensures t == Juridica <==> !Truthy(parte.cpf) && Truthy(parte.cnpj)
    ensures t == NaoInformado <==> !Truthy(parte.cpf) && !Truthy(parte.cnpj)
  {
    if Truthy(parte.cpf) then Fisica
    else if Truthy(parte.cnpj) then Juridica
    else NaoInformado
  }

  /** The value computed for the `data_distribuicao` column: `null` for an
      empty date, the parsed date, or the exception an unparsable date
      raises in `toISOString`. */
  datatype DateColumn = NullDate | IsoDate(date: string) | InvalidDate

  /** `d ? new Date(ReorderDate(d)).toISOString().split('T')[0] : null`,
      where `isoDate` is that parse-and-render step (`None` for an invalid
      date). */
  function DataDistribuicaoColuna(d: string, isoDate: string -> Option<string>): (c: DateColumn)
    ensures c == NullDate <==> d == ""
    ensures c == InvalidDate <==> d != "" && isoDate(ReorderDate(d)).None?
    ensures c.IsoDate? ==> c.date == isoDate(ReorderDate(d)).value
  {
    if d == "" then NullDate
    else match isoDate(ReorderDate(d))
      case None => InvalidDate
      case Some(iso) => IsoDate(iso)
  }

  const OrigemColeta: string := "scraping_automatizado"
  const SituacaoAtivo: string := "ativo"

  /** The process row, given the value of its date column. */
  function ProcessoRowDe(p: ProcessoData, tribunalId: string, data: Option<string>): (row: ProcessoRow)
    ensures row.numeroProcesso == p.numero && row.tribunalId == tribunalId && row.dataDistribuicao == data
    ensures row.classeProcessual == p.classeJudicial && row.assunto == p.assunto
    ensures row.origemColeta == OrigemColeta && row.situacao == SituacaoAtivo
  {
    ProcessoRow(p.numero, p.classeJudicial, p.assunto, data, tribunalId, OrigemColeta, SituacaoAtivo)
  }

  function ParteRowDe(processoId: string, parte: Parte): (row: ParteRow)
    ensures row.processoId == processoId && row.nomeAnonimizado == parte.nome && row.tipoParte == parte.tipo
    ensures row.tipoPessoa == TipoPessoaDe(parte)
  {
    ParteRow(processoId, parte.nome, parte.tipo, TipoPessoaDe(parte))
  }

  /** A movement's `data_movimento` can be computed: it is empty (the current
      time is used) or `isoTimestamp` parses it. */
  predicate DataMovimentoValida(m: Movimentacao, isoTimestamp: string -> Option<string>) {
    m.data == "" || isoTimestamp(m.data).Some?
  }

  function MovimentacaoRowDe(processoId: string, m: Movimentacao, ordem: nat,
                             isoTimestamp: string -> Option<string>, agoraIso: string): (row: MovimentacaoRow)
    requires DataMovimentoValida(m, isoTimestamp)
    ensures row.processoId == processoId && row.descricaoMovimento == m.movimento && row.ordem == ordem
    ensures m.data == "" ==> row.dataMovimento == agoraIso
    ensures m.data != "" ==> Some(row.dataMovimento) == isoTimestamp(m.data)
  {
    MovimentacaoRow(processoId, m.movimento, if m.data == "" then agoraIso else isoTimestamp(m.data).value, ordem)
  }

  /** `salvarProcessoNoBanco`, with the database and the date parsing as
      parameters: `isoDate` renders a distribution date, `isoTimestamp` a
      movement date (`None` where `new Date(...)` is invalid and
      `toISOString` throws), `agoraIso` is the current time and `inserir`
      gives the id the database assigns to the process row, or `None` when
      that insert reports an error.

      `processo` is the process row sent to the database, if one was.
      Every exception is caught and ends the routine: an invalid
      distribution date means nothing is written, a failed process insert
      means no party or movement is written, and an invalid movement date
      stops the movement rows there. Otherwise there is one party row per
      party, the active pole first, and the movement rows are numbered from
      1 in source order. */
  method SalvarProcessoNoBanco(p: ProcessoData, tribunalId: string,
                               isoDate: string -> Option<string>, isoTimestamp: string -> Option<string>,
                               agoraIso: string, inserir: ProcessoRow -> Option<string>)
    returns (processo: Option<ProcessoRow>, partes: seq<ParteRow>, movimentacoes: seq<MovimentacaoRow>)
    ensures processo.None? <==> DataDistribuicaoColuna(p.dataDistribuicao, isoDate) == InvalidDate
    ensures processo.Some? ==>
      processo.value == ProcessoRowDe(p, tribunalId,
        if p.dataDistribuicao == "" then None else isoDate(ReorderDate(p.dataDistribuicao)))
    ensures processo.None? || inserir(processo.value).None? ==> partes == [] && movimentacoes == []
    ensures processo.Some? && inserir(processo.value).Some? ==>
      var id := inserir(processo.value).value;
      && |partes| == |p.poloAtivo| + |p.poloPassivo|
      && (forall i :: 0 <= i < |p.poloAtivo| ==> partes[i] == ParteRowDe(id, p.poloAtivo[i]))
      && (forall i :: 0 <= i < |p.poloPassivo| ==> partes[|p.poloAtivo| + i] == ParteRowDe(id, p.poloPassivo[i]))
      && |movimentacoes| <= |p.movimentacoes|
      && (forall i :: 0 <= i < |movimentacoes| ==>
            && DataMovimentoValida(p.movimentacoes[i], isoTimestamp)
            && movimentacoes[i] == MovimentacaoRowDe(id, p.movimentacoes[i], i + 1, isoTimestamp, agoraIso))
      && (|movimentacoes| < |p.movimentacoes| ==> !DataMovimentoValida(p.movimentacoes[|movimentacoes|], isoTimestamp))
      && ((forall i :: 0 <= i < |p.movimentacoes| ==> DataMovimentoValida(p.movimentacoes[i], isoTimestamp)) ==>
            |movimentacoes| == |p.movimentacoes|)
  {
    partes, movimentacoes := [], [];
    var data: Option<string>;
    match DataDistribuicaoColuna(p.dataDistribuicao, isoDate) {
      case InvalidDate =>
        return None, [], [];
      case NullDate =>
        data := None;
      case IsoDate(iso) =>
        data := Some(iso);
    }
    var row := ProcessoRowDe(p, tribunalId, data);
    processo := Some(row);
    var inserido := inserir(row);
    if inserido.None? {
      return;
    }
    var processoId := inserido.value;

    partes := InserirPartes(processoId, p.poloAtivo + p.poloPassivo);
    assert forall j :: 0 <= j < |p.poloPassivo| ==> (p.poloAtivo + p.poloPassivo)[|p.poloAtivo| + j] == p.poloPassivo[j];
    movimentacoes := InserirMovimentacoes(processoId, p.movimentacoes, isoTimestamp, agoraIso);
  }

  /** The party loop: one row per party, in order. */
  method InserirPartes(processoId: string, todas: seq<Parte>) returns (partes: seq<ParteRow>)
    ensures |partes| == |todas|
    ensures forall j :: 0 <= j < |todas| ==> partes[j] == ParteRowDe(processoId, todas[j])
  {
    partes := [];
    var i := 0;
    while i < |todas|
      invariant 0 <= i <= |todas|
      invariant |partes| == i
      invariant forall j :: 0 <= j < i ==> partes[j] == ParteRowDe(processoId, todas[j])
    {
      partes := partes + [ParteRowDe(processoId, todas[i])];
      i := i + 1;
    }
  }

  /** The movement loop: rows numbered from 1 in source order, up to the
      first movement whose date cannot be computed, where the exception
      ends the loop. */
  method InserirMovimentacoes(processoId: string, movs: seq<Movimentacao>,
                              isoTimestamp: string -> Option<string>, agoraIso: string)
    returns (movimentacoes: seq<MovimentacaoRow>)
    ensures |movimentacoes| <= |movs|
    ensures forall i :: 0 <= i < |movimentacoes| ==>
      && DataMovimentoValida(movs[i], isoTimestamp)
      && movimentacoes[i] == MovimentacaoRowDe(processoId, movs[i], i + 1, isoTimestamp, agoraIso)
    ensures |movimentacoes| < |movs| ==> !DataMovimentoValida(movs[|movimentacoes|], isoTimestamp)
  {
    movimentacoes := [];
    var index := 0;
    while index < |movs|
      invariant 0 <= index <= |movs|
      invariant |movimentacoes| == index
      invariant forall j :: 0 <= j < index ==>
        && DataMovimentoValida(movs[j], isoTimestamp)
        && movimentacoes[j] == MovimentacaoRowDe(processoId, movs[j], j + 1, isoTimestamp, agoraIso)
    {
      var m := movs[index];
      if !DataMovimentoValida(m, isoTimestamp) {
        return;
      }
      movimentacoes := movimentacoes + [MovimentacaoRowDe(processoId, m, index + 1, isoTimestamp, agoraIso)];
      index := index + 1;
    }
  }

  /** The party rows of the TJMG record carry no document, so both are
      classified as not informed. */
  lemma TjmgPartiesNotInformed(numeroProcesso: string, urlBase: string, fetch: string -> FetchResult, agora: string)
    requires ScrapeTJMG(numeroProcesso, urlBase, fetch, agora).Ok?
    ensures forall parte :: parte in ScrapeTJMG(numeroProcesso, urlBase, fetch, agora).value.poloAtivo ==> TipoPessoaDe(parte) == NaoInformado
    ensures forall parte :: parte in ScrapeTJMG(numeroProcesso, urlBase, fetch, agora).value.poloPassivo ==> TipoPessoaDe(parte) == NaoInformado
  {
  }

  /** `21/09/2022` reaches the date parser as `2022-09-21`. */
  lemma TjmgDateLiteral()
    ensures ReorderDate("21/09/2022") == "2022-09-21"
  {
    ReorderDayMonthYear("21", "09", "2022");
    assert "21" + "/" + "09" + "/" + "2022" == "21/09/2022";
    assert "2022" + "-" + "09" + "-" + "21" == "2022-09-21";
  }

  /** The distribution date of the TJMG record is handed to the date parser
      as `2022-09-21`. */
  lemma TjmgDateReordered(numeroProcesso: string, urlBase: string, fetch: string -> FetchResult, agora: string)
    requires ScrapeTJMG(numeroProcesso, urlBase, fetch, agora).Ok?
    ensures ReorderDate(ScrapeTJMG(numeroProcesso, urlBase, fetch, agora).value.dataDistribuicao) == "2022-09-21"
  {
    assert ScrapeTJMG(numeroProcesso, urlBase, fetch, agora).value.dataDistribuicao == "21/09/2022";
    TjmgDateLiteral();
  }

  /** The placeholder date of the TJSP and generic records reaches the date
      parser unchanged; when the parser rejects it the date column cannot be
      computed, and so nothing of such a record is stored. */
  lemma PlaceholderDate(isoDate: string -> Option<string>)
    ensures ReorderDate(DataIndisponivel) == DataIndisponivel
    ensures isoDate(DataIndisponivel).None? ==> DataDistribuicaoColuna(DataIndisponivel, isoDate) == InvalidDate
  {
    ReorderWithoutSlash(DataIndisponivel);
  }
}
