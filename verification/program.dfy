/**
 * The console program (`Main`): read a line, check its format, look the
 * company up, and print either the record, "not found", or the error.
 */
module Program {
  import opened Wrappers
  import opened Text
  import opened Numerals
  import opened Console
  import opened CnpjFormat
  import opened CompanyRecord
  import opened Lookup

  const Prompt := "Digite um CNPJ (somente números): "
  const InvalidMessage := "CNPJ inválido. Deve conter exatamente 14 números (sem pontos, traços ou barras)."
  const ErrorHeader := "Erro ao consultar o CNPJ:"
  const HttpErrorPrefix := "Erro HTTP: "
  const ExhaustedMessage := "Número máximo de tentativas excedido após erros de limite de requisição."

  /** The message of the exception a failed lookup throws. */
  function ErrorMessage(error: LookupError): string {
    match error
    case HttpError(code, reason) => HttpErrorPrefix + Decimal(code) + " - " + Shown(reason)
    case Exhausted => ExhaustedMessage
    case Failure(message) => message
  }

  /** The console calls an event of the lookup makes; a sleep writes nothing. */
  function Render(e: Event): seq<ConsoleCall> {
    match e
    case RateLimitWarning(attempt, max) =>
      [WriteLine("\U{26A0}\U{FE0F}  Limite de requisições excedido. Aguardando 60 segundos (tentativa "
                 + Decimal(attempt) + "/" + Decimal(max) + "):")]
    case Tick(seconds) => [Write("\rAguardando... " + Decimal(seconds) + "s  ")]
    case Delay(_) => []
    case RetryNotice => [WriteLine("\n\U{1F501} Tentando novamente...\n")]
  }

  function RenderTrace(trace: seq<Event>): seq<ConsoleCall> {
    if trace == [] then [] else RenderTrace(trace[..|trace| - 1]) + Render(trace[|trace| - 1])
  }

  /** What the program prints once the lookup has ended. */
  function Report(outcome: Outcome): seq<ConsoleCall> {
    match outcome
    case Found(record) => Present(record)
    case Thrown(error) => [WriteLine(ErrorHeader), WriteLine(ErrorMessage(error))]
  }

  /**
   * One run of the program on the line typed by the user. Returns what it
   * writes on the console and how many requests it sent.
   */
  method Run(line: string, server: nat -> Reply, decode: string -> Decoded)
    returns (out: seq<ConsoleCall>, requests: nat)
    ensures !IsCnpj(Trim(line)) ==> out == [Write(Prompt), WriteLine(InvalidMessage)] && requests == 0
    ensures IsCnpj(Trim(line)) ==>
      var r := Expected(server, decode);
      && requests == r.attempts
      && out == [Write(Prompt)] + RenderTrace(r.trace) + Report(r.outcome)
    ensures IsCnpj(Trim(line)) ==> 1 <= requests <= MaxAttempts
  {
    out := [Write(Prompt)];
    var cnpj := Trim(line);
    AcceptsExactlyCnpj(line);
    if !MatchesCnpjPattern(cnpj) {
      out := out + [WriteLine(InvalidMessage)];
      requests := 0;
      return;
    }
    var outcome, trace;
    outcome, requests, trace := ConsultarCnpjComTratamento(server, decode);
    out := out + RenderTrace(trace);
    var shown := ShowOutcome(outcome);
    out := out + shown;
  }

  /**
   * The end of `Main`: a record without a name is "not found"; a named one
   * is printed as a header and five labelled lines; an exception is printed
   * under the error header.
   */
  method ShowOutcome(outcome: Outcome) returns (out: seq<ConsoleCall>)
    ensures out == Report(outcome)
  {
    match outcome {
      case Found(record) =>
        if NotFound(record) {
          out := [WriteLine(NotFoundMessage)];
          return;
        }
        var e := record.value;
        out := [WriteLine(FoundHeader)];
        out := out + [WriteLine("Nome: " + Shown(e.nome))];
        out := out + [WriteLine("Fantasia: " + Shown(e.fantasia))];
        out := out + [WriteLine("Situação: " + Shown(e.situacao))];
        out := out + [WriteLine("Abertura: " + Shown(e.abertura))];
        out := out + [WriteLine("Endereço: " + AddressLine(e))];
      case Thrown(error) =>
        out := [WriteLine(ErrorHeader), WriteLine(ErrorMessage(error))];
    }
  }

  /** The HTTP error message starts with its prefix, then the status code, read back exactly, and ends with the reason. */
  lemma HttpErrorMessageShowsStatus(code: nat, reason: Option<string>)
    ensures var m := ErrorMessage(HttpError(code, reason));
      && HttpErrorPrefix <= m
      && ReadNumber(m[|HttpErrorPrefix|..]) == code
      && m[|m| - |Shown(reason)|..] == Shown(reason)
  {
    var m := ErrorMessage(HttpError(code, reason));
    var rest := " - " + Shown(reason);
    assert m[|HttpErrorPrefix|..] == Decimal(code) + rest;
    ReadNumberOfDecimal(code, rest);
  }

  /** Two different status codes never give the same HTTP error message. */
  lemma HttpErrorMessagesDiffer(c1: nat, c2: nat, reason: Option<string>)
    requires c1 != c2
    ensures ErrorMessage(HttpError(c1, reason)) != ErrorMessage(HttpError(c2, reason))
  {
    HttpErrorMessageShowsStatus(c1, reason);
    HttpErrorMessageShowsStatus(c2, reason);
  }

  /** The rate-limit warning shows the attempt number read back exactly. */
  lemma WarningShowsAttempt(attempt: nat, max: nat)
    ensures var calls := Render(RateLimitWarning(attempt, max));
      var prefix := "\U{26A0}\U{FE0F}  Limite de requisições excedido. Aguardando 60 segundos (tentativa ";
      && |calls| == 1 && calls[0].WriteLine?
      && prefix <= calls[0].text
      && ReadNumber(calls[0].text[|prefix|..]) == attempt
  {
    var prefix := "\U{26A0}\U{FE0F}  Limite de requisições excedido. Aguardando 60 segundos (tentativa ";
    var rest := "/" + Decimal(max) + "):";
    var text := Render(RateLimitWarning(attempt, max))[0].text;
    assert text == prefix + (Decimal(attempt) + rest);
    assert text[|prefix|..] == Decimal(attempt) + rest;
    ReadNumberOfDecimal(attempt, rest);
  }
}
