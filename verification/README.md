# Consulta de CNPJ — a verified model

`ConsultaCNPJApi` is a console program that asks for a CNPJ (the 14-digit
Brazilian company registration number), looks it up on a public registry
service over HTTP, and prints the company record. This project models the
parts of the program that decide something:

- the **format check** on the typed line: the line is trimmed and must then
  match `^\d{14}$`; otherwise the program prints the invalid-format message
  and stops before any lookup (`CnpjFormat`, `Text`);
- the **lookup with rate-limit handling** (`ConsultarCnpjComTratamentoAsync`):
  at most 5 requests; a `429 Too Many Requests` (section 4 of RFC 6585) is
  announced, waited out with a countdown from 60 to 0 and retried; any other
  status outside 2xx (section 15.3 of RFC 9110) throws at once with the code
  and reason; the first 2xx response is decoded and returned; five 429s in a
  row end with a "maximum attempts exceeded" error (`Lookup`);
- the **presentation** of the result: a null record or a record without a
  name gives "not found"; otherwise a header and five labelled lines (Nome,
  Fantasia, Situação, Abertura, Endereço) are printed, the address built from
  six fields with fixed separators (`CompanyRecord`);
- `Main` itself, tying the three together and printing any exception under
  the error header (`Program`).

The remote service is a function `server: nat -> Reply` giving what the
n-th request (0 for the first) gets back: a response (status, reason, body)
or a transport fault thrown by the GET. JSON decoding is a function
`decode: string -> Decoded`. Console output is a sequence of `Write` /
`WriteLine` calls, and the one-second sleeps are `Delay` events in the
lookup's trace. The loop `Lookup.ConsultarCnpjComTratamento` is proved equal
to a closed-form specification `Lookup.Expected` (count the leading 429s,
then let the next reply decide), and the listed properties are proved about
that specification.

Two behaviours of the code worth knowing, both proved:

- The line is trimmed before the check, so a fourteen-digit identifier with
  surrounding blanks (for example a trailing space) is accepted
  (`CnpjFormat.PaddedCnpjAccepted`, `CnpjFormat.TrailingBlankAccepted`). The
  .NET `$` also matches before a final newline, but after the trim this can
  no longer happen (`CnpjFormat.AcceptsExactlyCnpj`).
- The countdown loop runs for i = 60 down to 0 inclusive: 61 ticks and 61
  one-second sleeps per rate-limited attempt, although the warning announces
  60 seconds (`Lookup.CountdownShape`, `Lookup.WaitsTime`).

Modules: `Wrappers` (Option), `Text` (whitespace, digits, trimming),
`Numerals` (decimal rendering of integers and reading it back), `Console`,
`CnpjFormat`, `CompanyRecord`, `Lookup`, `Program`.

## Model

| member | source | states |
|---|---|---|
| Text.Trim | ConsultaCNPJApi/Program.cs:30 | `Trim()` returns a slice of the line with no whitespace (as `char.IsWhiteSpace` defines it) at either end, and everything cut off is whitespace |
| Text.TrimOfPadded | ConsultaCNPJApi/Program.cs:30 | trimming any whitespace padding off a string with non-blank ends gives that string back, so the trim is determined by its result |
| Text.TrimOfWhiteSpace | ConsultaCNPJApi/Program.cs:30 | a blank line trims to the empty string |
| Text.TrimIdempotent | ConsultaCNPJApi/Program.cs:30 | trimming twice is the same as trimming once |
| Numerals.Decimal | ConsultaCNPJApi/Program.cs:94 | an integer is written as a non-empty string of digits with no leading zero |
| Numerals.ReadNumberOfDecimal | ConsultaCNPJApi/Program.cs:94 | a number written in decimal and followed by a non-digit is read back exactly |
| Numerals.DecimalInjective | ConsultaCNPJApi/Program.cs:94 | different numbers are written differently |
| CnpjFormat.DigitsThenEndExactly | ConsultaCNPJApi/Program.cs:32 | `\d{n}$` matches exactly n digits, or n digits followed by one final newline (.NET `$` semantics) |
| CnpjFormat.AcceptsExactlyCnpj | ConsultaCNPJApi/Program.cs:30-32 | on the trimmed line the pattern `^\d{14}$` holds if and only if the line is exactly 14 digits |
| CnpjFormat.PatternAcceptsFinalNewline | ConsultaCNPJApi/Program.cs:32 | without the trim, the pattern would also accept 14 digits followed by a newline |
| CnpjFormat.PaddedCnpjAccepted | ConsultaCNPJApi/Program.cs:30-32 | 14 digits surrounded by any whitespace are accepted |
| CnpjFormat.BareLineChecked | ConsultaCNPJApi/Program.cs:30-32 | a line with no surrounding whitespace is accepted exactly when it is 14 digits |
| CnpjFormat.PunctuatedRejected | ConsultaCNPJApi/Program.cs:32-36 | an identifier written with dots, slash and dash is refused |
| CnpjFormat.TrailingBlankAccepted | ConsultaCNPJApi/Program.cs:30-32 | a 14-digit line with a trailing blank is accepted |
| CompanyRecord.AddressLine | ConsultaCNPJApi/Program.cs:53 | the address starts with the street and ", ", ends with " - CEP: " and the postal code, and adds 16 separator characters to the six fields |
| CompanyRecord.Present | ConsultaCNPJApi/Program.cs:42-53 | the output is the not-found message alone exactly when the record or its name is null; otherwise a header and the five lines labelled Nome, Fantasia, Situação, Abertura, Endereço in that order, each carrying its field |
| CompanyRecord.FoundShowsName | ConsultaCNPJApi/Program.cs:42-49 | a named record, even with an empty name, is shown with that name and never as not found |
| CompanyRecord.PresentIgnoresHiddenFields | ConsultaCNPJApi/Program.cs:48-53 | the tax id, type and legal nature never affect the output |
| Lookup.FirstNotRateLimited | ConsultaCNPJApi/Program.cs:72-90 | the number of leading 429 replies among the first five: all before it are 429, the one at it (if under five) is not |
| Lookup.FirstNotRateLimitedIs | ConsultaCNPJApi/Program.cs:72-90 | that number is determined by the replies |
| Lookup.Expected | ConsultaCNPJApi/Program.cs:69-103 | a lookup sends between 1 and 5 requests, and every request but the last got a 429 |
| Lookup.ConsultarCnpjComTratamento | ConsultaCNPJApi/Program.cs:62-104 | the retry loop returns the outcome, request count and trace of the closed-form specification, with 1 to 5 requests |
| Lookup.CountDown | ConsultaCNPJApi/Program.cs:82-86 | the countdown loop produces exactly the countdown trace |
| Lookup.SucceedsAfterRateLimits | ConsultaCNPJApi/Program.cs:78-100 | k 429s (k < 5) then a 2xx reply give that reply's body decoded, after exactly k + 1 requests and k waits |
| Lookup.StopsAtHttpError | ConsultaCNPJApi/Program.cs:92-95 | a status neither 429 nor 2xx throws an HTTP error with that code and reason at once: no further request, no further wait |
| Lookup.StopsAtFault | ConsultaCNPJApi/Program.cs:76 | a transport fault on the GET is not retried and ends the lookup with its own message |
| Lookup.ExhaustedExactlyWhenAllRateLimited | ConsultaCNPJApi/Program.cs:72-103 | the lookup ends with "maximum attempts exceeded" if and only if all five replies are 429, and then after five requests and five waits |
| Lookup.FoundOnlyFromSuccess | ConsultaCNPJApi/Program.cs:92-100 | a returned record always comes from a 2xx reply, decoded |
| Lookup.HttpErrorOnlyFromStatus | ConsultaCNPJApi/Program.cs:78-95 | an HTTP error always carries the status and reason of the last reply, which is neither 429 nor 2xx |
| Lookup.CountdownShape | ConsultaCNPJApi/Program.cs:82-86 | a countdown shows 60, 59, ..., 0 (61 ticks), no warning, and sleeps 61 seconds |
| Lookup.WaitBlockShape | ConsultaCNPJApi/Program.cs:78-89 | a rate-limited attempt shows its attempt number once, 61 ticks and 61 seconds of sleep |
| Lookup.WaitsShowAttempts | ConsultaCNPJApi/Program.cs:72-89 | after n rate-limited attempts the warnings have shown attempt numbers 1, 2, ..., n in order |
| Lookup.WaitsTime | ConsultaCNPJApi/Program.cs:72-89 | after n rate-limited attempts, n * 61 ticks and n * 61 seconds of sleep have gone by |
| Lookup.ExhaustedAfterFiveWaits | ConsultaCNPJApi/Program.cs:72-103 | five 429s give the exhausted error after 5 requests, warnings numbered 1 to 5 and 305 seconds of sleep |
| Program.Run | ConsultaCNPJApi/Program.cs:27-60 | an invalid line prints the prompt and the invalid-format message and sends no request; a valid one prints the prompt, the lookup's trace, then the record, "not found" or the error, after 1 to 5 requests |
| Program.ShowOutcome | ConsultaCNPJApi/Program.cs:42-59 | after the lookup the program prints the presented record, or the error header and the exception's message |
| Program.HttpErrorMessageShowsStatus | ConsultaCNPJApi/Program.cs:94 | the HTTP error message starts with "Erro HTTP: ", then the status code, read back exactly, and ends with the reason phrase |
| Program.HttpErrorMessagesDiffer | ConsultaCNPJApi/Program.cs:94 | different status codes give different HTTP error messages |
| Program.WarningShowsAttempt | ConsultaCNPJApi/Program.cs:80 | the rate-limit warning is one line that shows the attempt number, read back exactly |

## Left out

- Building the URL, creating the `HttpClient`, the `User-Agent` header and the GET itself (Program.cs:64-67, 76): network I/O. The `server` function stands for the replies the service gives to this CNPJ, so the identifier is not passed to the lookup.
- Real time: `Task.Delay` and `async`/`await` (Program.cs:85). A sleep is a `Delay` event with its length in milliseconds.
- JSON deserialization with case-insensitive property names (Program.cs:97-100): a foreign library. It is the `decode` parameter; a malformed body is a `Malformed` result whose message is thrown.
- Reading the line from the console (Program.cs:30): the line is a parameter. End of input (`ReadLine` returning null, which makes `Regex.IsMatch` throw outside the `try`) is not modelled.
- A transport failure while reading the body (Program.cs:97) is not modelled separately from a fault on the GET.
- The exit code: every run ends normally.
- CnpjFormat.MatchesCnpjPattern: `\d` is modelled as the ASCII digits 0-9, while .NET's `\d` also matches the other Unicode decimal digits.
- The line terminator written by `WriteLine` is left abstract: a `WriteLine` call is kept apart from a `Write` call rather than appending `Environment.NewLine`.
- Status codes are unbounded naturals; .NET limits them to 0..999, which no property here depends on.
