/**
 * The format check on the typed identifier: after trimming, the line must
 * match the regular expression `^\d{14}$`.
 */
module CnpjFormat {
  import opened Text

  const CnpjLength: nat := 14

  /** What the check is meant to accept: exactly fourteen digits. */
  predicate IsCnpj(s: string) {
    |s| == CnpjLength && AllDigits(s)
  }

  /**
   * `$` without the multiline option: the end of the input, or just before
   * a newline that ends the input.
   */
  predicate AtEnd(s: string) {
    s == [] || s == "\n"
  }

  /** `\d{n}$` matched at the start of `s`. */
  predicate DigitsThenEnd(s: string, n: nat)
    decreases n
  {
    if n == 0 then AtEnd(s) else |s| > 0 && IsDigit(s[0]) && DigitsThenEnd(s[1..], n - 1)
  }

  /** `Regex.IsMatch(s, @"^\d{14}$")`: `^` pins the match to the start of `s`. */
  predicate MatchesCnpjPattern(s: string) {
    DigitsThenEnd(s, CnpjLength)
  }

  /** `\d{n}$` matches exactly n digits, optionally followed by one final newline. */
  lemma {:induction false} DigitsThenEndExactly(s: string, n: nat)
    ensures DigitsThenEnd(s, n) <==>
      || (|s| == n && AllDigits(s))
      || (|s| == n + 1 && AllDigits(s[..n]) && s[n] == '\n')
    decreases n
  {
    if n > 0 && |s| > 0 {
      DigitsThenEndExactly(s[1..], n - 1);
      if |s| >= n {
        assert s[1..][..n - 1] == s[..n][1..];
      }
      assert forall i :: 1 <= i < |s| ==> s[1..][i - 1] == s[i];
    }
  }

  /** On its own the pattern also lets through fourteen digits followed by a final newline. */
  lemma PatternAcceptsFinalNewline(cnpj: string)
    requires IsCnpj(cnpj)
    ensures MatchesCnpjPattern(cnpj + "\n")
    ensures !IsCnpj(cnpj + "\n")
  {
    DigitsThenEndExactly(cnpj + "\n", CnpjLength);
    assert (cnpj + "\n")[..CnpjLength] == cnpj;
  }

  /**
   * On a trimmed line the pattern accepts exactly the fourteen-digit strings:
   * the trim has already removed any final newline.
   */
  lemma AcceptsExactlyCnpj(line: string)
    ensures MatchesCnpjPattern(Trim(line)) <==> IsCnpj(Trim(line))
  {
    var t := Trim(line);
    DigitsThenEndExactly(t, CnpjLength);
    assert IsWhiteSpace('\n');
  }

  /** Surrounding whitespace is forgiven: the line is trimmed before the check. */
  lemma PaddedCnpjAccepted(before: string, cnpj: string, after: string)
    requires AllWhiteSpace(before) && AllWhiteSpace(after)
    requires IsCnpj(cnpj)
    ensures MatchesCnpjPattern(Trim(before + cnpj + after))
  {
    assert !IsWhiteSpace(cnpj[0]) && !IsWhiteSpace(cnpj[CnpjLength - 1]);
    TrimOfPadded(before, cnpj, after);
    DigitsThenEndExactly(cnpj, CnpjLength);
  }

  /** A line that already has no surrounding whitespace is checked as it is. */
  lemma {:induction false} BareLineChecked(line: string)
    requires line != [] && Trimmed(line)
    ensures MatchesCnpjPattern(Trim(line)) <==> IsCnpj(line)
  {
    TrimOfPadded([], line, []);
    assert [] + line + [] == line;
    AcceptsExactlyCnpj(line);
  }

  /** An identifier written with its usual punctuation is refused. */
  lemma PunctuatedRejected()
    ensures !MatchesCnpjPattern(Trim("12.345.678/0001-95"))
  {
    BareLineChecked("12.345.678/0001-95");
  }

  /** A trailing blank does not make a fourteen-digit line invalid. */
  lemma TrailingBlankAccepted()
    ensures MatchesCnpjPattern(Trim("12345678000195 "))
  {
    assert [] + "12345678000195" + " " == "12345678000195 ";
    PaddedCnpjAccepted([], "12345678000195", " ");
  }
}
