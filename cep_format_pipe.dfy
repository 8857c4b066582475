/** `CepFormatPipe` (cep-format.pipe.ts): shows a code with exactly eight
    digits as `NNNNN-NNN` and leaves any other text as it is. */
module CepFormatPipe {
  import opened Text
  import CepService

  /** `transform`. */
  function Transform(value: string): (r: string)
    ensures value == "" ==> r == ""
    ensures |Digits(value)| != 8 ==> r == value
    ensures |Digits(value)| == 8 ==>
              |r| == 9 && r[5] == '-' && r[..5] + r[6..] == Digits(value)
  {
    if value == "" then ""
    else
      var digits := Digits(value);
      if |digits| == 8 then digits[..5] + "-" + digits[5..] else value
  }

  /** The pipe only inserts the hyphen: the digits of its output are the
      digits of its input, in order. */
  lemma {:induction false} TransformKeepsDigits(value: string)
    ensures Digits(Transform(value)) == Digits(value)
  {
    var d := Digits(value);
    if |d| == 8 {
      assert Transform(value) == d[..5] + "-" + d[5..];
      DigitsAppend(d[..5] + "-", d[5..]);
      DigitsAppend(d[..5], "-");
      assert Digits("-") == "";
      DigitsOfAllDigits(d[..5]);
      DigitsOfAllDigits(d[5..]);
      assert d[..5] + d[5..] == d;
    }
  }

  /** Formatting a formatted code changes nothing. */
  lemma TransformIdempotent(value: string)
    ensures Transform(Transform(value)) == Transform(value)
  {
    TransformKeepsDigits(value);
    var d := Digits(value);
    if |d| == 8 {
      var r := Transform(value);
      assert r[..5] + r[6..] == d;
      assert r == r[..5] + "-" + r[6..];
      assert r[..5] == d[..5] && r[6..] == d[5..];
    }
  }

  /** A formatted code looks up the same address in the backend as the code
      it was formatted from. */
  lemma FormattedCodeLooksUpTheSame(value: string, net: CepService.Network)
    ensures CepService.ConsultarCep(Transform(value), net) == CepService.ConsultarCep(value, net)
  {
    TransformKeepsDigits(value);
  }
}
