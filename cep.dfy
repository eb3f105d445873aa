/**
 * js/reciclagem.js, the collection-point search: a CEP (Brazilian postal
 * code) input, formatted as the user types, and a button that either
 * reports an invalid code or lists a fixed set of sample collection points.
 */
module CollectionPoints {
  import opened Text

  /** One entry of the result list. */
  datatype Point = Point(name: string, address: string, hours: string, materials: string)

  /** The three sample points every successful search shows. */
  const SamplePoints: seq<Point> := [
    Point("Ecoponto Centro", "Rua das Flores, 123 - Centro",
          "Seg-Sex: 8h-18h, Sáb: 8h-12h", "Papel, plástico, vidro, metal"),
    Point("Cooperativa Recicla Mais", "Av. Principal, 456 - Bairro Novo",
          "Ter-Sáb: 9h-17h", "Todos os materiais recicláveis"),
    Point("Ponto Verde Shopping", "Shopping Center, Loja 45",
          "Todos os dias: 10h-22h", "Pilhas, eletrônicos, lâmpadas")
  ]

  const CepErrorText := "CEP inválido. Digite 8 números."

  /** A searchable code: exactly eight digits once everything else is dropped. */
  predicate ValidCep(input: string)
    ensures ValidCep(input) ==> |input| >= 8
  {
    |DigitsOnly(input)| == 8
  }

  function Min(a: int, b: int): (m: int)
    ensures m <= a && m <= b && (m == a || m == b)
  {
    if a <= b then a else b
  }

  /** The `input` handler: keep the digits and, past five of them, put a
      hyphen after the fifth and keep at most three more. The result is up
      to five digits, or five digits, a hyphen and one to three digits. */
  function CepFormat(value: string): (r: string)
    ensures |r| <= 9
    ensures |DigitsOnly(value)| <= 5 ==> AllDigits(r) && r == DigitsOnly(value)
    ensures |DigitsOnly(value)| > 5 ==>
              6 < |r| && r[5] == '-' && AllDigits(r[..5]) && AllDigits(r[6..])
  {
    var d := DigitsOnly(value);
    if |d| > 5 then
      var r := d[..5] + "-" + d[5..Min(8, |d|)];
      assert r[..5] == d[..5] && r[6..] == d[5..Min(8, |d|)];
      r
    else d
  }

  /** A trailing hyphen is dropped. */
  lemma DigitsThenHyphen(a: string)
    requires AllDigits(a)
    ensures DigitsOnly(a + "-") == a
  {
    var dash := "-";
    DigitsOnlyOfDigits(dash);
    DigitsOnlyOfDigits(a);
    DigitsOnlyAppend(a, dash);
  }

  /** Appended digits are kept. */
  lemma AppendDigits(x: string, b: string)
    requires AllDigits(b)
    ensures DigitsOnly(x + b) == DigitsOnly(x) + b
  {
    DigitsOnlyOfDigits(b);
    DigitsOnlyAppend(x, b);
  }

  /** Dropping the hyphen from two runs of digits joined by one. */
  lemma DigitsAroundHyphen(a: string, b: string)
    requires AllDigits(a) && AllDigits(b)
    ensures DigitsOnly(a + "-" + b) == a + b
  {
    DigitsThenHyphen(a);
    AppendDigits(a + "-", b);
  }

  /** The formatted value holds the first eight digits of the input (at
      most), in order: the hyphen is the only other character. */
  lemma CepFormatDigits(value: string)
    ensures DigitsOnly(CepFormat(value)) == DigitsOnly(value)[..Min(8, |DigitsOnly(value)|)]
  {
    var d := DigitsOnly(value);
    var m := Min(8, |d|);
    if |d| > 5 {
      DigitsAroundHyphen(d[..5], d[5..m]);
      assert d[..5] + d[5..m] == d[..m];
    } else {
      DigitsOnlyIdempotent(value);
    }
  }

  /** Formatting a formatted value changes nothing, so the handler is stable
      as the user keeps typing or pastes a formatted code. */
  lemma CepFormatIdempotent(value: string)
    ensures CepFormat(CepFormat(value)) == CepFormat(value)
  {
    CepFormatDigits(value);
  }

  /** A formatted value is searchable exactly when the user entered at least
      eight digits: the formatter drops any beyond the eighth and the search
      drops the hyphen. */
  lemma FormattedIsSearchable(value: string)
    ensures ValidCep(CepFormat(value)) <==> |DigitsOnly(value)| >= 8
  {
    CepFormatDigits(value);
  }

  /** On a value that is all digits the filter does nothing. */
  lemma CepFormatOfDigits(d: string)
    requires AllDigits(d)
    ensures CepFormat(d) == if |d| > 5 then d[..5] + "-" + d[5..Min(8, |d|)] else d
  {
    DigitsOnlyOfDigits(d);
  }

  /** "01001000" and the formatted "01001-000" both format to "01001-000";
      "123" is left as it is. */
  lemma CepFormatExamples()
    ensures CepFormat("01001000") == "01001-000"
    ensures CepFormat("01001-000") == "01001-000"
    ensures CepFormat("123") == "123"
  {
    CepFormatEightDigits();
    CepFormatIdempotent("01001000");
    CepFormatOfDigits("123");
  }

  lemma CepFormatEightDigits()
    ensures CepFormat("01001000") == "01001-000"
  {
    var raw := "01001000";
    CepFormatOfDigits(raw);
    assert raw[..5] == "01001" && raw[5..8] == "000";
  }

  class CepSearch {
    var errorText: string     // text of #cep-error
    var listing: seq<Point>   // children of `.pontos-lista`
    var resultsHidden: bool   // #resultados-coleta has `hidden`

    constructor ()
      ensures errorText == "" && listing == [] && resultsHidden
    {
      errorText, listing, resultsHidden := "", [], true;
    }

    /** The search button: an input without exactly eight digits only
        writes the error; otherwise the error is cleared, the list is
        emptied and the sample points are appended one by one, and the
        results are shown. */
    method Search(input: string) returns (found: bool)
      modifies this
      ensures found <==> ValidCep(input)
      ensures !found ==> errorText == CepErrorText && listing == old(listing)
                         && resultsHidden == old(resultsHidden)
      ensures found ==> errorText == "" && listing == SamplePoints && !resultsHidden
    {
      var cep := DigitsOnly(input);
      if |cep| != 8 {
        errorText := CepErrorText;
        return false;
      }
      errorText := "";
      listing := [];
      var i := 0;
      while i < |SamplePoints|
        invariant 0 <= i <= |SamplePoints|
        invariant listing == SamplePoints[..i]
        invariant errorText == ""
      {
        listing := listing + [SamplePoints[i]];
        i := i + 1;
      }
      resultsHidden := false;
      found := true;
    }
  }

  /** The list never accumulates: two successful searches in a row show the
      three sample points once. */
  method SearchTwice(s: CepSearch, first: string, second: string) returns (found: bool)
    requires ValidCep(first) && ValidCep(second)
    modifies s
    ensures found && s.listing == SamplePoints && |s.listing| == 3
  {
    found := s.Search(first);
    found := s.Search(second);
  }
}
