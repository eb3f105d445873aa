/**
 * js/clima.js: the climate pledge form. A select chooses the pledge; its
 * "outro" option shows a free-text input. Submitting checks the required
 * fields and the address (stopping at the first problem and reporting it in
 * an alert), turns the choice into the pledge's text, and increments the
 * pledge counter shown on the page.
 */
module Climate {
  import opened Text
  import opened Numbers

  // ---------- the pledge text ----------

  const OutroKey := "outro"
  const OutroDefault := "Outro compromisso"
  const UnknownLabel := "Compromisso climático"

  /** The `switch` from the select's value to the pledge's text; `outro` is
      the trimmed free text. */
  function PledgeLabel(choice: string, outro: string): (pledge: string)
    ensures pledge != ""
    ensures choice == OutroKey ==> pledge == (if outro != "" then outro else OutroDefault)
  {
    if choice == "reduzir-carne" then "Reduzir o consumo de carne"
    else if choice == "transporte-sustentavel" then "Usar transporte sustentável"
    else if choice == "energia-renovavel" then "Trocar para energia renovável"
    else if choice == "consumo-consciente" then "Consumir de forma consciente"
    else if choice == OutroKey then (if outro != "" then outro else OutroDefault)
    else UnknownLabel
  }

  /** The fixed choices of the select. */
  predicate KnownChoice(choice: string) {
    choice in {"reduzir-carne", "transporte-sustentavel", "energia-renovavel",
               "consumo-consciente", OutroKey}
  }

  /** The map is total: any value outside the five options gives the
      generic text, and the free text is used only for "outro". */
  lemma PledgeLabelTotal(choice: string, outro: string)
    ensures !KnownChoice(choice) ==> PledgeLabel(choice, outro) == UnknownLabel
    ensures choice != OutroKey ==> PledgeLabel(choice, outro) == PledgeLabel(choice, "")
    ensures KnownChoice(choice) && choice != OutroKey ==> PledgeLabel(choice, outro) != UnknownLabel
  {
  }

  // ---------- the pledge counter ----------

  /** The number the counter shows: `parseInt` of its text without commas,
      with 1247 when that gives `NaN` or 0 (the `|| 1247`). */
  function CounterValue(text: string): (v: int)
    ensures v != 0
  {
    match ParseInt(StripCommas(text))
    case None => 1247
    case Some(n) => if n == 0 then 1247 else n
  }

  /** The counter text after one pledge: the value plus one, grouped, so
      that without its commas it is the decimal text of that number. */
  function NextCounterText(text: string): (r: string)
    ensures StripCommas(r) == IntString(CounterValue(text) + 1)
  {
    StripFormatGrouped(CounterValue(text) + 1);
    FormatGrouped(CounterValue(text) + 1)
  }

  /** The grouped text of a non-zero count reads back as that count; the
      text of 0 reads as the default. */
  lemma CounterRoundTrip(n: int)
    ensures n != 0 ==> CounterValue(FormatGrouped(n)) == n
    ensures CounterValue(FormatGrouped(0)) == 1247
  {
    ParseFormatGrouped(n);
    ParseFormatGrouped(0);
  }

  /** Each pledge adds exactly one to the count the page shows, except
      from -1, where the new text "0" reads as the default. */
  lemma NextCounterAddsOne(text: string)
    ensures CounterValue(text) != -1 ==> CounterValue(NextCounterText(text)) == CounterValue(text) + 1
  {
    CounterRoundTrip(CounterValue(text) + 1);
  }

  /** `1247.toLocaleString()` and `1248.toLocaleString()`. */
  lemma GroupedExamples()
    ensures FormatGrouped(1247) == "1,247" && FormatGrouped(1248) == "1,248"
  {
    DecimalExamples();
    assert Group("1247") == Group("1") + "," + "247";
    assert Group("1248") == Group("1") + "," + "248";
  }

  lemma DecimalExamples()
    ensures DecimalString(1247) == "1247" && DecimalString(1248) == "1248"
  {
    assert DecimalString(124) == "124" by {
      assert DecimalString(12) == "12" by { assert DecimalString(1) == "1"; }
    }
  }

  /** "1,247" becomes "1,248". */
  lemma CounterExampleGrouped()
    ensures NextCounterText("1,247") == "1,248"
  {
    GroupedExamples();
    CounterRoundTrip(1247);
  }

  /** A zero or an unreadable counter text also becomes "1,248". */
  lemma CounterExampleDefault()
    ensures NextCounterText("0") == "1,248"
    ensures NextCounterText("") == "1,248"
  {
    GroupedExamples();
    assert IntString(0) == "0";
    assert StripCommas("0") == "0";
    IntStringRoundTrip(0);
    assert StripCommas("") == "";
    assert TrimStart("") == "";
    assert ParseInt("") == None;
  }

  // ---------- the form ----------

  /** What a submission gives: rejected with one of the two alerts, or
      registered with the pledge's text. */
  datatype Outcome = MissingFields | InvalidEmail | Registered(pledge: string)

  /** The opening both rejection alerts share. */
  const PleasePrefix := "Por favor, "

  /** The alert each outcome shows: the rejections start with "Por favor, ",
      and the thanks names the person right after "Obrigado, ". */
  function AlertText(outcome: Outcome, nome: string): (r: string)
    ensures !outcome.Registered? ==> |r| > |PleasePrefix| && r[..|PleasePrefix|] == PleasePrefix
    ensures outcome.Registered? ==> |r| > 10 + |nome| && r[..10] == "Obrigado, " && r[10..10 + |nome|] == nome
  {
    match outcome
    case MissingFields => PleasePrefix + "preencha todos os campos obrigatórios."
    case InvalidEmail => PleasePrefix + "insira um email válido."
    case Registered(pledge) =>
      "Obrigado, " + nome + "! Seu compromisso de \"" + pledge + "\" foi registrado com sucesso."
  }

  /** The alert tells the three outcomes apart: the two rejections differ,
      and neither reads like the thanks of a registration. */
  lemma AlertTellsOutcome(nome: string, pledge: string)
    ensures AlertText(MissingFields, nome) != AlertText(InvalidEmail, nome)
    ensures AlertText(MissingFields, nome) != AlertText(Registered(pledge), nome)
    ensures AlertText(InvalidEmail, nome) != AlertText(Registered(pledge), nome)
  {
    assert |AlertText(MissingFields, nome)| == 49 && |AlertText(InvalidEmail, nome)| == 34;
    assert AlertText(MissingFields, nome)[0] == 'P' && AlertText(InvalidEmail, nome)[0] == 'P';
    assert AlertText(Registered(pledge), nome)[0] == 'O';
  }

  /** The outcome of a submission, stated on the raw values: the required
      fields are checked before the address. */
  function PledgeOutcome(nome: string, email: string, choice: string, outro: string): (o: Outcome)
    ensures o.Registered? <==> Trim(nome) != "" && IsEmail(Trim(email))
    ensures o == MissingFields <==> Trim(nome) == "" || Trim(email) == ""
  {
    if Trim(nome) == "" || Trim(email) == "" then MissingFields
    else if !IsEmail(Trim(email)) then InvalidEmail
    else Registered(PledgeLabel(choice, Trim(outro)))
  }

  class PledgeForm {
    var nome: string          // value of #nome-compromisso
    var email: string         // value of #email-compromisso
    var choice: string        // value of the #compromisso select
    var outro: string         // value of #outro-compromisso
    var outroHidden: bool     // the input has the `hidden` class
    var labelHidden: bool     // its label has the `hidden` class
    var outroRequired: bool   // the input's `required` property
    var counterText: string   // text of #total-compromissos
    const defaultChoice: string  // the select's value after a form reset

    /** The free-text input and its label are shown and hidden together,
        and only while "outro" is chosen, when the input is required. */
    predicate Valid()
      reads this
    {
      outroHidden == labelHidden && (!outroHidden ==> choice == OutroKey && outroRequired)
    }

    constructor (defaultChoice0: string, counterText0: string)
      ensures Valid()
      ensures nome == "" && email == "" && outro == "" && choice == defaultChoice0
      ensures outroHidden && labelHidden && !outroRequired
      ensures counterText == counterText0 && defaultChoice == defaultChoice0
    {
      nome, email, outro := "", "", "";
      choice, defaultChoice := defaultChoice0, defaultChoice0;
      outroHidden, labelHidden, outroRequired := true, true, false;
      counterText := counterText0;
    }

    /** The select's `change` handler: "outro" shows the input and its
        label and makes the input required; any other value hides both and
        makes it optional. */
    method OnChoiceChange(value: string)
      modifies this
      ensures Valid()
      ensures choice == value
      ensures outroHidden == labelHidden == (value != OutroKey)
      ensures outroRequired == (value == OutroKey)
      ensures nome == old(nome) && email == old(email) && outro == old(outro)
      ensures counterText == old(counterText)
    {
      choice := value;
      if choice == OutroKey {
        outroHidden := false;
        labelHidden := false;
        outroRequired := true;
      } else {
        outroHidden := true;
        labelHidden := true;
        outroRequired := false;
      }
    }

    /** The submit handler. A missing name or address, or an address the
        pattern rejects, stops it with nothing changed. Otherwise the
        counter is incremented, the form is reset (the select returns to
        its default) and the input and label are hidden; the input's
        `required` property is left as it was. */
    method Submit() returns (outcome: Outcome)
      requires Valid()
      modifies this
      ensures Valid()
      ensures outcome == PledgeOutcome(old(nome), old(email), old(choice), old(outro))
      ensures !outcome.Registered? ==>
                nome == old(nome) && email == old(email) && choice == old(choice) && outro == old(outro)
                && outroHidden == old(outroHidden) && labelHidden == old(labelHidden)
                && counterText == old(counterText)
      ensures outcome.Registered? ==>
                counterText == NextCounterText(old(counterText))
                && nome == "" && email == "" && outro == "" && choice == defaultChoice
                && outroHidden && labelHidden
      ensures outroRequired == old(outroRequired)
    {
      var n := Trim(nome);
      var e := Trim(email);
      if n == "" || e == "" {
        return MissingFields;
      }
      if !IsEmail(e) {
        return InvalidEmail;
      }
      var pledge := PledgeLabel(choice, Trim(outro));
      Register();
      outcome := Registered(pledge);
    }

    /** The success path: increment the counter, reset the form and hide
        the free-text input and its label. */
    method Register()
      modifies this
      ensures counterText == NextCounterText(old(counterText))
      ensures nome == "" && email == "" && outro == "" && choice == defaultChoice
      ensures outroHidden && labelHidden && outroRequired == old(outroRequired)
    {
      ResetForm();
      counterText := NextCounterText(counterText);
    }

    /** `form.reset()` (the select returns to its default) and the free-text
        input and its label hidden again. */
    method ResetForm()
      modifies this
      ensures nome == "" && email == "" && outro == "" && choice == defaultChoice
      ensures outroHidden && labelHidden && outroRequired == old(outroRequired)
      ensures counterText == old(counterText)
    {
      nome, email, outro, choice := "", "", "", defaultChoice;
      outroHidden, labelHidden := true, true;
    }
  }

  /** Choosing "outro" and then pledging successfully leaves the free-text
      input hidden but still required; a rejected pledge leaves it shown and
      required. */
  method ChooseOutroAndSubmit(f: PledgeForm) returns (outcome: Outcome)
    requires f.Valid()
    modifies f
    ensures f.Valid() && f.outroRequired
    ensures outcome.Registered? <==> f.outroHidden
  {
    f.OnChoiceChange(OutroKey);
    outcome := f.Submit();
  }
}
