/**
 * The validation rule engine the three inline-message forms share (newsletter
 * and login in js/main.js, registration in js/validacao.js). Each field has an
 * ordered list of rules; its error slot shows the message of the first rule
 * that fails, or nothing. The forms write this as an `if … else if …` chain
 * per field.
 *
 * A slot is modelled by the kind of failure it reports; the Portuguese text
 * each field shows for each kind is given by a `FieldTexts` record.
 */
module Rules {
  import opened Text

  /** The kinds of failure a field reports. */
  datatype Failure = Empty | TooShort | InvalidFormat | WeakComplexity | Mismatch

  /** The content of an error slot: nothing, or the message for one failure. */
  datatype Slot = Clear | Shows(failure: Failure)

  /** One rule of a field: whether it fails on the current value, and the
      failure its slot then reports. */
  datatype Rule = Rule(fails: bool, failure: Failure)

  /** The slot of a field: the failure of its first failing rule, or nothing
      when every rule passes. */
  function FirstFailure(rules: seq<Rule>): (s: Slot)
    ensures s == Clear <==> forall i :: 0 <= i < |rules| ==> !rules[i].fails
    ensures s.Shows? ==> exists i :: 0 <= i < |rules| && rules[i].fails && rules[i].failure == s.failure
                                    && forall j :: 0 <= j < i ==> !rules[j].fails
  {
    if rules == [] then Clear
    else if rules[0].fails then Shows(rules[0].failure)
    else
      var s := FirstFailure(rules[1..]);
      assert forall i :: 1 <= i < |rules| ==> rules[i] == rules[1..][i - 1];
      s
  }

  /** A later rule decides the slot only when every earlier one passes. */
  lemma {:induction false} FirstFailureAt(rules: seq<Rule>, i: nat)
    requires i < |rules|
    requires rules[i].fails && forall j :: 0 <= j < i ==> !rules[j].fails
    ensures FirstFailure(rules) == Shows(rules[i].failure)
  {
    if i > 0 {
      FirstFailureAt(rules[1..], i - 1);
    }
  }

  // ---------- the two field shapes every form uses ----------

  /** A required text field with a minimum length, as the forms write it:
      `""` is empty, then a length under `min` is too short. */
  function MinLengthCheck(value: string, min: nat): (s: Slot)
    ensures s == Clear <==> value != "" && |value| >= min
  {
    if value == "" then Shows(Empty)
    else if |value| < min then Shows(TooShort)
    else Clear
  }

  function MinLengthRules(value: string, min: nat): (rules: seq<Rule>) {
    [Rule(value == "", Empty), Rule(|value| < min, TooShort)]
  }

  /** The `if … else if` chain is the first-failure rule of its two rules. */
  lemma MinLengthIsFirstFailure(value: string, min: nat)
    ensures MinLengthCheck(value, min) == FirstFailure(MinLengthRules(value, min))
  {
    var rules := MinLengthRules(value, min);
    if value == "" {
      FirstFailureAt(rules, 0);
    } else if |value| < min {
      FirstFailureAt(rules, 1);
    }
  }

  /** A required e-mail field: `""` is empty, then a value the pattern does
      not match is invalid. */
  function EmailCheck(value: string): (s: Slot)
    ensures s == Clear <==> IsEmail(value)
  {
    if value == "" then Shows(Empty)
    else if !IsEmail(value) then Shows(InvalidFormat)
    else Clear
  }

  function EmailRules(value: string): (rules: seq<Rule>) {
    [Rule(value == "", Empty), Rule(!IsEmail(value), InvalidFormat)]
  }

  /** The e-mail chain is the first-failure rule of its two rules. */
  lemma EmailIsFirstFailure(value: string)
    ensures EmailCheck(value) == FirstFailure(EmailRules(value))
  {
    var rules := EmailRules(value);
    if value == "" {
      FirstFailureAt(rules, 0);
    } else if !IsEmail(value) {
      FirstFailureAt(rules, 1);
    }
  }

  // ---------- slot texts ----------

  /** The message a field shows for each kind of failure it can report
      (the empty string for kinds the field never reports). */
  datatype FieldTexts = FieldTexts(empty: string, tooShort: string, invalid: string,
                                   weak: string, mismatch: string)

  /** The text content of a slot. */
  function SlotText(s: Slot, t: FieldTexts): (text: string) {
    match s
    case Clear => ""
    case Shows(Empty) => t.empty
    case Shows(TooShort) => t.tooShort
    case Shows(InvalidFormat) => t.invalid
    case Shows(WeakComplexity) => t.weak
    case Shows(Mismatch) => t.mismatch
  }

  /** The e-mail messages, identical in the registration, newsletter and
      login handlers. */
  const EmailTexts := FieldTexts("Por favor, informe seu e-mail.", "",
                                 "Por favor, informe um e-mail válido.", "", "")

  /** An e-mail slot is blank on screen exactly when the value matches the
      pattern: each failure it reports has a message. */
  lemma EmailSlotText(value: string)
    ensures SlotText(EmailCheck(value), EmailTexts) == "" <==> MatchesEmailPattern(value)
  {
    EmailMatchesPattern(value);
  }
}
