/**
 * js/validacao.js: the registration form's submit validation and the two
 * real-time checks, the e-mail check when an e-mail input loses focus and
 * the password confirmation check on every keystroke.
 */
module Registration {
  import opened Text
  import opened Rules

  // ---------- the four field rules ----------

  const NameTexts := FieldTexts("Por favor, informe seu nome completo.",
                                "O nome deve ter pelo menos 3 caracteres.", "", "", "")
  const PasswordTexts := FieldTexts("Por favor, crie uma senha.",
                                    "A senha deve ter pelo menos 8 caracteres.", "",
                                    "A senha deve conter letras maiúsculas, minúsculas e números.", "")
  const ConfirmTexts := FieldTexts("Por favor, confirme sua senha.", "", "", "",
                                   "As senhas não coincidem.")
  const SuccessMsg := "Cadastro realizado com sucesso! Faça login para continuar."

  /** The name rule (`#register-name`, trimmed): empty, then shorter than 3. */
  function NameCheck(name: string): (s: Slot)
    ensures s == Clear <==> |name| >= 3
    ensures s == Shows(Empty) <==> name == ""
  {
    MinLengthCheck(name, 3)
  }

  /** The password rule, on the untrimmed value: empty, then shorter than
      8, then missing a lower-case letter, an upper-case letter or a digit. */
  function PasswordCheck(password: string): (s: Slot)
    ensures s == Clear <==> |password| >= 8 && MixedClasses(password)
  {
    if password == "" then Shows(Empty)
    else if |password| < 8 then Shows(TooShort)
    else if !MixedClasses(password) then Shows(WeakComplexity)
    else Clear
  }

  function PasswordRules(password: string): (rules: seq<Rule>) {
    [Rule(password == "", Empty), Rule(|password| < 8, TooShort),
     Rule(!MixedClasses(password), WeakComplexity)]
  }

  /** The password chain is the first-failure rule of its three rules. */
  lemma PasswordIsFirstFailure(password: string)
    ensures PasswordCheck(password) == FirstFailure(PasswordRules(password))
  {
    var rules := PasswordRules(password);
    if password == "" {
      FirstFailureAt(rules, 0);
    } else if |password| < 8 {
      FirstFailureAt(rules, 1);
    } else if !MixedClasses(password) {
      FirstFailureAt(rules, 2);
    }
  }

  /** The confirmation rule: empty, then different from the password,
      whatever the password's own rule says. */
  function ConfirmCheck(password: string, confirm: string): (s: Slot)
    ensures s == Clear <==> confirm != "" && confirm == password
  {
    if confirm == "" then Shows(Empty)
    else if password != confirm then Shows(Mismatch)
    else Clear
  }

  function ConfirmRules(password: string, confirm: string): (rules: seq<Rule>) {
    [Rule(confirm == "", Empty), Rule(password != confirm, Mismatch)]
  }

  /** The confirmation chain is the first-failure rule of its two rules. */
  lemma ConfirmIsFirstFailure(password: string, confirm: string)
    ensures ConfirmCheck(password, confirm) == FirstFailure(ConfirmRules(password, confirm))
  {
    var rules := ConfirmRules(password, confirm);
    if confirm == "" {
      FirstFailureAt(rules, 0);
    } else if password != confirm {
      FirstFailureAt(rules, 1);
    }
  }

  /** When a registration is accepted, stated without rules. */
  ghost predicate RegistrationAccepts(name: string, email: string, password: string,
                                      confirm: string, terms: bool) {
    && |Trim(name)| >= 3
    && MatchesEmailPattern(Trim(email))
    && |password| >= 8 && MixedClasses(password)
    && confirm == password
    && terms
  }

  /** The four slots are clear and the terms are accepted exactly when the
      registration is accepted. */
  lemma RegistrationSlotsClearIff(name: string, email: string, password: string,
                                         confirm: string, terms: bool)
    ensures (NameCheck(Trim(name)) == Clear && EmailCheck(Trim(email)) == Clear
             && PasswordCheck(password) == Clear && ConfirmCheck(password, confirm) == Clear
             && terms)
            <==> RegistrationAccepts(name, email, password, confirm, terms)
  {
    EmailMatchesPattern(Trim(email));
  }

  /** With their texts, the four slots are blank and the terms accepted
      exactly when the registration is accepted: every failure a field
      reports has a message. */
  lemma RegistrationSlotTexts(name: string, email: string, password: string,
                              confirm: string, terms: bool)
    ensures (SlotText(NameCheck(Trim(name)), NameTexts) == ""
             && SlotText(EmailCheck(Trim(email)), EmailTexts) == ""
             && SlotText(PasswordCheck(password), PasswordTexts) == ""
             && SlotText(ConfirmCheck(password, confirm), ConfirmTexts) == ""
             && terms)
            <==> RegistrationAccepts(name, email, password, confirm, terms)
  {
    EmailSlotText(Trim(email));
  }

  /** The length rule comes before the character-class rule: any non-empty
      password under eight characters is reported as too short, so "Ab1",
      which has all three classes, and "abc", which has only one, get the
      same message. */
  lemma TooShortBeforeWeak(password: string)
    requires 0 < |password| < 8
    ensures PasswordCheck(password) == Shows(TooShort)
    ensures PasswordCheck("Ab1") == Shows(TooShort) && PasswordCheck("abc") == Shows(TooShort)
  {
  }

  /** A long password passes exactly when it has all three classes: "Senha123"
      passes and "senha123" is weak. */
  lemma StrongPasswords()
    ensures PasswordCheck("Senha123") == Clear
    ensures PasswordCheck("senha123") == Shows(WeakComplexity)
  {
    var p := "Senha123";
    assert 'a' <= p[1] <= 'z' && 'A' <= p[0] <= 'Z' && IsDigit(p[5]);
    var q := "senha123";
    assert !HasUpper(q) by {
      forall i | 0 <= i < |q| ensures !('A' <= q[i] <= 'Z') {
      }
    }
  }

  /** A weak password with an equal confirmation fails on the password slot
      only: the confirmation slot does not depend on the password's rule. */
  lemma ConfirmIgnoresPasswordRule(password: string)
    requires password != ""
    ensures ConfirmCheck(password, password) == Clear
    ensures ConfirmCheck(password, password + "x") == Shows(Mismatch)
  {
    assert |password + "x"| != |password|;
  }

  // ---------- the registration form ----------

  class RegistrationForm {
    var name: string            // value of #register-name
    var email: string           // value of #register-email
    var password: string        // value of #register-password
    var confirm: string         // value of #confirm-password
    var terms: bool             // #terms is checked
    var nameError: Slot         // #name-error
    var emailError: Slot        // #email-register-error
    var passwordError: Slot     // #password-register-error
    var confirmError: Slot      // #confirm-error
    var loginMessage: string    // text of #login-message
    var loginMessageShown: bool
    var swapPending: bool       // the delayed return to the login panel is scheduled

    constructor ()
      ensures name == "" && email == "" && password == "" && confirm == "" && !terms
      ensures nameError == Clear && emailError == Clear && passwordError == Clear && confirmError == Clear
      ensures loginMessage == "" && !loginMessageShown && !swapPending
    {
      name, email, password, confirm, terms := "", "", "", "", false;
      nameError, emailError, passwordError, confirmError := Clear, Clear, Clear, Clear;
      loginMessage, loginMessageShown, swapPending := "", false, false;
    }

    /** The submit handler: check every field (a failure does not stop the
        later checks), write the four slots, fail without a slot when the
        terms box is unchecked, and on success show the message and reset the
        form (the terms box returns to unchecked). */
    method Submit() returns (isValid: bool)
      modifies this
      ensures nameError == NameCheck(Trim(old(name)))
      ensures emailError == EmailCheck(Trim(old(email)))
      ensures passwordError == PasswordCheck(old(password))
      ensures confirmError == ConfirmCheck(old(password), old(confirm))
      ensures isValid <==> nameError == Clear && emailError == Clear && passwordError == Clear
                           && confirmError == Clear && old(terms)
      ensures isValid ==> loginMessage == SuccessMsg && loginMessageShown && swapPending
                          && name == "" && email == "" && password == "" && confirm == "" && !terms
      ensures !isValid ==> loginMessage == old(loginMessage) && loginMessageShown == old(loginMessageShown)
                           && swapPending == old(swapPending)
                           && name == old(name) && email == old(email) && password == old(password)
                           && confirm == old(confirm) && terms == old(terms)
    {
      var ns := NameCheck(Trim(name));
      var es := EmailCheck(Trim(email));
      var ps := PasswordCheck(password);
      var cs := ConfirmCheck(password, confirm);
      // `isValid` starts true and each failing check (and an unchecked
      // terms box) sets it to false: it is the conjunction of the outcomes.
      isValid := ns == Clear && es == Clear && ps == Clear && cs == Clear && terms;

      nameError, emailError, passwordError, confirmError := ns, es, ps, cs;
      if isValid {
        loginMessage, loginMessageShown, swapPending := SuccessMsg, true, true;
        name, email, password, confirm, terms := "", "", "", "", false;
      }
    }

    /** The `input` handler of both password fields: when both are
        non-empty, the confirmation slot reports a mismatch or is cleared;
        when either is empty, the slot keeps whatever it showed. */
    method OnPasswordInput()
      modifies this
      ensures password != "" && confirm != "" ==> confirmError == ConfirmCheck(password, confirm)
      ensures password == "" || confirm == "" ==> confirmError == old(confirmError)
      ensures name == old(name) && email == old(email) && password == old(password)
              && confirm == old(confirm) && terms == old(terms)
      ensures nameError == old(nameError) && emailError == old(emailError)
              && passwordError == old(passwordError)
      ensures loginMessage == old(loginMessage) && loginMessageShown == old(loginMessageShown)
              && swapPending == old(swapPending)
    {
      if password != "" && confirm != "" {
        if password != confirm {
          confirmError := Shows(Mismatch);
        } else {
          confirmError := Clear;
        }
      }
    }
  }

  // ---------- e-mail check on blur ----------

  /** The slot an e-mail input reports to: its id followed by "-error". */
  function BlurSlotId(inputId: string): (id: string)
    ensures |id| == |inputId| + 6 && id[..|inputId|] == inputId
  {
    inputId + "-error"
  }

  /** What the blur handler writes for a trimmed value: nothing for an
      empty field (it may be optional), the invalid-address message for a
      value the pattern rejects. */
  function BlurCheck(email: string): (s: Slot)
    ensures s == Clear <==> email == "" || MatchesEmailPattern(email)
  {
    EmailMatchesPattern(email);
    if email == "" then Clear
    else if !IsEmail(email) then Shows(InvalidFormat)
    else Clear
  }

  /** On a non-empty value the blur check and the submit check agree; on an
      empty value only the submit check complains. */
  lemma BlurAgreesWithSubmit(email: string)
    ensures email != "" ==> BlurCheck(email) == EmailCheck(email)
    ensures email == "" ==> BlurCheck(email) == Clear && EmailCheck(email) == Shows(Empty)
    ensures BlurCheck(email) == Clear || BlurCheck(email) == Shows(InvalidFormat)
  {
  }

  /** The error slots of the page, by element id. */
  class ErrorSlots {
    var slots: map<string, Slot>

    constructor (slots0: map<string, Slot>)
      ensures slots == slots0
    {
      slots := slots0;
    }

    /** The `blur` handler of an e-mail input: when the page has a slot with
        the derived id it is overwritten with the check of the trimmed value;
        otherwise nothing changes. */
    method OnEmailBlur(inputId: string, value: string)
      modifies this
      ensures BlurSlotId(inputId) in old(slots) ==>
                slots == old(slots)[BlurSlotId(inputId) := BlurCheck(Trim(value))]
      ensures BlurSlotId(inputId) !in old(slots) ==> slots == old(slots)
    {
      var email := Trim(value);
      var errorId := inputId + "-error";
      if errorId in slots {
        if email == "" {
          slots := slots[errorId := Clear];
        } else if !IsEmail(email) {
          slots := slots[errorId := Shows(InvalidFormat)];
        } else {
          slots := slots[errorId := Clear];
        }
      }
    }
  }
}
