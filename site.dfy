/**
 * js/main.js, the scripts every page loads: the hamburger menu, the switch
 * between the login and the registration panel, the newsletter and login
 * forms, and the eco-points counter kept in the browser's local storage.
 * Each DOM element the handlers touch is a field: an input's value, an error
 * slot's text, a panel's `hidden` or `active` class.
 */
module Site {
  import opened Text
  import opened Numbers
  import opened Rules

  // ---------- hamburger menu ----------

  /** The `active` classes of the hamburger icon and of the navigation menu. */
  class NavMenu {
    var hamburgerActive: bool
    var menuActive: bool

    constructor ()
      ensures !hamburgerActive && !menuActive
    {
      hamburgerActive, menuActive := false, false;
    }

    /** A click on the icon toggles both classes, each on its own. */
    method ToggleMenu()
      modifies this
      ensures hamburgerActive == !old(hamburgerActive)
      ensures menuActive == !old(menuActive)
    {
      hamburgerActive := !hamburgerActive;
      menuActive := !menuActive;
    }

    /** A click on any link of the menu removes both classes. */
    method CloseMenu()
      modifies this
      ensures !hamburgerActive && !menuActive
    {
      hamburgerActive := false;
      menuActive := false;
    }
  }

  /** Two clicks on the icon restore both classes, whatever they were. */
  method ToggleTwice(nav: NavMenu)
    modifies nav
    ensures nav.hamburgerActive == old(nav.hamburgerActive)
    ensures nav.menuActive == old(nav.menuActive)
  {
    nav.ToggleMenu();
    nav.ToggleMenu();
  }

  /** Two clicks on the icon and then a link click: the menu is back as it
      was after the two clicks, and closed after the link click. */
  method NavMenuClient(nav: NavMenu) returns (afterTwo: (bool, bool))
    modifies nav
    ensures afterTwo == (old(nav.hamburgerActive), old(nav.menuActive))
    ensures !nav.hamburgerActive && !nav.menuActive
  {
    ToggleTwice(nav);
    afterTwo := (nav.hamburgerActive, nav.menuActive);
    nav.CloseMenu();
  }

  // ---------- login / registration panels ----------

  /** The `hidden` classes of the login form and of the registration form. */
  class AuthPanels {
    var loginHidden: bool
    var registerHidden: bool

    constructor (loginHidden0: bool, registerHidden0: bool)
      ensures loginHidden == loginHidden0 && registerHidden == registerHidden0
    {
      loginHidden, registerHidden := loginHidden0, registerHidden0;
    }

    /** "show-register": hide the login form, show the registration form. */
    method ShowRegister()
      modifies this
      ensures loginHidden && !registerHidden
    {
      loginHidden := true;
      registerHidden := false;
    }

    /** "show-login": hide the registration form, show the login form. */
    method ShowLogin()
      modifies this
      ensures registerHidden && !loginHidden
    {
      registerHidden := true;
      loginHidden := false;
    }
  }

  // ---------- newsletter ----------

  const NomeTexts := FieldTexts("Por favor, informe seu nome.",
                                "O nome deve ter pelo menos 2 caracteres.", "", "", "")

  /** The newsletter name rule (`#nome`, trimmed): empty, then shorter than 2. */
  function NomeCheck(nome: string): (s: Slot)
    ensures s == Clear <==> |nome| >= 2
    ensures s == Shows(Empty) <==> nome == ""
  {
    MinLengthCheck(nome, 2)
  }

  /** The confirmation that names the subscriber and the address. */
  function NewsletterThanks(nome: string, email: string): (r: string) {
    "Obrigado, " + nome + "! Você receberá nossas dicas sustentáveis em " + email + "."
  }

  /** When the newsletter form accepts its input, stated on the raw values
      and without rules: a name of two characters or more once trimmed, and
      a trimmed address of the shape `a@b.c`. */
  ghost predicate NewsletterAccepts(nome: string, email: string) {
    |Trim(nome)| >= 2 && MatchesEmailPattern(Trim(email))
  }

  /** With its texts, the newsletter form shows two blank slots exactly
      when it accepts: every failure either field reports has a message. */
  lemma NewsletterSlotTexts(nome: string, email: string)
    ensures (SlotText(NomeCheck(Trim(nome)), NomeTexts) == ""
             && SlotText(EmailCheck(Trim(email)), EmailTexts) == "")
            <==> NewsletterAccepts(nome, email)
  {
    EmailSlotText(Trim(email));
  }

  /** Both newsletter slots are clear exactly when the form accepts, and an
      all-whitespace name is reported as empty, not as too short. */
  lemma NewsletterSlotsClearIff(nome: string, email: string)
    ensures (NomeCheck(Trim(nome)) == Clear && EmailCheck(Trim(email)) == Clear)
            <==> NewsletterAccepts(nome, email)
    ensures AllSpace(nome) ==> NomeCheck(Trim(nome)) == Shows(Empty)
  {
    EmailMatchesPattern(Trim(email));
    TrimEmptyIff(nome);
  }

  class NewsletterForm {
    var nome: string         // value of #nome
    var email: string        // value of #email
    var nomeError: Slot      // #nome-error
    var emailError: Slot     // #email-error
    var message: string      // text of #newsletter-message
    var messageShown: bool   // its display is 'block'

    constructor ()
      ensures nome == "" && email == "" && nomeError == Clear && emailError == Clear
      ensures message == "" && !messageShown
    {
      nome, email, nomeError, emailError := "", "", Clear, Clear;
      message, messageShown := "", false;
    }

    /** The submit handler: trim both values, check both fields (a failure
        does not stop the second check, `isValid` is AND-ed), write both
        slots, and on success show the templated message and reset the
        inputs. */
    method Submit() returns (isValid: bool)
      modifies this
      ensures nomeError == NomeCheck(Trim(old(nome)))
      ensures emailError == EmailCheck(Trim(old(email)))
      ensures isValid <==> nomeError == Clear && emailError == Clear
      ensures isValid ==> message == NewsletterThanks(Trim(old(nome)), Trim(old(email)))
                          && messageShown && nome == "" && email == ""
      ensures !isValid ==> message == old(message) && messageShown == old(messageShown)
                           && nome == old(nome) && email == old(email)
    {
      var ns := NomeCheck(Trim(nome));
      var es := EmailCheck(Trim(email));
      isValid := ns == Clear && es == Clear;

      nomeError, emailError := ns, es;
      if isValid {
        message, messageShown := NewsletterThanks(Trim(nome), Trim(email)), true;
        nome, email := "", "";
      }
    }
  }

  // ---------- login ----------

  const LoginPasswordTexts := FieldTexts("Por favor, informe sua senha.",
                                         "A senha deve ter pelo menos 6 caracteres.", "", "", "")
  const LoginSuccessMsg := "Login realizado com sucesso! Redirecionando..."

  /** The login password rule (trimmed): empty, then shorter than 6. */
  function LoginPasswordCheck(password: string): (s: Slot)
    ensures s == Clear <==> |password| >= 6
    ensures s == Shows(Empty) <==> password == ""
  {
    MinLengthCheck(password, 6)
  }

  /** Any well-formed address with a password of at least six characters
      once trimmed logs in: there is no credential lookup. */
  ghost predicate LoginAccepts(email: string, password: string) {
    MatchesEmailPattern(Trim(email)) && |Trim(password)| >= 6
  }

  /** Both login slots are clear exactly when the login succeeds. */
  lemma LoginSlotsClearIff(email: string, password: string)
    ensures (EmailCheck(Trim(email)) == Clear && LoginPasswordCheck(Trim(password)) == Clear)
            <==> LoginAccepts(email, password)
  {
    EmailMatchesPattern(Trim(email));
  }

  /** With its texts, the login form shows two blank slots exactly when the
      login succeeds: every failure either field reports has a message. */
  lemma LoginSlotTexts(email: string, password: string)
    ensures (SlotText(EmailCheck(Trim(email)), EmailTexts) == ""
             && SlotText(LoginPasswordCheck(Trim(password)), LoginPasswordTexts) == "")
            <==> LoginAccepts(email, password)
  {
    EmailSlotText(Trim(email));
  }

  class LoginForm {
    var email: string          // value of #login-email
    var password: string       // value of #login-password
    var emailError: Slot       // #email-login-error
    var passwordError: Slot    // #password-error
    var message: string        // text of #login-message
    var messageShown: bool
    var redirectPending: bool  // the delayed move to index.html is scheduled

    constructor ()
      ensures email == "" && password == "" && emailError == Clear && passwordError == Clear
      ensures message == "" && !messageShown && !redirectPending
    {
      email, password, emailError, passwordError := "", "", Clear, Clear;
      message, messageShown, redirectPending := "", false, false;
    }

    /** The submit handler: both values trimmed, both fields checked, both
        slots written; on success the message is shown and the redirect is
        scheduled. The form is not reset. */
    method Submit() returns (isValid: bool)
      modifies this
      ensures emailError == EmailCheck(Trim(old(email)))
      ensures passwordError == LoginPasswordCheck(Trim(old(password)))
      ensures isValid <==> emailError == Clear && passwordError == Clear
      ensures isValid ==> message == LoginSuccessMsg && messageShown && redirectPending
      ensures !isValid ==> message == old(message) && messageShown == old(messageShown)
                           && redirectPending == old(redirectPending)
      ensures email == old(email) && password == old(password)
    {
      var es := EmailCheck(Trim(email));
      var ps := LoginPasswordCheck(Trim(password));
      isValid := es == Clear && ps == Clear;

      emailError, passwordError := es, ps;
      if isValid {
        message, messageShown, redirectPending := LoginSuccessMsg, true, true;
      }
    }
  }

  // ---------- eco-points in local storage ----------

  const EcoPointsKey := "ecoPoints"

  /** The value the click handler stores under "ecoPoints": "10" when the key
      is missing or empty, otherwise `parseInt` of the stored text plus 10,
      written back with `String`; `NaN + 10` is stored as "NaN". */
  function NextEcoPoints(items: map<string, string>): (r: string)
    ensures EcoPointsKey !in items || items[EcoPointsKey] == "" ==> r == "10"
    ensures r == "NaN" <==>
              EcoPointsKey in items && items[EcoPointsKey] != "" && ParseInt(items[EcoPointsKey]) == None
  {
    if EcoPointsKey in items && items[EcoPointsKey] != "" then
      match ParseInt(items[EcoPointsKey])
      case Some(points) => IntString(points + 10)
      case None => "NaN"
    else
      "10"
  }

  /** A click adds ten points to a readable count, starts an absent or empty
      one at ten, and leaves an unreadable one unreadable. */
  lemma NextEcoPointsAdds(items: map<string, string>)
    ensures EcoPointsKey !in items || items[EcoPointsKey] == "" ==>
              ParseInt(NextEcoPoints(items)) == Some(10)
    ensures EcoPointsKey in items && items[EcoPointsKey] != "" && ParseInt(items[EcoPointsKey]).Some? ==>
              ParseInt(NextEcoPoints(items)) == Some(ParseInt(items[EcoPointsKey]).value + 10)
    ensures EcoPointsKey in items && items[EcoPointsKey] != "" && ParseInt(items[EcoPointsKey]) == None ==>
              ParseInt(NextEcoPoints(items)) == None
  {
    IntStringRoundTrip(10);
    assert IntString(10) == "10";
    if EcoPointsKey in items && items[EcoPointsKey] != "" {
      match ParseInt(items[EcoPointsKey])
      case Some(points) => IntStringRoundTrip(points + 10);
      case None =>
        assert TrimStart("NaN") == "NaN";
    }
  }

  /** A click on a count written by `String(m)` writes `String(m + 10)`. */
  lemma NextOfIntString(items: map<string, string>, m: int)
    requires EcoPointsKey in items && items[EcoPointsKey] == IntString(m)
    ensures NextEcoPoints(items) == IntString(m + 10)
  {
    IntStringRoundTrip(m);
  }

  /** Two clicks starting from no points leave "20". */
  lemma TwoContributions(items: map<string, string>)
    requires EcoPointsKey !in items
    ensures var once := items[EcoPointsKey := NextEcoPoints(items)];
            once[EcoPointsKey := NextEcoPoints(once)][EcoPointsKey] == "20"
  {
    var once := items[EcoPointsKey := NextEcoPoints(items)];
    assert IntString(10) == "10";
    NextOfIntString(once, 10);
    assert IntString(20) == "20";
  }

  /** The browser's local storage, as the key-value map it holds. */
  class LocalStore {
    var items: map<string, string>

    constructor (items0: map<string, string>)
      ensures items == items0
    {
      items := items0;
    }

    /** A click on an impact card's button: read "ecoPoints", add 10 (or
        start at 10) and write it back; no other key changes. */
    method RecordContribution()
      modifies this
      ensures items == old(items)[EcoPointsKey := NextEcoPoints(old(items))]
    {
      if EcoPointsKey in items && items[EcoPointsKey] != "" {
        var stored := ParseInt(items[EcoPointsKey]);
        if stored.Some? {
          var points := stored.value;
          points := points + 10;
          items := items[EcoPointsKey := IntString(points)];
        } else {
          items := items[EcoPointsKey := "NaN"];
        }
      } else {
        items := items[EcoPointsKey := "10"];
      }
    }
  }
}
