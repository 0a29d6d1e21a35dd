/** The two validation middlewares, `validateRegistration` and
    `validateProduct`: ordered chains of checks where the first failing
    check answers 400 with its own message and nothing after it runs. */
module Validation {
  import opened Http
  import opened Text

  /** What a middleware does with a request: pass it on (`next()`) or
      answer it. */
  datatype Verdict = Next | Reject(status: nat, message: string)

  const UsernameTooShort := "Username must be at least 3 characters"
  const EmailInvalid := "Valid email is required"
  const PasswordTooShort := "Password must be at least 6 characters"
  const NameRequired := "Product name is required"
  const PriceInvalid := "Valid price is required"
  const CategoryRequired := "Category is required"
  const DescriptionRequired := "Description is required"

  // ---------------------------------------------------------------- rules

  /** A username is present and at least 3 UTF-16 code units long. */
  predicate UsernameOk(username: Option<string>) {
    username.Some? && Utf16Length(username.value) >= 3
  }

  /** An email is present and contains an '@'. */
  predicate EmailOk(email: Option<string>) {
    email.Some? && '@' in email.value
  }

  /** A password is present and at least 6 UTF-16 code units long. */
  predicate PasswordOk(password: Option<string>) {
    password.Some? && Utf16Length(password.value) >= 6
  }

  /** A text field is present and holds at least one non-whitespace
      character. */
  predicate HasText(field: Option<string>) {
    field.Some? && exists i | 0 <= i < |field.value| :: !IsWhitespace(field.value[i])
  }

  /** The price of a request body, as JavaScript sees it: absent (or
      otherwise falsy), not a number, or an amount, here in cents. */
  datatype PriceField = Missing | NotANumber | Amount(cents: int)

  /** A price is a number strictly above zero. */
  predicate PriceOk(price: PriceField) {
    price.Amount? && price.cents > 0
  }

  /** The fields of a product submission (POST and PUT /products). */
  datatype ProductBody = ProductBody(
    name: Option<string>,
    price: PriceField,
    category: Option<string>,
    description: Option<string>)

  // ------------------------------------------------------------ middleware

  /** `validateRegistration`: username, then email, then password; the first
      rule that fails answers 400 with its own message. */
  function ValidateRegistration(username: Option<string>, email: Option<string>, password: Option<string>): (v: Verdict)
    ensures v.Next? <==> UsernameOk(username) && EmailOk(email) && PasswordOk(password)
    ensures v.Reject? ==> v.status == 400
    ensures !UsernameOk(username) ==> v == Reject(400, UsernameTooShort)
    ensures UsernameOk(username) && !EmailOk(email) ==> v == Reject(400, EmailInvalid)
    ensures UsernameOk(username) && EmailOk(email) && !PasswordOk(password) ==> v == Reject(400, PasswordTooShort)
  {
    if !Truthy(username) || Utf16Length(username.value) < 3 then Reject(400, UsernameTooShort)
    else if !Truthy(email) || '@' !in email.value then Reject(400, EmailInvalid)
    else if !Truthy(password) || Utf16Length(password.value) < 6 then Reject(400, PasswordTooShort)
    else Next
  }

  /** `validateProduct`: name, then price, then category, then description;
      the first rule that fails answers 400 with its own message. */
  function ValidateProduct(body: ProductBody): (v: Verdict)
    ensures v.Next? <==> HasText(body.name) && PriceOk(body.price) && HasText(body.category) && HasText(body.description)
    ensures v.Next? ==> body.name.Some? && body.price.Amount? && body.category.Some? && body.description.Some?
    ensures v.Reject? ==> v.status == 400
    ensures !HasText(body.name) ==> v == Reject(400, NameRequired)
    ensures HasText(body.name) && !PriceOk(body.price) ==> v == Reject(400, PriceInvalid)
    ensures HasText(body.name) && PriceOk(body.price) && !HasText(body.category) ==> v == Reject(400, CategoryRequired)
    ensures (HasText(body.name) && PriceOk(body.price) && HasText(body.category) && !HasText(body.description))
              ==> v == Reject(400, DescriptionRequired)
  {
    if !Truthy(body.name) || |Trim(body.name.value)| == 0 then Reject(400, NameRequired)
    else if body.price.Missing? || body.price.NotANumber? || body.price.cents <= 0 then Reject(400, PriceInvalid)
    else if !Truthy(body.category) || |Trim(body.category.value)| == 0 then Reject(400, CategoryRequired)
    else if !Truthy(body.description) || |Trim(body.description.value)| == 0 then Reject(400, DescriptionRequired)
    else Next
  }

  // --------------------------------------------- reference: first failure

  /** One check of a chain: whether it holds and the message it answers with
      when it does not. */
  datatype Rule = Rule(holds: bool, message: string)

  /** The message of the first rule that fails, or None when all hold. */
  function FirstFailure(rules: seq<Rule>): (r: Option<string>)
    ensures r.None? <==> forall i | 0 <= i < |rules| :: rules[i].holds
    ensures r.Some? ==> exists i | 0 <= i < |rules| ::
              && !rules[i].holds && rules[i].message == r.value
              && forall j | 0 <= j < i :: rules[j].holds
  {
    if rules == [] then None
    else if !rules[0].holds then Some(rules[0].message)
    else
      var r := FirstFailure(rules[1..]);
      assert forall i | 1 <= i < |rules| :: rules[i] == rules[1..][i - 1];
      r
  }

  /** One step of the chain: a failing head answers, a holding head hands
      over to the rest. */
  lemma FirstFailureSteps(rules: seq<Rule>)
    requires rules != []
    ensures FirstFailure(rules) == if rules[0].holds then FirstFailure(rules[1..]) else Some(rules[0].message)
  {
  }

  /** The verdict of a chain of rules: the first failure answers 400. */
  function Chain(rules: seq<Rule>): Verdict {
    match FirstFailure(rules)
    case None => Next
    case Some(m) => Reject(400, m)
  }

  function RegistrationRules(username: Option<string>, email: Option<string>, password: Option<string>): seq<Rule> {
    [Rule(UsernameOk(username), UsernameTooShort),
     Rule(EmailOk(email), EmailInvalid),
     Rule(PasswordOk(password), PasswordTooShort)]
  }

  function ProductRules(body: ProductBody): seq<Rule> {
    [Rule(HasText(body.name), NameRequired),
     Rule(PriceOk(body.price), PriceInvalid),
     Rule(HasText(body.category), CategoryRequired),
     Rule(HasText(body.description), DescriptionRequired)]
  }

  /** The registration middleware is the first-failure chain of its three
      rules, in the order username, email, password. */
  lemma RegistrationIsFirstFailure(username: Option<string>, email: Option<string>, password: Option<string>)
    ensures ValidateRegistration(username, email, password) == Chain(RegistrationRules(username, email, password))
  {
    var rules := RegistrationRules(username, email, password);
    FirstFailureSteps(rules);
    FirstFailureSteps(rules[1..]);
    FirstFailureSteps(rules[1..][1..]);
    assert rules[1..][1..][1..] == [];
  }

  /** The product middleware is the first-failure chain of its four rules,
      in the order name, price, category, description. */
  lemma ProductIsFirstFailure(body: ProductBody)
    ensures ValidateProduct(body) == Chain(ProductRules(body))
  {
    var rules := ProductRules(body);
    FirstFailureSteps(rules);
    FirstFailureSteps(rules[1..]);
    FirstFailureSteps(rules[1..][1..]);
    FirstFailureSteps(rules[1..][1..][1..]);
    assert rules[1..][1..][1..][1..] == [];
  }

  /** A zero price is rejected although a 0 is a number: it is falsy. */
  lemma ZeroPriceRejected(name: string, category: string, description: string)
    requires exists i | 0 <= i < |name| :: !IsWhitespace(name[i])
    ensures ValidateProduct(ProductBody(Some(name), Amount(0), Some(category), Some(description))) == Reject(400, PriceInvalid)
  {
  }
}
