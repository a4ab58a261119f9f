/** The validation rules the listing form passes to `register(...)` for its four
    fields, and how react-hook-form applies them when the form is submitted. */
module Validation {
  import opened Patterns

  datatype Option<+T> = None | Some(value: T)

  /** The values of the four inputs. */
  datatype FormValues = FormValues(name: string, website: string, about: string, contactNumber: string)

  /** What every input holds after `reset()` when the form declares no default values. */
  const EmptyForm := FormValues("", "", "", "")

  /** The message shown under each input, None when the input passed. */
  datatype FormErrors = FormErrors(
    name: Option<string>, website: Option<string>, about: Option<string>, contactNumber: Option<string>)

  const NoFieldErrors := FormErrors(None, None, None, None)

  /** The patterns the form declares. */
  datatype Pattern = UrlPattern | PhonePattern

  predicate PatternMatches(p: Pattern, v: string)
  {
    match p
    case UrlPattern => WebsiteMatches(v)
    case PhonePattern => PhoneMatches(v)
  }

  datatype MinLengthRule = MinLengthRule(value: nat, message: string)
  datatype PatternRule = PatternRule(value: Pattern, message: string)

  /** The options object given to `register` for one input: a required message, and
      optionally a minimum length and a pattern, each with its message. */
  datatype Rules = Rules(required: string, minLength: Option<MinLengthRule>, pattern: Option<PatternRule>)

  const NameRules := Rules("Name is required", None, None)
  const WebsiteRules :=
    Rules("Website URL is required", None, Some(PatternRule(UrlPattern, "Please enter a valid URL")))
  const AboutRules :=
    Rules("Description is required", Some(MinLengthRule(20, "Please provide at least 20 characters")), None)
  const ContactRules :=
    Rules("Contact number is required", None, Some(PatternRule(PhonePattern, "Please enter a valid phone number")))

  /** What the rules ask of a value, read declaratively. */
  predicate Satisfies(rules: Rules, v: string)
  {
    && |v| > 0
    && (rules.minLength.Some? ==> |v| >= rules.minLength.value.value)
    && (rules.pattern.Some? ==> PatternMatches(rules.pattern.value.value, v))
  }

  /** The message react-hook-form records for one input. It checks `required` first, then
      `minLength`, then `pattern`, and stops at the first rule that fails; an empty value
      is reported as missing and the other rules are not applied to it. */
  function CheckField(rules: Rules, v: string): (e: Option<string>)
    ensures e.None? <==> Satisfies(rules, v)
    ensures |v| == 0 ==> e == Some(rules.required)
    ensures e.Some? ==>
      (|| e.value == rules.required
       || (rules.minLength.Some? && e.value == rules.minLength.value.message)
       || (rules.pattern.Some? && e.value == rules.pattern.value.message))
  {
    if |v| == 0 then
      Some(rules.required)
    else if rules.minLength.Some? && |v| < rules.minLength.value.value then
      Some(rules.minLength.value.message)
    else if rules.pattern.Some? && !PatternMatches(rules.pattern.value.value, v) then
      Some(rules.pattern.value.message)
    else
      None
  }

  /** Every input is checked against its own rules; all failing inputs are reported at once. */
  function Validate(f: FormValues): (e: FormErrors)
    ensures e.name.None? <==> |f.name| > 0
    ensures e.website.None? <==> |f.website| > 0 && WebsiteMatches(f.website)
    ensures e.about.None? <==> |f.about| >= 20
    ensures e.contactNumber.None? <==> |f.contactNumber| > 0 && PhoneMatches(f.contactNumber)
  {
    FormErrors(
      CheckField(NameRules, f.name),
      CheckField(WebsiteRules, f.website),
      CheckField(AboutRules, f.about),
      CheckField(ContactRules, f.contactNumber))
  }

  /** `handleSubmit` calls the submit handler only when no input has an error. */
  predicate Accepted(f: FormValues)
  {
    Validate(f) == NoFieldErrors
  }

  // ---------------------------------------------------------------------------
  // What each declared rule accepts
  // ---------------------------------------------------------------------------

  /** A name passes exactly when it is not empty (white space counts as content). */
  lemma NameVerdict(v: string)
    ensures CheckField(NameRules, v).None? <==> |v| > 0
    ensures |v| == 0 ==> CheckField(NameRules, v) == Some("Name is required")
  {
  }

  /** A website passes exactly when some prefix of it is in the language of the pattern. */
  lemma WebsiteVerdict(v: string)
    ensures CheckField(WebsiteRules, v).None? <==> WebsiteRegex(v)
    ensures |v| > 0 && !WebsiteRegex(v) ==> CheckField(WebsiteRules, v) == Some("Please enter a valid URL")
  {
    WebsiteMatchesIsRegex(v);
  }

  /** A description passes exactly when it has at least 20 characters; a shorter
      non-empty one gets the length message, and an empty one is reported as missing. */
  lemma AboutVerdict(v: string)
    ensures CheckField(AboutRules, v).None? <==> |v| >= 20
    ensures 0 < |v| < 20 ==> CheckField(AboutRules, v) == Some("Please provide at least 20 characters")
    ensures |v| == 0 ==> CheckField(AboutRules, v) == Some("Description is required")
  {
  }

  /** A contact number passes exactly when it is 10 to 15 ASCII digits and nothing else. */
  lemma ContactVerdict(v: string)
    ensures CheckField(ContactRules, v).None? <==> 10 <= |v| <= 15 && AllIn(v, Digit)
    ensures 0 < |v| && !PhoneShape(v) ==> CheckField(ContactRules, v) == Some("Please enter a valid phone number")
  {
    PhoneMatchesExactly(v);
  }

  /** The form is submitted exactly when all four inputs pass, each judged by itself. */
  lemma AcceptedExactly(f: FormValues)
    ensures Accepted(f) <==>
      && |f.name| > 0
      && WebsiteRegex(f.website)
      && |f.about| >= 20
      && 10 <= |f.contactNumber| <= 15 && AllIn(f.contactNumber, Digit)
  {
    NameVerdict(f.name);
    WebsiteVerdict(f.website);
    AboutVerdict(f.about);
    ContactVerdict(f.contactNumber);
  }

  /** An empty input is always reported with its required message, and blocks submission. */
  lemma EmptyInputBlocks(f: FormValues)
    requires f.name == "" || f.website == "" || f.about == "" || f.contactNumber == ""
    ensures !Accepted(f)
    ensures f.name == "" ==> Validate(f).name == Some("Name is required")
    ensures f.website == "" ==> Validate(f).website == Some("Website URL is required")
    ensures f.about == "" ==> Validate(f).about == Some("Description is required")
    ensures f.contactNumber == "" ==> Validate(f).contactNumber == Some("Contact number is required")
  {
  }

  /** Each input's verdict depends on that input's value alone. */
  lemma VerdictsAreLocal(f: FormValues, g: FormValues)
    ensures f.name == g.name ==> Validate(f).name == Validate(g).name
    ensures f.website == g.website ==> Validate(f).website == Validate(g).website
    ensures f.about == g.about ==> Validate(f).about == Validate(g).about
    ensures f.contactNumber == g.contactNumber ==> Validate(f).contactNumber == Validate(g).contactNumber
  {
  }
}
