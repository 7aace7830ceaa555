/** `OrderForm` (shop/forms.py) as a validation function over the submitted
    values. E-mail syntax (Django's `EmailValidator`) and the server-side
    captcha check (django-simple-captcha's `CaptchaField`) are foreign code:
    they are the predicates `emailOk` and `captchaOk`. Values are taken as
    already stripped of surrounding whitespace. */
module Forms {
  import opened Wrappers

  datatype Field = Fio | Phone | Email | Message | Captcha

  /** What a declared form field checks. */
  datatype FieldSpec =
    | CharSpec(required: bool, maxLength: int)   // maxLength < 0: no `max_length`
    | EmailSpec(required: bool)
    | CaptchaSpec

  /** `required`, `max_length`, `invalid` and `null_characters_not_allowed`. */
  datatype ErrorCode = Required | MaxLength | Invalid | NullCharacters

  /** The values posted for the five fields. */
  datatype Submission = Submission(fio: string, phone: string, email: string, message: string, captcha: string)

  /** The field declarations of `OrderForm`. */
  function Spec(f: Field): FieldSpec
  {
    match f
    case Fio => CharSpec(true, 200)
    case Phone => CharSpec(true, 20)
    case Email => EmailSpec(true)
    case Message => CharSpec(false, -1)
    case Captcha => CaptchaSpec
  }

  function Value(d: Submission, f: Field): string
  {
    match f
    case Fio => d.fio
    case Phone => d.phone
    case Email => d.email
    case Message => d.message
    case Captcha => d.captcha
  }

  /** The error Django's field cleaning reports for one value, if any: an
      empty required value is `required` (an empty optional value skips the
      validators); a longer value than `max_length` is `max_length`; an
      address or captcha answer that fails its check is `invalid`; a value
      holding U+0000 fails the `ProhibitNullCharactersValidator` every
      `CharField`, `EmailField` included, carries. When several validators
      fail, the first in Django's order is the one reported. */
  function Clean(spec: FieldSpec, v: string, emailOk: string -> bool, captchaOk: string -> bool): (e: Option<ErrorCode>)
  {
    match spec
    case CharSpec(required, maxLength) =>
      if v == "" then (if required then Some(Required) else None)
      else if 0 <= maxLength < |v| then Some(MaxLength)
      else if '\0' in v then Some(NullCharacters)
      else None
    case EmailSpec(required) =>
      if v == "" then (if required then Some(Required) else None)
      else if !emailOk(v) then Some(Invalid)
      else if '\0' in v then Some(NullCharacters)
      else None
    case CaptchaSpec =>
      if captchaOk(v) then None else Some(Invalid)
  }

  /** `form.errors`: each field whose value does not clean, with its error. */
  function Errors(d: Submission, emailOk: string -> bool, captchaOk: string -> bool): (errs: map<Field, ErrorCode>)
  {
    map f: Field | Clean(Spec(f), Value(d, f), emailOk, captchaOk).Some? :: Clean(Spec(f), Value(d, f), emailOk, captchaOk).value
  }

  /** `form.is_valid()`. */
  predicate IsValid(d: Submission, emailOk: string -> bool, captchaOk: string -> bool)
  {
    Errors(d, emailOk, captchaOk) == map[]
  }

  /** `fio` is required, at most 200 characters and free of U+0000. */
  lemma FioRule(d: Submission, emailOk: string -> bool, captchaOk: string -> bool)
    ensures Fio in Errors(d, emailOk, captchaOk) <==> d.fio == "" || |d.fio| > 200 || '\0' in d.fio
    ensures Fio in Errors(d, emailOk, captchaOk) && 0 < |d.fio| <= 200 ==>
              Errors(d, emailOk, captchaOk)[Fio] == NullCharacters
  {
    assert Clean(Spec(Fio), Value(d, Fio), emailOk, captchaOk).Some? <==>
             d.fio == "" || |d.fio| > 200 || '\0' in d.fio;
  }

  /** `phone` is required, at most 20 characters and free of U+0000. */
  lemma PhoneRule(d: Submission, emailOk: string -> bool, captchaOk: string -> bool)
    ensures Phone in Errors(d, emailOk, captchaOk) <==> d.phone == "" || |d.phone| > 20 || '\0' in d.phone
    ensures Phone in Errors(d, emailOk, captchaOk) && 0 < |d.phone| <= 20 ==>
              Errors(d, emailOk, captchaOk)[Phone] == NullCharacters
  {
    assert Clean(Spec(Phone), Value(d, Phone), emailOk, captchaOk).Some? <==>
             d.phone == "" || |d.phone| > 20 || '\0' in d.phone;
  }

  /** `email` is required, must be a valid address and free of U+0000. */
  lemma EmailRule(d: Submission, emailOk: string -> bool, captchaOk: string -> bool)
    ensures Email in Errors(d, emailOk, captchaOk) <==> d.email == "" || !emailOk(d.email) || '\0' in d.email
  {
    assert Clean(Spec(Email), Value(d, Email), emailOk, captchaOk).Some? <==>
             d.email == "" || !emailOk(d.email) || '\0' in d.email;
  }

  /** `message` is optional and unbounded: only U+0000 in it is an error,
      and that error is `null_characters_not_allowed`. */
  lemma MessageRule(d: Submission, emailOk: string -> bool, captchaOk: string -> bool)
    ensures Message in Errors(d, emailOk, captchaOk) <==> '\0' in d.message
    ensures Message in Errors(d, emailOk, captchaOk) ==> Errors(d, emailOk, captchaOk)[Message] == NullCharacters
  {
    assert Clean(Spec(Message), Value(d, Message), emailOk, captchaOk).Some? <==> '\0' in d.message;
  }

  /** A failed captcha makes the form invalid whatever the other fields hold. */
  lemma CaptchaFailureInvalidates(d: Submission, emailOk: string -> bool, captchaOk: string -> bool)
    requires !captchaOk(d.captcha)
    ensures !IsValid(d, emailOk, captchaOk)
  {
    assert Clean(Spec(Captcha), Value(d, Captcha), emailOk, captchaOk).Some?;
    assert Captcha in Errors(d, emailOk, captchaOk);
  }

  /** No text field holds U+0000. */
  predicate NoNullCharacters(d: Submission)
  {
    '\0' !in d.fio && '\0' !in d.phone && '\0' !in d.email && '\0' !in d.message
  }

  /** The whole form in one statement: valid exactly when the name and phone
      are non-empty and within their lengths, the address is non-empty and
      valid, the captcha answer passes and no text field holds U+0000; the
      message's content plays no other part. */
  lemma ValidExactly(d: Submission, emailOk: string -> bool, captchaOk: string -> bool)
    ensures IsValid(d, emailOk, captchaOk) <==>
              0 < |d.fio| <= 200 && 0 < |d.phone| <= 20 && d.email != "" && emailOk(d.email) &&
              captchaOk(d.captcha) && NoNullCharacters(d)
  {
    var errs := Errors(d, emailOk, captchaOk);
    FioRule(d, emailOk, captchaOk);
    PhoneRule(d, emailOk, captchaOk);
    EmailRule(d, emailOk, captchaOk);
    MessageRule(d, emailOk, captchaOk);
    assert Captcha in errs <==> !captchaOk(d.captcha) by {
      assert Clean(Spec(Captcha), Value(d, Captcha), emailOk, captchaOk).Some? <==> !captchaOk(d.captcha);
    }
    if errs != map[] {
      var f :| f in errs;
      assert f == Fio || f == Phone || f == Email || f == Message || f == Captcha;
    }
  }
}
