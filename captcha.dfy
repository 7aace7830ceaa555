/** The `CaptchaManager` of static/js/captcha-fix.js: one per form, it
    keeps the code drawn on the canvas, the text in the input, the input's
    `error` class and the visibility of the form's error message. Which
    page elements exist is fixed when the manager is built. Drawing,
    scrolling, alerts and logging are not modelled. */
module Captcha {
  import opened CaptchaCode

  class CaptchaManager {
    const hasCanvas: bool
    const hasRefreshBtn: bool
    const hasInput: bool
    const hasForm: bool
    /** Whether the input's parent holds an `.error-message` element. */
    const hasErrorMessage: bool

    var currentCode: string
    var inputValue: string
    /** The `error` class on the input. */
    var inputError: bool
    /** `.error-message` shown (`display: block`) or hidden. */
    var errorShown: bool
    /** Whether `init` ran, so that the click, input and submit listeners
        are attached. */
    var initialized: bool

    /** Initialisation runs exactly when the canvas, the refresh button and
        the input all exist; before it the code is empty, after it the
        code is a generated one. */
    ghost predicate Valid()
      reads this
    {
      (initialized <==> hasCanvas && hasRefreshBtn && hasInput) &&
      (initialized ==> IsCode(currentCode)) &&
      (!initialized ==> currentCode == "")
    }

    /** `constructor`: the element checks one by one, then `init`, whose
        first step is `refresh`. */
    constructor(hasCanvas: bool, hasRefreshBtn: bool, hasInput: bool, hasForm: bool, hasErrorMessage: bool,
                inputValue: string)
      ensures Valid()
      ensures this.hasCanvas == hasCanvas && this.hasRefreshBtn == hasRefreshBtn && this.hasInput == hasInput
      ensures this.hasForm == hasForm && this.hasErrorMessage == hasErrorMessage
      ensures !(hasCanvas && hasRefreshBtn && hasInput) ==> currentCode == "" && this.inputValue == inputValue
      ensures hasCanvas && hasRefreshBtn && hasInput ==> IsCode(currentCode) && this.inputValue == ""
      ensures !inputError && !errorShown
    {
      this.hasCanvas := hasCanvas;
      this.hasRefreshBtn := hasRefreshBtn;
      this.hasInput := hasInput;
      this.hasForm := hasForm;
      this.hasErrorMessage := hasErrorMessage;
      this.inputValue := inputValue;
      currentCode := "";
      inputError := false;
      errorShown := false;
      initialized := false;
      new;
      if !hasCanvas {
        return;
      }
      if !hasRefreshBtn {
        return;
      }
      if !hasInput {
        return;
      }
      Refresh();
      initialized := true;
    }

    /** `generateCode`: six symbols drawn from the alphabet; `Math.random`
        is an arbitrary choice of index. */
    method GenerateCode() returns (code: string)
      ensures IsCode(code)
    {
      code := "";
      var i := 0;
      while i < CodeLength
        invariant 0 <= i <= CodeLength && |code| == i
        invariant forall k :: 0 <= k < |code| ==> code[k] in Alphabet
      {
        var index :| 0 <= index < |Alphabet|;
        code := code + [Alphabet[index]];
        i := i + 1;
      }
    }

    /** `refresh`: a new code, the input emptied. */
    method Refresh()
      requires hasInput
      modifies this
      ensures IsCode(currentCode) && inputValue == ""
      ensures inputError == old(inputError) && errorShown == old(errorShown) && initialized == old(initialized)
    {
      currentCode := GenerateCode();
      inputValue := "";
    }

    /** `validate`. */
    function Validate(userInput: string): (ok: bool)
      reads this
      ensures ok <==> Accepts(userInput, currentCode)
    {
      Upper(userInput) == currentCode
    }

    /** A click on the refresh button; without `init` there is no
        listener. */
    method OnRefreshClick()
      requires Valid()
      modifies this
      ensures Valid()
      ensures initialized ==> IsCode(currentCode) && inputValue == ""
      ensures !initialized ==> currentCode == old(currentCode) && inputValue == old(inputValue)
      ensures inputError == old(inputError) && errorShown == old(errorShown) && initialized == old(initialized)
    {
      if initialized {
        Refresh();
      }
    }

    /** Typing `value` into the input; the `input` listener clears the
        error class and hides the error message. */
    method OnInput(value: string)
      requires Valid()
      modifies this
      ensures Valid() && inputValue == value && currentCode == old(currentCode) && initialized == old(initialized)
      ensures initialized ==> !inputError && (hasErrorMessage ==> !errorShown)
      ensures !initialized ==> inputError == old(inputError) && errorShown == old(errorShown)
      ensures !hasErrorMessage ==> errorShown == old(errorShown)
    {
      inputValue := value;
      if initialized {
        inputError := false;
        if hasErrorMessage {
          errorShown := false;
        }
      }
    }

    /** Submitting the form. The listener exists only after `init` and only
        when the form exists; a wrong code blocks the submission, marks the
        input, shows the message (or alerts) and draws a new code. */
    method OnSubmit() returns (blocked: bool)
      requires Valid()
      modifies this
      ensures Valid() && initialized == old(initialized)
      ensures blocked <==> initialized && hasForm && !Accepts(old(inputValue), old(currentCode))
      ensures blocked ==> inputError && inputValue == "" && IsCode(currentCode)
      ensures blocked ==> errorShown == (hasErrorMessage || old(errorShown))
      ensures !blocked ==> currentCode == old(currentCode) && inputValue == old(inputValue)
      ensures !blocked ==> inputError == old(inputError) && errorShown == old(errorShown)
    {
      blocked := false;
      if initialized && hasForm {
        var isValid := Validate(inputValue);
        if !isValid {
          blocked := true;
          inputError := true;
          if hasErrorMessage {
            errorShown := true;
          }
          Refresh();
        }
      }
    }
  }

  /** Once initialised, typing the shown code, or its lower-case form,
      lets the form through and keeps the code. */
  method TypedCodeSubmits(m: CaptchaManager, lowerCase: bool) returns (blocked: bool)
    requires m.Valid() && m.initialized
    modifies m
    ensures !blocked && m.currentCode == old(m.currentCode)
  {
    var typed := if lowerCase then Lower(m.currentCode) else m.currentCode;
    CodeAcceptedInEitherCase(m.currentCode);
    m.OnInput(typed);
    blocked := m.OnSubmit();
  }
}
