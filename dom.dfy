/** The part of the page the donation scripts read and write: a form input
    with its CSS class list and the error container shown next to it. */
module Dom {

  const ErrorClass := "error"
  const ValidClass := "valid"

  /** An input element (`value`, `classList`) together with its error
      element (`textContent` and whether it carries the `show` class). */
  class Field {
    var value: string
    var classes: set<string>
    var errorText: string
    var errorShown: bool

    constructor (value: string)
      ensures this.value == value && classes == {} && errorText == "" && !errorShown
    {
      this.value := value;
      classes := {};
      errorText := "";
      errorShown := false;
    }

    /** The input is marked valid: `valid` set, `error` cleared. */
    predicate MarkedValid()
      reads this
    {
      ValidClass in classes && ErrorClass !in classes
    }

    /** The input is marked in error: `error` set, `valid` cleared. */
    predicate MarkedError()
      reads this
    {
      ErrorClass in classes && ValidClass !in classes
    }

    /** Neither mark. */
    predicate Unmarked()
      reads this
    {
      ErrorClass !in classes && ValidClass !in classes
    }

    /** `classList.add('error'); classList.remove('valid'); showError(el, message)` */
    method ShowError(message: string)
      modifies this
      ensures MarkedError() && classes - {ErrorClass} == old(classes) - {ErrorClass, ValidClass}
      ensures errorShown && errorText == message && value == old(value)
    {
      classes := classes + {ErrorClass} - {ValidClass};
      errorText := message;
      errorShown := true;
    }

    /** `showError(el, message)` alone: the message is shown, the input's
        classes are left as they are. */
    method ShowMessage(message: string)
      modifies this
      ensures errorShown && errorText == message
      ensures classes == old(classes) && value == old(value)
    {
      errorText := message;
      errorShown := true;
    }

    /** `classList.remove('error'); classList.add('valid'); hideError(el)`;
        the text of the error element is cleared later by a timer, which is
        not modelled. */
    method ShowValid()
      modifies this
      ensures MarkedValid() && classes - {ValidClass} == old(classes) - {ErrorClass, ValidClass}
      ensures !errorShown && errorText == old(errorText) && value == old(value)
    {
      classes := classes - {ErrorClass} + {ValidClass};
      errorShown := false;
    }

    /** `classList.remove('error', 'valid'); hideError(el)` */
    method ClearMarks()
      modifies this
      ensures Unmarked() && classes == old(classes) - {ErrorClass, ValidClass}
      ensures !errorShown && errorText == old(errorText) && value == old(value)
    {
      classes := classes - {ErrorClass, ValidClass};
      errorShown := false;
    }
  }
}
