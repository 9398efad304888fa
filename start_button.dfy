/** The start button's enablement (code.js:127-129): it is disabled while any of the
    inputs needed to start holds an empty value. */
module StartButton {

  /** `values.some(x => x.length === 0)`, over the inputs' current values in order. */
  function SomeEmpty(values: seq<string>): (r: bool)
    ensures r <==> exists k :: 0 <= k < |values| && |values[k]| == 0
  {
    if values == [] then false
    else |values[0]| == 0 || SomeEmpty(values[1..])
  }

  /** The button whose `disabled` flag the input listeners keep up to date. */
  class Button {
    var disabled: bool

    /** The flag the page markup gives the button before any input event; the markup
        is not part of this model, so it is a parameter. */
    constructor (initiallyDisabled: bool)
      ensures disabled == initiallyDisabled
    {
      disabled := initiallyDisabled;
    }

    /** `updateStartButtonState`: assign `disabled` from the inputs' current values. */
    method UpdateStartButtonState(inputValues: seq<string>)
      modifies this
      ensures disabled <==> exists k :: 0 <= k < |inputValues| && inputValues[k] == ""
    {
      disabled := SomeEmpty(inputValues);
    }
  }

  /** With the two inputs the page wires up, the root username and the access token,
      the button is enabled exactly when both are non-empty. */
  lemma EnabledIffBothFilled(rootUser: string, token: string)
    ensures !SomeEmpty([rootUser, token]) <==> rootUser != "" && token != ""
  {
  }
}
