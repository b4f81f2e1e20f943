/**
 * `processResponse`: the generated text is formatted, the formatted text
 * is validated, and the validation errors are only logged, so the result
 * is the formatted text whatever the validation finds.
 */
module Processor {
  import opened JsString
  import opened Formats
  import opened Constants
  import opened Formatter
  import opened Validators

  /**
   * Returns the formatted text together with the errors the validator would
   * log, `None` when it logs nothing. The log is the only effect validation
   * has.
   */
  method ProcessResponse(content: string, isAssessment: bool, fmt: string) returns (text: string, logged: Option<seq<string>>)
    requires isAssessment || Known(fmt)
    ensures text == FormatResponseSpec(content, HeadingsFor(isAssessment, fmt))
    ensures logged.Some? <==> text == ""
    ensures logged.Some? ==> logged.value == [EMPTY_RESPONSE]
  {
    text := FormatResponse(content, isAssessment, fmt);
    var validation := ValidateResponseFormat(text, isAssessment, fmt);
    ValidateValidity(text, isAssessment, HeadingsFor(isAssessment, fmt));
    if !validation.isValid {
      logged := Some(validation.errors);
    } else {
      logged := None;
    }
  }
}
