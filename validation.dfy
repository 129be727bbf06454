/** `validarCoordenadas`: the check applied to typed "latitude, longitude"
    text before a route is requested. */
module Validation {
  import opened Wrappers
  import opened Text

  /** `parseFloat`, left abstract: the number read from the text, or `None`
      where JavaScript yields `NaN`. */
  type NumberParser = string -> Option<real>

  /** A parsed value that is a number within `[-bound, bound]`, both ends included. */
  predicate WithinBound(value: Option<real>, bound: real) {
    value.Some? && -bound <= value.value <= bound
  }

  /** `validarCoordenadas(text)` */
  function ValidCoordinates(text: string, parseFloat: NumberParser): bool {
    if text == "" then false
    else
      var parts := Split(text, ',');
      if |parts| != 2 then false
      else
        var lat := parseFloat(Trim(parts[0]));
        var lng := parseFloat(Trim(parts[1]));
        WithinBound(lat, 90.0) && WithinBound(lng, 180.0)
  }

  /** The text is accepted exactly when it holds one comma, the trimmed text
      before it reads as a latitude in [-90, 90] and the trimmed text after it
      as a longitude in [-180, 180]. */
  lemma {:induction false} ValidCoordinatesIff(text: string, parseFloat: NumberParser)
    ensures ValidCoordinates(text, parseFloat) <==>
      Count(text, ',') == 1 &&
      var k := IndexOf(text, ',');
      k < |text| &&
      WithinBound(parseFloat(Trim(text[..k])), 90.0) &&
      WithinBound(parseFloat(Trim(text[k + 1..])), 180.0)
  {
    if Count(text, ',') == 1 {
      SplitAtSingleSeparator(text, ',');
    }
  }
}
