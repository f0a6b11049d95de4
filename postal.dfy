/** The postal-code (CEP) lookup of `lookupCEP` (core/static/js/main.js:
    138-156), with the request and its answer taken as values: the blur
    handler decides whether to ask the address service, and the answer,
    once it arrives, either completes the address or reports an error. */
module Postal {
  import opened Text
  import Normalizer

  const CepLength: nat := 8

  const LengthMessage: string := "CEP deve conter 8 números."
  const NotFoundMessage: string := "CEP não encontrado."
  const FailureMessage: string := "Erro ao consultar CEP."

  /** What the blur handler does after clearing the field's annotation. */
  datatype BlurAction =
    | Lookup(cep: string)   // one request for these eight digits
    | ReportLength          // the "8 números" annotation, no request
    | Ignore                // neither

  function OnBlur(value: string): (action: BlurAction)
    ensures action.Lookup? <==> |DigitsOf(value)| == CepLength
    ensures action.Lookup? ==> action.cep == DigitsOf(value)
    ensures action == ReportLength <==> 0 < |DigitsOf(value)| < CepLength
    ensures action == Ignore <==> DigitsOf(value) == [] || |DigitsOf(value)| > CepLength
  {
    var cep := DigitsOf(value);
    if |cep| == CepLength then Lookup(cep)
    else if 0 < |cep| < CepLength then ReportLength
    else Ignore
  }

  /** The three properties of the service's answer that the page reads. */
  datatype Address = Address(localidade: string, bairro: string, logradouro: string)

  /** How a request settles: a parsed body, whose `erro` property is truthy
      for an unknown code, or a failure of the transport or of parsing. */
  datatype Response =
    | Body(erro: bool, address: Address)
    | TransportFailure

  /** What happens when the request settles. */
  datatype Completion =
    | Complete(address: Address)   // the callback runs with the answer
    | Report(message: string)      // an annotation on the postal-code field

  function OnResponse(response: Response): (c: Completion)
    ensures c.Complete? <==> response.Body? && !response.erro
    ensures c.Complete? ==> c.address == response.address
    ensures c.Report? ==> c.message == if response.Body? then NotFoundMessage else FailureMessage
  {
    match response
    case Body(erro, address) => if !erro then Complete(address) else Report(NotFoundMessage)
    case TransportFailure => Report(FailureMessage)
  }

  /** Behind the normaliser (limit 8) the field never holds more than eight
      digits, so the silent case is left only for an empty field, and a
      request goes out exactly when eight or more digits were typed. */
  lemma NormalizedBlur(typed: string)
    ensures OnBlur(Normalizer.Normalize(typed, CepLength)) == Ignore <==> DigitsOf(typed) == []
    ensures OnBlur(Normalizer.Normalize(typed, CepLength)).Lookup? <==> |DigitsOf(typed)| >= CepLength
  {
    DigitsOfDigits(Normalizer.Normalize(typed, CepLength));
  }

  /** Three sample fields: eight digits ask once, three
      digits are reported, an empty field does nothing. */
  lemma BlurExamples()
    ensures OnBlur("01001000") == Lookup("01001000")
    ensures OnBlur("123") == ReportLength
    ensures OnBlur("") == Ignore
  {
    var eight, three := "01001000", "123";
    assert AllDigits(eight) && AllDigits(three);
    DigitsOfDigits(eight);
    DigitsOfDigits(three);
    assert |DigitsOf(eight)| == CepLength && |DigitsOf(three)| == 3;
  }
}
