/** The handlers as the pages run them: they read and rewrite the values of
    the page's inputs in place and add and remove the error annotations
    next to them. */
module Pages {
  import opened Text
  import opened Submit
  import Normalizer
  import PhoneMask
  import Validators
  import Postal
  import EmailCheck

  /** The inputs of the page on show and the annotation, if any, that
      stands next to each of them. */
  class Form {
    var values: map<Field, string>
    var errors: map<Field, string>

    ghost predicate Valid()
      reads this
    {
      Complete(values)
    }

    constructor (initial: map<Field, string>)
      requires Complete(initial)
      ensures Valid() && values == initial && errors == map[]
    {
      values := initial;
      errors := map[];
    }

    /** `clearError` (lines 30-33): the annotation, if any, goes. */
    method ClearError(f: Field)
      modifies this
      ensures values == old(values) && errors == old(errors) - {f}
    {
      errors := errors - {f};
    }

    /** `showError` (lines 16-27): the old annotation is replaced. */
    method ShowError(f: Field, message: string)
      modifies this
      ensures values == old(values) && errors == old(errors)[f := message]
    {
      ClearError(f);
      errors := errors[f := message];
    }

    /** The input handler of `onlyNumbers` (lines 8-12). */
    method OnNumbersInput(f: Field, limit: nat)
      requires Valid()
      modifies this
      ensures Valid() && errors == old(errors)
      ensures values == old(values)[f := Normalizer.Normalize(old(values)[f], limit)]
    {
      var value := DigitsOf(values[f]);
      if limit > 0 && |value| > limit {
        value := value[..limit];
      }
      values := values[f := value];
    }

    /** The set-up of `initTelefoneMask` (line 94). */
    method InitTelefone(f: Field)
      requires Valid()
      modifies this
      ensures Valid() && errors == old(errors)
      ensures values == old(values)[f := PhoneMask.Reset(old(values)[f])]
      ensures StartsWith(values[f], PhoneMask.CountryCode)
    {
      if !StartsWith(values[f], PhoneMask.CountryCode) {
        values := values[f := PhoneMask.ResetValue];
      }
    }

    /** The input handler of `initTelefoneMask` (lines 102-120). */
    method OnTelefoneInput(f: Field)
      requires Valid()
      modifies this
      ensures Valid() && errors == old(errors)
      ensures values == old(values)[f := PhoneMask.OnInput(old(values)[f])]
      ensures StartsWith(values[f], PhoneMask.CountryCode)
    {
      var value := values[f];
      if !StartsWith(value, PhoneMask.CountryCode) {
        value := PhoneMask.ResetValue;
      }
      assert value == PhoneMask.Reset(old(values)[f]);
      var clean := PhoneMask.Clean(value);
      PhoneMask.CleanKeepsCountryCode(value);
      var run := PhoneMask.LeadingDigits(clean[|PhoneMask.CountryCode|..]);
      assert run == PhoneMask.DigitRun(old(values)[f]);
      values := values[f := PhoneMask.Render(PhoneMask.Split(run))];
    }

    /** `validateCPF` (lines 36-45). */
    method ValidateCpf(f: Field) returns (ok: bool)
      requires Valid()
      modifies this
      ensures Valid() && values == old(values)
      ensures ok == Passes(CpfStep(f), values)
      ensures errors == Annotate(CpfStep(f), values, old(errors))
    {
      var value := DigitsOf(values[f]);
      ClearError(f);
      if |value| != Validators.CpfLength {
        ShowError(f, Validators.CpfMessage);
        return false;
      }
      return true;
    }

    /** `validateCNPJ` (lines 48-57). */
    method ValidateCnpj(f: Field) returns (ok: bool)
      requires Valid()
      modifies this
      ensures Valid() && values == old(values)
      ensures ok == Passes(CnpjStep(f), values)
      ensures errors == Annotate(CnpjStep(f), values, old(errors))
    {
      var value := DigitsOf(values[f]);
      ClearError(f);
      if |value| != Validators.CnpjLength {
        ShowError(f, Validators.CnpjMessage);
        return false;
      }
      return true;
    }

    /** `validateTelefone` (lines 124-136). */
    method ValidateTelefone(f: Field) returns (ok: bool)
      requires Valid()
      modifies this
      ensures Valid() && values == old(values)
      ensures ok == Passes(TelefoneStep(f), values)
      ensures errors == Annotate(TelefoneStep(f), values, old(errors))
    {
      ClearError(f);
      var clean := DigitsOf(values[f]);
      var ddd := Slice(clean, 2, 4);
      var num := Slice(clean, 4, |clean|);
      if |ddd| != 2 || |num| != 9 {
        ShowError(f, Validators.TelefoneMessage);
        return false;
      }
      return true;
    }

    /** `validatePassword` (lines 60-88). */
    method ValidatePassword(s: Field, c: Field) returns (ok: bool)
      requires Valid()
      modifies this
      ensures Valid() && values == old(values)
      ensures ok == Passes(PasswordStep(s, c), values)
      ensures errors == Annotate(PasswordStep(s, c), values, old(errors))
    {
      ClearError(s);
      ClearError(c);
      assert errors == old(errors) - Touched(PasswordStep(s, c));
      var senha, confirmar := values[s], values[c];
      ghost var verdict := Validators.PasswordCheck(senha, confirmar);
      var hasUpper := Validators.HasUpper(senha);
      var hasSpecial := Validators.HasSpecial(senha);
      if |senha| < Validators.MinPasswordLength {
        assert verdict == Some(Validators.PasswordFailure.TooShort);
        assert Failure(PasswordStep(s, c), values) == Some((s, Validators.PasswordFailure.TooShort.Message()));
        ShowError(s, Validators.PasswordFailure.TooShort.Message());
        return false;
      }
      if !hasUpper {
        assert verdict == Some(Validators.PasswordFailure.NoUppercase);
        assert Failure(PasswordStep(s, c), values) == Some((s, Validators.PasswordFailure.NoUppercase.Message()));
        ShowError(s, Validators.PasswordFailure.NoUppercase.Message());
        return false;
      }
      if !hasSpecial {
        assert verdict == Some(Validators.PasswordFailure.NoSpecial);
        assert Failure(PasswordStep(s, c), values) == Some((s, Validators.PasswordFailure.NoSpecial.Message()));
        ShowError(s, Validators.PasswordFailure.NoSpecial.Message());
        return false;
      }
      if senha != confirmar {
        assert verdict == Some(Validators.PasswordFailure.Mismatch);
        assert Failure(PasswordStep(s, c), values) == Some((c, Validators.PasswordFailure.Mismatch.Message()));
        ShowError(c, Validators.PasswordFailure.Mismatch.Message());
        return false;
      }
      assert verdict == None;
      assert Failure(PasswordStep(s, c), values) == None;
      return true;
    }

    /** The blur handler of `lookupCEP` (lines 140-155): the request it
        issues, if any, is returned. */
    method OnCepBlur(f: Field) returns (request: Option<string>)
      requires Valid()
      modifies this
      ensures Valid() && values == old(values)
      ensures var action := Postal.OnBlur(values[f]);
        && request == (if action.Lookup? then Some(action.cep) else None)
        && errors == if action == Postal.ReportLength then old(errors)[f := Postal.LengthMessage] else old(errors) - {f}
    {
      var cep := DigitsOf(values[f]);
      ClearError(f);
      request := None;
      if |cep| == Postal.CepLength {
        request := Some(cep);
      } else if 0 < |cep| < Postal.CepLength {
        ShowError(f, Postal.LengthMessage);
      }
    }

    /** The settling of the request (lines 146-151), with the callback both
        details pages pass (lines 228-232 and 260-264): the address goes to
        the city, district and street fields. */
    method OnCepResponse(f: Field, response: Postal.Response)
      requires Valid()
      modifies this
      ensures Valid()
      ensures match Postal.OnResponse(response)
        case Complete(a) =>
          && values == old(values)[Cidade := a.localidade][Bairro := a.bairro][Endereco := a.logradouro]
          && errors == old(errors)
        case Report(m) => values == old(values) && errors == old(errors)[f := m]
    {
      match response
      case Body(erro, address) =>
        if !erro {
          values := values[Cidade := address.localidade];
          values := values[Bairro := address.bairro];
          values := values[Endereco := address.logradouro];
        } else {
          ShowError(f, Postal.NotFoundMessage);
        }
      case TransportFailure =>
        ShowError(f, Postal.FailureMessage);
    }

    /** The submit handler of `initRegisterCompany` (lines 204-210). */
    method SubmitRegisterCompany() returns (destination: Option<Destination>)
      requires Valid()
      modifies this
      ensures Valid() && values == old(values)
      ensures var outcome := RunChain(RegisterCompanyChain, values, old(errors));
        && errors == outcome.errors
        && destination == if outcome.passed then Some(CompanyDetails(EmailCheck.Trim(values[Email]))) else None
    {
      assert RegisterCompanyChain == [CnpjStep(Cnpj)] + [];
      RunChainCons(CnpjStep(Cnpj), [], values, errors);
      var ok := ValidateCnpj(Cnpj);
      if !ok {
        return None;
      }
      return Some(CompanyDetails(EmailCheck.Trim(values[Email])));
    }

    /** The submit handler of `initDetailsCandidate` (lines 234-242). */
    method SubmitCandidateDetails() returns (destination: Option<Destination>)
      requires Valid()
      modifies this
      ensures Valid() && values == old(values)
      ensures var outcome := RunChain(CandidateDetailsChain, values, old(errors));
        && errors == outcome.errors
        && destination == if outcome.passed then Some(CandidateHome) else None
    {
      var password, cpf, telefone := PasswordStep(Senha, ConfirmarSenha), CpfStep(Cpf), TelefoneStep(Telefone);
      assert CandidateDetailsChain == [password] + ([cpf] + ([telefone] + []));
      RunChainCons(password, [cpf] + ([telefone] + []), values, errors);
      var ok := ValidatePassword(Senha, ConfirmarSenha);
      if !ok {
        return None;
      }
      RunChainCons(cpf, [telefone] + [], values, errors);
      ok := ValidateCpf(Cpf);
      if !ok {
        return None;
      }
      RunChainCons(telefone, [], values, errors);
      ok := ValidateTelefone(Telefone);
      if !ok {
        return None;
      }
      return Some(CandidateHome);
    }

    /** The submit handler of `initDetailsCompany` (lines 266-275); `email`
        is the form's `data-email` attribute. */
    method SubmitCompanyDetails(email: string) returns (destination: Option<Destination>)
      requires Valid()
      modifies this
      ensures Valid() && values == old(values)
      ensures var outcome := RunChain(CompanyDetailsChain, values, old(errors));
        && errors == outcome.errors
        && destination == if outcome.passed then Some(VerifyCompany(email)) else None
    {
      var cpf, telefone, password := CpfStep(Cpf), TelefoneStep(Telefone), PasswordStep(Senha, ConfirmarSenha);
      assert CompanyDetailsChain == [cpf] + ([telefone] + ([password] + []));
      RunChainCons(cpf, [telefone] + ([password] + []), values, errors);
      var ok := ValidateCpf(Cpf);
      if !ok {
        return None;
      }
      RunChainCons(telefone, [password] + [], values, errors);
      ok := ValidateTelefone(Telefone);
      if !ok {
        return None;
      }
      RunChainCons(password, [], values, errors);
      ok := ValidatePassword(Senha, ConfirmarSenha);
      if !ok {
        return None;
      }
      return Some(VerifyCompany(email));
    }
  }

  /** The submit handler of `initVerifyCandidate` (lines 291-303): the
      joined boxes are compared with the code; on a mismatch every box is
      emptied and the focus goes back to the first box (with no boxes at
      all, `boxes[0]` is undefined and focusing it throws). */
  method SubmitVerifyCode(boxes: array<string>) returns (destination: Option<Destination>, focus: Option<nat>)
    modifies boxes
    ensures destination.Some? <==> Join(old(boxes[..])) == VerificationCode
    ensures destination.Some? ==> destination.value == CandidateDetails && boxes[..] == old(boxes[..]) && focus == None
    ensures destination.None? ==> forall i :: 0 <= i < boxes.Length ==> boxes[i] == ""
    ensures destination.None? ==> focus == if boxes.Length > 0 then Some(0) else None
  {
    var code := Join(boxes[..]);
    if code == VerificationCode {
      return Some(CandidateDetails), None;
    }
    var i := 0;
    while i < boxes.Length
      invariant 0 <= i <= boxes.Length
      invariant forall j :: 0 <= j < i ==> boxes[j] == ""
    {
      boxes[i] := "";
      i := i + 1;
    }
    destination := None;
    focus := if boxes.Length > 0 then Some(0) else None;
  }
}
