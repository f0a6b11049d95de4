/** The submit handlers of the sign-up pages (core/static/js/main.js:
    172-304) without the page: which validators a form runs and in what
    order, what they leave in the annotations, and where the browser is
    sent when every one of them passes. */
module Submit {
  import opened Text
  import opened Validators
  import EmailCheck

  /** The inputs the pages look up. */
  datatype Field =
    | Email | Cnpj | Cpf | Telefone | Senha | ConfirmarSenha
    | Cep | Cidade | Bairro | Endereco

  /** Every field has a value: the handlers read them unconditionally. */
  predicate Complete(values: map<Field, string>) {
    forall f: Field :: f in values
  }

  /** The pages a successful submit navigates to; the e-mail travels as a
      query parameter. */
  datatype Destination =
    | VerifyCandidate(email: string)      // /verify/candidate/?email=…
    | CompanyDetails(email: string)       // /register/company/details/?email=…
    | CandidateHome                       // /candidate/home/
    | VerifyCompany(email: string)        // /verify/company/?email=…
    | CandidateDetails                    // /register/candidate/details/

  /** One validator call of a submit handler, with the fields it is given. */
  datatype Step =
    | CpfStep(field: Field)
    | CnpjStep(field: Field)
    | TelefoneStep(field: Field)
    | PasswordStep(senha: Field, confirmar: Field)

  /** The fields whose annotation the validator clears first. */
  function Touched(step: Step): set<Field> {
    match step
    case CpfStep(f) => {f}
    case CnpjStep(f) => {f}
    case TelefoneStep(f) => {f}
    case PasswordStep(s, c) => {s, c}
  }

  /** The annotation a failing validator attaches, and where. */
  function Failure(step: Step, values: map<Field, string>): (failure: Option<(Field, string)>)
    requires Complete(values)
    ensures failure.Some? ==> failure.value.0 in Touched(step)
  {
    match step
    case CpfStep(f) => (match CpfCheck(values[f]) case None => None case Some(m) => Some((f, m)))
    case CnpjStep(f) => (match CnpjCheck(values[f]) case None => None case Some(m) => Some((f, m)))
    case TelefoneStep(f) => (match TelefoneCheck(values[f]) case None => None case Some(m) => Some((f, m)))
    case PasswordStep(s, c) =>
      match PasswordCheck(values[s], values[c])
      case None => None
      case Some(rule) => Some((if rule.OnConfirmation() then c else s, rule.Message()))
  }

  predicate Passes(step: Step, values: map<Field, string>)
    requires Complete(values)
  {
    Failure(step, values) == None
  }

  /** The annotations after the validator: its fields cleared, then at most
      one annotation added. */
  function Annotate(step: Step, values: map<Field, string>, errors: map<Field, string>): (after: map<Field, string>)
    requires Complete(values)
    ensures forall f :: f !in Touched(step) ==> (f in after <==> f in errors)
    ensures forall f :: f !in Touched(step) && f in errors ==> after[f] == errors[f]
    ensures Passes(step, values) ==> forall f :: f in Touched(step) ==> f !in after
    ensures !Passes(step, values) ==>
      var (f, m) := Failure(step, values).value;
      f in after && after[f] == m && forall g :: g in Touched(step) && g != f ==> g !in after
  {
    var cleared := errors - Touched(step);
    match Failure(step, values)
    case None => cleared
    case Some((f, m)) => cleared[f := m]
  }

  datatype Outcome = Outcome(passed: bool, errors: map<Field, string>)

  /** A submit handler's validators run in order; the first that fails
      ends the handler, and the ones after it never run. */
  function RunChain(steps: seq<Step>, values: map<Field, string>, errors: map<Field, string>): (outcome: Outcome)
    requires Complete(values)
    ensures outcome.errors.Keys <= errors.Keys + TouchedBy(steps)
    ensures !outcome.passed ==> exists f :: f in TouchedBy(steps) && f in outcome.errors
  {
    if steps == [] then Outcome(true, errors)
    else
      var after := Annotate(steps[0], values, errors);
      if Passes(steps[0], values) then RunChain(steps[1..], values, after) else Outcome(false, after)
  }

  /** One step taken off the front of a chain. */
  lemma RunChainCons(step: Step, rest: seq<Step>, values: map<Field, string>, errors: map<Field, string>)
    requires Complete(values)
    ensures RunChain([step] + rest, values, errors) ==
      if Passes(step, values) then RunChain(rest, values, Annotate(step, values, errors))
      else Outcome(false, Annotate(step, values, errors))
  {
    assert ([step] + rest)[0] == step && ([step] + rest)[1..] == rest;
  }

  /** The fields any of the steps may touch. */
  function TouchedBy(steps: seq<Step>): set<Field> {
    if steps == [] then {} else Touched(steps[0]) + TouchedBy(steps[1..])
  }

  /** A chain passes exactly when each of its validators passes on its own. */
  lemma {:induction false} ChainPassesIff(steps: seq<Step>, values: map<Field, string>, errors: map<Field, string>)
    requires Complete(values)
    ensures RunChain(steps, values, errors).passed <==> forall k :: 0 <= k < |steps| ==> Passes(steps[k], values)
  {
    if steps != [] {
      var after := Annotate(steps[0], values, errors);
      ChainPassesIff(steps[1..], values, after);
      if Passes(steps[0], values) {
        forall k | 0 <= k < |steps| && (forall j :: 0 <= j < |steps[1..]| ==> Passes(steps[1..][j], values))
          ensures Passes(steps[k], values)
        {
          if k > 0 {
            assert steps[k] == steps[1..][k - 1];
          }
        }
      }
    }
  }

  /** When step `k` is the first to fail, the chain ends there: the steps
      after it make no difference. */
  lemma {:induction false} ChainStopsAtFirstFailure(steps: seq<Step>, k: nat, values: map<Field, string>, errors: map<Field, string>)
    requires Complete(values)
    requires k < |steps| && !Passes(steps[k], values)
    requires forall j :: 0 <= j < k ==> Passes(steps[j], values)
    ensures RunChain(steps, values, errors) == RunChain(steps[..k + 1], values, errors)
    ensures !RunChain(steps, values, errors).passed
  {
    if k > 0 {
      var after := Annotate(steps[0], values, errors);
      assert Passes(steps[0], values);
      assert steps[1..][..k] == steps[..k + 1][1..];
      ChainStopsAtFirstFailure(steps[1..], k - 1, values, after);
    }
  }

  /** The annotations of fields no step touches are left as they were. */
  lemma {:induction false} ChainFrame(steps: seq<Step>, values: map<Field, string>, errors: map<Field, string>, f: Field)
    requires Complete(values)
    requires f !in TouchedBy(steps)
    ensures f in RunChain(steps, values, errors).errors <==> f in errors
    ensures f in errors ==> RunChain(steps, values, errors).errors[f] == errors[f]
  {
    if steps != [] {
      ChainFrame(steps[1..], values, Annotate(steps[0], values, errors), f);
    }
  }

  /** `initRegisterCompany` (lines 204-210): the CNPJ alone. */
  const RegisterCompanyChain: seq<Step> := [CnpjStep(Cnpj)]
  /** `initDetailsCandidate` (lines 234-242): password, CPF, phone. */
  const CandidateDetailsChain: seq<Step> := [PasswordStep(Senha, ConfirmarSenha), CpfStep(Cpf), TelefoneStep(Telefone)]
  /** `initDetailsCompany` (lines 266-275): CPF, phone, password. */
  const CompanyDetailsChain: seq<Step> := [CpfStep(Cpf), TelefoneStep(Telefone), PasswordStep(Senha, ConfirmarSenha)]

  lemma CandidateDetailsPassesIff(values: map<Field, string>, errors: map<Field, string>)
    requires Complete(values)
    ensures RunChain(CandidateDetailsChain, values, errors).passed <==>
      && PasswordCheck(values[Senha], values[ConfirmarSenha]) == None
      && |DigitsOf(values[Cpf])| == CpfLength
      && |DigitsOf(values[Telefone])| == TelefoneLength
  {
    ChainPassesIff(CandidateDetailsChain, values, errors);
    assert CandidateDetailsChain[0] == PasswordStep(Senha, ConfirmarSenha);
    assert CandidateDetailsChain[1] == CpfStep(Cpf);
    assert CandidateDetailsChain[2] == TelefoneStep(Telefone);
  }

  lemma CompanyDetailsPassesIff(values: map<Field, string>, errors: map<Field, string>)
    requires Complete(values)
    ensures RunChain(CompanyDetailsChain, values, errors).passed <==>
      && |DigitsOf(values[Cpf])| == CpfLength
      && |DigitsOf(values[Telefone])| == TelefoneLength
      && PasswordCheck(values[Senha], values[ConfirmarSenha]) == None
  {
    ChainPassesIff(CompanyDetailsChain, values, errors);
    assert CompanyDetailsChain[0] == CpfStep(Cpf);
    assert CompanyDetailsChain[1] == TelefoneStep(Telefone);
    assert CompanyDetailsChain[2] == PasswordStep(Senha, ConfirmarSenha);
  }

  /** A company-details submit with a three-digit CPF stops at the CPF: it
      fails, annotates the CPF field only, and the phone and password
      annotations stay exactly as they were. */
  lemma CompanyDetailsShortCpf(values: map<Field, string>, errors: map<Field, string>)
    requires Complete(values) && values[Cpf] == "123"
    ensures RunChain(CompanyDetailsChain, values, errors) == Outcome(false, errors[Cpf := CpfMessage])
  {
    DigitsOfDigits("123");
    assert !Passes(CompanyDetailsChain[0], values);
    ChainStopsAtFirstFailure(CompanyDetailsChain, 0, values, errors);
    assert CompanyDetailsChain[..1] == [CpfStep(Cpf)];
    assert (errors - {Cpf})[Cpf := CpfMessage] == errors[Cpf := CpfMessage];
  }

  /** The code the candidate verification page accepts. */
  const VerificationCode: string := "1111"

  /** The values of the boxes, concatenated in order. */
  function Join(boxes: seq<string>): string {
    if boxes == [] then "" else boxes[0] + Join(boxes[1..])
  }

  /** With four one-character boxes, the code is accepted exactly when every
      box holds "1". (Longer box values can also join to the code.) */
  lemma CodeAcceptedIff(boxes: seq<string>)
    requires |boxes| == 4 && forall i :: 0 <= i < 4 ==> |boxes[i]| <= 1
    ensures Join(boxes) == VerificationCode <==> forall i :: 0 <= i < 4 ==> boxes[i] == "1"
  {
    var j := Join(boxes);
    var b1 := boxes[1..];
    var b2 := b1[1..];
    var b3 := b2[1..];
    assert b3[1..] == [];
    assert Join(b3) == boxes[3];
    assert Join(b2) == boxes[2] + boxes[3];
    assert Join(b1) == boxes[1] + boxes[2] + boxes[3];
    assert j == boxes[0] + boxes[1] + boxes[2] + boxes[3];
    if j == VerificationCode {
      assert |boxes[0]| == 1 && |boxes[1]| == 1 && |boxes[2]| == 1 && |boxes[3]| == 1;
      assert boxes[0] == j[0..1] && boxes[1] == j[1..2] && boxes[2] == j[2..3] && boxes[3] == j[3..4];
    }
  }

  /** The box input handler (lines 285-289): a non-empty box moves the
      focus to the next box, if there is one. */
  function NextFocus(index: nat, value: string, count: nat): (next: Option<nat>)
    ensures next.Some? <==> value != "" && index + 1 < count
    ensures next.Some? ==> next.value == index + 1 && next.value < count
  {
    if value != "" && index < count - 1 then Some(index + 1) else None
  }

  /** `initRegisterCandidate` (lines 179-191): the trimmed e-mail either
      matches and travels to the verification page, or the handler only
      alerts. */
  function RegisterCandidateSubmit(email: string): (destination: Option<Destination>)
    ensures destination.Some? <==> EmailCheck.MatchesPattern(EmailCheck.Trim(email))
    ensures destination.Some? ==> |EmailCheck.Trim(email)| >= 5
    ensures destination.Some? ==> destination.value == VerifyCandidate(EmailCheck.Trim(email))
  {
    if EmailCheck.EmailAccepted(email) then Some(VerifyCandidate(EmailCheck.Trim(email))) else None
  }
}
