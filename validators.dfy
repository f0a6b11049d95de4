/** The field validators (core/static/js/main.js:35-88 and 123-136), with
    the annotation side channel taken out: each check returns the message
    it would attach, or None when the field passes. */
module Validators {
  import opened Text
  import PhoneMask
  import Normalizer

  const CpfLength: nat := 11
  const CnpjLength: nat := 14
  /** "55" + DDD + nine-digit subscriber number. */
  const TelefoneLength: nat := 13

  const CpfMessage: string := "O CPF deve conter 11 números."
  const CnpjMessage: string := "O CNPJ deve conter 14 números."
  const TelefoneMessage: string := "Formato inválido: DDD + número (9 dígitos)."

  /** The shared shape of `validateCPF` and `validateCNPJ`: only the number
      of digits is looked at; there are no check digits. */
  function DigitCountCheck(value: string, count: nat, message: string): (error: Option<string>)
    ensures error == None <==> |DigitsOf(value)| == count
    ensures error != None ==> error == Some(message)
  {
    if |DigitsOf(value)| != count then Some(message) else None
  }

  function CpfCheck(value: string): Option<string> {
    DigitCountCheck(value, CpfLength, CpfMessage)
  }

  function CnpjCheck(value: string): Option<string> {
    DigitCountCheck(value, CnpjLength, CnpjMessage)
  }

  /** `validateTelefone`: the area code is digits 2-3 and the number the
      digits from 4 on; the first two digits are never compared with "55". */
  function TelefoneCheck(value: string): (error: Option<string>)
    ensures error == None <==> |DigitsOf(value)| == TelefoneLength
    ensures error != None ==> error == Some(TelefoneMessage)
  {
    var clean := DigitsOf(value);
    var ddd := Slice(clean, 2, 4);
    var num := Slice(clean, 4, |clean|);
    if |ddd| != 2 || |num| != 9 then Some(TelefoneMessage) else None
  }

  /** A CPF field behind the normaliser (limit 11) passes exactly when at
      least eleven digits were typed into it. */
  lemma NormalizedCpf(typed: string)
    ensures CpfCheck(Normalizer.Normalize(typed, CpfLength)) == None <==> |DigitsOf(typed)| >= CpfLength
  {
    DigitsOfDigits(Normalizer.Normalize(typed, CpfLength));
  }

  /** A CNPJ field behind the normaliser (limit 14) passes exactly when at
      least fourteen digits were typed into it. */
  lemma NormalizedCnpj(typed: string)
    ensures CnpjCheck(Normalizer.Normalize(typed, CnpjLength)) == None <==> |DigitsOf(typed)| >= CnpjLength
  {
    DigitsOfDigits(Normalizer.Normalize(typed, CnpjLength));
  }

  /** A phone field behind the mask passes exactly when the mask holds its
      full eleven digits. */
  lemma MaskedTelefone(typed: string)
    ensures TelefoneCheck(PhoneMask.OnInput(typed)) == None <==> |PhoneMask.KeptDigits(typed)| == PhoneMask.Capacity
  {
    PhoneMask.MaskedDigits(typed);
  }

  /** The password rules in the order `validatePassword` tries them; each
      names the rule that was broken. */
  datatype PasswordFailure = TooShort | NoUppercase | NoSpecial | Mismatch {
    function Message(): string {
      match this
      case TooShort => "A senha deve ter no mínimo 8 caracteres."
      case NoUppercase => "A senha deve conter uma letra maiúscula."
      case NoSpecial => "A senha deve conter um caractere especial."
      case Mismatch => "As senhas não coincidem."
    }

    /** Position of the rule in the chain. */
    function Rank(): nat {
      match this
      case TooShort => 0
      case NoUppercase => 1
      case NoSpecial => 2
      case Mismatch => 3
    }

    /** Whether the rule holds of the two field values. */
    predicate Holds(senha: string, confirmar: string) {
      match this
      case TooShort => |senha| >= MinPasswordLength
      case NoUppercase => HasUpper(senha)
      case NoSpecial => HasSpecial(senha)
      case Mismatch => senha == confirmar
    }

    /** The mismatch message goes on the confirmation field, the others on
        the password field. */
    predicate OnConfirmation() {
      Mismatch?
    }
  }

  const MinPasswordLength: nat := 8

  /** The class `[!@#$%^&*(),.?":{}|<>]`. */
  const SpecialChars: set<char> := {'!', '@', '#', '$', '%', '^', '&', '*', '(', ')',
                                     ',', '.', '?', '"', ':', '{', '}', '|', '<', '>'}

  /** `/[A-Z]/.test(s)` */
  predicate HasUpper(s: string) {
    exists i :: 0 <= i < |s| && 'A' <= s[i] <= 'Z'
  }

  /** `/[!@#$%^&*(),.?":{}|<>]/.test(s)` */
  predicate HasSpecial(s: string) {
    exists i :: 0 <= i < |s| && s[i] in SpecialChars
  }

  /** `validatePassword` without its annotations: the first rule broken,
      or None when all four hold. */
  function PasswordCheck(senha: string, confirmar: string): (failure: Option<PasswordFailure>)
    ensures failure == None ==> forall rule: PasswordFailure :: rule.Holds(senha, confirmar)
    ensures failure.Some? ==> !failure.value.Holds(senha, confirmar)
    ensures failure.Some? ==>
      forall rule: PasswordFailure :: rule.Rank() < failure.value.Rank() ==> rule.Holds(senha, confirmar)
  {
    if |senha| < MinPasswordLength then Some(TooShort)
    else if !HasUpper(senha) then Some(NoUppercase)
    else if !HasSpecial(senha) then Some(NoSpecial)
    else if senha != confirmar then Some(Mismatch)
    else None
  }

  /** The password passes exactly when every rule holds. */
  lemma PasswordPassesIff(senha: string, confirmar: string)
    ensures PasswordCheck(senha, confirmar) == None <==> forall rule: PasswordFailure :: rule.Holds(senha, confirmar)
  {
    var failure := PasswordCheck(senha, confirmar);
    if failure.Some? {
      assert !failure.value.Holds(senha, confirmar);
    }
  }

  /** Sample passwords, judged in the order the code tries its rules:
      "longenough1" lacks an uppercase letter before it lacks a
      special character, so it is refused for the uppercase rule. */
  lemma PasswordExamples()
    ensures PasswordCheck("short1!", "short1!") == Some(TooShort)
    ensures PasswordCheck("longenough1", "longenough1") == Some(NoUppercase)
    ensures PasswordCheck("longenough!", "longenough!") == Some(NoUppercase)
    ensures PasswordCheck("Abcdef1!", "Abcdef1?") == Some(Mismatch)
    ensures PasswordCheck("Abcdef1!", "Abcdef1!") == None
  {
    assert "Abcdef1!"[0] == 'A' && "Abcdef1!"[7] in SpecialChars;
    var s := "longenough1";
    assert !HasUpper(s) by {
      forall i | 0 <= i < |s| ensures !('A' <= s[i] <= 'Z') {
      }
    }
    var t := "longenough!";
    assert !HasUpper(t) by {
      forall i | 0 <= i < |t| ensures !('A' <= t[i] <= 'Z') {
      }
    }
  }
}
