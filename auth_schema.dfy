/**
 * The request bodies of the authentication API
 * (backend-python app/schemas/auth.py): the bounds on names and passwords
 * and the registration's document check, which keeps only the digits of
 * the document number and demands 11 of them for a CPF and 14 for a CNPJ.
 *
 * A field whose own constraints fail is reported and left out of what the
 * later validators see, so a bad `document_type` switches the digit-count
 * check off.
 */
module AuthSchemas {
  import opened Wrappers
  import opened Text
  import Documents

  /** The fields of `UserRegister` that carry constraints, in declaration order. */
  datatype RegisterField = Name | Password | DocumentType | DocumentNumber

  datatype RegisterInput = RegisterInput(name: string, password: string, documentType: string, documentNumber: string)

  /** What a successful registration body holds: the document number reduced to its digits. */
  datatype Registration = Registration(name: string, password: string, documentType: string, documentNumber: string)

  /** `Field(..., min_length=lo, max_length=hi)` on a string. */
  predicate LengthWithin(s: string, lo: nat, hi: nat)
  {
    lo <= |s| <= hi
  }

  /** `pattern="^(CPF|CNPJ)$"`. */
  predicate DocumentTypeAccepted(t: string)
  {
    t == "CPF" || t == "CNPJ"
  }

  /**
   * `validate_document`: strip every non-digit, then check the count
   * against the document type when that type passed its own check;
   * `documentType` is `None` when it did not.
   */
  function ValidateDocument(v: string, documentType: Option<string>): (r: Result<string, RegisterField>)
    ensures r.Ok? ==> AllDigits(r.value) && |r.value| <= |v|
    ensures r.Ok? <==> (documentType == Some("CPF") ==> |KeepDigits(v)| == 11)
                       && (documentType == Some("CNPJ") ==> |KeepDigits(v)| == 14)
    ensures r.Ok? ==> r.value == KeepDigits(v)
  {
    var digits := KeepDigits(v);
    if documentType == Some("CPF") && |digits| != 11 then Err(DocumentNumber)
    else if documentType == Some("CNPJ") && |digits| != 14 then Err(DocumentNumber)
    else Ok(digits)
  }

  /** The document number field: its length bounds first, then `validate_document`. */
  function DocumentNumberCheck(input: RegisterInput): Result<string, RegisterField>
  {
    if !LengthWithin(input.documentNumber, 11, 18) then Err(DocumentNumber)
    else
      var seenType := if DocumentTypeAccepted(input.documentType) then Some(input.documentType) else None;
      ValidateDocument(input.documentNumber, seenType)
  }

  /** Every field that fails, in declaration order. */
  function RegisterErrors(input: RegisterInput): (r: seq<RegisterField>)
    ensures |r| <= 4
    ensures Name in r <==> !LengthWithin(input.name, 3, 200)
    ensures Password in r <==> !LengthWithin(input.password, 6, 100)
    ensures DocumentType in r <==> !DocumentTypeAccepted(input.documentType)
    ensures DocumentNumber in r <==> DocumentNumberCheck(input).Err?
  {
    (if LengthWithin(input.name, 3, 200) then [] else [Name])
    + (if LengthWithin(input.password, 6, 100) then [] else [Password])
    + (if DocumentTypeAccepted(input.documentType) then [] else [DocumentType])
    + (if DocumentNumberCheck(input).Ok? then [] else [DocumentNumber])
  }

  /** Parsing a `UserRegister` body. */
  function ValidateRegister(input: RegisterInput): (r: Result<Registration, seq<RegisterField>>)
  {
    var errors := RegisterErrors(input);
    if errors != [] then Err(errors)
    else Ok(Registration(input.name, input.password, input.documentType, DocumentNumberCheck(input).value))
  }

  /**
   * An accepted registration has a name and password within bounds, a CPF
   * or CNPJ type, and exactly the digits of the submitted number: 11 of them
   * for a CPF, 14 for a CNPJ. Conversely any body meeting those rules is accepted.
   */
  lemma RegisterAccepted(input: RegisterInput)
    ensures ValidateRegister(input).Ok? <==>
      LengthWithin(input.name, 3, 200) && LengthWithin(input.password, 6, 100)
      && LengthWithin(input.documentNumber, 11, 18)
      && ((input.documentType == "CPF" && |KeepDigits(input.documentNumber)| == 11)
          || (input.documentType == "CNPJ" && |KeepDigits(input.documentNumber)| == 14))
    ensures ValidateRegister(input).Ok? ==>
      var reg := ValidateRegister(input).value;
      reg.documentNumber == KeepDigits(input.documentNumber) && AllDigits(reg.documentNumber)
      && reg.name == input.name && reg.password == input.password && reg.documentType == input.documentType
  {
  }

  /**
   * A CPF typed with its usual punctuation registers as its bare digits; the
   * 14-character formatted form sits inside the 11 to 18 length bounds.
   */
  lemma FormattedCpfRegisters(name: string, password: string, cpf: string)
    requires LengthWithin(name, 3, 200) && LengthWithin(password, 6, 100)
    requires |cpf| == 11 && AllDigits(cpf)
    ensures ValidateRegister(RegisterInput(name, password, "CPF", Documents.FormatCpf(cpf)))
            == Ok(Registration(name, password, "CPF", cpf))
  {
    Documents.CpfLayout(cpf);
    Documents.CpfFormatKeepsDigits(cpf);
    KeepDigitsOfDigits(cpf);
  }

  /** The same for a CNPJ, whose formatted form is 18 characters, the upper bound. */
  lemma FormattedCnpjRegisters(name: string, password: string, cnpj: string)
    requires LengthWithin(name, 3, 200) && LengthWithin(password, 6, 100)
    requires |cnpj| == 14 && AllDigits(cnpj)
    ensures ValidateRegister(RegisterInput(name, password, "CNPJ", Documents.FormatCnpj(cnpj)))
            == Ok(Registration(name, password, "CNPJ", cnpj))
  {
    Documents.CnpjLayout(cnpj);
    Documents.CnpjFormatKeepsDigits(cnpj);
    KeepDigitsOfDigits(cnpj);
  }

  /** Validating an accepted registration again returns it unchanged. */
  lemma RegisterIdempotent(input: RegisterInput)
    requires ValidateRegister(input).Ok?
    ensures var reg := ValidateRegister(input).value;
      ValidateRegister(RegisterInput(reg.name, reg.password, reg.documentType, reg.documentNumber)) == Ok(reg)
  {
    var reg := ValidateRegister(input).value;
    KeepDigitsOfDigits(reg.documentNumber);
  }

  /**
   * With a document type other than CPF or CNPJ the digit count goes
   * unchecked: the body is rejected for its type alone, not its number.
   */
  lemma BadTypeSkipsDigitCount(input: RegisterInput)
    requires !DocumentTypeAccepted(input.documentType) && LengthWithin(input.documentNumber, 11, 18)
    ensures DocumentNumber !in RegisterErrors(input) && DocumentType in RegisterErrors(input)
  {
  }

  /** The password bound of `UserLogin`, `PasswordResetConfirm` and `PasswordChange`: at least six characters. */
  predicate NewPasswordAccepted(password: string)
  {
    |password| >= 6
  }

  /** Every password `UserRegister` accepts is also accepted on login and on a change. */
  lemma RegisteredPasswordAccepted(input: RegisterInput)
    requires ValidateRegister(input).Ok?
    ensures NewPasswordAccepted(ValidateRegister(input).value.password)
  {
  }
}
