/** The account form's validation schema (app/lib/schema.js), as a
    validator over the raw form fields. */
module AccountSchema {
  import opened Results
  import opened Store

  /** The raw form: every field as the browser submits it; an omitted
      `isDefault` is `None`. */
  datatype AccountForm = AccountForm(name: string, kind: string, balance: string, isDefault: Option<bool>)

  /** What the schema hands on: the account type decoded and `isDefault`
      filled in. The balance is still text; its numeric validity is checked
      when the account is created. */
  datatype AccountInput = AccountInput(name: string, kind: AccountType, balance: string, isDefault: bool)

  /** One failed field check, in the schema's field order. */
  datatype Issue = NameRequired | InvalidType(received: string) | BalanceRequired

  datatype Validation = Valid(input: AccountInput) | Invalid(issues: seq<Issue>)

  function IssueMessage(i: Issue): string {
    match i
    case NameRequired => "Name is required"
    case InvalidType(t) => "Invalid enum value. Expected 'CURRENT' | 'SAVINGS', received '" + t + "'"
    case BalanceRequired => "Initial balance is required"
  }

  /** The wire name of an account type. */
  function AccountTypeName(k: AccountType): string {
    match k
    case Current => "CURRENT"
    case Savings => "SAVINGS"
  }

  function ParseAccountType(s: string): (r: Option<AccountType>)
    ensures r.None? <==> s != "CURRENT" && s != "SAVINGS"
    ensures r.Some? ==> AccountTypeName(r.value) == s
  {
    if s == "CURRENT" then Some(Current)
    else if s == "SAVINGS" then Some(Savings)
    else None
  }

  /** Decoding an account type's wire name gives the type back. */
  lemma AccountTypeRoundTrip(k: AccountType)
    ensures ParseAccountType(AccountTypeName(k)) == Some(k)
  {
  }

  /** `accountSchema.safeParse(form)`: a non-empty name, a type of CURRENT or
      SAVINGS, a non-empty balance string, and `isDefault` defaulting to false. */
  function ValidateAccount(f: AccountForm): (r: Validation)
    ensures r.Valid? <==> |f.name| >= 1 && (f.kind == "CURRENT" || f.kind == "SAVINGS") && |f.balance| >= 1
    ensures r.Valid? ==>
              && r.input.name == f.name && r.input.balance == f.balance
              && AccountTypeName(r.input.kind) == f.kind
              && r.input.isDefault == (f.isDefault == Some(true))
    // each failed check is reported once, and only failed checks are reported
    ensures r.Invalid? ==>
              && 1 <= |r.issues| <= 3
              && (NameRequired in r.issues <==> |f.name| == 0)
              && (InvalidType(f.kind) in r.issues <==> f.kind != "CURRENT" && f.kind != "SAVINGS")
              && (BalanceRequired in r.issues <==> |f.balance| == 0)
              && forall i :: i in r.issues ==> i == NameRequired || i == InvalidType(f.kind) || i == BalanceRequired
  {
    var kind := ParseAccountType(f.kind);
    var issues := (if |f.name| == 0 then [NameRequired] else [])
                  + (if kind.None? then [InvalidType(f.kind)] else [])
                  + (if |f.balance| == 0 then [BalanceRequired] else []);
    if |issues| == 0 then Valid(AccountInput(f.name, kind.value, f.balance, f.isDefault.GetOr(false)))
    else Invalid(issues)
  }
}
