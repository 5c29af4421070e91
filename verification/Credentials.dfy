/**
 The stores of API tokens. A store may fail at any operation, before or after the
 operation has taken effect.
 */
module Credentials {
  import opened Wrappers

  datatype CredentialError = InvalidCoordinates | InvalidToken | Unavailable

  /** How an operation goes wrong, if it does: without effect, or after its effect. */
  datatype Fault = NoFault | FailsBefore | FailsAfter

  /**
   The form under which a site and an e-mail address are filed, which exists for valid
   coordinates only, and the test of tokens.
   */
  datatype Rules = Rules(account: (string, string) -> Option<string>, validToken: string -> bool)

  class CredentialStore {
    const rules: Rules
    var tokens: map<string, string>

    /** Every stored token is one that can be stored again. */
    ghost predicate Valid()
      reads this
    {
      forall account :: account in tokens ==> rules.validToken(tokens[account])
    }

    constructor (rules: Rules)
      ensures this.rules == rules && tokens == map[] && Valid()
    {
      this.rules, tokens := rules, map[];
    }

    method LoadToken(site: string, email: string,
                     fault: Fault) returns (result: Result<Option<string>, CredentialError>)
      ensures result.Success? ==>
                rules.account(site, email).Some? && result.value == Lookup(tokens, rules.account(site, email).value)
      ensures result.Success? <==> fault.NoFault? && rules.account(site, email).Some?
      ensures result.Failure? ==>
                result.error == if rules.account(site, email).None? then InvalidCoordinates else Unavailable
    {
      var account := rules.account(site, email);
      if account.None? { return Failure(InvalidCoordinates); }
      if !fault.NoFault? { return Failure(Unavailable); }
      result := Success(Lookup(tokens, account.value));
    }

    method SaveToken(site: string, email: string, token: string,
                     fault: Fault) returns (result: Outcome<CredentialError>)
      requires Valid()
      modifies this
      ensures Valid()
      ensures result.Pass? <==> fault.NoFault? && rules.account(site, email).Some? && rules.validToken(token)
      ensures tokens == if !fault.FailsBefore? && rules.account(site, email).Some? && rules.validToken(token)
                        then old(tokens)[rules.account(site, email).value := token]
                        else old(tokens)
      ensures result.Fail? ==>
                result.error == if !rules.validToken(token) then InvalidToken
                                else if rules.account(site, email).None? then InvalidCoordinates
                                else Unavailable
    {
      if !rules.validToken(token) { return Fail(InvalidToken); }
      var account := rules.account(site, email);
      if account.None? { return Fail(InvalidCoordinates); }
      if fault.FailsBefore? { return Fail(Unavailable); }
      tokens := tokens[account.value := token];
      return if fault.NoFault? then Pass else Fail(Unavailable);
    }

    method DeleteToken(site: string, email: string, fault: Fault) returns (result: Outcome<CredentialError>)
      requires Valid()
      modifies this
      ensures Valid()
      ensures result.Pass? <==> fault.NoFault? && rules.account(site, email).Some?
      ensures tokens == if !fault.FailsBefore? && rules.account(site, email).Some?
                        then old(tokens) - {rules.account(site, email).value}
                        else old(tokens)
      ensures result.Fail? ==>
                result.error == if rules.account(site, email).None? then InvalidCoordinates else Unavailable
    {
      var account := rules.account(site, email);
      if account.None? { return Fail(InvalidCoordinates); }
      if fault.FailsBefore? { return Fail(Unavailable); }
      tokens := tokens - {account.value};
      return if fault.NoFault? then Pass else Fail(Unavailable);
    }

    /** Puts back what was there: the previous token, or no token. */
    method Restore(site: string, email: string, previous: Option<string>,
                   fault: Fault) returns (result: Outcome<CredentialError>)
      requires Valid()
      requires previous.Some? ==> rules.validToken(previous.value)
      modifies this
      ensures Valid()
      ensures result.Pass? <==> fault.NoFault? && rules.account(site, email).Some?
      ensures tokens == if !fault.FailsBefore? && rules.account(site, email).Some?
                        then WithToken(old(tokens), rules.account(site, email).value, previous)
                        else old(tokens)
    {
      if previous.Some? {
        result := SaveToken(site, email, previous.value, fault);
      } else {
        result := DeleteToken(site, email, fault);
      }
    }
  }

  function Lookup(tokens: map<string, string>, account: string): Option<string> {
    if account in tokens then Some(tokens[account]) else None
  }

  function WithToken(tokens: map<string, string>, account: string, token: Option<string>): map<string, string> {
    if token.Some? then tokens[account := token.value] else tokens - {account}
  }

  /** Restoring undoes any changes to that account, and only to that account. */
  lemma RestoreUndoes(before: map<string, string>, changed: map<string, string>, account: string)
    requires changed - {account} == before - {account}
    ensures WithToken(changed, account, Lookup(before, account)) == before
  {
    forall other: string | other != account
      ensures other in changed <==> other in before
      ensures other in changed ==> changed[other] == before[other]
    {
      assert other in changed - {account} <==> other in before - {account};
      assert other in changed ==> (changed - {account})[other] == (before - {account})[other];
    }
  }
}
