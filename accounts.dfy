/**
 * The account data the profile controller reads: every account property has
 * a string value and a privacy scope.  The account manager that produces an
 * account is not part of this model; an `Account` is an input value.
 */
module Accounts {

  /** The four scopes the controller recognises, plus any other scope string. */
  datatype Scope = Private | Local | Federated | Published | Other(name: string)

  /** The account properties the controller reads. */
  datatype PropertyName =
    | DisplayName | Address | Company | JobTitle | Headline | Biography
    | Avatar | Email | Phone | Website | Twitter | ProfileEnabled

  datatype Property = Property(value: string, scope: Scope)

  /** An account: the user id and one property per property name. */
  datatype Account = Account(uid: string, properties: map<PropertyName, Property>) {

    /** Every property can be looked up (looking up a missing one throws). */
    predicate Complete() {
      forall p: PropertyName :: p in properties
    }

    function Value(p: PropertyName): string
      requires Complete()
    {
      properties[p].value
    }

    function ScopeOf(p: PropertyName): Scope
      requires Complete()
    {
      properties[p].scope
    }
  }
}
