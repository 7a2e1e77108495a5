/**
 * The email profile action: built from an email address and a translator;
 * its target is a `mailto:` link to that address.
 */
module EmailActions {
  import opened Wrappers
  import opened ProfileActions

  /** The L10N service: a template and its arguments to a translated string. */
  type Translator = (string, seq<string>) -> string

  const MailtoScheme: string := "mailto:"

  /** The immutable action; the URL generator it is handed is never used. */
  datatype EmailAction = EmailAction(value: string, l10n: Translator) {

    function Title(): string {
      l10n("Mail %s", [value])
    }

    function Priority(): (r: int)
      ensures 0 <= r <= 99
    {
      20
    }

    function Icon(): string {
      "icon-mail"
    }

    /** A mailto link: the scheme followed by the address. */
    function Target(): (r: string)
      ensures MailtoScheme <= r
      ensures r[|MailtoScheme|..] == value
    {
      MailtoScheme + value
    }

    /** The action as seen through the profile action contract. */
    function AsProfileAction(): (a: ProfileAction)
      ensures a.Valid()
      ensures a.title == l10n("Mail %s", [value])
      ensures a.priority == 20 && a.icon == "icon-mail"
      ensures a.target == Target()
    {
      ProfileAction(Title(), Priority(), Icon(), Target())
    }
  }

  /** The address a mailto target points to, None for any other target. */
  function StripMailto(target: string): (r: Option<string>)
    ensures r.Some? <==> MailtoScheme <= target
  {
    if MailtoScheme <= target then Some(target[|MailtoScheme|..]) else None
  }

  /** Stripping the scheme from an action's target gives back its address. */
  lemma TargetRoundTrip(action: EmailAction)
    ensures StripMailto(action.Target()) == Some(action.value)
  {
  }

  /** Every mailto target is the target of the action for the address it holds. */
  lemma StripMailtoRoundTrip(target: string, l10n: Translator)
    requires StripMailto(target).Some?
    ensures EmailAction(StripMailto(target).value, l10n).Target() == target
  {
    assert target == MailtoScheme + target[|MailtoScheme|..];
  }

  /** Two actions for different addresses have different targets. */
  lemma TargetInjective(a1: EmailAction, a2: EmailAction)
    requires a1.value != a2.value
    ensures a1.Target() != a2.Target()
  {
    TargetRoundTrip(a1);
    TargetRoundTrip(a2);
  }
}
