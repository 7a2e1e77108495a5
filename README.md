# Profile page disclosure policy

A model of the profile page controller of a PHP file-hosting server and of
the profile action contract with its email implementation.

Every account property carries a privacy scope: Private, Local, Federated or
Published. Any other scope string is treated as unrecognised. The controller
describes the viewer by three facts: logged in, on the same server instance,
and whether the server counts as trusted. From these it decides per property
whether the value may be shown (`ProfileController.Disclose`). The same table
decides whether the avatar is displayed.

Modules:

- `Accounts`: scopes, property names, properties and the account read by the controller.
- `PhpArrays`: ordered string-keyed PHP arrays. Writing an existing key replaces its value in place; writing a new key appends it.
- `ProfileController`:
  - the display and action property constants;
  - the disclosure table;
  - the same-instance test (cut the request URL to the length of the base URL and compare);
  - the profile-enabled gate of `index`;
  - `getProfileParams` as the method `ProfileParams`, which returns both the scope-filtered array and the array actually returned;
  - `initActions` as the method `InitActions`.
- `ProfileActions`: the profile action contract and the ascending-priority arrangement of actions.
- `EmailActions`: the email action.

Behaviour the model keeps as written:

- `getProfileParams` first builds a scope-filtered array: `userId`, the six display properties in order, then `isAvatarDisplayed`. It then replaces that array wholesale with one that holds the raw display name, address and contact values and no avatar flag. `ProfileParams` returns both arrays. `ReturnedParamsIgnoreScopes` and `OverwriteRevealsWithheldName` show that the returned array ignores every scope.
- The comment above the field switch describes the scopes as nested, with Federated reaching same-instance viewers as well as trusted servers. The code checks only server trust for Federated and Published. The model follows the code; `FederatedNotWiderThanLocal` exhibits a viewer who sees Local fields but not Federated ones.
- In `initActions` the federation check is still a to-do (core/Controller/ProfileController.php:294), and its guard is `&& false` (line 295). So a Federated property never stops the loop. The loop stops (returns) at the first Private property, or at the first Local property when nobody is logged in. It does not skip to the next property.
- The registration of an email action in `initActions` is commented out, so the loop has no effect. `InitActions` returns the properties that passed the scope checks and reached the registration switch.

## Model

| member | source | states |
|---|---|---|
| `ProfileController.PropertyListsWellFormed` | core/Controller/ProfileController.php:107-130 | the constants `DisplayProperties`, `DisplayJsonMap` and `ActionProperties`: six display and four action properties, none repeated, none in both lists, and the JSON map covers exactly the display properties |
| `ProfileController.Disclose` | core/Controller/ProfileController.php:218-258 | the one table both switches use; its own contract: nothing is disclosed unless the viewer is on the same instance or the server is trusted, and an unrecognised scope never is; row by row it is characterised by `PrivateNeedsLoginAndSameInstance`, `LocalIgnoresLogin`, `FederatedAsPublished` and `OtherScopesWithheld` |
| `ProfileController.IsSameServerInstance` | core/Controller/ProfileController.php:193-198 | same instance implies the base URL is a prefix of the request URL, and a request URL shorter than the base URL is never the same instance; the converse is `SameInstanceIffPrefix` |
| `ProfileController.ScopedProjection` | core/Controller/ProfileController.php:207-258 | the scope-filtered array: eight entries, `userId` first and `isAvatarDisplayed` last; its keys and values are characterised by `ScopedProjectionShape`, `ScopedFieldFollowsTable` and `ScopedAvatarFollowsTable` |
| `ProfileController.ReturnedParams` | core/Controller/ProfileController.php:261-274 | the overwriting array has exactly the keys `userId`, `displayName`, `address`, `actionParameters`, in that order; its values are characterised by `ReturnedParamsIgnoreScopes` and `ReturnedParamsScopeBlind` |
| `ProfileController.FilterBool` | core/Controller/ProfileController.php:147-151 | the boolean filter yields true exactly for the words read as true, and null exactly for a string that is neither a true word nor a false word |
| `ProfileController.StopsActions` | core/Controller/ProfileController.php:285-297 | only a Private or Local scope can stop the action loop, and Private always does; `OnlyPrivateAndAnonymousLocalStop` gives the Local case |
| `ProfileController.DisplayKeysDistinct` | core/Controller/ProfileController.php:107-123 | each display property maps to its own JSON key, different from `userId` and `isAvatarDisplayed` |
| `ProfileController.PrivateNeedsLoginAndSameInstance` | core/Controller/ProfileController.php:219-221 | a Private property is disclosed iff the viewer is logged in and on the same instance; whatever Private shows, Local shows too |
| `ProfileController.LocalIgnoresLogin` | core/Controller/ProfileController.php:223-225 | a Local property is disclosed iff the viewer is on the same instance; the login state makes no difference |
| `ProfileController.FederatedAsPublished` | core/Controller/ProfileController.php:227-234 | Federated and Published give the same answer, and that answer is the trusted-server flag |
| `ProfileController.OtherScopesWithheld` | core/Controller/ProfileController.php:235-237 | an unrecognised scope is never disclosed |
| `ProfileController.DiscloseMonotone` | core/Controller/ProfileController.php:218-237 | a viewer with more of the three credentials never sees less |
| `ProfileController.FederatedNotWiderThanLocal` | core/Controller/ProfileController.php:211-230 | the scopes are not nested: a logged-in same-instance viewer of an untrusted server sees Private and Local but not Federated |
| `ProfileController.Substr` | core/Controller/ProfileController.php:197 | the cut request URL is a prefix of the request URL, of the base URL's length unless the request URL is shorter |
| `ProfileController.SameInstanceIffPrefix` | core/Controller/ProfileController.php:193-198 | same instance holds iff the server base URL is a prefix of `protocol://host` + request URI |
| `ProfileController.ShortRequestNotSameInstance` | core/Controller/ProfileController.php:197-198 | a request URL shorter than the base URL is never the same instance |
| `PhpArrays.Lookup` | core/Controller/ProfileController.php:220-221 | reading a key gives `None` exactly when no entry has that key, and otherwise `Some` of the value of an entry with that key; a missing key is thus distinct from a stored `JNull` |
| `PhpArrays.Assign` | core/Controller/ProfileController.php:220-221 | after writing a key it reads back the new value and every other key reads as before; a new key is appended at the end, an existing key keeps its position |
| `PhpArrays.LookupAt` | core/Controller/ProfileController.php:216-239 | in an array without repeated keys every entry is what its key reads |
| `ProfileController.AssignNextField` | core/Controller/ProfileController.php:216-239 | writing the next display property's entry appends it after the entries already written |
| `ProfileController.AssignAvatarFlag` | core/Controller/ProfileController.php:241-258 | the avatar flag is appended after all display entries |
| `ProfileController.ScopedProjectionShape` | core/Controller/ProfileController.php:207-258 | the scoped array holds `userId`, the six display keys in display order, then `isAvatarDisplayed`, with no key repeated |
| `ProfileController.ScopedFieldFollowsTable` | core/Controller/ProfileController.php:216-239 | each display property reads as its raw value when the table discloses its scope to the viewer, and as null otherwise |
| `ProfileController.ScopedAvatarFollowsTable` | core/Controller/ProfileController.php:241-258 | `isAvatarDisplayed` is the table's answer for the avatar's scope |
| `ProfileController.ReturnedParamsIgnoreScopes` | core/Controller/ProfileController.php:261-276 | the returned array gives the raw display name and address, and has no `isAvatarDisplayed` key |
| `ProfileController.ReturnedParamsScopeBlind` | core/Controller/ProfileController.php:261-274 | two accounts with equal user id and values give equal returned arrays, whatever their scopes |
| `ProfileController.OverwriteRevealsWithheldName` | core/Controller/ProfileController.php:219-263 | a Private display name is null in the scoped array for a logged-out viewer, but appears in the returned array |
| `ProfileController.ProfileParams` | core/Controller/ProfileController.php:191-277 | the field loop and the avatar switch build exactly the scoped array of the table, and the method returns the raw array built at the overwrite |
| `ProfileController.Index` | core/Controller/ProfileController.php:143-183 | the 404 page is rendered iff the enabled value does not parse to true (false or unparseable); otherwise the page gets the returned parameter array |
| `ProfileController.OnlyPrivateAndAnonymousLocalStop` | core/Controller/ProfileController.php:284-297 | Federated, Published and unrecognised scopes never stop the action loop; Local stops it iff nobody is logged in |
| `ProfileController.LocalActionStricterThanDisclosure` | core/Controller/ProfileController.php:289-292 | an anonymous same-instance viewer sees a Local value but gets no action for it |
| `ProfileController.InitActions` | core/Controller/ProfileController.php:279-308 | the loop passes the action properties in order, none of them stopping, and ends early only at a property whose scope stops it |
| `ProfileActions.Insert` | lib/public/Profile/IProfileAction.php:39-41 | inserting into an ascending list keeps it ascending and adds exactly that action |
| `ProfileActions.HeadIsLowest` | lib/public/Profile/IProfileAction.php:39-41 | in an ascending list no action has a lower priority than the first |
| `ProfileActions.Arrange` | lib/public/Profile/IProfileAction.php:39-41 | arranging gives the same actions in ascending priority order |
| `ProfileActions.ArrangeKeepsValid` | lib/public/Profile/IProfileAction.php:38-46 | arranging actions whose priorities lie in 0..99 yields only such actions |
| `EmailActions.EmailAction.Priority` | lib/private/Profile/EmailAction.php:59-61 | the email action's priority lies in 0..99 |
| `EmailActions.EmailAction.Target` | lib/private/Profile/EmailAction.php:67-69 | the target starts with `mailto:` and the rest is the address |
| `EmailActions.EmailAction.AsProfileAction` | lib/private/Profile/EmailAction.php:29-70 | the email action meets the action contract: title is the translation of `Mail %s` with the address, priority 20, icon `icon-mail`, target the mailto link |
| `EmailActions.StripMailto` | lib/private/Profile/EmailAction.php:67-69 | an address is recovered exactly from targets that start with `mailto:` |
| `EmailActions.TargetRoundTrip` | lib/private/Profile/EmailAction.php:47-69 | stripping `mailto:` from the target gives back the address the action was built with |
| `EmailActions.StripMailtoRoundTrip` | lib/private/Profile/EmailAction.php:67-69 | every mailto target is the target of the action for the address it carries |
| `EmailActions.TargetInjective` | lib/private/Profile/EmailAction.php:67-69 | actions for different addresses have different targets |

## Left out

- HTTP and templates: the template responses, their render modes, the initial-state service, the script registration and the constructor's dependency wiring. `Index` returns `NotFound` or `ProfilePage(parameters)`.
- The user-status lookup in `index` (lines 163-171) and the Talk-enabled query (line 267). The latter's answer is the input `Env.talkEnabled`.
- The additional-email list (lines 200-205). It is computed but not used.
- Account lookup: the user and account managers are not part of this model. The account is an input. Looking up a missing property throws in the source; `Account.Complete()` requires every property to be present instead.
- The scope constants' string values. The four known scopes are constructors; any other string is `Other(name)`.
- Which server the trusted-server registry trusts. Its answer for the server's own base URL is the input `Env.baseUrlTrusted`.
- PHP strings are byte strings. `Substr` and the prefix test count characters of `seq<char>`.
- `FilterBool`: PHP's word lists and normalisation are abstracted as the `BoolWords` sets. A value is true when it is in `trueWords`, false when it is in `falseWords`, and null otherwise.
- The action manager is commented out in the source. No action is registered or arranged by the controller. `Arrange` is the ascending-priority order the contract asks of whoever lists the actions. Stability among equal priorities is not stated.
- The interface is modelled as a record of its four accessors' results rather than as dynamic dispatch.
- `EmailActions.EmailAction.Title` and `EmailActions.EmailAction.Icon` carry no contract of their own. What they return is stated by `AsProfileAction`, with the translator as an uninterpreted function.
- The email action's URL generator is stored but never used, so it is dropped.
