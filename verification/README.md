# Verified model of the event-management services

Dafny models of the services of a NestJS backend for event management, with
proofs of what every call does to the database tables and of what every run of
calls keeps.  A service is a `class` whose fields are the tables it writes; its
methods follow the statements of the TypeScript methods, and each is proved
equal to a transition function (or relation) on the tables.  The modules named
`...Runs` prove the main results about those transitions, over all inputs and
all runs; the modules named `...Answers` say, in terms of the tables alone, which
answer every request gets and which rows it writes and leaves alone.

`dafny verify dfyconfig.toml` checks everything.

| files | what they cover |
|---|---|
| `RefreshTokens`, `RefreshRuns`, `RefreshInterleaving`, `RefreshLocks`, `RefreshAnswers` | refresh-token rotation, grace, replay detection, logout and password reset: once with each request as one step, once with requests interleaved statement by statement, and exactly when interleaving does harm |
| `Text`, `BadgeText` | template substitution on flat strings with the two regular expressions of the badge renderer |
| `Badges`, `BadgeRuns`, `BadgeAnswers` | the status machine of a badge under failures of any awaited call, and bulk generation |
| `Invitations`, `InvitationRuns`, `InvitationAnswers` | invitations by token against a moving clock |
| `Tags`, `TagRuns` | tags of events and their cached number of uses |
| `Registrations`, `RegistrationRuns`, `RegistrationAnswers` | registration to events with a limited capacity |
| `Slugs` | the replace chains that turn names into codes |
| `AttendeeTypes`, `AttendeeTypeRuns`, `AttendeeTypeAnswers` | the search for a free code |
| `BadgeTemplates`, `BadgeTemplateRuns`, `BadgeTemplateAnswers` | one default template for each scope, and what keeps a template from being removed |
| `BadgeRules`, `BadgeRuleRuns`, `BadgeRuleAnswers` | badge rules by priority, and the two places that apply them |
| `Attendees`, `AttendeeRuns`, `AttendeeAnswers` | attendees and the log of their revisions |
| `Wrappers`, `Collections` | options, results, finite sets |

## How the services are modelled

- A table is a `map` from ids to rows.  New ids, token ids and random tokens of
  the refresh-token service are drawn from a counter: the code only compares
  them, and creation order is the order by `created_at`.  The token of an
  invitation is an argument instead, and the unique index on it can refuse it.
- Constraints come from `prisma/schema.prisma`: unique indexes, foreign keys and
  their `onDelete` rules.  A violated one is an `Err` of the call that runs into it.
- A `$transaction`, and a nested write, restores the tables when it fails.  Where
  the code uses none, what was written before the failure stays written
  (`Badges`, `BadgeTemplates`).
- A request is one step, except in `RefreshInterleaving` and `RefreshLocks`, where
  each statement sent to the database is one.  The clock is read once in a step and never goes
  back; it counts milliseconds, and a JWT expires at a full second.
- A JWT is a value (user, token id, expiry); it verifies if it was signed and
  has not expired.  Hashes are injective.
- `citext` columns compare without case; addresses are taken as already folded.
- Rendering, uploads and mail are opaque.  Which awaited call of a badge
  generation throws, whether its catch block throws too, and the addresses the
  uploads return, are arguments; so is the throwing call of a template creation
  or update.
- A query without `orderBy` that may match several rows takes them in creation
  order; with a unique match this is no restriction.
- A missing request field is `None`, or absent from a map.  `capacity` 0 stands
  for none, as the code treats both alike.

## Where the code differs from what it says

- `src/modules/badge-templates/badge-templates.service.ts:215-221` announces that
  a template with generated badges is deleted; `prisma/schema.prisma:694`
  restricts that deletion, so it fails
  (`BadgeTemplateRuns.RemovingAPrintedTemplateFails`).  A registration with the
  template blocks it too: its key, `prisma/schema.prisma:622`, would be set to null
  together with a required column (`BadgeTemplateRuns.RemovalSucceedsExactly`).
- `src/auth/auth.service.ts:204` speaks of returning the new token; the code
  returns the old one, already rotated.  Within the grace window it may be answered
  the same way again; afterwards it is refused, or ends every session
  (`RefreshRuns.GraceTokenIsDoomed`).
- `src/auth/auth.service.ts:200` tolerates the reuse of a token by several tabs;
  presentations that overlap before the first link is written are rotated twice
  (`RefreshLocks.OverwritesExactly`, `RefreshLocks.ForksExactly`).
- `src/modules/tags/tags.service.ts:73` mentions lower-casing; names are only trimmed.
- `src/modules/public/public.service.ts:235-245` knows three statuses; a
  cancelled row falls through to the unique index
  (`RegistrationRuns.CancelledAttendeesCannotReturn`).
- `src/modules/badge-generation/badge-generation.service.ts:558-577` filters the
  try block by organisation but not the catch block
  (`BadgeRuns.ForeignCallChangesExactly`).
- `src/modules/badge-generation/badge-generation.service.ts:558-574` marks a badge
  as failed; when that throws as well, the badge can stay generating
  (`BadgeRuns.GenerateKeepsInv`).
- `src/modules/invitation/invitation.service.ts:266-271` marks an accepted
  invitation as expired (`InvitationRuns.AcceptedStaysOverRuns`).
- `src/modules/badge-generation/badge-generation.service.ts:1228` starts the PDF
  from the template of the settings whether active or not; the preview asks for an
  active one (`BadgeRuleRuns.PreviewAndPdfAgreeExactly`).
- `src/modules/badge-templates/badge-templates.service.ts:36-42` clears the default
  of a scope before an insertion that can throw; the scope then has none
  (`BadgeTemplateRuns.DefaultIsLostExactly`).
- `src/modules/attendees/attendees.service.ts:495-519` logs a hard delete in a
  table whose rows go with the attendee (`AttendeeRuns.HardDeleteErasesHistory`).

## Model

| member | source | states |
|---|---|---|
| `RefreshTokens.AuthService.constructor` | src/auth/auth.service.ts:141-174 | no token, no account and nothing signed at the start |
| `RefreshTokens.AuthService.IssueRefreshToken` | src/auth/auth.service.ts:141-174 | signs a JWT for the user and stores one new live row; the answer is that JWT |
| `RefreshTokens.AuthService.RotateRefreshToken` | src/auth/auth.service.ts:176-275 | the new tables and the answer are those of the transition `Rotate`: every check in the order of the code, grace, revoke-all, issue and link |
| `RefreshTokens.AuthService.RevokeAllUserSessions` | src/auth/auth.service.ts:298-303 | revokes exactly the unrevoked rows of the user, with the current date |
| `RefreshTokens.AuthService.RevokeRefreshToken` | src/auth/auth.service.ts:277-296 | logout by JWT or by id: revokes at most the named unrevoked row |
| `RefreshTokens.AuthService.RequestPasswordReset` | src/auth/auth.service.ts:506-539 | a fresh reset token valid for one hour; an unknown or inactive account gets none |
| `RefreshTokens.AuthService.ResetPasswordOf` | src/auth/auth.service.ts:567-586 | consumes the reset token and deletes every session of its user |
| `RefreshTokens.Redeemer` | src/auth/auth.service.ts:544-562 | finds the active user with the unexpired reset token if and only if there is one |
| `RefreshRuns.StepKeepsInv` | src/auth/auth.service.ts:141-303 | each request keeps the shape of the table: links forward, to an existing row of the same user, no shared successor, live rows unlinked |
| `RefreshRuns.RunKeepsInv` | src/auth/auth.service.ts:141-303 | the same over every run of logins, presentations, logouts, resets, account changes and clock ticks |
| `RefreshRuns.EmptyTableSatisfiesInv` | src/auth/auth.service.ts:141-174 | runs may start from the empty table |
| `RefreshRuns.PresentedTokenAnswers` | src/auth/auth.service.ts:176-268 | each answer, expiry included, happens exactly when its condition on signature, liveness, dates, account and grace window holds; hash and user checks never fire for a verified JWT |
| `RefreshRuns.RowExpiryNeverFires` | src/auth/auth.service.ts:231-234 | where a JWT does not outlive its row, the expiry check of the row never fires |
| `RefreshRuns.GraceIsForTheImmediatePredecessor` | src/auth/auth.service.ts:199-224 | grace changes no table and is given only to the immediate predecessor of a live, unexpired tip |
| `RefreshRuns.TwoBehindIsReplay` | src/auth/auth.service.ts:199-229 | a token two rotations behind always leads to revoke-all, whatever its age |
| `RefreshRuns.Tip` | src/auth/auth.service.ts:252-263 | following links from any row ends, at an unlinked row of the same user |
| `RefreshRuns.ReachedTokensShareTheTip` | src/auth/auth.service.ts:252-263 | every token reached from another ends at the same tip |
| `RefreshRuns.OneLiveTokenPerChain` | src/auth/auth.service.ts:252-263 | in every run, a login's chain holds at most one live token, and it is the last |
| `RefreshRuns.RotationKeepsTheLiveCount` | src/auth/auth.service.ts:252-263 | a rotation keeps the user's number of live tokens: the old one dies, the new one lives |
| `RefreshRuns.LiveTokensNeverExceedLogins` | src/auth/auth.service.ts:141-303 | over every run, live tokens of a user never exceed their logins |
| `RefreshRuns.RowsAreWrittenOnce` | src/auth/auth.service.ts:252-303 | over every run, a revocation date and a link never change once set, and a deleted row never comes back |
| `RefreshRuns.ReplayEndsEverySession` | src/auth/auth.service.ts:199-229 | after revoke-all the user has no live token |
| `RefreshRuns.DeadStaysDead` | src/auth/auth.service.ts:199-303 | a user's old tokens, once all dead without hope of grace, stay so in every later state |
| `RefreshRuns.DeadTokensFail` | src/auth/auth.service.ts:199-229 | a dead token is never accepted |
| `RefreshRuns.DeadForever` | src/auth/auth.service.ts:199-229 | no run makes a dead token acceptable again |
| `RefreshRuns.ReplayIsFinal` | src/auth/auth.service.ts:199-229 | once a replay revoked the sessions, no JWT signed for the user before it is ever accepted again, whatever follows |
| `RefreshRuns.GraceTokenIsDoomed` | src/auth/auth.service.ts:199-229 | the JWT that a grace answer hands back is, once the window is over, refused or revokes every session |
| `RefreshRuns.SpentStaysSpent` | src/auth/auth.service.ts:567-580 | a used reset token is never held by an account again |
| `RefreshRuns.ResetDeletesExactlyTheSessions` | src/auth/auth.service.ts:567-586 | a reset deletes exactly its user's rows and leaves no dangling link |
| `RefreshRuns.ResetIsFinal` | src/auth/auth.service.ts:567-586 | no JWT signed before a reset is accepted after it, and the reset token cannot be used twice |
| `RefreshInterleaving.UndisturbedRotationIsAtomic` | src/auth/auth.service.ts:176-275 | the read, issue and link steps of one request, undisturbed, are the atomic handler |
| `RefreshInterleaving.UndisturbedResetIsAtomic` | src/auth/auth.service.ts:567-586 | the same for the two statements of a reset |
| `RefreshInterleaving.TurnKeepsWorldOk` | src/auth/auth.service.ts:176-303 | one statement of any request keeps the links well formed and every suspended request consistent |
| `RefreshInterleaving.LinksSurviveEveryInterleaving` | src/auth/auth.service.ts:176-303 | under arbitrary interleaving, links go forward to existing rows of the same user and no two rows share a successor |
| `RefreshInterleaving.RacingRotationsFork` | src/auth/auth.service.ts:252-263 | two overlapping presentations of one token leave one live token more than before and overwrite the first link |
| `RefreshLocks.QuietWorldIsOk` | src/auth/auth.service.ts:141-303 | every table reachable by atomic requests, with no request in progress, satisfies what the interleaved runs start from |
| `RefreshLocks.LockedAfterTurn` | src/auth/auth.service.ts:176-303 | any move but a contended presentation keeps: at most one request rotates a token, and that token has no link yet |
| `RefreshLocks.SessionsAfterTurn` | src/auth/auth.service.ts:176-303 | no statement but a login creates a session, counting tokens about to be revoked as gone and tokens owed as there |
| `RefreshLocks.SessionsWhenQuiet` | src/auth/auth.service.ts:176-303 | with no request in progress, sessions are live tokens |
| `RefreshLocks.LockedRunsNeverFork` | src/auth/auth.service.ts:252-263 | under any interleaving without contended presentations, live tokens never exceed logins |
| `RefreshLocks.LockedLinksAreWrittenOnce` | src/auth/auth.service.ts:256-263 | under the same condition a link is never overwritten |
| `RefreshLocks.ContendedRequestsMeet` | src/auth/auth.service.ts:187-263 | from any contended presentation, whichever phase the other request is in, both requests come to link the same token, and the user has a session too many |
| `RefreshLocks.OverwritesExactly` | src/auth/auth.service.ts:187-263 | a move can lead to an overwritten link, with no further contended presentation, if and only if it presents a still acceptable token that another request is rotating |
| `RefreshLocks.ForksExactly` | src/auth/auth.service.ts:187-263 | the same condition decides, both ways, whether a user can end up with more sessions than logins |
| `RefreshInterleaving.DeletedStaysDeleted` | src/auth/auth.service.ts:583-585 | under any interleaving a deleted row never comes back |
| `BadgeText.ReplaceVariables` | src/modules/badge-generation/badge-generation.service.ts:118-131 | the loop over the keys and the final pass compute `Fill` |
| `BadgeText.HoleMatchesItsName` | src/modules/badge-generation/badge-generation.service.ts:123-123 | a well-formed hole is matched, whole, by the key that is its name and by no other |
| `BadgeText.RewriteInsertsPlainValues` | src/modules/badge-generation/badge-generation.service.ts:124-124 | a value without a replacement pattern is inserted as it is |
| `BadgeText.InsertIntoPieces` | src/modules/badge-generation/badge-generation.service.ts:122-125 | rewriting the flat string for one key is substituting that key in the list of pieces |
| `BadgeText.RewriteAllPieces` | src/modules/badge-generation/badge-generation.service.ts:122-125 | the same for all keys in turn |
| `BadgeText.AnyHoleMatches` | src/modules/badge-generation/badge-generation.service.ts:128-128 | the final pass matches every well-formed hole, whole |
| `BadgeText.EraseDropsHoles` | src/modules/badge-generation/badge-generation.service.ts:128-128 | the final pass empties the holes and keeps the text |
| `BadgeText.FillIsSimultaneousSubstitution` | src/modules/badge-generation/badge-generation.service.ts:118-131 | key-by-key rewriting of the flat string plus the final pass is one simultaneous substitution, unknown holes empty |
| `BadgeText.FillDependsOnLookups` | src/modules/badge-generation/badge-generation.service.ts:118-131 | the result depends only on the value of each name |
| `BadgeText.FillIgnoresKeyOrder` | src/modules/badge-generation/badge-generation.service.ts:122-125 | the same pairs under distinct keys, in any order, give the same result |
| `BadgeText.FilledTextIsFinal` | src/modules/badge-generation/badge-generation.service.ts:118-131 | the result holds no `{{` and filling it again changes nothing |
| `BadgeText.LoneHole` | src/modules/badge-generation/badge-generation.service.ts:118-131 | a template made of one hole yields the value of its name |
| `BadgeText.OrderMattersForUnsafeValues` | src/modules/badge-generation/badge-generation.service.ts:122-125 | why values are restricted: a value that is a hole makes the result depend on key order |
| `BadgeText.InsertedAsItIsExactly` | src/modules/badge-generation/badge-generation.service.ts:124-124 | a safe value replaces a lone hole unchanged if and only if it holds none of the four replacement patterns |
| `BadgeText.DollarValuesAreExpanded` | src/modules/badge-generation/badge-generation.service.ts:124-124 | an input that shows it: `$$` is inserted as `$` |
| `BadgeText.PatternsReferToTheContext` | src/modules/badge-generation/badge-generation.service.ts:120-125 | in a text with one hole, the four replacement patterns stand for a dollar, the hole, and the text before and after it |
| `BadgeText.NestedBracesLeaveAHole` | src/modules/badge-generation/badge-generation.service.ts:128-128 | why templates are restricted: nested braces leave a hole that a second pass would erase |
| `BadgeText.EmptyBracesStay` | src/modules/badge-generation/badge-generation.service.ts:128-128 | empty braces are no hole and stay as they are, whatever the data |
| `Badges.FirstActive` | src/modules/badge-templates/badge-templates.service.ts:466-493 | the oldest eligible template, and none only when none is eligible |
| `Badges.BadgeOf` | src/modules/badge-generation/badge-generation.service.ts:423-428 | finds a badge of the registration if and only if there is one |
| `Badges.BadgeGenerationService.constructor` | src/modules/badge-generation/badge-generation.service.ts:441-452 | starts without badges |
| `Badges.BadgeGenerationService.FindTemplate` | src/modules/badge-templates/badge-templates.service.ts:447-496 | the active template of the event's settings, else a default, else the oldest active one |
| `Badges.BadgeGenerationService.TryGenerate` | src/modules/badge-generation/badge-generation.service.ts:268-557 | the try block: what is written when it ends or when any of its ten awaits throws |
| `Badges.BadgeGenerationService.FillBadge` | src/modules/badge-generation/badge-generation.service.ts:423-557 | steps 5 to 10 of the try block, each of which may throw |
| `Badges.BadgeGenerationService.GenerateBadge` | src/modules/badge-generation/badge-generation.service.ts:263-578 | the try block followed, on any exception, by marking an existing badge as failed |
| `Badges.BadgeGenerationService.DeleteBadge` | src/modules/badge-generation/badge-generation.service.ts:841-870 | deletes one badge of the organisation, refused exactly when it is not there |
| `Badges.BadgeGenerationService.ClearBadges` | src/modules/badge-generation/badge-generation.service.ts:984-991 | deletes every badge of the registration before a forced preview |
| `Badges.BadgeGenerationService.GenerateBulk` | src/modules/badge-generation/badge-generation.service.ts:584-659 | generates for each registration in turn; the counters are the tallies of the report lines |
| `BadgeRuns.CatchFindsTheBadge` | src/modules/badge-generation/badge-generation.service.ts:561-565 | the look-up of the catch block finds the badge the try block was working on |
| `BadgeRuns.FailureBeforeTheFirstWrite` | src/modules/badge-generation/badge-generation.service.ts:558-577 | a failure before any write touches at most an existing badge |
| `BadgeRuns.FailureAfterTheFirstWrite` | src/modules/badge-generation/badge-generation.service.ts:558-577 | a failure after the badge was taken leaves that badge failed |
| `BadgeRuns.WorkShape` | src/modules/badge-generation/badge-generation.service.ts:423-577 | steps 5 to 10 and the catch block: the only rows that change and how |
| `BadgeRuns.TryShape` | src/modules/badge-generation/badge-generation.service.ts:268-557 | the try block alone succeeds exactly when nothing throws and the call is accepted; otherwise it has written nothing, or the one badge it was working on |
| `BadgeRuns.GenerateShape` | src/modules/badge-generation/badge-generation.service.ts:263-578 | a call succeeds exactly when nothing throws, the registration is visible and a template is found; usage moves exactly when rendering and uploads went through; otherwise the badge ends failed, registration untouched, unless the catch block throws too and what the try block wrote stays |
| `BadgeRuns.GenerateKeepsCore` | src/modules/badge-generation/badge-generation.service.ts:263-578 | whatever throws, one call keeps: one badge per registration, usage covering the completed badges |
| `BadgeRuns.GenerateKeepsInv` | src/modules/badge-generation/badge-generation.service.ts:263-578 | no badge is left generating, and addresses agree, if and only if it is not the case that both blocks throw after the first write without the registration carrying the new addresses |
| `BadgeRuns.BulkKeepsInv` | src/modules/badge-generation/badge-generation.service.ts:584-659 | the same for a bulk call, which reports one line per registration |
| `BadgeRuns.StepKeepsInv` | src/modules/badge-generation/badge-generation.service.ts:263-659 | the same for every operation, deletions included |
| `BadgeRuns.RunKeepsInv` | src/modules/badge-generation/badge-generation.service.ts:263-659 | over every run, wherever its calls throw: one badge per registration and usage covering completed badges; and, unless a call gets stuck that way, no badge generating and addresses agreeing |
| `BadgeRuns.WorkingCatchNeverSticks` | src/modules/badge-generation/badge-generation.service.ts:558-577 | a run whose catch blocks do not throw never gets stuck |
| `BadgeRuns.NoBadgeSatisfiesInv` | prisma/schema.prisma:657-709 | runs may start from any tables without badges |
| `BadgeRuns.OthersAreUntouched` | src/modules/badge-generation/badge-generation.service.ts:263-578 | a call leaves the badge and the addresses of every other registration alone |
| `BadgeRuns.CompletedExactlyOnSuccess` | src/modules/badge-generation/badge-generation.service.ts:525-577 | after a call the badge is completed if and only if the call succeeded, with the new addresses, or its catch block threw and left a completed badge; a failed call leaves the registration's addresses alone |
| `BadgeRuns.NextCallRepairs` | src/modules/badge-generation/badge-generation.service.ts:263-578 | whatever earlier calls left, a call whose catch block works leaves its registration's badge settled and the addresses agreeing |
| `BadgeRuns.ForeignCallFailsTheBadge` | src/modules/badge-generation/badge-generation.service.ts:558-577 | a call refused because the registration belongs to another organisation still turns its badge into a failed one |
| `BadgeRuns.ForeignCallChangesExactly` | src/modules/badge-generation/badge-generation.service.ts:558-577 | a call for a registration its caller may not see leaves the tables alone if and only if the catch block throws, there is no badge, or the badge already says it failed for this reason |
| `BadgeRuns.ClearedRegistration` | src/modules/badge-generation/badge-generation.service.ts:984-991 | clearing a registration leaves it without badge and the others with theirs |
| `BadgeRuns.FallBackPrefersTheDefault` | src/modules/badge-templates/badge-templates.service.ts:466-493 | without an active template assigned to the event: an active default if there is one, otherwise the oldest active template |
| `BadgeRuns.BulkFollowsTheTrace` | src/modules/badge-generation/badge-generation.service.ts:632-649 | a bulk call makes the calls one after the other and reports each |
| `BadgeRuns.ReportIsAccurate` | src/modules/badge-generation/badge-generation.service.ts:632-658 | in the report of a bulk call a badge is completed at the end exactly if its line says success, or its own catch block threw and left a completed badge |
| `BadgeRuns.TalliesAddUp` | src/modules/badge-generation/badge-generation.service.ts:625-658 | generated plus failed is the number of registrations |
| `BadgeRuns.TalliesCountTheLines` | src/modules/badge-generation/badge-generation.service.ts:625-658 | each counter is the number of report lines that say so |
| `Invitations.Newest` | src/modules/invitation/invitation.service.ts:112-118 | the newest invitation for an address and organisation |
| `Invitations.ByToken` | src/modules/invitation/invitation.service.ts:251-258 | finds an invitation by token if and only if there is one |
| `Invitations.InvitationService.constructor` | src/modules/invitation/invitation.service.ts:34-34 | no invitation at the start |
| `Invitations.InvitationService.InsertInvitation` | src/modules/invitation/invitation.service.ts:139-154 | a new pending invitation valid for 48 hours; the unique index on tokens may refuse it |
| `Invitations.InvitationService.SendInvitation` | src/modules/invitation/invitation.service.ts:34-178 | every check of sending in order, then one new pending invitation |
| `Invitations.InvitationService.ResendInvitation` | src/modules/invitation/invitation.service.ts:183-246 | cancels the pending invitation and inserts its replacement |
| `Invitations.InvitationService.ValidateInvitationToken` | src/modules/invitation/invitation.service.ts:251-292 | checks a token and marks an overdue invitation as expired |
| `Invitations.InvitationService.CompleteInvitation` | src/modules/invitation/invitation.service.ts:297-366 | creates the account and accepts the invitation, or refuses |
| `Invitations.InvitationService.CancelInvitation` | src/modules/invitation/invitation.service.ts:428-445 | cancels an invitation of the organisation unless it is accepted |
| `InvitationRuns.SendKeepsInv` | src/modules/invitation/invitation.service.ts:34-178 | sending keeps the invariant: accounts unique, tokens unique, pending is newest, members not invited, expired is past |
| `InvitationRuns.ResendKeepsInv` | src/modules/invitation/invitation.service.ts:183-246 | so does resending |
| `InvitationRuns.CheckKeepsInv` | src/modules/invitation/invitation.service.ts:251-292 | so does validating |
| `InvitationRuns.JoiningKeepsInv` | src/modules/invitation/invitation.service.ts:339-360 | so does completing |
| `InvitationRuns.StepKeepsInv` | src/modules/invitation/invitation.service.ts:34-445 | so does every operation and every tick of the clock |
| `InvitationRuns.RunKeepsInv` | src/modules/invitation/invitation.service.ts:34-445 | so does every run |
| `InvitationRuns.NoInvitationSatisfiesInv` | src/modules/invitation/invitation.service.ts:34-178 | runs may start without invitations |
| `InvitationRuns.OnePendingPerAddress` | src/modules/invitation/invitation.service.ts:103-154 | over every run, at most one pending invitation per address and organisation, and it is the newest |
| `InvitationRuns.SendingSeesEveryPendingInvitation` | src/modules/invitation/invitation.service.ts:103-123 | looking only at the newest row, sending is refused as pending only if some invitation is pending, and accepted only if none is |
| `InvitationRuns.CompletionSucceedsExactly` | src/modules/invitation/invitation.service.ts:297-366 | a token opens an account exactly while its invitation is pending and in time; the unique index on accounts never fires |
| `InvitationRuns.CompletionCreatesTheInvitedAccount` | src/modules/invitation/invitation.service.ts:339-360 | completion creates the invited account in the invited role, accepts that invitation, and changes nothing else |
| `InvitationRuns.ValidationPredictsCompletion` | src/modules/invitation/invitation.service.ts:251-328 | validation succeeds exactly when completing at the same moment would, with the same refusal otherwise |
| `InvitationRuns.RunEvolves` | src/modules/invitation/invitation.service.ts:183-445 | over every run a retired invitation never becomes pending again and its other columns never change |
| `InvitationRuns.RetiredTokensNeverComplete` | src/modules/invitation/invitation.service.ts:251-292 | a cancelled, replaced, accepted or expired invitation never opens an account in any later run |
| `InvitationRuns.ResendReplaces` | src/modules/invitation/invitation.service.ts:202-223 | the replacement takes over address, organisation and role; only its token is valid from then on |
| `InvitationRuns.OneAccountPerAddress` | src/modules/invitation/invitation.service.ts:297-366 | over every run at most one account is opened per address and organisation, none for a member |
| `InvitationRuns.TokensCompleteAtMostOnce` | src/modules/invitation/invitation.service.ts:297-366 | over every run no token is completed twice |
| `InvitationRuns.SpentTokensDoNotComplete` | src/modules/invitation/invitation.service.ts:297-366 | a retired token is completed zero times |
| `InvitationRuns.AcceptedIsNotFinal` | src/modules/invitation/invitation.service.ts:266-271 | an input that shows ACCEPTED is not final: a late look-up turns it into EXPIRED, which can then be cancelled |
| `InvitationRuns.AcceptedStaysExactly` | src/modules/invitation/invitation.service.ts:251-366 | a step leaves an accepted invitation accepted if and only if it does not present its token after its date |
| `InvitationRuns.RetiredIsNeverAccepted` | src/modules/invitation/invitation.service.ts:251-366 | an expired or cancelled invitation is never accepted again |
| `InvitationRuns.AcceptedStaysOverRuns` | src/modules/invitation/invitation.service.ts:251-366 | after any run an accepted invitation is still accepted if and only if its token was never presented after its date |
| `Tags.CleanedIsTheNameSet` | src/modules/tags/tags.service.ts:74-74 | trimming and filtering yields exactly the trimmed non-empty names |
| `Tags.Dedup` | src/modules/tags/tags.service.ts:74-74 | the same names, each once |
| `Tags.FindTag` | src/modules/tags/tags.service.ts:113-119 | finds a tag by organisation and name if and only if there is one |
| `Tags.Missing` | src/modules/tags/tags.service.ts:88-88 | the names still to add, in order, each once |
| `Tags.TagsService.constructor` | src/modules/tags/tags.service.ts:72-72 | no tag at the start |
| `Tags.TagsService.CreateTagByHand` | src/modules/tags/tags.service.ts:149-168 | creates a tag with no use, or recolours the existing one if the request has a colour |
| `Tags.TagsService.RemoveTags` | src/modules/tags/tags.service.ts:92-107 | deletes the rows of unwanted tags and decrements each of those tags once |
| `Tags.TagsService.AddTags` | src/modules/tags/tags.service.ts:110-139 | upserts each missing name, counting the use, and inserts its row |
| `Tags.TagsService.UpdateEventTags` | src/modules/tags/tags.service.ts:72-144 | commits exactly when the event is in the organisation or nothing is to be inserted; then the event's names are the cleaned list, counts match, other events are untouched |
| `Tags.AddingAName` | src/modules/tags/tags.service.ts:111-138 | one turn of the second loop keeps the invariant and adds that name to the event |
| `Tags.RemovingTags` | src/modules/tags/tags.service.ts:92-107 | the first loop keeps the invariant and removes exactly the unwanted names |
| `Tags.AddingNames` | src/modules/tags/tags.service.ts:110-139 | the second loop keeps the invariant and adds exactly the missing names |
| `Tags.KeptNames` | src/modules/tags/tags.service.ts:84-89 | the two differences split the wanted names into kept and added |
| `Tags.WholeUpdate` | src/modules/tags/tags.service.ts:72-144 | both loops together leave exactly the wanted names |
| `Tags.CreatingATagKeepsInv` | src/modules/tags/tags.service.ts:149-168 | creating a tag by hand keeps every count, name and row consistent |
| `TagRuns.StepKeepsInv` | src/modules/tags/tags.service.ts:72-168 | each operation keeps: count equals rows, names unique, rows in the tag's organisation |
| `TagRuns.RunKeepsInv` | src/modules/tags/tags.service.ts:72-168 | so does every run |
| `TagRuns.NamesAfterStep` | src/modules/tags/tags.service.ts:74-139 | after an update the event's names are the trimmed, non-empty names of the list; other events keep theirs |
| `TagRuns.NamesAfterRun` | src/modules/tags/tags.service.ts:74-139 | after a run, the names of an event are those of its last committed list |
| `TagRuns.UsageCountsEvents` | src/modules/tags/tags.service.ts:100-138 | the cached count is the number of events that use the tag |
| `TagRuns.CountsDependOnLastListsOnly` | src/modules/tags/tags.service.ts:72-144 | after any run, a count is the number of events whose last list names the tag, however the lists got there |
| `TagRuns.RepeatingAnUpdateChangesNothing` | src/modules/tags/tags.service.ts:87-139 | writing the list an event already has changes no table |
| `TagRuns.CreatingAnExistingTag` | src/modules/tags/tags.service.ts:149-168 | creating a tag whose name exists changes its colour, if one is given, and nothing else |
| `Registrations.TheRowDecides` | prisma/schema.prisma:626-626 | with one row per event and attendee, its status decides |
| `Registrations.RegistrationDesk.constructor` | src/modules/public/public.service.ts:156-156 | no registration at the start |
| `Registrations.RegistrationDesk.FindStatus` | src/modules/public/public.service.ts:226-233 | the status of the row of an event and attendee, if there is one |
| `Registrations.RegistrationDesk.SaveAttendee` | src/modules/public/public.service.ts:197-222 | inserts the attendee, or writes only the fields filled in |
| `Registrations.RegistrationDesk.EnterInTransaction` | src/modules/public/public.service.ts:195-294 | upsert, duplicate check, capacity check, insert; a failure restores the tables |
| `Registrations.RegistrationDesk.RegisterToEvent` | src/modules/public/public.service.ts:156-300 | the public form from the link to the inserted row |
| `Registrations.RegistrationDesk.CreateRegistration` | src/modules/registrations/registrations.service.ts:253-390 | registration by an administrator, with the capacity checked before the duplicate |
| `Registrations.RegistrationDesk.UpdateRegistrationStatus` | src/modules/registrations/registrations.service.ts:188-248 | changes a status; approving needs room |
| `Registrations.RegistrationDesk.RestoreRegistration` | src/modules/registrations/registrations.service.ts:490-550 | restores a deleted row; an approved one needs room |
| `RegistrationRuns.CountedAreTheSeats` | src/modules/public/public.service.ts:252-260 | the count filtered by organisation misses no seat, because organisations agree |
| `RegistrationRuns.SeatingKeepsCapacity` | src/modules/public/public.service.ts:252-266 | giving one seat when there is room keeps every event within its capacity |
| `RegistrationRuns.EnterKeepsInv` | src/modules/public/public.service.ts:195-294 | a registration keeps capacity, uniqueness and organisations consistent |
| `RegistrationRuns.StepKeepsInv` | src/modules/registrations/registrations.service.ts:188-582 | so does every operation on registrations |
| `RegistrationRuns.RunKeepsInv` | src/modules/public/public.service.ts:156-294 | so does every run |
| `RegistrationRuns.EmptyDeskSatisfiesInv` | src/modules/public/public.service.ts:156-156 | runs may start without registrations |
| `RegistrationRuns.CapacityIsNeverExceeded` | src/modules/public/public.service.ts:252-266 | over every run the approved, non-deleted registrations of an event never exceed its capacity |
| `RegistrationRuns.RegistrationSucceedsExactly` | src/modules/public/public.service.ts:156-294 | the form succeeds exactly for a published event, an attendee without any row, an existing type of participant if one is given, and, when approving, a free seat |
| `RegistrationRuns.RegistrationChangesOneRow` | src/modules/public/public.service.ts:156-294 | a refused or failed call changes no table; a successful one adds one row and touches one attendee |
| `RegistrationRuns.CancelledRowStays` | src/modules/public/public.service.ts:235-242 | a cancelled row stays until an administrator changes or erases it |
| `RegistrationRuns.CancelledAttendeesCannotReturn` | src/modules/public/public.service.ts:235-294 | in every run that leaves the row cancelled the attendee is refused: as full when approving without room, otherwise by the unique index |
| `Slugs.SquashedAlready` | src/modules/attendee-types/attendee-types.service.ts:122-124 | replacing runs by a mark leaves exactly the strings whose marks already stand alone |
| `Slugs.SlugIsWellFormed` | src/modules/attendee-types/attendee-types.service.ts:116-125 | a slug has only word characters and no double underscore |
| `Slugs.SlugFixpoints` | src/modules/attendee-types/attendee-types.service.ts:116-125 | the strings that slugify leaves alone are exactly the well-formed slugs |
| `Slugs.SlugKeepsLettersAndDigits` | src/modules/attendee-types/attendee-types.service.ts:116-125 | letters and digits come through in order, none added and none lost |
| `Slugs.SlugifyIsIdempotent` | src/modules/attendee-types/attendee-types.service.ts:116-125 | slugify applied twice is slugify |
| `Slugs.CodeIsWellFormed` | src/modules/badge-templates/badge-templates.service.ts:517-525 | at most 50 characters of a-z, 0-9 and dash, no leading or double dash, a trailing dash only at length 50 |
| `Slugs.CodeOfACode` | src/modules/badge-templates/badge-templates.service.ts:517-525 | on a generated code, another application removes the last dash and nothing else |
| `Slugs.CodeFixpoints` | src/modules/badge-templates/badge-templates.service.ts:517-525 | the fixpoints are exactly the well-formed codes without a last dash |
| `Slugs.GenerateCodeTwiceAndThrice` | src/modules/badge-templates/badge-templates.service.ts:517-525 | the second application removes just the trailing dash, the third changes nothing |
| `Slugs.TruncationCanLeaveADash` | src/modules/badge-templates/badge-templates.service.ts:524-524 | a name whose fiftieth character is a separator keeps a trailing dash |
| `AttendeeTypes.CandidatesAreDistinct` | src/modules/attendee-types/attendee-types.service.ts:78-93 | base, base_1, base_2, ... are pairwise distinct |
| `AttendeeTypes.RejectedAreTaken` | src/modules/attendee-types/attendee-types.service.ts:78-93 | as many rejected candidates need as many taken codes |
| `AttendeeTypes.FirstFreeIsUnique` | src/modules/attendee-types/attendee-types.service.ts:78-93 | there is one first free candidate |
| `AttendeeTypes.AttendeeTypesService.constructor` | src/modules/attendee-types/attendee-types.service.ts:53-53 | no attendee type at the start |
| `AttendeeTypes.AttendeeTypesService.FindCode` | src/modules/attendee-types/attendee-types.service.ts:72-93 | the search ends within one probe more than the organisation has codes, with the first free candidate |
| `AttendeeTypes.AttendeeTypesService.Create` | src/modules/attendee-types/attendee-types.service.ts:53-114 | name check, given code or search, one new row |
| `AttendeeTypes.AttendeeTypesService.UpdateType` | src/modules/attendee-types/attendee-types.service.ts:146-185 | checks and partial write of an update; an empty name is not checked |
| `AttendeeTypes.AttendeeTypesService.RemoveType` | src/modules/attendee-types/attendee-types.service.ts:187-193 | removes one type of the organisation |
| `AttendeeTypeRuns.NewCodeIsFree` | src/modules/attendee-types/attendee-types.service.ts:68-106 | the code of a new type is free in its organisation |
| `AttendeeTypeRuns.CreateKeepsInv` | src/modules/attendee-types/attendee-types.service.ts:53-114 | creation keeps codes and non-empty names unique |
| `AttendeeTypeRuns.UpdateKeepsInv` | src/modules/attendee-types/attendee-types.service.ts:146-185 | so does an update |
| `AttendeeTypeRuns.UpdateSucceedsExactly` | src/modules/attendee-types/attendee-types.service.ts:146-185 | an update goes through if and only if the table it would leave has unique codes and unique non-empty names |
| `AttendeeTypeRuns.StepKeepsInv` | src/modules/attendee-types/attendee-types.service.ts:53-193 | every operation keeps codes and non-empty names unique |
| `AttendeeTypeRuns.RunKeepsInv` | src/modules/attendee-types/attendee-types.service.ts:53-193 | so does every run, at every moment |
| `AttendeeTypeRuns.GeneratedCodesNeverRunOut` | src/modules/attendee-types/attendee-types.service.ts:72-93 | without a given code, creation succeeds exactly when the name is free; the code found is among the first candidates, as many as there are codes plus one |
| `AttendeeTypeRuns.FreedCodeIsReused` | src/modules/attendee-types/attendee-types.service.ts:72-93 | removing the type that holds the plain slug makes it the next code given out |
| `AttendeeTypeRuns.EmptyNamesCollide` | src/modules/attendee-types/attendee-types.service.ts:149-163 | an input that shows it: two types can both be updated to the empty name |
| `AttendeeTypeRuns.NamesCollideExactly` | src/modules/attendee-types/attendee-types.service.ts:146-185 | a successful update breaks the uniqueness of names exactly when it writes the empty name that another type has |
| `BadgeTemplates.BadgeTemplatesService.constructor` | src/modules/badge-templates/badge-templates.service.ts:10-10 | works on the tables it is given |
| `BadgeTemplates.BadgeTemplatesService.UnsetDefaultTemplates` | src/modules/badge-templates/badge-templates.service.ts:501-512 | clears the default flag of exactly the templates of the scope |
| `BadgeTemplates.BadgeTemplatesService.CreateTemplate` | src/modules/badge-templates/badge-templates.service.ts:15-67 | code check, clearing of the scope's default, insertion; no transaction around them, and any of the three may throw |
| `BadgeTemplates.BadgeTemplatesService.UpdateTemplate` | src/modules/badge-templates/badge-templates.service.ts:153-187 | clears the scope's default when this template becomes it, then writes the given fields; any of the statements may throw |
| `BadgeTemplates.BadgeTemplatesService.RemoveTemplate` | src/modules/badge-templates/badge-templates.service.ts:192-229 | refused while event settings, generated badges or registrations refer to the template |
| `BadgeTemplateRuns.CreateKeepsInv` | src/modules/badge-templates/badge-templates.service.ts:15-67 | wherever it throws, creation keeps one default per scope, unique codes and references in their organisation, and changes no other template's code, organisation or event |
| `BadgeTemplateRuns.UpdateKeepsInv` | src/modules/badge-templates/badge-templates.service.ts:153-187 | so does an update |
| `BadgeTemplateRuns.RemoveKeepsInv` | src/modules/badge-templates/badge-templates.service.ts:192-229 | so does a removal |
| `BadgeTemplateRuns.StepKeepsInv` | src/modules/badge-templates/badge-templates.service.ts:15-229 | so does every operation |
| `BadgeTemplateRuns.RunKeepsInv` | src/modules/badge-templates/badge-templates.service.ts:15-229 | over every run, wherever its calls throw, at most one template is the default of an organisation and event (or none), and codes are unique |
| `BadgeTemplateRuns.NoTemplateSatisfiesInv` | prisma/schema.prisma:330-365 | runs may start without templates |
| `BadgeTemplateRuns.NewDefaultReplacesTheOld` | src/modules/badge-templates/badge-templates.service.ts:36-39 | a template made the default is the only one of its scope; other scopes keep theirs |
| `BadgeTemplateRuns.DefaultIsLostExactly` | src/modules/badge-templates/badge-templates.service.ts:36-67 | a scope with a default loses it if and only if that template is demoted or removed, or a creation or update of another has cleared it and its own write then throws |
| `BadgeTemplateRuns.CreationSucceedsExactly` | src/modules/badge-templates/badge-templates.service.ts:15-67 | creation succeeds exactly when nothing it calls throws, no template of the organisation has the code and the event is the organisation's |
| `BadgeTemplateRuns.RefusedCreationClearsTheDefault` | src/modules/badge-templates/badge-templates.service.ts:36-42 | a failed creation changes a table if and only if the insertion of a default throws, the code being free and the scope having a default; a refusal by code or foreign key changes nothing |
| `BadgeTemplateRuns.RemovalSucceedsExactly` | prisma/migrations/20251024131637_events_registration/migration.sql:515-524 | a template is removed if and only if it is the organisation's and no event settings, badge or registration refers to it |
| `BadgeTemplateRuns.PrintedTemplateStays` | src/modules/badge-templates/badge-templates.service.ts:207-225 | over every run that leaves a badge alone, the template of the badge stays and removing it fails |
| `BadgeTemplateRuns.RemovingAPrintedTemplateFails` | src/modules/badge-templates/badge-templates.service.ts:215-225 | an input that shows it: create a template, generate a badge, remove the template |
| `BadgeTemplateRuns.RenamingKeepsTheCode` | src/modules/badge-templates/badge-templates.service.ts:153-187 | renaming keeps the code, so the old name stays reserved and the new one can be taken by another template |
| `BadgeTemplateRuns.CodesAreForLife` | src/modules/badge-templates/badge-templates.service.ts:153-229 | over every run a template keeps code, organisation and event, and a removed id never comes back |
| `BadgeRules.MaxPriority` | src/modules/events/events.service.ts:1124-1132 | the greatest priority among the event's rules, none exactly when there is no rule |
| `BadgeRules.EventBadgeRules.constructor` | src/modules/events/events.service.ts:1093-1093 | no rule at the start |
| `BadgeRules.EventBadgeRules.InsertLinks` | src/modules/events/events.service.ts:1142-1147 | one association row per requested type |
| `BadgeRules.EventBadgeRules.CreateBadgeRule` | src/modules/events/events.service.ts:1093-1175 | event, template, types and priority checks in order, then the rule and its associations |
| `BadgeRules.EventBadgeRules.UpdateBadgeRule` | src/modules/events/events.service.ts:1177-1269 | the same checks for the fields given, then the rule and, if given, its associations replaced |
| `BadgeRules.EventBadgeRules.DeleteBadgeRule` | src/modules/events/events.service.ts:1271-1295 | removes the rule with its associations |
| `BadgeRules.SelectTemplate` | src/modules/badge-generation/badge-generation.service.ts:1226-1248 | the loop with its break chooses the template of the first matching rule, else that of the settings |
| `BadgeRuleRuns.LengthsAgreeExactly` | src/modules/events/events.service.ts:1110-1119 | the length comparison accepts a list exactly when every id is a type of the organisation and none is repeated |
| `BadgeRuleRuns.CreateKeepsInv` | src/modules/events/events.service.ts:1093-1175 | creation keeps priorities unique per event and associations within the organisation |
| `BadgeRuleRuns.UpdateKeepsInv` | src/modules/events/events.service.ts:1177-1269 | so does an update |
| `BadgeRuleRuns.StepKeepsInv` | src/modules/events/events.service.ts:1093-1295 | so does every operation |
| `BadgeRuleRuns.RunKeepsInv` | src/modules/events/events.service.ts:1093-1295 | so does every run |
| `BadgeRuleRuns.CreatedRuleHasTheTypes` | src/modules/events/events.service.ts:1135-1147 | a created rule has exactly one association per requested type; the other rules keep theirs |
| `BadgeRuleRuns.UpdatedRuleHasTheTypes` | src/modules/events/events.service.ts:1236-1251 | an update with types leaves exactly those, without types it leaves them alone; other rules keep theirs |
| `BadgeRuleRuns.UpdatedRuleReads` | src/modules/events/events.service.ts:1218-1234 | an update writes the template and priority it is given and nothing else |
| `BadgeRuleRuns.MatchIsUnique` | prisma/schema.prisma:854-854 | with distinct priorities at most one rule is the match of a type |
| `BadgeRuleRuns.FirstMatchIsLeast` | src/modules/badge-generation/badge-generation.service.ts:935-955 | the first rule found in ascending order has the least priority among those covering the type, and is found exactly if one covers it |
| `BadgeRuleRuns.NextPriorityIsFree` | src/modules/events/events.service.ts:1121-1133 | a default priority is above every priority of the event, so it is never refused |
| `BadgeRuleRuns.AppendedRuleYields` | src/modules/events/events.service.ts:1121-1147 | a rule created without priority never changes the match of a covered type, and is the match of a requested uncovered one |
| `BadgeRuleRuns.MovedRuleTakesOver` | src/modules/events/events.service.ts:1218-1234 | a rule moved before the others that cover a type becomes its match |
| `BadgeRuleRuns.DeletionKeepsOtherMatches` | src/modules/events/events.service.ts:1271-1295 | after a deletion the match of a type is the least of the remaining rules that cover it |
| `BadgeRuleRuns.PreviewAndPdfUseTheRule` | src/modules/badge-generation/badge-generation.service.ts:934-969 | with no override and no template of its own, a covered registration gets the same template in the preview and the PDF |
| `BadgeRuleRuns.FallBackFinds` | src/modules/badge-templates/badge-templates.service.ts:447-496 | the fall-back finds nothing exactly when the organisation has no active template |
| `BadgeRuleRuns.PreviewAndPdfAgreeExactly` | src/modules/badge-generation/badge-generation.service.ts:1224-1248 | where no rule matches they agree exactly when the event's template is active, or there is neither such a template nor an active one |
| `Attendees.PickDefinedFields` | src/modules/attendees/attendees.service.ts:763-774 | exactly the listed fields that are defined |
| `Attendees.ByEmail` | src/modules/attendees/attendees.service.ts:37-44 | finds the row with the address if and only if there is one |
| `Attendees.AttendeesService.constructor` | src/modules/attendees/attendees.service.ts:29-29 | no attendee at the start |
| `Attendees.AttendeesService.CreateAttendee` | src/modules/attendees/attendees.service.ts:29-107 | inserts or partially updates the attendee with the address and logs the row |
| `Attendees.AttendeesService.UpdateAttendee` | src/modules/attendees/attendees.service.ts:376-455 | visibility and address checks, partial write, one revision |
| `Attendees.AttendeesService.RemoveAttendee` | src/modules/attendees/attendees.service.ts:462-546 | soft delete with a revision, or hard delete with the revisions |
| `AttendeeRuns.UpsertHasShape` | src/modules/attendees/attendees.service.ts:29-107 | an upsert fails exactly on a null in a required column, and otherwise writes and logs one row |
| `AttendeeRuns.UpsertKeepsInv` | src/modules/attendees/attendees.service.ts:29-107 | an upsert keeps: the table is what the log says, addresses unique, required columns filled |
| `AttendeeRuns.UpdateKeepsInv` | src/modules/attendees/attendees.service.ts:376-455 | so does an update |
| `AttendeeRuns.RemoveKeepsInv` | src/modules/attendees/attendees.service.ts:462-546 | so does a removal, soft or hard |
| `AttendeeRuns.StepKeepsInv` | src/modules/attendees/attendees.service.ts:29-546 | so does every operation |
| `AttendeeRuns.RunKeepsInv` | src/modules/attendees/attendees.service.ts:29-546 | over every run a row exists exactly if it has revisions and equals its newest snapshot; (org, email) stays unique |
| `AttendeeRuns.NoAttendeeSatisfiesInv` | src/modules/attendees/attendees.service.ts:29-29 | runs may start from empty tables |
| `AttendeeRuns.OneRevisionPerCall` | src/modules/attendees/attendees.service.ts:89-101 | a successful call adds one revision, to its attendee only; a failed one changes nothing |
| `AttendeeRuns.LogIsAppendOnly` | src/modules/attendees/attendees.service.ts:521-546 | without hard deletes the log only grows at its end |
| `AttendeeRuns.HardDeleteErasesHistory` | src/modules/attendees/attendees.service.ts:495-519 | a hard delete takes every revision with it, the one just written included, and no other |
| `AttendeeRuns.IndexGuardsTheEmptyAddress` | src/modules/attendees/attendees.service.ts:401-417 | the unique index fires exactly for an update, otherwise valid, to the empty address that another attendee has |
| `AttendeeRuns.WrittenAddressWasFree` | src/modules/attendees/attendees.service.ts:397-417 | an update goes through if and only if it writes no null where none may be, and an address no other row has |
| `AttendeeRuns.UpdateSucceedsExactly` | src/modules/attendees/attendees.service.ts:376-455 | an update goes through if and only if the table it would leave has unique addresses and no null in a required column |
| `AttendeeRuns.UpdateWritesTheRequest` | src/modules/attendees/attendees.service.ts:419-444 | an update writes exactly the defined fields, to one row |
| `AttendeeRuns.UpsertWritesTheRequest` | src/modules/attendees/attendees.service.ts:49-87 | an upsert writes the defined fields but the address, over the stored row or over the defaults, and updates exactly when the address is known |
| `AttendeeRuns.SoftDeleteDeactivates` | src/modules/attendees/attendees.service.ts:521-531 | a soft delete writes one column of one row |
| `AttendeeRuns.TwoUpdatesAreOne` | src/modules/attendees/attendees.service.ts:419-444 | two partial updates in a row equal one with the later fields overriding |
| `AttendeeRuns.UpsertTwice` | src/modules/attendees/attendees.service.ts:29-107 | two upserts of an address are one row, the fields of both, and two revisions |
| `RefreshAnswers.LoginWrites` | src/auth/auth.service.ts:141-174 | a login of an active account adds one row for the user, with its expiry, and one JWT; any other changes nothing |
| `RefreshAnswers.RotationWrites` | src/auth/auth.service.ts:176-303 | row by row: a rotation revokes and links the presented row; a replay revokes the live rows of its user with the current date and nothing else, whoever else has rows; any other answer leaves every row alone |
| `RefreshAnswers.RotationAdds` | src/auth/auth.service.ts:141-275 | a rotation adds exactly one row and one JWT, for the user of the presented token; no other answer adds any |
| `RefreshAnswers.LogoutWrites` | src/auth/auth.service.ts:277-296 | logout revokes the named row if it is live, and no other |
| `RefreshAnswers.ResetRequestWrites` | src/auth/auth.service.ts:506-539 | a request gives an active account a fresh token for one hour, and touches no other account |
| `RefreshAnswers.ResetWrites` | src/auth/auth.service.ts:544-586 | a reset empties the token of its account and deletes exactly its rows; without such an account it changes nothing |
| `RefreshAnswers.ReadAnswers` | src/auth/auth.service.ts:185-249 | interleaved: what a request decides from the row it has read: refuse, look at the replacement within the grace window, revoke, or rotate |
| `RefreshAnswers.BeginSuspends` | src/auth/auth.service.ts:176-249 | interleaved: a request waits where its read leads; only a reset writes at once, to the account that holds its token |
| `RefreshAnswers.TurnSuspends` | src/auth/auth.service.ts:199-263 | interleaved: a failed grace goes on to revoke, an issued token goes on to be linked, everything else ends |
| `RefreshAnswers.TurnWrites` | src/auth/auth.service.ts:176-303 | interleaved: each statement of a suspended request writes what its phase says, the revocation only live rows of its user |
| `RefreshAnswers.TurnAdds` | src/auth/auth.service.ts:141-174 | interleaved: only the statement that issues a token adds a row |
| `BadgeAnswers.ChoiceIsExact` | src/modules/badge-generation/badge-generation.service.ts:307-343 | the template is the registration's own if it has one and it is of the organisation, else the active one of the event's settings, else the oldest active default, else the oldest active one; none exactly when there is none of these |
| `BadgeAnswers.GenerateAnswers` | src/modules/badge-generation/badge-generation.service.ts:263-578 | which answer a call gives: success exactly when nothing throws, the registration is visible and there is such a template; otherwise the first failure in the order of the code |
| `BadgeAnswers.CatchHidesTheAnswer` | src/modules/badge-generation/badge-generation.service.ts:558-578 | when the catch block throws too, its failure is the answer |
| `BadgeAnswers.GenerateWrites` | src/modules/badge-generation/badge-generation.service.ts:423-557 | a success prints the badge from the chosen template, counts one use of that template, and stores the new addresses; the other templates and registrations stay |
| `BadgeAnswers.FailureWrites` | src/modules/badge-generation/badge-generation.service.ts:423-578 | a call that throws after its first write leaves the chosen template on a failed badge, its use counted if the uploads went through |
| `BadgeAnswers.DeletionWrites` | src/modules/badge-generation/badge-generation.service.ts:841-870 | a deletion takes exactly the named badge, and only within the organisation |
| `BadgeAnswers.ClearingWrites` | src/modules/badge-generation/badge-generation.service.ts:984-991 | clearing takes exactly the badges of the registration |
| `InvitationAnswers.SendAnswers` | src/modules/invitation/invitation.service.ts:34-154 | which answer sending gives: accepted exactly when the inviter is known, the organisation is there or created, the role exists and is not above the inviter's, the address is no member, nothing is pending and the token is new; otherwise the first of these that fails |
| `InvitationAnswers.SendWrites` | src/modules/invitation/invitation.service.ts:50-154 | a success adds one pending invitation for 48 hours with the address, organisation, role and token asked for; a refusal adds none; a created organisation stays either way |
| `InvitationAnswers.ResendAnswers` | src/modules/invitation/invitation.service.ts:183-223 | which answer resending gives, and what it writes: the old row is cancelled, the new one carries the same address, organisation and role |
| `InvitationAnswers.CheckAnswers` | src/modules/invitation/invitation.service.ts:251-292 | an overdue invitation becomes expired; otherwise its status decides the answer |
| `InvitationAnswers.CompleteAnswers` | src/modules/invitation/invitation.service.ts:297-366 | the same refusals, a taken account, or one new account with the invited address, organisation and role and an accepted invitation |
| `InvitationAnswers.CancelAnswers` | src/modules/invitation/invitation.service.ts:428-445 | cancels any invitation of the organisation that is not accepted, and no other row |
| `RegistrationAnswers.EnterAnswers` | src/modules/public/public.service.ts:195-294 | which refusal an entry gets, in terms of the row of the pair, the seats taken and the type of participant |
| `RegistrationAnswers.EnterWrites` | src/modules/public/public.service.ts:195-294 | a successful entry adds one row with the status asked for and stores the details: all of them for a new attendee, those filled in for a known one |
| `RegistrationAnswers.RegisterAnswers` | src/modules/public/public.service.ts:156-294 | the form answers NotFound, Closed, Declined, AlreadyRegistered, Full or Constraint each exactly under its condition, and succeeds otherwise |
| `RegistrationAnswers.RegisterWrites` | src/modules/public/public.service.ts:195-294 | the form stores an approved row with automatic approval and an awaiting one without |
| `RegistrationAnswers.CreateByAdminAnswers` | src/modules/registrations/registrations.service.ts:253-390 | the same for an administrator, who may give the status; a full event is reported first |
| `RegistrationAnswers.UpdateStatusAnswers` | src/modules/registrations/registrations.service.ts:188-248 | only approving a row that was not approved needs room; one column of one row changes |
| `RegistrationAnswers.RemoveAnswers` | src/modules/registrations/registrations.service.ts:460-488 | a removal marks the row, seen from its organisation or from none |
| `RegistrationAnswers.RestoreAnswers` | src/modules/registrations/registrations.service.ts:490-550 | a removed row can be restored; an approved one needs room |
| `RegistrationAnswers.PermanentDeleteAnswers` | src/modules/registrations/registrations.service.ts:552-583 | only a removed row can be erased |
| `BadgeRuleAnswers.ChecksAreExact` | src/modules/events/events.service.ts:1094-1133 | the five checks in terms of the tables |
| `BadgeRuleAnswers.CreateAnswers` | src/modules/events/events.service.ts:1093-1147 | creation succeeds exactly when event, template and types are the organisation's, no type is repeated, and a priority that was asked for is not that of another rule |
| `BadgeRuleAnswers.CreateWrites` | src/modules/events/events.service.ts:1121-1147 | the new rule carries event, organisation, template and the priority asked for, else one above the greatest of the event; other rules and associations stay |
| `BadgeRuleAnswers.CreatedRuleTakesOver` | src/modules/events/events.service.ts:1121-1147 | a rule created before every rule that covers one of its types becomes the match of that type |
| `BadgeRuleAnswers.UpdateAnswers` | src/modules/events/events.service.ts:1177-1234 | which answer an update gets: the same checks for the fields given |
| `BadgeRuleAnswers.UpdateWrites` | src/modules/events/events.service.ts:1218-1251 | the associations given replace those of the rule; a refused update writes nothing |
| `BadgeRuleAnswers.DeleteAnswers` | src/modules/events/events.service.ts:1271-1295 | a deletion takes the rule of the event with its associations, and nothing else |
| `BadgeRuleAnswers.MatchIsExact` | src/modules/badge-generation/badge-generation.service.ts:934-955 | the rule found covers the type and comes before every other that does; none is found exactly when none covers it |
| `BadgeRuleAnswers.PreviewAnswers` | src/modules/badge-generation/badge-generation.service.ts:905-982 | a preview uses the override, else the registration's own template, else that of the rule that applies, else the event's |
| `BadgeRuleAnswers.PdfAnswers` | src/modules/badge-generation/badge-generation.service.ts:1224-1248 | a PDF uses the template of the rule that applies, else the one in the settings of the event |
| `BadgeTemplateAnswers.CreateAnswers` | src/modules/badge-templates/badge-templates.service.ts:15-67 | which answer a creation gets, in the order of its statements |
| `BadgeTemplateAnswers.CreateWrites` | src/modules/badge-templates/badge-templates.service.ts:15-67 | the new row reads as asked; the others keep everything but the default of the scope, which is cleared exactly when a default got as far as the insertion |
| `BadgeTemplateAnswers.UpdateAnswers` | src/modules/badge-templates/badge-templates.service.ts:153-187 | which answer an update gets; a refusal before the write changes nothing |
| `BadgeTemplateAnswers.UpdateWrites` | src/modules/badge-templates/badge-templates.service.ts:153-187 | a successful update writes exactly the given fields of its template |
| `BadgeTemplateAnswers.UpdateSpares` | src/modules/badge-templates/badge-templates.service.ts:153-187 | the other templates stay, but for the default of the scope that a new default takes away |
| `BadgeTemplateAnswers.RemoveAnswers` | src/modules/badge-templates/badge-templates.service.ts:192-229 | a removal takes the template, or says which table refers to it |
| `AttendeeTypeAnswers.DecimalReadsBack` | src/modules/attendee-types/attendee-types.service.ts:88-89 | the numeral in a code is decimal without leading zero, and reads back as the counter |
| `AttendeeTypeAnswers.CreateAnswers` | src/modules/attendee-types/attendee-types.service.ts:53-114 | creation is refused exactly for a name or a given code that the organisation has; otherwise one type is added, with the given code or the first attempt that is free |
| `AttendeeTypeAnswers.UpdateAnswers` | src/modules/attendee-types/attendee-types.service.ts:146-185 | an update is refused exactly for a missing type, a name or a code; otherwise it writes the given fields of one type |
| `AttendeeTypeAnswers.RemoveAnswers` | src/modules/attendee-types/attendee-types.service.ts:186-193 | a removal takes one type of the organisation |
| `AttendeeAnswers.UpdateAnswers` | src/modules/attendees/attendees.service.ts:371-455 | which answer an update gets: not visible, address of another, null in a required column, empty address of another, or success |
| `AttendeeAnswers.UpdateWrites` | src/modules/attendees/attendees.service.ts:371-455 | a successful update writes the defined fields of one row and logs the row it leaves |
| `AttendeeAnswers.UpsertAnswers` | src/modules/attendees/attendees.service.ts:29-107 | an upsert is refused exactly for a null in a required column; it is about the attendee with the address, else a new one |
| `AttendeeAnswers.UpsertWrites` | src/modules/attendees/attendees.service.ts:29-107 | an upsert writes one row, column by column, and logs it as created or updated |
| `AttendeeAnswers.RemoveAnswers` | src/modules/attendees/attendees.service.ts:462-546 | a removal deactivates the row and logs it, or, when forced, takes the row and its revisions |
| `Text.TrimIsExact` | src/modules/tags/tags.service.ts:74-74 | trimming takes off white space at both ends, all of it and nothing else |
| `TagRuns.CommitsExactly` | src/modules/tags/tags.service.ts:74-138 | an update commits exactly when the event is the organisation's, or no name of the list survives trimming |
| `TagRuns.UpdateWrites` | src/modules/tags/tags.service.ts:72-144 | row by row: the event has exactly the trimmed, non-empty names of the list, rows of other events stay, tags change only in their use count, new tags come from the list |
| `TagRuns.CreatingANewTag` | src/modules/tags/tags.service.ts:149-168 | creating a tag of a new name adds one unused tag with that name and colour, and nothing else |
| `Slugs.SlugIsOnePass` | src/modules/attendee-types/attendee-types.service.ts:116-125 | the replacements amount to one pass: a space counts as an underscore, one underscore stands for several, other characters outside words go |
| `Slugs.CodeIsOnePass` | src/modules/badge-templates/badge-templates.service.ts:517-525 | the replacements amount to one pass, a dash wherever letters or digits follow others after a gap, and the cut to 50 |

## Left out

- BadgeText.FillIsSimultaneousSubstitution: for templates made of text and holes, identifier keys, and values without `{{` or the four replacement patterns of `$`; the lemmas on unsafe values and nested braces show inputs outside these limits where the equation fails.
- BadgeText.ReplaceVariables: a key is taken literally; a key with regular-expression characters would be a pattern in the code.
- Slugs.SlugifyIsIdempotent: lower-casing, trimming, Unicode decomposition and accent removal are one given function, asked only to leave no capital letter and to keep lower-case ASCII codes.
- Slugs.GenerateCodeTwiceAndThrice: the same given function stands before the modelled part.
- RegistrationRuns.CapacityIsNeverExceeded: each call is one step, so read-committed races between two counts are not modelled; the capacity of an event is fixed.
- BadgeRules.SelectTemplate: the sorted list of rules is an argument, as the database returns it.
- The event rules, types and settings that go with a removed template or event.
- Interleaving of the other services, among them resending and completing an invitation, which write two rows without a transaction.
- `BadgesService` and the bulk generation in `RegistrationsService`, which write templates and badges without the rules proved here.
- Hard deletion of events, which removes tag rows without decrementing their counts.
- Editing a registration, which rewrites details of its attendee but neither its status nor its event.
- Bulk operations on registrations and attendees, imports, and the restore and public upsert of attendees that write no revision.
- Check-in, e-mail, QR codes, statistics, lists, exports, previews in HTML, and the PDF layout.
- Permissions, scopes, guards, controllers, request validation and the retry loop for public event tokens.
- Profile, design and display columns that no proved property depends on.
- The return values of `updateEventTags`, which are read outside the transaction.
