# NDY HUB: verified model of the API's protocols

NDY HUB's API is a set of small protocols over database tables. This project models the ones whose
correctness is about whole runs: credentials, roles and identities, the reward and purchase economy,
the codecs and feeds, and the document, approval and trust lifecycles.

Each table is a class field, each service method a method of that class, and a run is a sequence of
calls. Every method is proved equal to a function of the old tables, and the theorems are about runs
of those functions. Two regimes are kept apart:

- *whole calls*: each call runs uninterrupted;
- *interleaved*: each database read or write is a step of its own and calls mix freely, a call in
  flight being named after the operation it does next. Lemmas show that the main calls, when nobody
  interrupts them, are the service's whole calls.

What a single call answers and changes is stated once more in terms of the fields of its tables, with
the constants spelled out, by the lemmas named `...Exactly` and, for the trust score, `...Worth...`.

Assumptions, throughout: the clock is an integer, read once per call, in milliseconds; where a limit
depends on it, it does not run backwards. Hashes are injective, so a stored hash stands for what was
hashed. Random ids are fresh where the code relies on it, and are parameters where it retries.
Decimals are reals. Unique columns are enforced by the database, and foreign keys hold.

| module | what it models |
|---|---|
| `Base32` | the base32 codec of the one-time-password plugin (section 6 of RFC 4648) |
| `NdyId`, `Identity` | printed NDY IDs, signup and the two-stage lookup |
| `RoleChange`, `IdHistory` | dual-approval role changes, and what they do to displayed IDs |
| `LoginRequest` | the QR login handshake |
| `Credentials` | devices, sessions and refresh-token families |
| `AuthCode` | consent, authorization codes and PKCE |
| `Scopes`, `Grants` | scope strings, their normal form, and stored grants |
| `SlidingWindow`, `RewardEngine`, `RewardOutcome`, `Bridge` | the two daily limits, the reward ledger and log and what a report is answered, bridge requests |
| `Cryndy` | the purchase webhook, purchase stages and summaries |
| `EventFeed`, `ActivityFeed` | the cursor-paged event log and the merged activity feed |
| `SigningRequests`, `SigningOutcome` | multi-signer documents, and who fills which slot |
| `ContextBroker`, `ActionEngine` | agent consents, actions and their approvals |
| `Trust` | trust tier and trust score |

## Where the code and its promises part

Where a promise does not hold in general, the model keeps the code as it is, gives the input, and
proves for every state or run exactly when the promise is kept:

- An approved QR login can be overwritten with EXPIRED by a call that read it before it was approved
  (`LoginRequest.ApprovalLostToExpiry`). An approval survives to the exchange exactly when no call
  read the request late while it was pending (`LoginRequest.ApprovalSurvivesExactly`).
- The Founders, and the Super Admins, can only grow when two Founders exist
  (`RoleChange.GainNeedsTwoFounders`, `RoleChange.GainSuperAdminNeedsTwoFounders`).
- A rejection that overlaps an approval can end up on record although the role was changed
  (`RoleChange.RejectedYetApplied`). An approval lasts exactly when no rejection of it is ready to be
  written (`RoleChange.ApprovalLastsExactly`, and `RoleChange.ApprovalLastsIffImpassable` for any number
  of Founders); without such overlaps dual approval holds interleaved
  too (`RoleChange.InterleavedDualApproval`).
- A genesis core ID is a legal core only up to 999999 (`NdyId.GenesisIsCore`), and one could also have
  been drawn at signup when it has no 0 or 1 among its six digits (`NdyId.GenesisCollides`).
- The bridge accepts negative amounts, so the daily cap holds exactly for policies that exclude them
  or that cannot pay positive ones (`Bridge.CapHoldsExactly`).
- "Sign out all devices" leaves exactly the refresh tokens that carry no device
  (`Credentials.UntaggedTokensSurvive`).
- A reward credited just before a crash has no log row. A retry adds it exactly when the report would
  pass afresh (`RewardEngine.RetryLogsExactly`); if the limit has been reached meanwhile the retry is
  denied and the row never comes (`RewardEngine.RetryTooLate`). Ledger and log agree exactly when
  every open credit was decided by a passing report of its own user
  (`RewardEngine.CrashedLogMatchesLedger`).
- Without a crash, two overlapping reports of one event can leave it credited and denied
  (`RewardEngine.OverlapDeniesCredited`); ledger and log agree exactly when that has not happened
  (`RewardEngine.InterleavedLogMatchesLedger`), and always when reports of one event do not overlap
  (`RewardEngine.AloneKeepsBijection`).
- The event feed's comment promises no gaps. Events logged behind a consumer's position are never
  delivered (`EventFeed.CaughtUpHasAll`), and a cursor taken under another filter loses the next
  matching event (`EventFeed.ForeignCursor`).
- The activity feed can lose a cancellation as soon as a user has twenty-one memberships
  (`ActivityFeed.TwentyIsSharp`).
- Two overlapping signing calls on one link both record a signature
  (`SigningRequests.OverlapSignsTwice`); a slot gets one signature per call that loaded it, and a second
  one is excluded exactly when the slot is closed and at most one is recorded or about to be
  (`SigningRequests.OneSignatureExactly`).
- A revocation or a decline that overlaps the last signature overwrites SIGNED
  (`SigningRequests.RevocationOverwritesSigned`, `SigningRequests.DeclineOverwritesSigned`). SIGNED
  lasts exactly when neither is held (`SigningRequests.SignedLastsExactly`); REVOKED exactly when no
  decline is held and the calls in flight cannot complete the request
  (`SigningRequests.RevokedLastsExactly`); DECLINED exactly when no revocation is held and they cannot
  (`SigningRequests.DeclinedLastsExactly`).
- The purchase webhook records a reported stage other than VERIFIED or ALLOCATED as a confirmed
  payment (`Cryndy.OneRowPerTransaction`). A delivery that dies before it has walked its purchase
  forward leaves the purchase behind for good (`Cryndy.StoppedForGood`); the stage is the reported one
  exactly when the first delivery was not cut short (`Cryndy.StageNeedsWholeDelivery`).
- An approval that has lapsed leaves its request waiting for good (`ActionEngine.LapsedStaysWaiting`).
- The comment on sustained activity speaks of sign-ins spread over sixty days; ten sign-ins within a
  day earn the bonus once the first is sixty days old (`Trust.BonusWithoutSpread`). Without a spread it
  goes exactly to clean users whose first sign-in is sixty days old and whose last is less than sixty
  days after it (`Trust.BonusNeedsSpreadExactly`).

## Model

| member | source | states |
|---|---|---|
| `Base32.Encode` | apps/api/src/common/otplib-node-plugins.ts:50-64 | the base32 text of any bytes, padded to a multiple of eight symbols or not |
| `Base32.BitString` | apps/api/src/common/otplib-node-plugins.ts:51-54 | the first loop concatenates the eight-bit form of every byte, in order |
| `Base32.SymbolString` | apps/api/src/common/otplib-node-plugins.ts:55-59 | the second loop writes one symbol per group of five bits, the last one filled with zeros |
| `Base32.Pad` | apps/api/src/common/otplib-node-plugins.ts:60-62 | the padding loop ends, at the next multiple of eight, having added only padding |
| `Base32.Decode` | apps/api/src/common/otplib-node-plugins.ts:66-80 | accepts exactly the texts whose characters before trailing padding are symbols, case ignored, and names the first other character |
| `Base32.ByteList` | apps/api/src/common/otplib-node-plugins.ts:75-79 | whole bytes only; leftover bits are dropped |
| `Base32.SymbolsCarryTheBits` | apps/api/src/common/otplib-node-plugins.ts:50-64 | symbol j carries bits 5j to 5j+4 of the data, an independent reading of the encoder |
| `Base32.RoundTrip` | apps/api/src/common/otplib-node-plugins.ts:50-80 | decoding an encoding gives the bytes back, for every input, padded or not |
| `Base32.EncodedLength` | apps/api/src/common/otplib-node-plugins.ts:50-64 | the unpadded length is ceil(8n/5), the padded one the next multiple of eight |
| `Base32.EncodedInjective` | apps/api/src/common/otplib-node-plugins.ts:50-64 | two inputs never have the same encoding |
| `Base32.DecodeThenEncode` | apps/api/src/common/otplib-node-plugins.ts:50-80 | encoding what was decoded gives the text back exactly for canonical texts: legal length, alphabet symbols, zero trailing bits |
| `Base32.DecodeThenEncodePadded` | apps/api/src/common/otplib-node-plugins.ts:50-80 | encoding with padding gives the text back exactly for a canonical text followed by exactly its padding |
| `Base32.EncodedExactly` | apps/api/src/common/otplib-node-plugins.ts:50-59 | symbol j is the alphabet entry for data bits 5j to 5j+4, the highest first, filled with zeros at the end |
| `Base32.PaddedExactly` | apps/api/src/common/otplib-node-plugins.ts:60-62 | padding adds only equals signs, up to the next multiple of eight |
| `Base32.DecodedExactly` | apps/api/src/common/otplib-node-plugins.ts:66-80 | byte k of what a text of symbols decodes to is its bits 8k to 8k+7, the highest first |
| `Base32.AcceptsExactly` | apps/api/src/common/otplib-node-plugins.ts:66-73 | a text without trailing padding is accepted exactly if every character is a letter of either case or a digit from 2 to 7 |
| `Base32.RefusesExactly` | apps/api/src/common/otplib-node-plugins.ts:69-72 | the error names the first other character |
| `Base32.CaseIsIgnored` | apps/api/src/common/otplib-node-plugins.ts:67 | texts that differ in case only decode alike |
| `Base32.PaddingIsIgnored` | apps/api/src/common/otplib-node-plugins.ts:67 | trailing padding changes nothing |
| `Base32.AlphabetTable` | apps/api/src/common/otplib-node-plugins.ts:45 | indexing into the alphabet string and searching it with indexOf agree with the symbol ranges used in the proofs |
| `NdyId.ParseInvertsFormat` | apps/api/src/common/ndy-id.util.ts:101-127 | parsing inverts printing exactly for three-letter type segments and six-character cores |
| `NdyId.ParsedWasPrinted` | apps/api/src/common/ndy-id.util.ts:115-127 | whatever parses was printed, in the current form or the older one without a type |
| `NdyId.FormatInjective` | apps/api/src/common/ndy-id.util.ts:101-103 | distinct cores are never shown under the same ID |
| `NdyId.SignupAlphabet` | apps/api/src/common/ndy-id.util.ts:6-7 | the generated-core alphabet is the digits 2-9 and the letters without I, L and O |
| `NdyId.GenesisIsCore` | apps/api/src/common/ndy-id.util.ts:87-99 | a genesis core has the six-character shape exactly up to 999999 |
| `NdyId.GenesisCollides` | apps/api/src/common/ndy-id.util.ts:6-7 | a genesis core could have been generated exactly if it has six digits, none 0 or 1; so never for 1 to 99999 |
| `NdyId.GenesisInjective` | apps/api/src/common/ndy-id.util.ts:87-99 | distinct sequence numbers give distinct cores |
| `NdyId.GenesisReadsBack` | apps/api/src/common/ndy-id.util.ts:87-99 | a genesis core, read as a number, is its sequence number; it has six characters up to 999999, and numbers below one have none |
| `NdyId.ParseExactly` | apps/api/src/common/ndy-id.util.ts:115-127 | an ID parses exactly when it is one of the two patterns, character by character, with the eight types spelled out |
| `NdyId.TypeExactly` | apps/api/src/common/ndy-id.util.ts:47-71 | the override if there is one; else FND exactly for Founders and MBR for everybody else |
| `Identity.IdentityService.CreateUser` | apps/api/src/identity/identity.service.ts:52-134 | a known email is refused; otherwise the first free one of five draws is used, and only exhaustion fails |
| `Identity.IdentityService.FindByNdyId` | apps/api/src/identity/identity.service.ts:136-148 | the account that shows the ID now, or else the one whose core is inside it, or none |
| `Identity.SignUpKeepsWellFormed` | apps/api/src/identity/identity.service.ts:66-134 | a signup keeps emails, core IDs and NDY IDs unique and every NDY ID printed from its row |
| `Identity.CoreResolves` | apps/api/src/identity/identity.service.ts:136-148 | an account answers to its core under every type segment, and nobody else does |
| `Identity.LegacyResolves` | apps/api/src/identity/identity.service.ts:136-148 | the older form without a type still finds the account |
| `Identity.SignUpExactly` | apps/api/src/identity/identity.service.ts:66-134 | a signup, field by field: the first draw whose core and whose NDY-MBR ID are free becomes a plain member |
| `Identity.ResolvesExactly` | apps/api/src/identity/identity.service.ts:136-148 | an ID finds exactly the account that shows it, or if nobody does the one whose core it is written with, the eight types spelled out |
| `RoleChange.RoleChangeRequestService.Create` | apps/api/src/admin/role-change-request.service.ts:29-74 | files a pending request with the role snapshot, or names the check that failed |
| `RoleChange.RoleChangeRequestService.Approve` | apps/api/src/admin/role-change-request.service.ts:84-141 | changes role, NDY ID and request together, after the pending, self-review and Founder checks |
| `RoleChange.RoleChangeRequestService.Reject` | apps/api/src/admin/role-change-request.service.ts:143-172 | marks the request rejected after the same checks and changes nothing else |
| `RoleChange.RoleChangeRequestService.GetPending` | apps/api/src/admin/role-change-request.service.ts:174-196 | only a pending request that somebody else filed can be decided |
| `RoleChange.RolesAreDualApproved` | apps/api/src/admin/role-change-request.service.ts:29-172 | whole calls, all runs: a role that differs from its start value was asked for by one admin and approved by another |
| `RoleChange.ResolvedIsFinal` | apps/api/src/admin/role-change-request.service.ts:84-184 | whole calls, all runs: a resolved request never changes again |
| `RoleChange.ProposeExactly` | apps/api/src/admin/role-change-request.service.ts:29-74 | a proposal, field by field: who may ask for which role, and the request row it files |
| `RoleChange.ReviewExactly` | apps/api/src/admin/role-change-request.service.ts:84-211 | a review, field by field: each refusal, the rejection, and the role, displayed ID and request of an approval |
| `RoleChange.NobodyIsPromoted` | apps/api/src/admin/role-change-request.service.ts:29-211 | interleaved, all runs: with at most one Founder nobody joins the Founders or Super Admins |
| `RoleChange.GainNeedsTwoFounders` | apps/api/src/admin/role-change-request.service.ts:29-211 | interleaved: without open requests a Founder can be gained exactly when two Founders and a non-Founder exist |
| `RoleChange.GainSuperAdminNeedsTwoFounders` | apps/api/src/admin/role-change-request.service.ts:29-211 | interleaved: without open requests a Super Admin can be gained exactly when two Founders exist |
| `RoleChange.ApprovalLastsExactly` | apps/api/src/admin/role-change-request.service.ts:84-211 | interleaved, from any state: an approval lasts through every continuation exactly when no rejection of it is past its checks or would pass them; for privileged roles, while nobody becomes a Founder |
| `RoleChange.ApprovalLastsIffImpassable` | apps/api/src/admin/role-change-request.service.ts:84-211 | interleaved, from any state and for every role: an approval lasts exactly when no held rejection of it is past the Founder check or can be brought past it |
| `RoleChange.ApprovalLastsAmongFounders` | apps/api/src/admin/role-change-request.service.ts:84-211 | interleaved, with two Founders: an approval lasts exactly when every held rejection of it is for a privileged role and by an actor without an account |
| `RoleChange.InterleavedDualApproval` | apps/api/src/admin/role-change-request.service.ts:29-211 | interleaved, all runs in which no approval commits while a rejection of the same request is held: every changed role was asked for by one admin and approved by another, and every approval lasts |
| `RoleChange.RejectedYetApplied` | apps/api/src/admin/role-change-request.service.ts:84-172 | interleaved: an approval and a rejection that overlap can leave the role changed and the request rejected |
| `RoleChange.CreateRun` | apps/api/src/admin/role-change-request.service.ts:29-74 | the steps of an uninterrupted create are the whole call |
| `RoleChange.ReviewRun` | apps/api/src/admin/role-change-request.service.ts:84-172 | the steps of an uninterrupted review are the whole call |
| `RoleChange.ReviewKeepsWellFormed` | apps/api/src/admin/role-change-request.service.ts:94-114 | an approval keeps the core ID and prints the new NDY ID from it, still unique |
| `IdHistory.HistoryKeepsIdentity` | apps/api/src/admin/role-change-request.service.ts:94-114 | all runs of signups and role changes: nobody disappears and no core ID changes |
| `IdHistory.EveryShownIdKeepsResolving` | apps/api/src/identity/identity.service.ts:136-148 | all runs: an ID shown at any moment resolves to that account and no other at every later moment |
| `IdHistory.ShownIdFollowsRole` | apps/api/src/admin/role-change-request.service.ts:94-114 | the displayed ID is always the permanent core under the segment of the current role |
| `IdHistory.ShownLetters` | apps/api/src/common/ndy-id.util.ts:47-103 | all runs, letter by letter: NDY-, then the override or FND for a Founder and MBR for anybody else, then the core |
| `IdHistory.RegistrationExactly` | apps/api/src/identity/identity.service.ts:66-134 | a registration adds one member, shown as NDY-MBR- and a drawn core, exactly when the email is not in use and a draw is free |
| `LoginRequest.LoginRequests.Create` | apps/api/src/auth/auth.service.ts:626-640 | a new request is pending for ninety seconds |
| `LoginRequest.LoginRequests.FindActiveOrExpire` | apps/api/src/auth/auth.service.ts:750-769 | a pending request past its time is marked expired, any other is left alone |
| `LoginRequest.LoginRequests.ApproveLoginRequest` | apps/api/src/auth/auth.service.ts:652-686 | binds the request to the approving user if it is still pending |
| `LoginRequest.LoginRequests.DenyLoginRequest` | apps/api/src/auth/auth.service.ts:688-709 | denies a request that is still pending |
| `LoginRequest.LoginRequests.ExchangeLoginRequest` | apps/api/src/auth/auth.service.ts:711-748 | issues one session for the approving user and marks the request as used |
| `LoginRequest.AtMostOneSession` | apps/api/src/auth/auth.service.ts:652-769 | interleaved, all runs: at most one session, for the user whose approval matched, and none after a denial |
| `LoginRequest.SessionsWereAskedInTime` | apps/api/src/auth/auth.service.ts:626-769 | interleaved, all runs: whoever gets a session had read the request as an approver within ninety seconds of its creation |
| `LoginRequest.ReadingExactly` | apps/api/src/auth/auth.service.ts:750-769 | a pending request is marked as expired exactly when it is read after its ninety seconds |
| `LoginRequest.DecisionExactly` | apps/api/src/auth/auth.service.ts:652-709 | approved or denied exactly while pending and in time; else the refusal names the status |
| `LoginRequest.ExchangeExactly` | apps/api/src/auth/auth.service.ts:711-748 | a session exactly for an approved request with a user and no session yet |
| `LoginRequest.HandshakeIssues` | apps/api/src/auth/auth.service.ts:652-748 | approved in time and exchanged at any later moment: exactly one session |
| `LoginRequest.ApprovalLastsExactly` | apps/api/src/auth/auth.service.ts:652-769 | interleaved, from any state: an approved request stays approved through every continuation exactly when no EXPIRED write is held |
| `LoginRequest.ApprovalSurvivesExactly` | apps/api/src/auth/auth.service.ts:652-769 | interleaved, all runs: an approval that matched survives to every later exchange exactly when no call had read the request late while it was pending |
| `LoginRequest.ApprovalLostToExpiry` | apps/api/src/auth/auth.service.ts:652-769 | the unconditional EXPIRED write of an overlapping call can undo an approval |
| `LoginRequest.ApprovalRun` | apps/api/src/auth/auth.service.ts:652-686 | the steps of an uninterrupted approval are the whole call |
| `LoginRequest.DenialRun` | apps/api/src/auth/auth.service.ts:688-709 | the steps of an uninterrupted denial are the whole call |
| `LoginRequest.ExchangeRun` | apps/api/src/auth/auth.service.ts:711-748 | the steps of an uninterrupted exchange are the whole call |
| `Credentials.CredentialStore.Resolve` | apps/api/src/auth/device.service.ts:60-127 | no identifier means no device; otherwise the device is known and trusted from now on |
| `Credentials.CredentialStore.IssueSessionFor` | apps/api/src/auth/session.service.ts:40-71 | a new unrevoked session, tagged with the resolved device |
| `Credentials.CredentialStore.RotateSessionSecret` | apps/api/src/auth/session.service.ts:77-96 | a usable session is spent and replaced; any other is refused |
| `Credentials.CredentialStore.IssueTokenSet` | apps/api/src/oauth/oauth-token.service.ts:69-155 | a new refresh token in the given family or a new one, tagged with the resolved device |
| `Credentials.CredentialStore.RotateRefreshToken` | apps/api/src/oauth/oauth-token.service.ts:157-213 | spends a live token of its own client; a revoked one kills its whole family |
| `Credentials.CredentialStore.HandleRefreshTokenGrant` | apps/api/src/oauth/token.controller.ts:185-219 | rotates, then issues in the same family, for the same user, client and scope |
| `Credentials.CredentialStore.RevokeDeviceOf` | apps/api/src/auth/device.service.ts:143-172 | revokes the device with every session and refresh token tagged with it |
| `Credentials.CredentialStore.RevokeAllDevicesOf` | apps/api/src/auth/device.service.ts:174-199 | the same for every trusted device of the user |
| `Credentials.CredentialStore.RevokeAllSessionsOf` | apps/api/src/security/security.service.ts:55-64 | revokes the user's sessions, then all their devices |
| `Credentials.OneLiveTokenPerFamily` | apps/api/src/oauth/oauth-token.service.ts:119-213 | all runs: a family has one user, client and scope and at most one unrevoked token |
| `Credentials.ReuseKillsTheFamily` | apps/api/src/oauth/oauth-token.service.ts:157-213 | all runs: once a revoked token is presented by its own client the family is dead and stays dead (section 10.4 of RFC 6749) |
| `Credentials.ExchangedOnce` | apps/api/src/oauth/oauth-token.service.ts:157-213 | a secret that was exchanged once is refused ever after |
| `Credentials.RefreshMovesTheFamilyOn` | apps/api/src/oauth/token.controller.ts:185-219 | after a good refresh the new token is its family's one live token |
| `Credentials.RunKeepsTags` | apps/api/src/auth/device.service.ts:60-199 | all runs: whatever is live and tagged is tagged with a trusted device of its own user |
| `Credentials.SignOutAllReachesEveryDevice` | apps/api/src/security/security.service.ts:55-64 | after signing out everywhere no session of the user, and nothing tagged with any of their devices, is live |
| `Credentials.UntaggedTokensSurvive` | apps/api/src/security/security.service.ts:55-64 | exactly the live refresh tokens without a device outlive it |
| `Credentials.SignOutAllSparesOthers` | apps/api/src/security/security.service.ts:55-64 | other users' sessions and tokens are untouched |
| `Credentials.RevokedStaysRevoked` | apps/api/src/auth/device.service.ts:60-127 | a device that is trusted again does not bring its old tokens back |
| `Credentials.RotationExactly` | apps/api/src/auth/session.service.ts:77-96 | after any run: a rotation succeeds exactly for an unrevoked session that has not run out, revokes it, and adds one for the same user, device and thirty days; nothing else changes |
| `Credentials.SessionRotatedOnce` | apps/api/src/auth/session.service.ts:73-96 | all runs: a session secret that was rotated once is revoked, and refused at every later point |
| `Credentials.LogoutEndsOneSession` | apps/api/src/auth/session.service.ts:98-103 | all runs: signing out ends the session of the secret presented for good and touches no other |
| `Credentials.OneSessionPerLogin` | apps/api/src/auth/session.service.ts:40-96 | all runs: a user never has more unrevoked sessions than sign-ins, however often secrets are rotated |
| `Credentials.RefusedRefresh` | apps/api/src/oauth/oauth-token.service.ts:157-213 | a refused refresh changes nothing unless a revoked token was presented by its own client |
| `Credentials.CodeGrantStartsFamily` | apps/api/src/oauth/oauth-token.service.ts:69-155 | all runs: a token set bought with a code starts a family nobody else has, and changes no other token |
| `Credentials.DeviceRevocationExactly` | apps/api/src/auth/device.service.ts:143-172 | exactly the sessions and tokens on the device are revoked, and only for its owner |
| `Credentials.AllDevicesRevocationExactly` | apps/api/src/auth/device.service.ts:174-199 | the user has no trusted device left, and exactly the sessions and tokens on those there were are revoked |
| `Credentials.GrantRevocationExactly` | apps/api/src/oauth/grant.service.ts:65-83 | exactly the refresh tokens of this user and client are revoked |
| `AuthCode.OAuthServer.GiveConsent` | apps/api/src/oauth/authorize.controller.ts:137-180 | for an active client, a registered redirect URI, allowed scopes, a challenge only with its method, and an approval: widens the stored grant and issues a code; otherwise nothing |
| `AuthCode.OAuthServer.Redeem` | apps/api/src/oauth/authorization-code.service.ts:50-88 | spends an unused, unexpired code of this client and redirect URI |
| `AuthCode.OAuthServer.HandleAuthorizationCodeGrant` | apps/api/src/oauth/token.controller.ts:55-183 | client authentication, redemption and the PKCE checks, in this order |
| `AuthCode.OneTokenSetPerCode` | apps/api/src/oauth/authorization-code.service.ts:50-88 | interleaved, all runs: a code buys at most one token set |
| `AuthCode.TokensMatchConsent` | apps/api/src/oauth/token.controller.ts:129-183 | interleaved, all runs: every token set is for a consent given to an active client within its scopes and registered redirect URIs of that moment, same client and redirect URI, a code read before it ran out, a matching verifier, and always a challenge for PUBLIC clients |
| `AuthCode.OnlyTheVerifier` | apps/api/src/oauth/authorization-code.service.ts:91-97 | only the verifier the challenge was made from buys tokens (section 4.6 of RFC 7636) |
| `AuthCode.TokensNeedTheSecret` | apps/api/src/oauth/token.controller.ts:55-78 | interleaved, all runs: every token set went to a client active when it authenticated, and unless it is PUBLIC with the secret whose hash is registered for it |
| `AuthCode.OnlyTheSecret` | apps/api/src/oauth/oauth-client.service.ts:154-161 | with an injective hash only the registered secret buys tokens (section 2.3.1 of RFC 6749) |
| `AuthCode.ExchangeExactly` | apps/api/src/oauth/token.controller.ts:55-183 | tokens exactly for an authenticated client, an unused code in time that fits, and an answered challenge; the code is used up |
| `AuthCode.ExchangeRefusals` | apps/api/src/oauth/token.controller.ts:55-183 | which refusal a request meets, in order; only a failed challenge uses the code up |
| `AuthCode.CodesWereApproved` | apps/api/src/oauth/authorize.controller.ts:137-180 | interleaved, all runs: every code stands for a form that was approved, with its user, client, redirect URI, scope and challenge, and runs out a minute after it was stored |
| `AuthCode.ConsentRefusals` | apps/api/src/oauth/authorize.controller.ts:137-180 | the client is refused first, the contents of the form next, the user's answer last |
| `AuthCode.SecretsNeverChange` | apps/api/src/oauth/oauth-client.service.ts:85-124 | all runs: no consent, token call or edit changes what kind a client is or which secret it has |
| `AuthCode.ConsentRun` | apps/api/src/oauth/authorize.controller.ts:137-180 | the steps of an uninterrupted consent store its code, unused, for a minute |
| `AuthCode.EditExactly` | apps/api/src/oauth/oauth-client.service.ts:91-124 | an edit sets redirect URIs, allowed scopes and activity, and leaves kind and secret alone |
| `AuthCode.ExchangeRun` | apps/api/src/oauth/token.controller.ts:129-183 | the steps of an uninterrupted token call are the whole call |
| `Scopes.ParseUndoesNormalize` | apps/api/src/oauth/scopes.ts:56-62 | parsing a normal form gives the strictly sorted set of tokens back, exactly when they are tokens (section 3.3 of RFC 6749) |
| `Scopes.SortedSetIsSorted` | apps/api/src/oauth/scopes.ts:60-62 | the normal form lists each token once, in order |
| `Scopes.NormalFormOfSet` | apps/api/src/oauth/scopes.ts:60-62 | the normal form depends on the set of tokens only |
| `Scopes.NormalizingIsIdempotent` | apps/api/src/oauth/scopes.ts:56-62 | normalising twice is normalising once, for every string |
| `Scopes.NonEmptyOfAppend` | apps/api/src/oauth/scopes.ts:56-58 | the tokens are the parts in order, without the empty ones |
| `Scopes.LessExactly` | apps/api/src/oauth/scopes.ts:60-62 | the order of the normal form: the first different character decides, and a prefix comes first |
| `Scopes.JoinUndoesSplit` | apps/api/src/oauth/scopes.ts:56-58 | splitting at spaces loses nothing: joined again, the parts are the string |
| `Grants.GrantService.FindExistingCoveringGrant` | apps/api/src/oauth/grant.service.ts:16-30 | an unrevoked grant whose scope includes all requested tokens, or none |
| `Grants.GrantService.UpsertGrant` | apps/api/src/oauth/grant.service.ts:32-52 | merges the scope into the stored one and lifts a revocation |
| `Grants.GrantService.RevokeGrant` | apps/api/src/oauth/grant.service.ts:65-83 | revokes the user's own grant, and with it every refresh token of this user and client |
| `Grants.StoredGrant` | apps/api/src/oauth/grant.service.ts:13-83 | all runs: the stored scope is the normal form of everything ever consented |
| `Grants.CoveredExactly` | apps/api/src/oauth/grant.service.ts:16-30 | all runs: covered exactly when connected and ever consented to all that is asked |
| `Grants.ReconsentRestores` | apps/api/src/oauth/grant.service.ts:32-52 | consent to anything after a revocation restores everything ever consented |
| `RewardEngine.RewardEngineService.CreditNdybits` | apps/api/src/ndybits/ndybits.service.ts:52-77 | appends an entry, or finds the one its source already has; a zero amount fails, and so does a second empty source |
| `RewardEngine.RewardEngineService.LogEvent` | apps/api/src/ndybits/reward-engine.service.ts:113-145 | appends a row unless a unique column forbids it |
| `RewardEngine.RewardEngineService.HandleVerifiedEvent` | apps/api/src/ndybits/reward-engine.service.ts:42-111 | already processed, denied, failed or credited, with the tables each leaves |
| `RewardEngine.LogMatchesLedger` | apps/api/src/ndybits/reward-engine.service.ts:42-145 | whole calls, all runs: rows that were not denied and reward entries are in bijection and agree on every user's total |
| `RewardEngine.CreditedAtMostOnce` | apps/api/src/ndybits/reward-engine.service.ts:42-145 | interleaved with crashes and retries: one entry per event, paying the rule's amount to the event's user |
| `RewardEngine.BalanceCountsEachSourceOnce` | apps/api/src/ndybits/ndybits.service.ts:20-40 | after any interleaving a balance is the sum over distinct credited events plus the credits made elsewhere |
| `RewardEngine.ReportedOnce` | apps/api/src/ndybits/reward-engine.service.ts:46-57 | whole calls, all runs: an event that got a row is answered with that row at every later point, and changes nothing |
| `RewardEngine.RetryLogsExactly` | apps/api/src/ndybits/reward-engine.service.ts:42-111 | a retry of a credited, unlogged event logs it exactly when its rule applies, pays something and the limit is not reached; it never credits again |
| `RewardEngine.CrashedLogMatchesLedger` | apps/api/src/ndybits/reward-engine.service.ts:42-145 | all runs with crashes and retries: rows that were not denied and reward entries are in bijection exactly when every event a crash left open was decided later, first by a passing report of its own user |
| `RewardEngine.InterleavedLogMatchesLedger` | apps/api/src/ndybits/reward-engine.service.ts:42-145 | interleaved without crashes, all runs: once all reports have returned the bijection holds exactly when no event was both credited and denied, or logged for another user than it was credited to |
| `RewardEngine.AloneKeepsBijection` | apps/api/src/ndybits/reward-engine.service.ts:42-145 | interleaved without crashes, all runs in which reports of one event do not overlap: the bijection holds |
| `RewardEngine.OverlapDeniesCredited` | apps/api/src/ndybits/reward-engine.service.ts:68-111 | a reachable run without crashes: two overlapping reports of one event leave it credited and denied |
| `RewardEngine.LossIsPermanent` | apps/api/src/ndybits/reward-engine.service.ts:42-145 | interleaved, all continuations: an entry whose event has a row that does not name it is never logged |
| `RewardEngine.RetryTooLate` | apps/api/src/ndybits/reward-engine.service.ts:68-111 | a reachable run: with a limit of one, an event credited before a crash is denied on its retry and never logged |
| `RewardEngine.CrashRun` | apps/api/src/ndybits/reward-engine.service.ts:84-111 | the steps of a report that dies after its credit leave the entry and no row |
| `RewardEngine.DailyLimitHolds` | apps/api/src/ndybits/reward-engine.service.ts:68-82 | whole calls, all runs: no closed 24-hour window, wherever it starts, holds more credited events than the rule allows |
| `RewardEngine.HandleRun` | apps/api/src/ndybits/reward-engine.service.ts:42-111 | the steps of an uninterrupted report are the whole call |
| `RewardOutcome.CountIsCardinality` | apps/api/src/ndybits/reward-engine.service.ts:72-79 | the count behind the limit is the number of rows of this user and key that are not denied and recent |
| `RewardOutcome.OutcomeExactly` | apps/api/src/ndybits/reward-engine.service.ts:42-111 | whole calls, all runs, field by field: when an event without a row is denied, fails or is credited, and the rows that leaves |
| `RewardOutcome.CreditExactly` | apps/api/src/ndybits/ndybits.service.ts:52-77 | a zero amount is refused, a known source finds its entry unless it is empty, anything else is appended |
| `RewardOutcome.OtherCreditExactly` | apps/api/src/ndybits/ndybits.service.ts:52-77 | a credit made elsewhere, under a key of its own, goes through the same |
| `RewardOutcome.CreditedRowsPerDay` | apps/api/src/ndybits/reward-engine.service.ts:68-82 | whole calls, all runs: the rows of a user and key, not denied, in any 24 hours are no more than the rule allows |
| `RewardOutcome.OthersDoNotMatter` | apps/api/src/ndybits/reward-engine.service.ts:42-111 | whole calls, all runs: without the calls made for other users each report of this user is answered the same, as long as no source is shared |
| `SlidingWindow.EveryWindowWithinCap` | apps/api/src/ndy-economy/bridge-eligibility.service.ts:47-63 | checking each entry against the window that ends with it bounds every window |
| `Bridge.BridgeRequestService.Create` | apps/api/src/ndy-economy/bridge-request.service.ts:34-75 | decides, draws a free reference within the attempts, and inserts the row later decisions count |
| `Bridge.DailyCapHolds` | apps/api/src/ndy-economy/bridge-eligibility.service.ts:47-77 | whole calls, all runs, amounts not negative: no closed day sees more than the daily cap |
| `Bridge.CapHoldsExactly` | apps/api/src/ndy-economy/bridge-eligibility.service.ts:24-91 | for an active policy with a cap, all request patterns keep it exactly when the policy excludes negative amounts or cannot pay positive ones |
| `Bridge.EligibleExactly` | apps/api/src/ndy-economy/bridge-eligibility.service.ts:24-91 | a request is eligible exactly under an active policy, from the minimum on, within the cap on what was let through in 24 hours, and if the amount is within reserve times rate |
| `Bridge.RefusedBecause` | apps/api/src/ndy-economy/bridge-eligibility.service.ts:24-91 | the reason is the first check that fails |
| `Bridge.AcceptedPerDay` | apps/api/src/ndy-economy/bridge-eligibility.service.ts:47-63 | whole calls, all runs, amounts not negative: the amounts of the accepted rows of any 24 hours add up to no more than the cap |
| `Cryndy.CryndyService.CreatePurchase` | apps/api/src/cryndy/cryndy.service.ts:148-191 | five attempts on the reference; a known transaction answers with its row |
| `Cryndy.CryndyService.HandlePurchaseWebhook` | apps/api/src/cryndy/cryndy.service.ts:72-101 | unknown user, duplicate, or a new row walked to the reported stage |
| `Cryndy.CryndyService.Verify` | apps/api/src/cryndy/cryndy.service.ts:109-130 | only a confirmed or reviewed purchase becomes verified |
| `Cryndy.CryndyService.AllocatePurchase` | apps/api/src/cryndy/cryndy.service.ts:133-146 | only a verified purchase becomes allocated |
| `Cryndy.OneRowPerTransaction` | apps/api/src/cryndy/cryndy.service.ts:72-191 | any deliveries with repeats: one row per transaction and reference, with the user and all the fields of its first recorded delivery, at the stage that reported if it is one of three and as a confirmed payment otherwise |
| `Cryndy.StageNeedsWholeDelivery` | apps/api/src/cryndy/cryndy.service.ts:89-101 | all runs in which deliveries may die on the way and are retried: a row is at the stage its first recorded delivery asked for exactly when that delivery was not cut short before it |
| `Cryndy.RetriesDoNotRepair` | apps/api/src/cryndy/cryndy.service.ts:80-87 | all runs: a row stays as its first delivery left it, whatever is delivered later |
| `Cryndy.StoppedForGood` | apps/api/src/cryndy/cryndy.service.ts:80-98 | an allocated purchase whose first delivery died after the insert stays a confirmed payment |
| `Cryndy.RepeatChangesNothing` | apps/api/src/cryndy/cryndy.service.ts:81-87 | all runs: a transaction on record is answered with its row at every later delivery, whatever that reports, and nothing changes; only an unknown user or five taken references give an error |
| `Cryndy.DeliveryIsRecorded` | apps/api/src/cryndy/cryndy.service.ts:72-191 | a delivery for a known user with a free candidate reference is on record ever after |
| `Cryndy.RowsOnlyGrow` | apps/api/src/cryndy/cryndy.service.ts:148-191 | deliveries only append rows |
| `Cryndy.StatusesMoveForward` | apps/api/src/cryndy/cryndy.service.ts:109-146 | all runs from any table: a status only moves from confirmed or under review to verified to allocated |
| `Cryndy.DatesFollowStages` | apps/api/src/cryndy/cryndy.service.ts:109-146 | all runs: a row carries the times of exactly the stages it went through |
| `Cryndy.GetUserSummary` | apps/api/src/cryndy/cryndy.service.ts:32-61 | every bucket counts and sums its purchases; the available balance is the two spendable buckets |
| `Cryndy.BucketsAddUp` | apps/api/src/cryndy/cryndy.service.ts:38-54 | the buckets add up to all purchases, in number and in amount |
| `Cryndy.SpendableIsTwoBuckets` | apps/api/src/admin/admin.service.ts:80-87 | the admin fold equals the two spendable buckets |
| `Cryndy.ViewsAgree` | apps/api/src/oauth/userinfo.controller.ts:53-61 | summary, admin view and userinfo claim agree whatever order each query returns the rows in |
| `Cryndy.BucketIsTwoColumns` | apps/api/src/cryndy/cryndy.service.ts:45-54 | a bucket counts the purchases of its status and adds up what was bought and the bonus |
| `Cryndy.AvailableIsTwoColumns` | apps/api/src/cryndy/cryndy.service.ts:45-54 | available is bought plus bonus over the purchases AVAILABLE or DISTRIBUTED_ON_CHAIN, in the summary and the admin view |
| `Cryndy.NewTransactionExactly` | apps/api/src/cryndy/cryndy.service.ts:72-191 | a new transaction, field by field: the first free reference, the user, and the stage and times it is recorded with |
| `Cryndy.OtherDeliveriesExactly` | apps/api/src/cryndy/cryndy.service.ts:72-191 | an unknown user or a known transaction changes nothing, and what each is answered |
| `Cryndy.TransitionsExactly` | apps/api/src/cryndy/cryndy.service.ts:109-146 | the two transitions, the statuses they start from and the times they set |
| `EventFeed.EcosystemEventService.Report` | apps/api/src/ecosystem-event/ecosystem-event.service.ts:39-72 | an unregistered type is refused, a known source answers with its row, anything else is appended and forwarded to the reward engine |
| `EventFeed.ReportedOnce` | apps/api/src/ecosystem-event/ecosystem-event.service.ts:39-94 | all runs of reports: one row per source, and exactly one call of the reward engine for each row |
| `EventFeed.DeliveredExactly` | apps/api/src/ecosystem-event/ecosystem-event.service.ts:113-126 | all runs of logging and polling, any page sizes: delivered in order, each at most once, and exactly the passed events that were not logged behind the consumer |
| `EventFeed.CaughtUpHasAll` | apps/api/src/ecosystem-event/ecosystem-event.service.ts:113-126 | at the last page the consumer has the whole filtered log exactly when nothing was logged behind it |
| `EventFeed.GrowingLogIsDelivered` | apps/api/src/ecosystem-event/ecosystem-event.service.ts:104-126 | events logged ahead of the cursor are all delivered, once, in order |
| `EventFeed.QuietLogIsDelivered` | apps/api/src/ecosystem-event/ecosystem-event.service.ts:113-126 | following the cursor from the start with any page sizes ends, after at most one poll per event and one more, with the filtered log |
| `EventFeed.PollHandsOut` | apps/api/src/ecosystem-event/ecosystem-event.service.ts:113-126 | a poll hands out the front of what is pending and leaves the rest, and the next cursor is where it stopped |
| `EventFeed.ForeignCursor` | apps/api/src/ecosystem-event/ecosystem-event.service.ts:115-122 | no event is skipped exactly when the cursor row matches the filter or nothing follows it |
| `EventFeed.ListingIsOrdered` | apps/api/src/ecosystem-event/ecosystem-event.service.ts:115-117 | the listing is in strict (createdAt, id) order |
| `EventFeed.ListingExactly` | apps/api/src/ecosystem-event/ecosystem-event.service.ts:113-119 | the rows of the type asked for, by time and then id |
| `EventFeed.WindowExactly` | apps/api/src/ecosystem-event/ecosystem-event.service.ts:115-122 | a cursor selects the matching rows after its own, nothing if it names no row, everything if there is none |
| `EventFeed.PageExactly` | apps/api/src/ecosystem-event/ecosystem-event.service.ts:113-126 | a hundred rows unless asked otherwise, five hundred at most; a next cursor exactly for a full page |
| `EventFeed.ToldExactly` | apps/api/src/ecosystem-event/ecosystem-event.service.ts:81-94 | the reward engine is told the type, the user and the prefixed source of each row |
| `EventFeed.LoggingExactly` | apps/api/src/ecosystem-event/ecosystem-event.service.ts:39-72 | an event with a new id is appended to the log and nothing is handed out |
| `EventFeed.LoggedWasFirst` | apps/api/src/ecosystem-event/ecosystem-event.service.ts:39-72 | all runs: a row is the first report of its source |
| `EventFeed.ReportedIsLogged` | apps/api/src/ecosystem-event/ecosystem-event.service.ts:39-72 | all runs: every reported source has a row |
| `ActivityFeed.FeedIsNewest` | apps/api/src/activity/activity.service.ts:50-124 | the feed is the twenty newest of all items exactly when no membership cut from its query was cancelled after the feed's oldest item |
| `ActivityFeed.TwentyMembershipsSuffice` | apps/api/src/activity/activity.service.ts:50-124 | with at most twenty memberships truncating before merging loses nothing |
| `ActivityFeed.TwentyIsSharp` | apps/api/src/activity/activity.service.ts:50-124 | the feed is right for all data with n memberships exactly when n is at most twenty |
| `ActivityFeed.SortIsNewestFirst` | apps/api/src/activity/activity.service.ts:122 | the merged items are sorted newest first |
| `ActivityFeed.SortIsStable` | apps/api/src/activity/activity.service.ts:122 | items of one moment keep their order |
| `ActivityFeed.NewestIffHarmless` | apps/api/src/activity/activity.service.ts:122-123 | sorting and cutting what is shown is right exactly when every hidden item is no newer than the last of a full feed |
| `ActivityFeed.ItemsExactly` | apps/api/src/activity/activity.service.ts:70-120 | which items the rows give, kind by kind; a cancelled membership gives one at its end too |
| `ActivityFeed.FeedExactly` | apps/api/src/activity/activity.service.ts:50-124 | at most twenty items, all if there are no more, newest first, each given by a row |
| `SigningRequests.SignatureService.CreateRequest` | apps/api/src/signature/signature.service.ts:91-139 | one slot per invite, each naming one signer, with the request's expiry or fourteen days |
| `SigningRequests.SignatureService.LoadSignerForSigning` | apps/api/src/signature/signature.service.ts:538-602 | the open slot of a live link, for the account or address it is for |
| `SigningRequests.SignatureService.SignSlot` | apps/api/src/signature/signature.service.ts:205-277 | a signature of the request's hash, the slot bound and signed, the status recounted |
| `SigningRequests.SignatureService.DeclineSlot` | apps/api/src/signature/signature.service.ts:279-309 | the slot and its request declined |
| `SigningRequests.SignatureService.RevokeRequest` | apps/api/src/signature/signature.service.ts:312-330 | the creator revokes a pending request |
| `SigningRequests.SignatureService.ReattestSignature` | apps/api/src/signature/signature.service.ts:436-479 | an unproved signature is tried again and the attempt counted; a proved one is left alone |
| `SigningRequests.Run` | apps/api/src/signature/signature.service.ts:91-621 | whole calls, all runs: signatures and signed slots are in bijection, a slot is never both signed and declined, links run out with their request, no request is EXPIRED |
| `SigningRequests.SignableExactly` | apps/api/src/signature/signature.service.ts:538-602 | who may sign or decline which slot, and when, in both directions |
| `SigningRequests.SignedWhenAllSigned` | apps/api/src/signature/signature.service.ts:605-621 | whole calls, all runs: SIGNED exactly when every slot is signed, and every signature carries its request's hash |
| `SigningRequests.OneSignaturePerSlot` | apps/api/src/signature/signature.service.ts:205-277 | whole calls, all runs: a slot has one signature if signed and none otherwise |
| `SigningRequests.NothingIsUndone` | apps/api/src/signature/signature.service.ts:205-479 | whole calls, all runs: SIGNED, DECLINED and REVOKED are never left; signed slots, declined slots and proofs never change |
| `SigningRequests.ExpiryIsNeverRecorded` | apps/api/src/signature/signature.service.ts:551-571 | whole calls, all runs: the EXPIRED branch is never taken |
| `SigningRequests.AllReturnedMeansCounted` | apps/api/src/signature/signature.service.ts:205-259 | interleaved signing, all runs: once all calls have returned, SIGNED exactly when every slot is signed |
| `SigningRequests.SignRun` | apps/api/src/signature/signature.service.ts:205-277 | the steps of an uninterrupted signing call are the whole call |
| `SigningRequests.OverlapSignsTwice` | apps/api/src/signature/signature.service.ts:205-257 | two overlapping calls on one signable link both record a signature |
| `SigningRequests.SignaturesPerSlot` | apps/api/src/signature/signature.service.ts:205-257 | interleaved, all runs: once all calls have returned, a slot has exactly as many new signatures as calls loaded it while it was open |
| `SigningRequests.OneSignatureExactly` | apps/api/src/signature/signature.service.ts:538-571 | interleaved, from any state and clock value: no continuation by signing calls gives a slot a second signature exactly when nobody can load it any more and at most one signature is recorded or about to be |
| `SigningRequests.SignedLastsExactly` | apps/api/src/signature/signature.service.ts:205-330 | interleaved signing, declining and revoking, from any state: SIGNED is kept through every continuation exactly when neither a revocation nor a decline of the request is held |
| `SigningRequests.RevokedLastsExactly` | apps/api/src/signature/signature.service.ts:205-330 | interleaved, from any state: REVOKED is kept through every continuation exactly when no decline of the request is held, no call is about to write SIGNED, and the signing calls in flight cannot complete the request and count it |
| `SigningRequests.DeclinedLastsExactly` | apps/api/src/signature/signature.service.ts:205-330 | interleaved, from any state: DECLINED is kept through every continuation exactly when no revocation is held, no call is about to write SIGNED, and the signing calls in flight cannot complete the request and count it |
| `SigningRequests.DeclineOverwritesSigned` | apps/api/src/signature/signature.service.ts:279-291 | a decline that overlaps the last signature overwrites SIGNED, on a slot that is then signed and declined |
| `SigningRequests.SignedAndDeclined` | apps/api/src/signature/signature.service.ts:279-291 | the same for one document with one slot of one account |
| `SigningRequests.DeclineRun` | apps/api/src/signature/signature.service.ts:279-309 | the steps of an uninterrupted decline are the whole call |
| `SigningRequests.RevokeRun` | apps/api/src/signature/signature.service.ts:312-330 | the steps of an uninterrupted revocation are the whole call |
| `SigningRequests.RevocationOverwritesSigned` | apps/api/src/signature/signature.service.ts:312-330 | a revocation that overlaps the last signature overwrites SIGNED |
| `SigningOutcome.CreateExactly` | apps/api/src/signature/signature.service.ts:91-139 | created exactly when every invite names one of an account and an address and the expiry is ahead; the slots, field by field |
| `SigningOutcome.SignExactly` | apps/api/src/signature/signature.service.ts:205-277 | a signature, field by field: its row, the slot, and the request closed when no other slot is open; else the refusal |
| `SigningOutcome.DeclineExactly` | apps/api/src/signature/signature.service.ts:279-309 | a decline, field by field, refused like a signature |
| `SigningOutcome.RevokeExactly` | apps/api/src/signature/signature.service.ts:312-330 | only the creator, only while pending |
| `SigningOutcome.ReattestExactly` | apps/api/src/signature/signature.service.ts:436-479 | retried and counted only without a validated proof |
| `SigningOutcome.OnlyTheInvited` | apps/api/src/signature/signature.service.ts:91-602 | whole calls, all runs: a slot was made for exactly one of an account and an address, and is filled only by that account or by one with that address |
| `Trust.ComputeScore` | apps/api/src/trust/trust.service.ts:167-309 | the step-by-step addition equals the sum of categories, clamped |
| `Trust.ClampIsIdle` | apps/api/src/trust/trust.service.ts:178-308 | an unsuspended score is between 11 and 100 before clamping, so the clamp never acts; a suspended one is 0 |
| `Trust.RangeIsTight` | apps/api/src/trust/trust.service.ts:28-75 | both 11 and 100 are reached |
| `Trust.TimeNeverHurts` | apps/api/src/trust/trust.service.ts:180-303 | with facts frozen the score never falls as time passes |
| `Trust.RisksCostAtMost42` | apps/api/src/trust/trust.service.ts:219-303 | adding any number of risk events never raises a score and costs at most 42 |
| `Trust.FortyTwoIsReached` | apps/api/src/trust/trust.service.ts:219-303 | a loss of 42 is possible exactly for an account with the clean-use bonus and no penalty |
| `Trust.PenaltyIsRecent` | apps/api/src/trust/trust.service.ts:64-71 | nothing is deducted exactly when the last thirty days hold no risk event |
| `Trust.QuietMonthRestores` | apps/api/src/trust/trust.service.ts:64-71 | with no risk event in thirty days a score is at least the baseline |
| `Trust.OtherEventsNeverHurt` | apps/api/src/trust/trust.service.ts:234-249 | events that are not risk signals never lower a score |
| `Trust.BonusNeedsSpreadExactly` | apps/api/src/trust/trust.service.ts:54-57 | sign-ins spread over sixty days always earn the bonus; without a spread it is given exactly for enough clean sign-ins whose first is sixty days old and whose last is less than sixty days after it |
| `Trust.SpreadIsFirstToLast` | apps/api/src/trust/trust.service.ts:54-57 | sign-ins are spread over sixty days exactly when the first and the last are that far apart |
| `Trust.BonusWithoutSpread` | apps/api/src/trust/trust.service.ts:293-297 | ten sign-ins within a day, the first sixty days old, earn the bonus |
| `Trust.TierVouchesForScore` | apps/api/src/trust/trust.service.ts:139-165 | what each tier guarantees of the score before penalties |
| `Trust.LevelsAreWorthSix` | apps/api/src/trust/trust.service.ts:32-35 | each level above the lowest is worth six points more |
| `Trust.SecurityIsWorth` | apps/api/src/trust/trust.service.ts:37-40 | second factor six, first passkey four, first unused recovery code two |
| `Trust.DevicesAreWorth` | apps/api/src/trust/trust.service.ts:42-44 | first device three, three more without a pending approval, nothing without a device |
| `Trust.ClaimsAreWorth` | apps/api/src/trust/trust.service.ts:46-48 | a business claim somebody vouches for five, a third-party credential three |
| `Trust.AgeIsWorthThree` | apps/api/src/trust/trust.service.ts:50-53 | more than ninety days are worth three points |
| `Trust.SustainedExactly` | apps/api/src/trust/trust.service.ts:54-57 | the bonus takes ten sign-ins, the first sixty days ago, and no token ever reused |
| `Trust.HistoryIsWorth` | apps/api/src/trust/trust.service.ts:59-71 | three points for sustained use, less thirty for a recent reuse, less three for each of the first three recent revocations |
| `Trust.BareScores` | apps/api/src/trust/trust.service.ts:28-30 | a new account scores fifty, and twenty after one reuse |
| `Trust.TierExactly` | apps/api/src/trust/trust.service.ts:139-165 | the tier is the level, and the highest takes a business claim |
| `ContextBroker.ContextBrokerService.AssertConsent` | apps/api/src/context-broker/context-broker.service.ts:82-152 | the first reason to refuse an agent, or none |
| `ContextBroker.ContextBrokerService.Grant` | apps/api/src/context-broker/context-broker.service.ts:176-205 | an active agent's consent is replaced and reactivated |
| `ContextBroker.ContextBrokerService.Revoke` | apps/api/src/context-broker/context-broker.service.ts:207-218 | an active consent is revoked |
| `ContextBroker.AllowedExactly` | apps/api/src/context-broker/context-broker.service.ts:82-152 | allowed exactly for an active agent when nothing is required, or everything required maps into an unrevoked consent |
| `ContextBroker.ConsentIsLatestGrant` | apps/api/src/context-broker/context-broker.service.ts:176-218 | all runs: the consent in force is the latest grant not followed by a revocation, with exactly its scopes |
| `ContextBroker.GrantExactly` | apps/api/src/context-broker/context-broker.service.ts:176-205 | a consent for an active agent only, replacing what there was, each scope once |
| `ContextBroker.RevocationExactly` | apps/api/src/context-broker/context-broker.service.ts:207-218 | only a consent in force is revoked, and nothing else changes |
| `ContextBroker.AgentScopes` | apps/api/src/context-broker/context-broker.service.ts:25-60 | the four scopes open to agents, each with its consent scope, and no other |
| `ContextBroker.ClosedToAgents` | apps/api/src/context-broker/context-broker.service.ts:18-41 | an action that needs any other scope is refused to every agent, whatever was consented to |
| `ContextBroker.CoveredOneByOne` | apps/api/src/context-broker/context-broker.service.ts:145-150 | all that is asked is covered exactly if each part is |
| `ContextBroker.RefusedBecause` | apps/api/src/context-broker/context-broker.service.ts:82-152 | which refusal, check by check |
| `ContextBroker.MissingExactly` | apps/api/src/context-broker/context-broker.service.ts:145-150 | the missing scopes named are those needed and not granted |
| `ActionEngine.ActionEngineService.SubmitAction` | apps/api/src/action-engine/action-engine.service.ts:78-201 | recorded outcome, rejection, immediate run or pending approval, with the tables each leaves |
| `ActionEngine.ActionEngineService.ResolveApproval` | apps/api/src/action-engine/action-engine.service.ts:211-285 | refusal, expiry, denial or approval and run |
| `ActionEngine.ActionEngineService.ExecuteAction` | apps/api/src/action-engine/action-engine.service.ts:298-342 | the domain service is called once and its outcome logged in a new or the existing entry |
| `ActionEngine.PassesExactly` | apps/api/src/action-engine/action-engine.service.ts:91-182 | a new request runs, waits or is turned down exactly by admissibility and risk tier |
| `ActionEngine.NoObjectionIfAdmissible` | apps/api/src/action-engine/action-engine.service.ts:91-161 | the checks in order let through exactly what satisfies them all |
| `ActionEngine.DecisionIsRecorded` | apps/api/src/action-engine/action-engine.service.ts:211-285 | the answer to a decision is what the log keeps, but for the reason of a denial |
| `ActionEngine.ReasonExactly` | apps/api/src/action-engine/action-engine.service.ts:91-161 | which check turns a request down |
| `ActionEngine.NewRequestExactly` | apps/api/src/action-engine/action-engine.service.ts:78-201 | a new key, field by field: turned down, run and answered as done exactly when the service did not fail, or left to wait two days |
| `ActionEngine.DecisionExactly` | apps/api/src/action-engine/action-engine.service.ts:211-342 | a decision, field by field: each refusal, the denial, and an approved run that is executed exactly when the service did not fail |
| `ActionEngine.LoggedAsItWent` | apps/api/src/action-engine/action-engine.service.ts:298-342 | all runs: an entry is EXECUTED exactly when its one run did not fail, and gives a domain failure exactly when that run failed with it |
| `ActionEngine.Run` | apps/api/src/action-engine/action-engine.service.ts:78-342 | all runs: keys are unique in log and runs, each entry has at most one approval whose status agrees with it, and every run has a finished entry that vouches for it |
| `ActionEngine.AtMostOneRunPerKey` | apps/api/src/action-engine/action-engine.service.ts:78-342 | all runs: a domain action runs at most once per idempotency key |
| `ActionEngine.RanOnlyIfApproved` | apps/api/src/action-engine/action-engine.service.ts:163-285 | all runs: what ran and is not of low risk has an approval resolved APPROVED before it expired |
| `ActionEngine.RunsWereAdmitted` | apps/api/src/action-engine/action-engine.service.ts:91-161 | all runs: what ran was submitted and admissible then; an agent's was covered by an unrevoked consent |
| `ActionEngine.SameKeySameAnswer` | apps/api/src/action-engine/action-engine.service.ts:78-89 | all runs: a key submitted again any number of calls later runs and writes nothing and is answered with the same entry, and with the first answer unless that was to wait and has been decided since |
| `ActionEngine.EntriesStay` | apps/api/src/action-engine/action-engine.service.ts:298-342 | all runs: a finished entry is never touched again |
| `ActionEngine.LapsedStaysWaiting` | apps/api/src/action-engine/action-engine.service.ts:224-230 | all runs: an approval that lapsed is the same at every later point, cannot be decided, and its request is still waiting |

## Left out

- HTTP wiring, guards, request validation, cookies, throttling, websockets and the web application.
- Bcrypt, JWT and id-token signing, AES-GCM, WebAuthn, one-time-password arithmetic and SHA-256; only the outcome of a check or the injectivity of a hash appears.
- Deleting a user, which removes that user's rows from every table; `EventFeed.ListSince` covers a cursor whose row is gone.
- Notifications, emails, audit rows and security-event recording, except the events the trust score counts.
- The password grant, the authorize and status endpoints, and access tokens, which are not stored.
- Other one-time credentials (two-factor challenges, backup codes, passkey challenges, social exchange codes): the same shape as authorization codes.
- Business-workspace approval, invites and identity verification: simpler copies of the protocols above.
- Account suspension and data-erasure session kills, approval of a new device by an alert-enabled one, and single-session revocation by id.
- Interleaved refresh-token rotation, bridge requests and daily limits: these read and then write unconditionally, and their properties hold of whole calls only.
- The character order of `sort()` on scope strings is by code unit; the model compares characters, which differs outside the basic plane.
- Base32.Decode: upper-casing covers the ASCII letters only; the language maps a few other characters, such as the long s, onto alphabet letters too. Encodings hold none of them.
- Bridge.DailyCapHolds: amounts and rates are exact reals, so rounding of stored decimals is not modelled.
- Bridge.BridgeRequestService.Create: the text of a reference is a parameter, drawn at random by the source.
- Cryndy.GetUserSummary: amounts are exact reals; the source adds binary floating-point numbers.
- Cryndy.CryndyService.HandlePurchaseWebhook: a parameter says which of two violated unique columns the database reports.
- EventFeed.ListSince: negative and fractional page sizes.
- ActivityFeed.GetMyActivity: labels and the amount or status shown beside an item.
- Marking a document request as expired is a step of loading a slot, not one of its own when calls interleave: a link runs out with its request and is checked first, so it is never taken (`SigningRequests.ExpiryIsNeverRecorded`).
- SigningRequests.SignatureService.SignSlot: the attestation is a value that is present when it was validated; its claims, its key and the consent text are not modelled.
- ActionEngine.Submit: which membership, validation and consent data a call reads is a parameter of the call, and a domain service's outcome is one too; a crash between running an action and logging it is not a step.
- ContextBroker.ConsentScopeFor: scope names that are inherited properties of a JavaScript object are not modelled.
- Seed and backfill scripts, which may have produced the state a run starts from.
