# Amplify Auth sign-in core, storage transfer task and device-key store, in Dafny

This project models the Cognito sign-in core of the Amplify JavaScript library and proves properties of the model:

- the challenge-result mapping (`getSignInResult`, `getSignInResultFromError`) and the attribute helpers (`parseAttributes`, `createAttributes`);
- the byte helpers of `AuthUtils.ts`:
  - the hex tables, `fromHex` and `toHex`;
  - the base64url preparation of `_urlB64ToUint8Array`;
  - `getNowString`;
  - the buffer that `getSignatureString` signs;
- the request builders of the three helper files (`signInHelpers.ts`, `IniateAuthAndRespondToAuthChallengeHelper.ts`, `handleChallengeHelper.ts`);
- the sign-in flows `signIn`, `signInWithSRP`, `signInWithCustomSRPAuth`, `signInWithUserPassword` and `confirmSignIn`, over the sign-in store (username, active challenge name, session);
- the storage provider's transfer task: `cancel`, `pause`, `resume` and the job outcome;
- `DeviceKeyTokenManager`: load, store and clear of three device tokens in a key-value storage.

## How the model is built

- **One module per source file.** Shared values live in `AuthTypes`, the JavaScript string and number built-ins in `Text`, and `Option`/`Result` in `Wrappers`.
- **The identity service is a function parameter.** It has type `Service = Request -> Result<AuthResponse, AuthError>`. A request is the wire view: a field that is `undefined` is absent.
- **Every flow returns the requests it sent, in order.** So "validation happens before any call" is stated as `sent == []`.
- **Pure flows are functions.** `signInWithSRP`, `signInWithCustomSRPAuth` and the builders other than `handleMFASetupChallenge` compute a result and write nothing.
- **Flows that write the sign-in store are methods.** They dispatch actions to the `Store` class. Each method is proved to dispatch exactly the actions a pure `...Spec` function lists; the lemmas about the resulting store state are proved on that function.
- **The transfer task is a class.** Its fields are `state`, the abort-error record and a log of the callbacks invoked. Each method is proved equal to a pure `After...` function, and a trace lemma shows `onCancel` runs at most once.
- **The device-key manager is a class** over a `KeyValueStorage` class with a `map<string, string>` field.

## Model

| member | source | states |
|---|---|---|
| Text.ToLower | packages/auth/src/providers/cognito/utils/AuthUtils.ts:43 | same length; each ASCII capital lowered, every other character kept |
| Text.DigitsCorrect | packages/auth/src/providers/cognito/utils/AuthUtils.ts:43 | `toString(base)` of n is a canonical numeral (no leading zero) whose value is n |
| Text.DigitsInjective | packages/auth/src/providers/cognito/utils/IniateAuthAndRespondToAuthChallengeHelper.ts:34 | distinct numbers print as distinct numerals |
| Text.Repeat | packages/auth/src/providers/cognito/utils/AuthUtils.ts:116 | `'='.repeat(n)` is n copies of the character |
| Text.ReplaceAll | packages/auth/src/providers/cognito/utils/AuthUtils.ts:117-119 | a global one-character replace changes exactly the matching positions |
| Text.IndexFrom | packages/auth/src/providers/cognito/utils/signInHelpers.ts:394 | returns the first occurrence at or after k, and None only when there is none |
| Text.Split | packages/auth/src/providers/cognito/utils/IniateAuthAndRespondToAuthChallengeHelper.ts:26 | `split` always yields at least one part |
| Text.SplitJoin | packages/auth/src/providers/cognito/utils/IniateAuthAndRespondToAuthChallengeHelper.ts:26 | joining the parts with the separator gives the string back, and no part contains the separator |
| Text.SplitAfterFirst | packages/auth/src/providers/cognito/utils/IniateAuthAndRespondToAuthChallengeHelper.ts:26 | splitting `p + sep + rest`, where p has no separator, gives p first |
| Text.SplitWithoutSeparator | packages/auth/src/providers/cognito/utils/IniateAuthAndRespondToAuthChallengeHelper.ts:26 | a string without the separator splits into itself alone |
| AuthUtils.HexPairValue | packages/auth/src/providers/cognito/utils/AuthUtils.ts:42-50 | each byte's table entry is a lower-case hex pair denoting that byte |
| AuthUtils.PairHexValue | packages/auth/src/providers/cognito/utils/AuthUtils.ts:42-50 | each lower-case hex pair denotes a byte whose table entry is that pair |
| AuthUtils.HexTablesInverse | packages/auth/src/providers/cognito/utils/AuthUtils.ts:39-50 | SHORT_TO_HEX has 256 entries; HEX_TO_SHORT's keys are exactly the lower-case hex pairs; the two tables are mutually inverse |
| AuthUtils.PaddedBase16 | packages/auth/src/providers/cognito/utils/AuthUtils.ts:43-46 | lower-cased base 16, with a `0` added to a single digit, is the two-character pair of the byte |
| AuthUtils.BuildHexTables | packages/auth/src/providers/cognito/utils/AuthUtils.ts:39-50 | the module-load loop builds exactly the two tables |
| AuthUtils.HexDecode | packages/auth/src/providers/cognito/utils/AuthUtils.ts:57-75 | odd length fails with the odd-length error; a success has half the input's length |
| AuthUtils.HexDecodeGroups | packages/auth/src/providers/cognito/utils/AuthUtils.ts:62-72 | an even-length string decodes iff every lower-cased pair is in the table, and byte k is the table value of pair k |
| AuthUtils.HexDecodeUnfold | packages/auth/src/providers/cognito/utils/AuthUtils.ts:62-72 | one step of decoding: the first pair, lower-cased, is looked up and the rest decoded, or its lookup failure is the error |
| AuthUtils.HexDecodeAll | packages/auth/src/providers/cognito/utils/AuthUtils.ts:62-74 | bytes of half the length that match every pair's table value are the decoding |
| AuthUtils.HexPairEntry | packages/auth/src/providers/cognito/utils/AuthUtils.ts:42-50 | each byte's reference pair is already lower case and HEX_TO_SHORT maps it back to the byte |
| AuthUtils.HexDecodeFirstBad | packages/auth/src/providers/cognito/utils/AuthUtils.ts:63-71 | the error names the first pair, lower-cased, that is not in the table |
| AuthUtils.HexEncodeGroups | packages/auth/src/providers/cognito/utils/AuthUtils.ts:82-89 | `toHex` emits two characters per byte, and pair k is byte k's table entry |
| AuthUtils.LowerHexPairUnchanged | packages/auth/src/providers/cognito/utils/AuthUtils.ts:64 | lower-casing a lower-case hex pair leaves it unchanged |
| AuthUtils.HexRoundTrip | packages/auth/src/providers/cognito/utils/AuthUtils.ts:57-89 | `fromHex(toHex(b)) == b` |
| AuthUtils.HexLowerRoundTrip | packages/auth/src/providers/cognito/utils/AuthUtils.ts:57-89 | `toHex(fromHex(s))` is s lower-cased whenever `fromHex(s)` succeeds |
| AuthUtils.PairOfValue | packages/auth/src/providers/cognito/utils/AuthUtils.ts:48-49 | a pair's byte maps back to the same pair |
| AuthUtils.SameGroups | packages/auth/src/providers/cognito/utils/AuthUtils.ts:63-64 | two even-length strings with equal pairs are equal |
| AuthUtils.FromHex | packages/auth/src/providers/cognito/utils/AuthUtils.ts:57-75 | the loop's result or error is the one the group-wise definition gives |
| AuthUtils.ToHex | packages/auth/src/providers/cognito/utils/AuthUtils.ts:82-89 | the appending loop yields the concatenated pairs |
| AuthUtils.PrepareUrlB64 | packages/auth/src/providers/cognito/utils/AuthUtils.ts:116-119 | length is a multiple of four, with 0 to 3 `=` appended; `-` becomes `+` and `_` becomes `/`; all else is kept |
| AuthUtils.BinaryString | packages/auth/src/providers/cognito/utils/AuthUtils.ts:130-134 | one character per byte, with that byte's code |
| AuthUtils.CharCodes | packages/auth/src/providers/cognito/utils/AuthUtils.ts:122-126 | one byte per character, each the character's code kept to its low eight bits |
| AuthUtils.UrlB64ToUint8Array | packages/auth/src/providers/cognito/utils/AuthUtils.ts:115-128 | an error of `atob` on the prepared string propagates; otherwise a new array holding the character codes of what `atob` returned |
| AuthUtils.BinaryStringRoundTrip | packages/auth/src/providers/cognito/utils/AuthUtils.ts:124-133 | reading the codes back from the binary string gives the bytes |
| AuthUtils.EncodeBase64Bytes | packages/auth/src/providers/cognito/utils/AuthUtils.ts:130-134 | the result is `btoa` of the one string that has a character per byte carrying that byte's code, with `btoa`'s error passed on |
| AuthUtils.BinaryStringUnique | packages/auth/src/providers/cognito/utils/AuthUtils.ts:131-133 | only one string has one character per byte carrying that byte's code |
| AuthUtils.ZeroPadded | packages/auth/src/providers/cognito/utils/AuthUtils.ts:159-172 | a value below 10 gets a leading `0`, so each field has two digits |
| AuthUtils.GetNowString | packages/auth/src/providers/cognito/utils/AuthUtils.ts:136-180 | `Www Mmm D HH:mm:ss UTC YYYY` from the fixed name tables; time fields two digits, the day unpadded |
| AuthUtils.SetAt | packages/auth/src/providers/cognito/utils/AuthUtils.ts:202-208 | `set` copies the source at the offset and changes nothing else |
| AuthUtils.SignatureBuffer | packages/auth/src/providers/cognito/utils/AuthUtils.ts:196-208 | length is the sum of the four; segments at offsets 0, \|p\|, \|p\|+\|u\| and \|p\|+\|u\|+\|s\|; contents are p ++ u ++ s ++ d |
| AuthUtils.GetSignatureString | packages/auth/src/providers/cognito/utils/AuthUtils.ts:182-215 | throws what `atob` throws on the secret block; otherwise the `btoa` result (or its error) on the keyed digest of pool name ++ user name ++ decoded secret block ++ date |
| AuthUtils.ParseAttributes | packages/auth/src/providers/cognito/utils/AuthUtils.ts:349-354 | empty for absent or empty input, else the one-element list of the input |
| AuthUtils.GetSignInResultAsWritten | packages/auth/src/providers/cognito/utils/AuthUtils.ts:249-331 | as written: never signed in; MFA_SETUP, SELECT_MFA_TYPE, SMS_MFA and SOFTWARE_TOKEN_MFA get the undefined step, CUSTOM_CHALLENGE and NEW_PASSWORD_REQUIRED their own; unknown names fail with UnrecognizedChallengeName |
| AuthUtils.AsWrittenStepsCollapse | packages/auth/src/providers/cognito/utils/AuthUtils.ts:293-312 | as written, SMS_MFA and SOFTWARE_TOKEN_MFA give the same step |
| AuthUtils.AsWrittenOneToOneOnDefined | packages/auth/src/providers/cognito/utils/AuthUtils.ts:255-311 | as written, only CUSTOM_CHALLENGE and NEW_PASSWORD_REQUIRED get a defined step, and each gets its own |
| AuthUtils.AsWrittenDiffersOnlyInStep | packages/auth/src/providers/cognito/utils/AuthUtils.ts:255-311 | the as-written and corrected mappings fail alike and agree on every field but the step, which differs exactly for the four challenges above |
| AuthUtils.GetSignInResult | packages/auth/src/providers/cognito/utils/AuthUtils.ts:249-331 | corrected with the published step names (see Findings): never signed in; succeeds iff the name is one of the six and the parameters it reads exist; the step answers that name; unknown names fail with UnrecognizedChallengeName; SMS delivery details copied, with no `additionalInfo`; CUSTOM_CHALLENGE, MFA_SETUP, NEW_PASSWORD_REQUIRED and SELECT_MFA_TYPE carry the challenge parameters as `additionalInfo`; MFA_SETUP passes `secretCode` through; SOFTWARE_TOKEN_MFA gives exactly the bare TOTP-code step |
| AuthUtils.GetSignInResultOneToOne | packages/auth/src/providers/cognito/utils/AuthUtils.ts:255-311 | for the corrected mapping, two successful results with the same step come from the same challenge name |
| AuthUtils.GetSignInResultFromError | packages/auth/src/providers/cognito/utils/AuthUtils.ts:333-347 | RESET_PASSWORD and CONFIRM_SIGN_UP for the two recoverable names, nothing for any other |
| SignInStore.Reduce | packages/auth/src/providers/cognito/apis/confirmSignIn.ts:69-80 | each SET_* action sets its own field and keeps the others; SET_INITIAL_STATE empties all three |
| SignInStore.ReduceAllSnoc | packages/auth/src/providers/cognito/apis/signInWithUserPassword.ts:61-75 | dispatching one more action reduces the state reached so far |
| SignInStore.ResetLast | packages/auth/src/providers/cognito/apis/signInWithUserPassword.ts:88 | whatever came before, a final SET_INITIAL_STATE leaves the initial state |
| SignInStore.Store.constructor | packages/auth/src/providers/cognito/apis/confirmSignIn.ts:45-46 | a new store is in the initial state |
| SignInStore.Store.Dispatch | packages/auth/src/providers/cognito/apis/confirmSignIn.ts:69-72 | the new state is the reducer applied to the old state |
| SignInHelpers.PrefixInjective | packages/auth/src/providers/cognito/utils/signInHelpers.ts:408 | distinct attribute names get distinct prefixed names |
| SignInHelpers.PrefixedAttributesShape | packages/auth/src/providers/cognito/utils/signInHelpers.ts:400-411 | absent gives `{}`; otherwise the keys are exactly `userAttributes.`+k, with values kept |
| SignInHelpers.PrefixedAttributesAdd | packages/auth/src/providers/cognito/utils/signInHelpers.ts:407-409 | adding one attribute adds its prefixed entry |
| SignInHelpers.CreateAttributes | packages/auth/src/providers/cognito/utils/signInHelpers.ts:400-411 | the `forEach` loop builds exactly the prefixed record |
| SignInHelpers.StripPrefix | packages/auth/src/providers/cognito/utils/signInHelpers.ts:394 | removes the first `userAttributes.` when present, else returns the name unchanged |
| SignInHelpers.ParseAttributes | packages/auth/src/providers/cognito/utils/signInHelpers.ts:391-398 | absent or empty gives `[]`; a parse error passes through; otherwise same length; an element holding `userAttributes.` loses exactly its first occurrence (the text before it followed by the text after it); others unchanged |
| SignInHelpers.StripUndoesPrefix | packages/auth/src/providers/cognito/utils/signInHelpers.ts:394-408 | stripping undoes prefixing |
| SignInHelpers.ParseOfPrefixedNames | packages/auth/src/providers/cognito/utils/signInHelpers.ts:391-411 | parsing a list of prefixed names returns the names |
| SignInHelpers.HandleCustomChallenge | packages/auth/src/providers/cognito/utils/signInHelpers.ts:45-59 | one CUSTOM_CHALLENGE answer with exactly USERNAME and ANSWER, the given session and metadata; returns the service's response |
| SignInHelpers.HandleSelectMfaTypeChallenge | packages/auth/src/providers/cognito/utils/signInHelpers.ts:90-108 | one SELECT_MFA_TYPE answer with exactly USERNAME and ANSWER, the given session and metadata; returns the service's response |
| SignInHelpers.HandleSmsMfaChallenge | packages/auth/src/providers/cognito/utils/signInHelpers.ts:110-128 | one SMS_MFA answer with exactly USERNAME and SMS_MFA_CODE, the given session and metadata; returns the service's response |
| SignInHelpers.HandleSoftwareTokenMfaChallenge | packages/auth/src/providers/cognito/utils/signInHelpers.ts:129-146 | one SOFTWARE_TOKEN_MFA answer with exactly USERNAME and SOFTWARE_TOKEN_MFA_CODE, the given session and metadata; returns the service's response |
| SignInHelpers.HandleCompleteNewPasswordChallenge | packages/auth/src/providers/cognito/utils/signInHelpers.ts:147-168 | one NEW_PASSWORD_REQUIRED answer carrying the new password under NEW_PASSWORD and the user under USERNAME, the given session and metadata; returns the service's response |
| SignInHelpers.AnswerBuildersAnswer | packages/auth/src/providers/cognito/utils/signInHelpers.ts:45-146 | each builder sends one request naming its own challenge, with USERNAME and the answer under ANSWER, SMS_MFA_CODE or SOFTWARE_TOKEN_MFA_CODE, plus the given session and metadata, with exactly those two keys; each returns the service's response to its request |
| SignInHelpers.NewPasswordBuilderAnswer | packages/auth/src/providers/cognito/utils/signInHelpers.ts:147-168 | one NEW_PASSWORD_REQUIRED answer with the new password and user, whose keys are exactly the prefixed attributes, NEW_PASSWORD and USERNAME; it returns the service's response to that request |
| SignInHelpers.NewPasswordAnswerFields | packages/auth/src/providers/cognito/utils/signInHelpers.ts:147-168 | one request, answering NEW_PASSWORD_REQUIRED with NEW_PASSWORD and USERNAME, the session and the metadata |
| SignInHelpers.NewPasswordBuilderKeys | packages/auth/src/providers/cognito/utils/signInHelpers.ts:154-158 | the response keys are the prefixed attribute names plus NEW_PASSWORD and USERNAME |
| SignInHelpers.NewPasswordCarriesAttributes | packages/auth/src/providers/cognito/utils/signInHelpers.ts:154-158 | every required attribute is sent under its prefixed name |
| SignInHelpers.MfaSetupRound | packages/auth/src/providers/cognito/utils/signInHelpers.ts:61-88 | verification is sent with the caller's session; a failed verification is rethrown as the service returned it, with the store untouched; only on success is the returned session stored and sent with MFA_SETUP |
| SignInHelpers.HandleMfaSetupChallenge | packages/auth/src/providers/cognito/utils/signInHelpers.ts:61-88 | the requests and the store write are those of the round |
| SignInHelpers.HandleUserPasswordAuthFlow | packages/auth/src/providers/cognito/utils/signInHelpers.ts:170-185 | one USER_PASSWORD_AUTH request with USERNAME and PASSWORD; metadata at the top level |
| SignInHelpers.HandlePasswordVerifierChallenge | packages/auth/src/providers/cognito/utils/signInHelpers.ts:250-292 | nothing is sent iff the key derivation fails or the signature cannot be computed (no SECRET_BLOCK, or `getSignatureString` throws), and the response is then that error; otherwise one PASSWORD_VERIFIER answer in the given session, with the verifier responses, and its response |
| SignInHelpers.HandleUserSrpAuthFlow | packages/auth/src/providers/cognito/utils/signInHelpers.ts:187-217 | without an A, a TypeError and nothing sent; otherwise USER_SRP_AUTH with USERNAME and SRP_A, then the verifier answer for the returned parameters and session, whose response is returned; a failed initiation is returned as it is |
| SignInHelpers.HandleCustomSrpAuthFlow | packages/auth/src/providers/cognito/utils/signInHelpers.ts:219-248 | the same, as CUSTOM_AUTH with `CHALLENGE_NAME` `SRP_A`: the verifier's response is returned, and the same TypeError without an A |
| SignInHelpers.GetSignInResult | packages/auth/src/providers/cognito/utils/signInHelpers.ts:294-373 | never signed in; the six names map one-to-one to their steps; any other name fails with UnsupportedChallengeName; SMS details copied and parameters passed as `additionalInfo`; MFA_SETUP, SELECT_MFA_TYPE and SOFTWARE_TOKEN_MFA give exactly their bare step with an empty TOTP secret, an empty list of MFA types and nothing else respectively |
| SignInHelpers.MappingsAgreeOnSupport | packages/auth/src/providers/cognito/utils/signInHelpers.ts:294-373 | when challenge parameters are present and carry no `requiredAttributes`, this mapping and the AuthUtils one accept the same names, each failing with its own error name |
| SignInHelpers.GetSignInResultFromError | packages/auth/src/providers/cognito/utils/signInHelpers.ts:375-389 | RESET_PASSWORD and CONFIRM_SIGN_UP for the two recoverable names, nothing for any other |
| SignInHelpers.RecoverOrRethrow | packages/auth/src/providers/cognito/apis/signInWithUserPassword.ts:89-92 | a recoverable error becomes its result; any other error is rethrown as it is |
| RequestParts.MetadataOrDefault | packages/auth/src/providers/cognito/utils/IniateAuthAndRespondToAuthChallengeHelper.ts:28 | the caller's metadata when given, else the configured one (the same rule recurs at lines 50, 69, 87 and 136) |
| RequestParts.PoolNameOfId | packages/auth/src/providers/cognito/utils/IniateAuthAndRespondToAuthChallengeHelper.ts:25-26 | the pool name of `region_name`, or of `region_name_rest`, is `name` |
| RequestParts.PoolNamePresent | packages/auth/src/providers/cognito/utils/IniateAuthAndRespondToAuthChallengeHelper.ts:26 | element [1] exists iff the pool id contains `_` |
| RequestParts.SrpA | packages/auth/src/providers/cognito/utils/IniateAuthAndRespondToAuthChallengeHelper.ts:34 | a TypeError exactly when `getLargeAValue` gave no A |
| RequestParts.SrpAIsBase16 | packages/auth/src/providers/cognito/utils/IniateAuthAndRespondToAuthChallengeHelper.ts:34 | given an A, SRP_A is a canonical base-16 numeral denoting it |
| RequestParts.WithDefined | packages/auth/src/providers/cognito/utils/IniateAuthAndRespondToAuthChallengeHelper.ts:123-124 | a field is present only when its value is defined |
| RequestParts.VerifierSignature | packages/auth/src/providers/cognito/utils/IniateAuthAndRespondToAuthChallengeHelper.ts:127-133 | a TypeError when SECRET_BLOCK is missing; otherwise the signature (or the error `getSignatureString` throws) over USER_ID_FOR_SRP, that secret block and the date |
| RequestParts.VerifierResponses | packages/auth/src/providers/cognito/utils/IniateAuthAndRespondToAuthChallengeHelper.ts:121-134 | fails iff the signature cannot be computed, with its error; otherwise USERNAME is USER_ID_FOR_SRP, the secret block is verbatim, TIMESTAMP is the signed date, and the signature is over those values |
| RequestParts.RespondToVerifier | packages/auth/src/providers/cognito/utils/IniateAuthAndRespondToAuthChallengeHelper.ts:113-144 | nothing is sent iff the key derivation fails or the signature cannot be computed, and the response is that failure; otherwise one PASSWORD_VERIFIER answer with the given session and metadata, and its response |
| InitiateAuthHelper.HandleUserSrpAuthFlow | packages/auth/src/providers/cognito/utils/IniateAuthAndRespondToAuthChallengeHelper.ts:20-40 | without an A, a TypeError and nothing sent; otherwise one USER_SRP_AUTH request; its parameters are USERNAME, SRP_A and the metadata fallback; no top-level metadata |
| InitiateAuthHelper.HandleCustomSrpAuthFlow | packages/auth/src/providers/cognito/utils/IniateAuthAndRespondToAuthChallengeHelper.ts:42-62 | the same TypeError without an A; otherwise CUSTOM_AUTH with the same parameters plus `CHALLENGE_NAME` `SRP_A` |
| InitiateAuthHelper.HandleCustomAuthFlowWithoutSrp | packages/auth/src/providers/cognito/utils/IniateAuthAndRespondToAuthChallengeHelper.ts:64-79 | CUSTOM_AUTH with USERNAME and the metadata only: no SRP_A, no PASSWORD |
| InitiateAuthHelper.HandleUserPasswordAuthFlow | packages/auth/src/providers/cognito/utils/IniateAuthAndRespondToAuthChallengeHelper.ts:81-98 | USERNAME and PASSWORD as parameters; the metadata fallback at the top level |
| InitiateAuthHelper.HandlePasswordVerifierChallenge | packages/auth/src/providers/cognito/utils/IniateAuthAndRespondToAuthChallengeHelper.ts:100-145 | pool name from `Auth.userPoolId`; key for USER_ID_FOR_SRP; nothing sent iff the derivation fails or the signature cannot be computed, with that error; otherwise PASSWORD_VERIFIER with no session, the metadata fallback and the verifier responses |
| HandleChallengeHelper.HandleUserSrpAuthChallenge | packages/auth/src/providers/cognito/utils/handleChallengeHelper.ts:17-34 | without an A, a TypeError and nothing sent; otherwise USER_SRP_AUTH with exactly USERNAME and SRP_A, and no metadata |
| HandleChallengeHelper.HandlePasswordVerifierChallenge | packages/auth/src/providers/cognito/utils/handleChallengeHelper.ts:35-81 | the key is derived for the caller's user name, while USERNAME in the answer is USER_ID_FOR_SRP; nothing sent iff the derivation fails or the signature cannot be computed, with that error; otherwise no session and the metadata fallback |
| SignInWithSrp.Recover | packages/auth/src/providers/cognito/apis/signInWithSRP.ts:69-82 | PasswordResetRequiredException gives RESET_PASSWORD, UserNotConfirmedException gives CONFIRM_SIGN_UP, anything else is rethrown |
| SignInWithSrp.RecoverIsErrorMapping | packages/auth/src/providers/cognito/apis/signInWithSRP.ts:69-82 | the inline checks agree with `getSignInResultFromError` |
| SignInWithSrp.Conclude | packages/auth/src/providers/cognito/apis/signInWithSRP.ts:50-82 | signed in iff the response has an AuthenticationResult; otherwise the next step of the corrected `AuthUtils.GetSignInResult`, with errors recovered or rethrown |
| SignInWithSrp.SignInWithSrp | packages/auth/src/providers/cognito/apis/signInWithSRP.ts:25-83 | corrected call: username then password checked before any request; then, without an A, the TypeError is rethrown with nothing sent; otherwise the initiation is sent first and its parameters go to the verifier |
| SignInWithSrp.SignInWithSrpCompletes | packages/auth/src/providers/cognito/apis/signInWithSRP.ts:39-64 | when there is an A and initiation, derivation and signature succeed, two requests are sent, the second answers PASSWORD_VERIFIER, and the user is signed in iff its response authenticates |
| SignInWithSrp.SignInWithSrpSignatureFails | packages/auth/src/providers/cognito/apis/signInWithSRP.ts:39-64 | when there is an A but the signature cannot be computed, only the initiation is sent and the result is the thrown error, recovered or rethrown |
| SignInWithSrp.SignInWithSrpAsWritten | packages/auth/src/providers/cognito/apis/signInWithSRP.ts:25-83 | the call as written, with its arguments bound by position; validation as above |
| SignInWithSrp.AsWrittenNeverSignsIn | packages/auth/src/providers/cognito/apis/signInWithSRP.ts:43-48 | as written, at most the initiation is sent and the user is never signed in |
| SignInWithCustomSrpAuth.Conclude | packages/auth/src/providers/cognito/apis/signInWithCustomSRPAuth.ts:48-72 | signed in iff AuthenticationResult; else `getSignInResult`, corrected to the published step names (see Findings); errors recovered by `getSignInResultFromError` or rethrown |
| SignInWithCustomSrpAuth.ConcludesLikeSrp | packages/auth/src/providers/cognito/apis/signInWithCustomSRPAuth.ts:56-72 | this flow and signInWithSRP conclude alike on every response |
| SignInWithCustomSrpAuth.SignInWithCustomSrpAuth | packages/auth/src/providers/cognito/apis/signInWithCustomSRPAuth.ts:24-73 | validation before any call; without an A, the TypeError is rethrown with nothing sent; the verifier gets exactly the initiation's parameters and the same metadata |
| SignInWithUserPassword.MetadataOf | packages/auth/src/providers/cognito/apis/signInWithUserPassword.ts:42-43 | the options' `clientMetadata` when given, else the configured one |
| SignInWithUserPassword.SignInWithUserPasswordSpec | packages/auth/src/providers/cognito/apis/signInWithUserPassword.ts:38-94 | validation with no call and no dispatch; then session, username and challenge name recorded; reset on sign-in or on any error |
| SignInWithUserPassword.UserPasswordFinalState | packages/auth/src/providers/cognito/apis/signInWithUserPassword.ts:44-93 | the store is unchanged on a validation failure, holds the round at a next step, and is reset otherwise |
| SignInWithUserPassword.SignInWithUserPassword | packages/auth/src/providers/cognito/apis/signInWithUserPassword.ts:38-94 | dispatches exactly the specified actions; returns the specified result |
| ConfirmSignIn.ConfirmSignInSpec | packages/auth/src/providers/cognito/apis/confirmSignIn.ts:41-99 | SignInException with no round when the store lacks a field; the round gets the stored values and the caller's answer; session and challenge recorded; reset on sign-in or error |
| ConfirmSignIn.ConfirmSignInFinalState | packages/auth/src/providers/cognito/apis/confirmSignIn.ts:48-98 | at a next step the store holds the new session and challenge and the same username; otherwise reset, or untouched if no sign-in was active |
| ConfirmSignIn.ConfirmSignIn | packages/auth/src/providers/cognito/apis/confirmSignIn.ts:41-99 | reads the store, dispatches exactly the specified actions, returns the specified result |
| SignIn.Route | packages/auth/src/providers/cognito/apis/signIn.ts:14-27 | each of the four names selects its flow; missing options or any other name select SRP |
| SignIn.RouteByName | packages/auth/src/providers/cognito/apis/signIn.ts:16-24 | a flow other than SRP is selected iff its own name is given |
| SignIn.DispatchAll | packages/auth/src/providers/cognito/apis/signIn.ts:21-22 | the store ends in the state the listed actions reduce the old state to, in order |
| SignIn.SignIn | packages/auth/src/providers/cognito/apis/signIn.ts:11-28 | runs the routed flow on the unchanged request; the SRP route (also the default) runs the corrected `SignInWithSrp.SignInWithSrp` (see Findings); the user-password and custom-without-SRP flows leave the store in the state their own actions reduce it to, and return their result and requests; the SRP and custom-SRP flows leave it unchanged |
| TransferTask.AfterCancel | packages/storage/src/providers/s3/utils/transferTask.ts:25-33 | always records the abort error; a stopped task keeps its state and calls nothing; otherwise CANCELED and one `onCancel` with that error |
| TransferTask.AfterPause | packages/storage/src/providers/s3/utils/transferTask.ts:80-88 | only a multipart upload in progress pauses, calling `onPause` if given; otherwise nothing changes |
| TransferTask.AfterResume | packages/storage/src/providers/s3/utils/transferTask.ts:89-97 | only a paused multipart upload resumes, calling `onResume` if given; otherwise nothing changes |
| TransferTask.AfterJob | packages/storage/src/providers/s3/utils/transferTask.ts:37-50 | success gives SUCCESS; a cancel error gives CANCELED and rethrows the recorded error or else the original; any other error gives ERROR and rethrows it |
| TransferTask.CancelCountAppend | packages/storage/src/providers/s3/utils/transferTask.ts:81-98 | appending `onPause`/`onResume` calls does not add to the `onCancel` count |
| TransferTask.InvAfterCancel | packages/storage/src/providers/s3/utils/transferTask.ts:27-32 | `cancel` keeps "at most one `onCancel`, and only on a stopped task" |
| TransferTask.InvAfterPause | packages/storage/src/providers/s3/utils/transferTask.ts:80-88 | `pause` keeps the invariant |
| TransferTask.InvAfterResume | packages/storage/src/providers/s3/utils/transferTask.ts:89-97 | `resume` keeps the invariant |
| TransferTask.OnCancelAtMostOnce | packages/storage/src/providers/s3/utils/transferTask.ts:22-97 | after any sequence of calls the invariant holds, and the callback log only grows |
| TransferTask.TerminalIsFinal | packages/storage/src/providers/s3/utils/transferTask.ts:25-98 | a stopped task is left as it is by cancel, pause and resume |
| TransferTask.PauseResume | packages/storage/src/providers/s3/utils/transferTask.ts:80-97 | pause then resume returns a running multipart upload to IN_PROGRESS, having called `onPause` then `onResume` |
| TransferTask.Task.CreateDownloadTask | packages/storage/src/providers/s3/utils/transferTask.ts:18-57 | a new download task is IN_PROGRESS with nothing recorded |
| TransferTask.Task.CreateUploadTask | packages/storage/src/providers/s3/utils/transferTask.ts:67-101 | a new upload task is IN_PROGRESS with nothing recorded |
| TransferTask.Task.Cancel | packages/storage/src/providers/s3/utils/transferTask.ts:25-33 | the fields change as `AfterCancel` says; the invariant is kept |
| TransferTask.Task.Pause | packages/storage/src/providers/s3/utils/transferTask.ts:80-88 | the fields change as `AfterPause` says; the invariant is kept |
| TransferTask.Task.Resume | packages/storage/src/providers/s3/utils/transferTask.ts:89-97 | the fields change as `AfterResume` says; the invariant is kept |
| TransferTask.Task.Settle | packages/storage/src/providers/s3/utils/transferTask.ts:37-50 | the state and the returned outcome are those of `AfterJob`; the invariant is kept |
| DeviceKeyTokenManager.LoadFrom | packages/auth/src/storage/DeviceKeyTokenManager.ts:24-38 | a record iff all three values are present and non-empty, each field from its own key |
| DeviceKeyTokenManager.StoreInto | packages/auth/src/storage/DeviceKeyTokenManager.ts:40-54 | exactly the three keys are added or overwritten with their values; every other key is kept |
| DeviceKeyTokenManager.ClearFrom | packages/auth/src/storage/DeviceKeyTokenManager.ts:55-60 | exactly the three keys are removed; every other entry is kept |
| DeviceKeyTokenManager.LoadAfterStore | packages/auth/src/storage/DeviceKeyTokenManager.ts:24-54 | with distinct keys, loading after storing non-empty tokens returns them |
| DeviceKeyTokenManager.LoadAfterStoreEmpty | packages/auth/src/storage/DeviceKeyTokenManager.ts:30-54 | with distinct keys, storing an empty token makes the next load return null |
| DeviceKeyTokenManager.LoadAfterClear | packages/auth/src/storage/DeviceKeyTokenManager.ts:24-60 | loading after clearing returns null |
| DeviceKeyTokenManager.StoreLoaded | packages/auth/src/storage/DeviceKeyTokenManager.ts:24-54 | storing the tokens just loaded leaves the storage as it was |
| DeviceKeyTokenManager.KeyValueStorage.constructor | packages/auth/src/storage/DeviceKeyTokenManager.ts:14 | the storage starts with the given contents |
| DeviceKeyTokenManager.KeyValueStorage.GetItem | packages/auth/src/storage/DeviceKeyTokenManager.ts:25 | the stored value, or null when the key is absent |
| DeviceKeyTokenManager.KeyValueStorage.SetItem | packages/auth/src/storage/DeviceKeyTokenManager.ts:50 | writes one key |
| DeviceKeyTokenManager.KeyValueStorage.RemoveItem | packages/auth/src/storage/DeviceKeyTokenManager.ts:57 | removes one key |
| DeviceKeyTokenManager.DeviceKeyTokenManager.constructor | packages/auth/src/storage/DeviceKeyTokenManager.ts:17-22 | the keys are fixed once, from the client id |
| DeviceKeyTokenManager.DeviceKeyTokenManager.LoadTokens | packages/auth/src/storage/DeviceKeyTokenManager.ts:24-38 | returns what `LoadFrom` gives for the current storage, and changes nothing |
| DeviceKeyTokenManager.DeviceKeyTokenManager.StoreTokens | packages/auth/src/storage/DeviceKeyTokenManager.ts:40-54 | the storage becomes `StoreInto` of the old storage |
| DeviceKeyTokenManager.DeviceKeyTokenManager.ClearTokens | packages/auth/src/storage/DeviceKeyTokenManager.ts:55-60 | the storage becomes `ClearFrom` of the old storage |

## Left out

- **The `signInStore` reducer** is not part of this model. `SignInStore.Reduce` assumes each SET_* action sets only its own field, and that SET_INITIAL_STATE empties all three.
- **`handleChallengeName`**, which `confirmSignIn` calls, is not part of this model. It is the `ChallengeHandler` parameter.
- **`signInWithCustomAuth`**, which `signIn` routes CUSTOM_WITHOUT_SRP to, is not part of this model. It is a parameter of `SignIn.SignIn` that gives the store actions that flow dispatches, its result and the requests it sends; `SignIn.SignIn` replays those actions on the store.
- **Network clients** are not modelled: `initiateAuthClient`, `respondToAuthChallengeClient` and `verifySoftwareTokenClient` are I/O. They are the `Service` parameter, and a thrown service error is a `Failure`.
- **`assertServiceError`** is not part of this model. Errors pass through it unchanged.
- **SRP cryptography** is not modelled; it is foreign code, and what the model uses of it is the `SrpContext` parameter:
  - `AuthenticationHelper` and `BigInteger` give the number A, which `getLargeAValue` resolves with; when the helper reports an error, it resolves with no value (`largeA` is `None`), and `.toString(16)` then throws a TypeError before any request;
  - `getPasswordAuthenticationKey` is `deriveKey`, which may fail;
  - SHA-256/HMAC is `hmacSha256`, and `getSignatureString` as the verifier calls it is `sign`, which may fail; `AuthUtils.GetSignatureString` models its body;
  - `TextEncoder` is `encode`;
  - `atob`/`btoa` are parameters that may fail: `atob` throws on a string that is not base64, and either throws a TypeError when no implementation is found.
- **`randomBytes`, `hash` and `hexHash`** only call a foreign digest, so they are not modelled.
- **One `AuthenticationHelper` per helper call:** each helper creates its own, and the model uses one `SrpContext` per sign-in attempt.
- **`new Date()`** in `getNowString` is replaced by its UTC fields, given as a parameter; the `dateNow` used by the verifier is a field of `SrpContext`.
- **`JSON.parse`** in `signInHelpers.ts`'s `parseAttributes` is a parameter, which may fail.
- **`console.log`** is not modelled.
- **Promises and concurrency** are not modelled: awaits are sequential calls.
  - `Promise.all` in `storeTokens` and `clearTokens` becomes sequential writes to distinct keys.
  - The transfer task's job runs as a separate `Settle` call, in any order with the other calls.
- **`isCancelError`** is not part of this model. Each job error carries the answer as a flag.
- **The transfer task's callbacks** are not called; the task records which ones it invoked, in order.
- **`getCognitoKeys`, `KEY_PREFIX` and `CognitoDeviceKey`** are not part of this model. The key derivation is a function parameter of the constructor.
- **`confirmSignIn`'s `options.serviceOptions`** are passed on unread, as an optional record.
- **The unused `Session`** destructured in `signInWithSRP.ts` and `signInWithCustomSRPAuth.ts` is dropped, as are the commented-out lines of `signInWithSRP.ts`.
- **`TOTPSetupDetails` and `allowedMFATypes`** are modelled as the empty objects the mappings always fill in.
- **`AuthUtils.GetSignInResult`** uses the published step names for MFA_SETUP, SELECT_MFA_TYPE, SMS_MFA and SOFTWARE_TOKEN_MFA, which is what the rest of the model uses; `AuthUtils.GetSignInResultAsWritten` models the undefined steps of the code as written. See Findings.
- **`SignInWithSrp.SignInWithSrp`** uses `handleChallengeHelper.ts`'s four-parameter verifier. That is the evidently intended call; see Findings.
- **Text.ToLower** lower-cases ASCII letters only; JavaScript's `toLowerCase` also lowers other Unicode capitals, and can change the length.
- **AuthUtils.HexDecode** counts a string's length in code points, where JavaScript counts UTF-16 units. A string with a character outside the Basic Multilingual Plane can therefore fail here with the odd-length error, where the source reports an unrecognized sequence. It also lower-cases as `Text.ToLower` does. Which strings decode successfully is unaffected.
- **AuthUtils.HexDecodeFirstBad** names the offending pair lower-cased by `Text.ToLower`, so for a non-ASCII capital the message differs from the source's.
- **An unconfigured user-pool id** is not modelled: `AuthTypes.AmplifyConfig` holds both pool ids as strings. When one is undefined, `userPoolId.split('_')` throws a TypeError before any request is made; the model does not represent that case.
- **`getNextSignInStep`**, which `signInWithSRP.ts` imports, is not defined in `AuthUtils.ts`. It is modelled as `AuthUtils.getSignInResult`.

## Findings

| source | as written | input that shows it | evidently intended | confidence | as-written member | corrected member |
|---|---|---|---|---|---|---|
| packages/auth/src/providers/cognito/apis/signInWithSRP.ts:43-48 | passes `(username, password, challengeParameters, clientMetaData)` to the three-parameter `handlePasswordVerifierChallenge` of `IniateAuthAndRespondToAuthChallengeHelper.ts`; by position the password parameter gets the user name, the challenge parameters get the password string, and the metadata gets the real challenge parameters | any valid username and password whose initiation succeeds: the verifier reads `SECRET_BLOCK` of a string, `getSignatureString` throws, and no PASSWORD_VERIFIER answer is sent | answer PASSWORD_VERIFIER with the password and the parameters returned by the initiation, as `handleChallengeHelper.ts:35-81` does with the same four arguments | high that as written this never signs in; not executed | SignInWithSrp.SignInWithSrpAsWritten, SignInWithSrp.AsWrittenNeverSignsIn | SignInWithSrp.SignInWithSrp, SignInWithSrp.SignInWithSrpCompletes |
| packages/auth/src/providers/cognito/utils/AuthUtils.ts:264-312 | reads `AuthSignInStep.CONFIRM_SIGN_IN_WITH_SOFTWARE_TOKEN_MFA_SETUP`, `CONFIRM_SIGN_IN_WITH_MFA_SELECTION`, `CONFIRM_SIGN_IN_WITH_SMS_MFA_CODE` and `CONFIRM_SIGN_IN_WITH_SOFTWARE_TOKEN_MFA_CODE`, none of which the enumeration in `types/enums.ts:15-33` defines, so the step is undefined | a custom SRP sign-in whose verifier answer asks for SMS_MFA returns a next step with no step name, the same as for SOFTWARE_TOKEN_MFA, MFA_SETUP and SELECT_MFA_TYPE | the published names `signInHelpers.ts:309-357` uses for these challenges: CONTINUE_SIGN_IN_WITH_TOTP_SETUP, CONTINUE_SIGN_IN_WITH_MFA_SELECTION, CONFIRM_SIGN_IN_WITH_SMS_CODE and CONFIRM_SIGN_IN_WITH_TOTP_CODE | high that the step is undefined at run time; not executed | AuthUtils.GetSignInResultAsWritten, AuthUtils.AsWrittenStepsCollapse | AuthUtils.GetSignInResult, AuthUtils.GetSignInResultOneToOne |
