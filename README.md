# LeaseClarityPRO core, modelled in Dafny

LeaseClarityPRO lets a tenant upload a lease PDF, get an AI summary and a tenant-rights
review, ask questions about the lease, and reset a forgotten password with a one-time
code. This project models the logic of that system: the Express server's services,
configuration and middleware, and the React client's zustand stores and the components
that drive them.

Server side:
- `summarizeLease`: finding the JSON object in the model's reply, and turning each failure into an error record.
- The reset-code helpers and service:
  - six-digit codes;
  - one live e-mail code per address;
  - the sixty-second phone rate limit;
  - verify-and-reset.
- The tenant-rights rules check, with its two regular expressions.
- Shaping OpenStates search results into bill records.
- JWT signing and verification.
- The bearer-token middleware.
- The last-resort error handler.
- The upload filter and the stored file name.

Client side:
- The stores: the session, leases, chat, the reset dialog and rights.
- The components that drive them:
  - the reset dialog;
  - the lease summary card;
  - the tenant-rights panel;
  - the chat panel;
  - the sign-in form;
  - the lease review page;
  - the upload form.
- The HUD link table.

Layout:
- One module per source file, plus two shared modules:
  - `JsText` holds the JavaScript string operations the code relies on (`trim`, `toLowerCase`, `slice`, `padStart`, `split`, decimal numerals).
  - `Outcomes` holds `Option`, the value a `catch` receives, and the two ways a `fetch` can end.
- Stores and database tables are classes whose methods update fields in place. Pure helpers are functions.
- Every asynchronous action takes "how the request ended" as a parameter. That value is either the thrown value or the status flag with the parsed body.
- Clocks, random bytes, hashing, JSON parsing and library calls are parameters too.

The lease-summary extraction applies the greedy regular expression `/\{[\s\S]*\}/`, which runs from the first `{` to the last `}`.

## Model

| member | source | states |
|---|---|---|
| OpenAiService.JsonMatch | Server/src/services/openai.service.ts:33-34 | a match exists exactly when some `}` follows some `{`; it is the span from the first `{` to the last `}` |
| OpenAiService.JsonMatchIdempotent | Server/src/services/openai.service.ts:34 | matching the extracted span again gives the same span |
| OpenAiService.SurroundingProseDropped | Server/src/services/openai.service.ts:34-45 | prose before the object (no `{`) and after it (no `}`) is cut away, so exactly the object reaches the parser |
| OpenAiService.NoBracesNoJson | Server/src/services/openai.service.ts:36-42 | a reply without a `{`...`}` pair, or with null content, gives the "No JSON found" record with the raw content, and the parser is never consulted |
| OpenAiService.SummarizeLease | Server/src/services/openai.service.ts:33-60 | a parsed result is exactly what the parser gives for the extracted span; a span the parser rejects gives the parse-failure record with the raw content; the details record appears exactly when the completion call failed |
| OpenAiService.SummaryOutcomes | Server/src/services/openai.service.ts:33-60 | the parsed value is returned unchanged exactly when a span exists and parses; a raw record carries the parse-failure message exactly when a span was found, and the "no JSON" message otherwise; a failed call gives the details record; the function never throws |
| OtpUtils.SixDigitCode | Server/src/utils/otpUtils.ts:6-8 | always six decimal digits, leading zeros kept, and reading them back gives the value modulo one million |
| OtpUtils.SixDigitCodeSame | Server/src/utils/otpUtils.ts:6-8 | two draws give the same code exactly when they agree modulo one million |
| OtpUtils.SixDigitCodeOf42 | Server/src/utils/otpUtils.ts:7-8 | 42 is written `000042` |
| OtpUtils.GenerateSixDigitCode | Server/src/utils/otpUtils.ts:5-9 | six digits whose value is the four random bytes, read big-endian, modulo one million |
| OtpUtils.StoreLeavesOneRecord | Server/src/utils/otpUtils.ts:16-22 | after a store the address has exactly one record, the new one |
| OtpUtils.StoreKeepsOtherEmails | Server/src/utils/otpUtils.ts:16 | other addresses' records are unchanged and in order |
| OtpUtils.StoredRecordIsLatest | Server/src/utils/otpUtils.ts:16-22 | the record verification picks for the address is the one just stored |
| OtpUtils.StoreKeepsUnique | Server/src/utils/otpUtils.ts:16-22 | the one-row-per-e-mail constraint survives a store |
| OtpUtils.StoreOtpInDatabase | Server/src/utils/otpUtils.ts:12-23 | the address's rows are replaced by one row holding the hash (never the code), expiring five minutes later; the other tables are untouched |
| OtpTables.ForEmail | Server/src/services/otp.service.ts:75-86 | exactly the rows of the address |
| OtpTables.ExceptEmail | Server/src/services/otp.service.ts:116-125 | exactly the rows of other addresses |
| OtpTables.ExceptEmailKeepsOthers | Server/src/services/otp.service.ts:116-125 | deleting one address's rows leaves every other address's rows as they were |
| OtpTables.Latest | Server/src/services/otp.service.ts:75-86 | none exactly when the address has no row; otherwise a row of the address whose creation time is the greatest |
| OtpTables.RecentRequests | Server/src/services/otp.service.ts:24-41 | exactly the phone's rows created within the window |
| OtpService.ParseHexOfHex | Server/src/services/otp.service.ts:16-20 | reading the hex spelling of the bytes back gives their big-endian value |
| OtpService.GenerateSecureOtp | Server/src/services/otp.service.ts:16-20 | six digits whose value is the three random bytes (at most 16777215) modulo one million |
| OtpService.IssuedCodeBlocksForAMinute | Server/src/services/otp.service.ts:24-41 | any request for the same phone within sixty seconds of an issued code is refused |
| OtpService.QuietPhoneNotBlocked | Server/src/services/otp.service.ts:24-41 | a phone with no request in the window is never refused, whatever other phones did |
| OtpService.GenerateOtpForPhone | Server/src/services/otp.service.ts:23-63 | refused with "Too many requests" exactly when the phone has a request under sixty seconds old, changing nothing and sending nothing; otherwise one hashed row expiring in five minutes is appended first and the SMS with the code is sent after it, so a failed send rejects with the row kept |
| OtpService.UpdatePassword | Server/src/services/otp.service.ts:102-114 | only the address's password hash changes, and nothing changes when there is no such user |
| OtpService.VerifyOtpAndResetPassword | Server/src/services/otp.service.ts:66-126 | consults only the latest record; "expired or not found" exactly when it is missing or past expiry; "incorrect" exactly when bcrypt rejects; otherwise the password hash is replaced and every code of the address is deleted; a refusal changes nothing |
| OtpService.ResetConsumesCode | Server/src/services/otp.service.ts:116-125 | after a reset the address has no record, so the same code is refused |
| OtpService.FreshCodeAcceptedUntilExpiry | Server/src/services/otp.service.ts:93-95 | a freshly stored code is accepted up to 300000 ms after issue, inclusive, and refused after that |
| RightsService.RegexTestMeansWordsInOneLine | Server/src/services/rights.service.ts:50-62 | a case-insensitive `w1.*w2.*...` test succeeds exactly when some line of the lease holds the words in order |
| RightsService.PatternsReadPlainly | Server/src/services/rights.service.ts:50-62 | the notice pattern and the late-fee pattern, each read as "these words in order on one line, case ignored" |
| RightsService.AnalyzeLeaseByState | Server/src/services/rights.service.ts:30-65 | unreadable rules give one "unable to load" message; an unknown state gives one "no rights data" message; otherwise the notice message comes first and the late-fee message last, each present exactly when its rule exists and its pattern matches |
| RightsService.KeepLinked | Server/src/services/rights.service.ts:103-112 | never more records than bills, and every record's link starts with `http` |
| RightsService.Link | Server/src/services/rights.service.ts:104-110 | a link exactly when the first source url is a string starting with `http` |
| RightsService.KeepLinkedAppend | Server/src/services/rights.service.ts:104-113 | bills are kept in their input order |
| RightsService.KeptExactlyLinked | Server/src/services/rights.service.ts:104-113 | a record is produced exactly when some bill has that title and date and a web link |
| RightsService.KeepLinkedAllLinked | Server/src/services/rights.service.ts:104-113 | when every bill has a web link, each one is kept at its own position with its title, link and date copied |
| RightsService.AsRawBill | Server/src/services/rights.service.ts:104-109 | an object element is read as its bill; a primitive element reads every field as undefined, so it has no link |
| RightsService.Mapped | Server/src/services/rights.service.ts:104-109 | one mapped bill per element, in order |
| RightsService.PrimitivesYieldNothing | Server/src/services/rights.service.ts:104-113 | a record is produced exactly when some object element has a web link and that record's title and date; primitive elements produce nothing |
| RightsService.FetchOpenStatesBills | Server/src/services/rights.service.ts:67-119 | no jurisdiction, a thrown request, a non-OK answer, a missing `results` or a `null` element gives the empty list; otherwise the result is exactly the linked bills of the mapped elements, in order; every bill returned has an `http` link |
| AuthMiddleware.BearerToken | Server/src/middleware/auth.ts:17 | the text after `Bearer ` up to the next space |
| AuthMiddleware.BearerTokenIgnoresTrailingWords | Server/src/middleware/auth.ts:17 | for every token without a space, `Bearer <token> <anything>` yields exactly that token |
| AuthMiddleware.Decide | Server/src/middleware/auth.ts:8-27 | an absent header, or one without the exact `Bearer ` prefix, is refused as missing; otherwise the verifier's outcome decides |
| AuthMiddleware.EmptyTokenRefused | Server/src/middleware/auth.ts:17-23 | with a secret set, `Bearer ` followed by nothing or by a second space is refused as a missing token |
| AuthMiddleware.PrefixIsExact | Server/src/middleware/auth.ts:13-16 | `bearer x` and `Bearerx` are refused: the prefix is case-sensitive and needs the space |
| AuthMiddleware.AuthenticateJWT | Server/src/middleware/auth.ts:8-27 | either a 401 answer is written and `next` is not called, or the user is set and `next` is called exactly once |
| JwtConfig.SignJwt | Server/src/config/jwt.ts:25-45 | without a secret, the "no secret" record; otherwise the signer's token, or the sign-failure record with the error's details |
| JwtConfig.VerifyErrorMessage | Server/src/config/jwt.ts:63-68 | the expired message exactly for an expiry error, the invalid message exactly for another token error, and the unknown message otherwise |
| JwtConfig.VerifyJwt | Server/src/config/jwt.ts:47-75 | a missing secret is reported first, then an empty token; otherwise the verified claims, or the error record chosen by the error's class |
| JwtConfig.NoSecretIgnoresEverythingElse | Server/src/config/jwt.ts:48-53 | without a secret neither the token nor the library matters |
| JwtConfig.EmptyTokenNeverReachesLibrary | Server/src/config/jwt.ts:54-59 | with a secret set, an empty token is refused whatever the library would say |
| JwtConfig.NoSecretNeverSigns | Server/src/config/jwt.ts:29-34 | signing without a secret never consults the signer |
| JwtConfig.SignDefaultsToTwoHours | Server/src/config/jwt.ts:27 | omitting `expiresIn` is the same as passing `2h` |
| JwtConfig.ErrorMessagesAreFixed | Server/src/config/jwt.ts:47-75 | every error record carries one of the fixed messages |
| ErrorHandler.HandleError | Server/src/middleware/errorHandler.ts:14-38 | 413 exactly for multer's size-limit error; 400 for other multer errors, the PDF refusal and validation errors; 502 exactly for a string `error` property; 500 for anything else |
| ErrorHandler.BadRequestCases | Server/src/middleware/errorHandler.ts:14-31 | the exact cases that get 400 |
| ErrorHandler.UnknownValuesAre500 | Server/src/middleware/errorHandler.ts:38 | a value that is not an `Error` and has no string `error` gets the generic 500 |
| MulterConfig.FileFilter | Server/src/config/multer.ts:24-29 | accepts exactly `application/pdf`, and refuses with the PDF-only error otherwise |
| MulterConfig.FilterRejectionIs400 | Server/src/config/multer.ts:24-29 | a refused upload reaches the client as 400 with the filter's message |
| MulterConfig.UploadError | Server/src/config/multer.ts:21-30 | no error exactly for a PDF of at most 10 MiB; any other type gets the filter's error whatever its size, since the filter runs first; a PDF over 10 MiB gets `LIMIT_FILE_SIZE` |
| MulterConfig.UploadRefusalStatus | Server/src/config/multer.ts:21-30 | a refused upload gets 413 exactly when it is a PDF over 10 MiB; every other type gets 400 with "Only PDF files are allowed", whatever its size |
| MulterConfig.SizeLimitIs413 | Server/src/config/multer.ts:23 | an over-limit upload becomes 413 whatever multer's message |
| MulterConfig.StoredFilename | Server/src/config/multer.ts:14-18 | the name ends in `-` plus the original name and begins with the decimal timestamp up to the first `-` |
| MulterConfig.DistinctInstantsDistinctNames | Server/src/config/multer.ts:14-18 | uploads at different milliseconds get different names, whatever the original names |
| AuthStore.Project | Client/src/store/useAuthStore.ts:43-49 | the kept user has exactly the answer's id, e-mail and names |
| AuthStore.Settled | Client/src/store/useAuthStore.ts:31-61 | loading ends false; what happens to the session is proved in `RefusalKeepsSession` and `AcceptanceReplacesSession` |
| AuthStore.StoredAfter | Client/src/store/useAuthStore.ts:54-55 | storage changes only for an accepted answer |
| AuthStore.RefusalKeepsSession | Client/src/store/useAuthStore.ts:39-41 | a refused or failed attempt keeps the session that was there; a refusal carrying an `error` keeps exactly that value, text or `true`, and otherwise the fallback text; the answer's `message` is never read |
| AuthStore.RefusalText | Client/src/store/useAuthStore.ts:40 | the corrected choice: the answer's `error` when it is text, otherwise its `message`, otherwise the fallback |
| AuthStore.AcceptanceReplacesSession | Client/src/store/useAuthStore.ts:43-53 | on success the session is exactly the answer's token and projected user, with no error |
| AuthStore.GetStoredAuth | Client/src/store/useAuthStore.ts:5-13 | the stored token as it is, and the user parsed from non-empty stored text |
| AuthStore.ReloadRestoresSession | Client/src/store/useAuthStore.ts:26 | after a successful login a reload restores the same session |
| AuthStore.LogoutSurvivesReload | Client/src/store/useAuthStore.ts:98-102 | after logging out a reload starts with no session |
| AuthStore.Store.constructor | Client/src/store/useAuthStore.ts:25-28 | the store starts from the stored session, idle, with no error |
| AuthStore.Store.Login | Client/src/store/useAuthStore.ts:30-62 | the state settles with the answer, using the login fallback, and storage follows `StoredAfter` |
| AuthStore.Store.Register | Client/src/store/useAuthStore.ts:64-96 | the same, with the registration fallback |
| AuthStore.Store.Logout | Client/src/store/useAuthStore.ts:98-102 | session and error cleared, loading untouched, both keys removed |
| LeaseStore.Without | Client/src/store/useLeaseStore.ts:113-116 | exactly the leases whose id differs |
| LeaseStore.WithoutAppend | Client/src/store/useLeaseStore.ts:114 | the remaining leases keep their order |
| LeaseStore.WithoutIdempotent | Client/src/store/useLeaseStore.ts:89-126 | deleting the same lease twice leaves the list as the first deletion did |
| LeaseStore.WithoutAbsent | Client/src/store/useLeaseStore.ts:89-126 | deleting an id the list does not hold changes nothing |
| LeaseStore.Store.constructor | Client/src/store/useLeaseStore.ts:35-49 | the store starts from the initial state |
| LeaseStore.Store.Reset | Client/src/store/useLeaseStore.ts:229 | every field back to the initial state |
| LeaseStore.Store.SetUploading | Client/src/store/useLeaseStore.ts:54 | only `uploading` changes |
| LeaseStore.Store.OpenQuickLook | Client/src/store/useLeaseStore.ts:167-176 | the quick look opens on this lease with nothing loaded |
| LeaseStore.Store.CloseQuickLook | Client/src/store/useLeaseStore.ts:178-187 | every quick-look field and the file name are cleared |
| LeaseStore.Store.ClearLeaseSummary | Client/src/store/useLeaseStore.ts:225-227 | only the summary and its error are cleared |
| LeaseStore.Store.FetchLeases | Client/src/store/useLeaseStore.ts:56-87 | a refusal, a throw or a body without leases empties the list and sets the error; otherwise the list is the answer's |
| LeaseStore.Store.RemoveLease | Client/src/store/useLeaseStore.ts:89-126 | on success exactly the leases with this id leave; on failure the list is kept and the error is set |
| LeaseStore.Store.FetchLeaseSummary | Client/src/store/useLeaseStore.ts:128-165 | the old summary is always dropped; a refusal also drops the file name; a throw keeps it |
| LeaseStore.Store.FetchQuickLookSummary | Client/src/store/useLeaseStore.ts:189-223 | only the quick-look text, loading and error change |
| ChatStore.Store.constructor | Client/src/store/useChatStore.ts:19-31 | closed, empty and idle |
| ChatStore.Store.Toggle | Client/src/store/useChatStore.ts:20-26 | opening keeps the conversation; closing discards it |
| ChatStore.Store.AddMessage | Client/src/store/useChatStore.ts:28-29 | appends at the end, earlier messages unchanged and in order |
| ChatStore.Store.ClearMessages | Client/src/store/useChatStore.ts:30 | the conversation is emptied, nothing else changes |
| ChatStore.Store.SetLoading | Client/src/store/useChatStore.ts:32 | only `loading` changes |
| OtpStore.Store.constructor | Client/src/store/useOtpStore.ts:19-22 | closed, no e-mail, first step, no token |
| OtpStore.Store.OpenModal | Client/src/store/useOtpStore.ts:24-31 | whatever step the flow was at, it starts over, open |
| OtpStore.Store.CloseModal | Client/src/store/useOtpStore.ts:33-40 | the same resets, closed |
| OtpStore.Store.SetEmail | Client/src/store/useOtpStore.ts:42 | only the e-mail changes |
| OtpStore.Store.SetStep | Client/src/store/useOtpStore.ts:44 | only the step changes |
| RightsStore.Store.constructor | Client/src/store/useRightsStore.ts:13-14 | empty analysis and bills |
| RightsStore.Store.SetAnalysis | Client/src/store/useRightsStore.ts:15 | only the analysis changes |
| RightsStore.Store.SetBills | Client/src/store/useRightsStore.ts:16 | only the bills change |
| RightsStore.Store.ClearRightsAnalysis | Client/src/store/useRightsStore.ts:17 | both lists emptied |
| OtpResetModal.NormalizeEmail | Client/src/components/OtpResetModal.tsx:36 | the normalised address has no capital letter left |
| OtpResetModal.NormalizeEmailIdempotent | Client/src/components/OtpResetModal.tsx:36 | normalising twice is normalising once |
| OtpResetModal.NormalizeEmailIgnoresPaddingAndCase | Client/src/components/OtpResetModal.tsx:36 | white space around the address and letter case never change the normalised address |
| OtpResetModal.EmailRegexMeansPlainShape | Client/src/components/OtpResetModal.tsx:38-39 | the format test passes exactly for one `@`, no white space, and a `.` with text on both sides after the `@` |
| OtpResetModal.EmailRegexExamples | Client/src/components/OtpResetModal.tsx:38-39 | `a@b.co` passes and `a@bco` fails |
| OtpResetModal.EmailCheck | Client/src/components/OtpResetModal.tsx:36-49 | the normalised address is sent exactly when it passes the format test and reCAPTCHA is ready, with the format refusal checked first |
| OtpResetModal.FailureTextAsWritten | Client/src/components/OtpResetModal.tsx:64 | the choice made here and again at line 102: the answer's `message` when it has one, and otherwise the fallback; the answer's `error` is never read |
| OtpResetModal.FailureText | Client/src/components/OtpResetModal.tsx:102 | the corrected choice: the answer's `error` first, then its `message`, then the fallback |
| OtpResetModal.ServerReasonLost | Client/src/components/OtpResetModal.tsx:102 | for every answer with an `error` and no `message`, the dialog as written shows the fallback while the corrected choice shows the error |
| OtpResetModal.ControllerRefusalsShowFallback | Client/src/components/OtpResetModal.tsx:64 | the controller's `{ error: "Captcha verification failed." }` shows the send fallback and `{ error: "Incorrect OTP." }` the verify fallback |
| OtpResetModal.ResetForm.constructor | Client/src/components/OtpResetModal.tsx:12-19 | every field empty, not loading |
| OtpResetModal.ResetForm.OnOpenOrStepChange | Client/src/components/OtpResetModal.tsx:21-28 | the fields are cleared exactly when the dialog is open at the first step |
| OtpResetModal.ResetForm.HandleEmailSubmit | Client/src/components/OtpResetModal.tsx:32-75 | an address is sent exactly when `EmailCheck` allows it; the step moves to code entry only on an OK answer; a refusal shows the answer's `message` or the fallback, as `FailureTextAsWritten` chooses; loading always ends false |
| OtpResetModal.ResetForm.HandleOtpSubmit | Client/src/components/OtpResetModal.tsx:77-112 | incomplete fields are reported before a mismatch; a request with the normalised address is sent exactly when the fields are complete and match; a refusal shows the answer's `message` or the fallback, as `FailureTextAsWritten` chooses; only an OK answer closes the dialog |
| LeaseSummaryCard.Lookup | Client/src/components/LeaseSummaryCard.tsx:56-57 | none exactly when the summary has no such key |
| LeaseSummaryCard.LookupFindsOwnValue | Client/src/components/LeaseSummaryCard.tsx:56-57 | in an object, where each key occurs once, looking a key up gives the value stored under it |
| LeaseSummaryCard.ExtraEntriesMembers | Client/src/components/LeaseSummaryCard.tsx:45-47 | the raw section holds exactly the summary's entries with a non-standard key |
| LeaseSummaryCard.ExtraEntriesAppend | Client/src/components/LeaseSummaryCard.tsx:45-47 | the raw section keeps the object's key order |
| LeaseSummaryCard.ExtraFieldsPartition | Client/src/components/LeaseSummaryCard.tsx:17-25 | every key of the summary is either a standard field or a raw one, never both |
| LeaseSummaryCard.ExtraEntriesExtremes | Client/src/components/LeaseSummaryCard.tsx:45-47 | only standard keys give no raw section; no standard key gives the whole summary |
| LeaseSummaryCard.StandardRows | Client/src/components/LeaseSummaryCard.tsx:53-62 | seven rows in the table's order, each showing the value when it is non-empty and "Not found" otherwise |
| LeaseSummaryCard.View | Client/src/components/LeaseSummaryCard.tsx:27-67 | a non-empty error wins, then a missing summary gives the placeholder, otherwise the rows with the raw section |
| TenantRightsPanel.GenerateKey | Client/src/components/TenantRightsPanel.tsx:4-6 | a key never holds a capital letter |
| TenantRightsPanel.GenerateKeyIgnoresPaddingAndCase | Client/src/components/TenantRightsPanel.tsx:4-6 | white space and letter case never change a key |
| TenantRightsPanel.SameKeySameIndex | Client/src/components/TenantRightsPanel.tsx:21 | the index can be read back from the key |
| TenantRightsPanel.DistinctIndicesDistinctKeys | Client/src/components/TenantRightsPanel.tsx:21 | items at different positions always get different keys, whatever their texts |
| TenantRightsPanel.ShownText | Client/src/components/TenantRightsPanel.tsx:19-20 | a missing field shows as empty text, a present one trimmed |
| TenantRightsPanel.ConcernList | Client/src/components/TenantRightsPanel.tsx:18-34 | one entry per item in order, numbered from 1, with pairwise-distinct keys |
| TenantRightsPanel.BillList | Client/src/components/TenantRightsPanel.tsx:47-60 | exactly the bills with a non-empty link, each with its date cut to ten characters |
| TenantRightsPanel.BillListAppend | Client/src/components/TenantRightsPanel.tsx:47-60 | the bills keep their order |
| TenantRightsPanel.BillsSectionOf | Client/src/components/TenantRightsPanel.tsx:45-66 | the placeholder exactly for an empty array, the list otherwise |
| TenantRightsPanel.LinklessBillsRenderNothing | Client/src/components/TenantRightsPanel.tsx:48-60 | bills without links render no entries |
| TenantRightsPanel.LinklessBillsRenderEmptyList | Client/src/components/TenantRightsPanel.tsx:45-65 | a non-empty array of link-less bills renders an empty list, not the placeholder |
| TenantRightsPanel.Panel | Client/src/components/TenantRightsPanel.tsx:8-79 | the "no concerns" text exactly for an empty analysis; the bills section; a HUD link that is never empty, because the panel uses the corrected `GetHudLinkByState` (as written, an inherited name such as `constructor` passes a function as the link, see Findings) |
| HudLinks.HudLinkAsWritten | Client/src/utils/getHUDLinkByState.ts:1-9 | the lookup as written is never absent, and an inherited property name yields a value that is not text |
| HudLinks.ConstructorIsNotALink | Client/src/utils/getHUDLinkByState.ts:8 | the state code `constructor` yields the `Object` function, not a URL |
| HudLinks.GetHudLinkByState | Client/src/utils/getHUDLinkByState.ts:1-9 | TX, CA and NY go to the HUD home page, every other code to the states page; never empty |
| HudLinks.AsWrittenAgreesOffPrototype | Client/src/utils/getHUDLinkByState.ts:7-9 | for every code that is not an inherited name, the code as written gives the corrected link |
| HudLinks.LookupIsCaseSensitive | Client/src/utils/getHUDLinkByState.ts:1-9 | `tx` falls back to the states page, while `TX` does not |
| LeaseChatbotModal.BotReply | Client/src/components/LeaseChatbotModal.tsx:45-57 | the answer or its default on OK; the refusal's error or its default otherwise; a thrown error's message, or the caught-value default |
| LeaseChatbotModal.ReplyDefaultsAreNonEmpty | Client/src/components/LeaseChatbotModal.tsx:47-57 | without server text the reply is one of the three fixed defaults |
| LeaseChatbotModal.ChatbotModal.AskQuestion | Client/src/components/LeaseChatbotModal.tsx:28-60 | a blank input or no lease changes nothing; otherwise exactly the trimmed question and one bot reply are appended, the input is cleared and loading ends false |
| AuthForm.ErrorLine | Client/src/components/AuthForm.tsx:95-99 | no line exactly when there is no error or the text is empty; a text error is shown as it is; `true` gives a line with nothing in it |
| AuthForm.ValidationRefusalShowsEmptyLine | Client/src/store/useAuthStore.ts:40 | every refusal whose `error` is `true`, as the validation middleware sends it, leaves an empty error line whatever its message |
| AuthForm.ValidationMessageShownWhenCorrected | Client/src/store/useAuthStore.ts:40 | read the corrected way, the validation refusal shows "Validation failed." |
| AuthForm.InitFields | Client/src/components/AuthForm.tsx:4-5 | two empty fields for logging in, four for registering |
| AuthForm.SwitchingTwiceRestoresMode | Client/src/components/AuthForm.tsx:12-20 | switching twice comes back to the same mode and its empty fields |
| AuthForm.Form.constructor | Client/src/components/AuthForm.tsx:8-9 | the login mode with empty e-mail and password |
| AuthForm.Form.SwitchMode | Client/src/components/AuthForm.tsx:12-20 | the other mode, with its own empty fields |
| AuthForm.Form.HandleChange | Client/src/components/AuthForm.tsx:22-24 | only the named field changes |
| AuthForm.Form.HandleSubmit | Client/src/components/AuthForm.tsx:26-33 | the fields go to login or register according to the mode, and the store settles with that action's fallback |
| LeaseReview.OneBadItemRefusesAll | Client/src/pages/LeaseReview.tsx:57-64 | one malformed item anywhere refuses the whole answer |
| LeaseReview.StoredAnalysis | Client/src/pages/LeaseReview.tsx:66 | every item of an accepted answer, in order |
| LeaseReview.StoredBills | Client/src/pages/LeaseReview.tsx:67 | the bills array when there is one, and otherwise empty |
| LeaseReview.FindLease | Client/src/pages/LeaseReview.tsx:28 | a lease with the id from the list, or none exactly when no lease has it |
| LeaseReview.RequestFor | Client/src/pages/LeaseReview.tsx:27-29 | a request exactly for a selected lease in the list with a non-empty token, for the stored state or TX |
| LeaseReview.ReviewPage.FetchRightsData | Client/src/pages/LeaseReview.tsx:25-78 | no request changes nothing; otherwise the summary and the analysis are cleared, only an OK accepted answer refills the store, and loading ends false |
| LeaseUploadForm.PreCheck | Client/src/components/LeaseUploadForm.tsx:20-28 | "no file" for an empty drop, and "PDF only" when the first file is not a PDF |
| LeaseUploadForm.UploadError | Client/src/components/LeaseUploadForm.tsx:46-52 | no error exactly on an OK answer; the server's error or its default on a refusal; the network text on a throw |
| LeaseUploadForm.ClientCheckMatchesServerFilter | Client/src/components/LeaseUploadForm.tsx:25-28 | the form lets a file through exactly when the server's filter accepts it |
| LeaseUploadForm.UploadForm.OnDrop | Client/src/components/LeaseUploadForm.tsx:18-56 | only the first file counts; a refused file sends nothing and leaves `uploading` alone; otherwise the callback fires exactly on an OK answer with the returned id, and `uploading` ends false |

## Left out

- External services are parameters and are not modelled:
  - the OpenAI completion call;
  - Twilio's SMS send (only whether it fails is an input), reCAPTCHA and the Resend e-mail service;
  - the OpenStates HTTP request and the client's `fetch`;
  - bcrypt's hash and compare, and jsonwebtoken's sign and verify;
  - `JSON.parse` and `JSON.stringify`;
  - `crypto.randomBytes` and `randomUUID`;
  - `Date.now()` and the database clock.
- The server and the database are assumed to share one clock. `NOW()` in the rate-limit query is taken as the same instant as the service's `now`.
- Case folding is ASCII only. The regular expressions fold with `/i` and no `u` flag, which for the lower-case ASCII patterns agrees with ASCII lower-casing, but `toLowerCase()` on non-ASCII letters is not modelled.
- JavaScript object key order follows insertion order, as a sequence of entries. Integer-like keys, which JavaScript lists first, are not treated specially.
- The rules table lookup `rules[state]` is modelled as a map lookup, without `Object.prototype` names.
- RightsService.FetchOpenStatesBills: the JSON body is reduced to the fields the mapping reads. Elements of `results` are a `null`, a primitive or an object. A primitive element reads every field as undefined, gets no link and is filtered out. Only a `null` element makes the mapping throw, which gives the empty list. A `results` member that is not an array is modelled as a missing one.
- The `'error' in payload` tests in the controllers are not part of this model.
- Concurrency between asynchronous actions is not modelled: each action runs to completion with the reply it is given.
- Several server files are not part of this model, because these parts are inputs or are not modelled:
  - `stateJurisdiction.ts` (`getJurisdictionSlug` is an input);
  - PDF text extraction;
  - the controllers and routes;
  - the request validation middleware.
- On the client, rendering, the DOM, `alert`, `console` and scroll effects are not modelled. Request headers and the token sent with a request are not modelled either.
- JSON numbers are modelled as integers.
- AuthStore.Settled: of the non-text `error` values only `true` is modelled. That is what the validation middleware sends. The object that the auth controller's own schema check would send (auth.controller.ts:19 and :58) is not modelled. It can be sent only when the middleware accepts a body that the controller rejects.
- LeaseSummaryCard.View: the values of the summary are text, as the card declares (`[key: string]: string`). The service forwards whatever the AI reply parsed to. A number value would render, with `0` shown as "Not found". A nested object would make the render throw. Neither case is modelled.
- A bill with a link but a non-string `updated` makes the panel's render throw. The model stores such a date as empty text instead.
- LeaseChatbotModal.BotReply: a thrown `null` or `undefined`, whose `.message` itself throws, is not modelled.
- LeaseUploadForm.UploadForm.OnDrop: an exception thrown by the success callback, which the form would report as a network error, is not modelled.
- The client type declarations (`types/rights.ts` and the others) are not part of this model; their shapes are the datatypes.

## Findings

| source | as written | input that shows it | evidently intended | confidence | as-written member | corrected member |
|---|---|---|---|---|---|---|
| Client/src/utils/getHUDLinkByState.ts:8 | `hudLinks[state] \|\| default` on a plain object also finds the names it inherits from `Object.prototype` | the state code `constructor` returns the `Object` function, which is truthy and is not a URL | only the table's own entries, and otherwise the states page | not executed | HudLinks.ConstructorIsNotALink | HudLinks.GetHudLinkByState |
| Client/src/store/useAuthStore.ts:40 | a refused login keeps `data?.error`, but the validation middleware in front of both auth routes answers `{ error: true, message: "Validation failed." }`; registration at line 74 does the same | a login whose body fails the schema leaves `true` in the store, and the form shows an empty error line | show the `error` when it is text, and otherwise the `message` | not executed | AuthForm.ValidationRefusalShowsEmptyLine | AuthStore.RefusalText |
| Client/src/components/OtpResetModal.tsx:64 | a refused send shows `data?.message`, but the OTP controller answers refusals with `{ error }` | the send answer `{ error: "Captcha verification failed." }` shows "Failed to send OTP. Please try again." | show the server's `error`, then `message`, then the fallback | not executed | OtpResetModal.ControllerRefusalsShowFallback | OtpResetModal.FailureText |
| Client/src/components/OtpResetModal.tsx:102 | a refused verification shows `data?.message`, but the OTP controller answers refusals with `{ error }` | the verify answer `{ error: "Incorrect OTP." }` shows "OTP verification failed." | show the server's `error`, then `message`, then the fallback | not executed | OtpResetModal.ServerReasonLost | OtpResetModal.FailureText |
