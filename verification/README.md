# JuaKazi Kenya backend — a Dafny model

JuaKazi Kenya is an Express/Mongoose job marketplace for casual work. This project models the logic of its backend as pure Dafny functions over immutable data and proves what that logic promises. Four parts are covered:

- **Job and application lifecycle (Mongoose version).**
  - Creating a job, with its defaults and schema validation.
  - Reading a job, which bumps its view count and re-runs the pre-save hook.
  - Applying, with three guards in a fixed order.
  - The two counter mechanisms:
    - The Application post-save and post-remove hooks add or subtract one with a raw update.
    - The Job pre-save hook re-derives `applicationsCount` from the embedded array.
  - The featured list, the categories table and the statistics.
- **Accounts.**
  - Registration, with duplicate phone and email checks.
  - Login, with its checks in a fixed order.
  - Phone verification with a ten-minute code.
  - Resending a code, resetting a password, and profile updates that strip restricted fields.
  - The User schema: enums, defaults, validators, the hash-only-when-modified hook and `toJSON`.
- **Input handling.**
  - `normalizePhone` and the registration, login and job-posting validators.
  - `formatPhoneNumber` and the SMS message templates.
- **The in-memory demo routes that the server actually mounts.** These are `routes/jobs.js` and `routes/users.js`:
  - `timeAgo`, featured, stats and categories;
  - the listing, find, view, apply and post, including the server error a job whose salary has no amount causes when it is rendered;
  - the user filter pipeline, worker and employer lists, and user detail;
  - reviews, popular skills and user statistics.

The database is a record of three sequences, one per collection. The unique indexes are predicates on those sequences. Other choices:

- The clock, `Math.random`, bcrypt hashing and comparison are parameters of the operations that use them.
- Most request bodies are JavaScript values (`Js.Value`), with JavaScript's truthiness and a decimal subset of `Number(...)` written out. Some inputs hold strings or optional strings instead:
  - the registration body (`Validation.RegistrationBody`);
  - the job-posting body's title and description (`Validation.JobPostingBody`);
  - the cover message of `JobController.ApplyForJob`;
  - the phone and password of `AuthController.Login`;
  - the phone and new password of `AuthController.ResetPassword`;
  - the user-list query (`UserRoutes.Query`);
  - the SMS alert's job (`SmsService.AlertJob`).
- Each failure is a constructor of an error datatype; HTTP status codes are not modelled.

Modules follow the source files:

| module | models |
|---|---|
| `Js`, `Text`, `Seqs`, `Wrappers` | JavaScript values and conversions, string helpers, filters, tallies and sorting |
| `Documents` | Mongoose casting of String, Number and Boolean paths |
| `JobSchema` | `backend/models/jobs.js` |
| `ApplicationSchema` | `backend/models/application.js` |
| `UserSchema` | `backend/models/user.js` |
| `Store` | the three collections, their unique indexes, and saving and removing an Application |
| `Validation` | `backend/middleware/validation.js` |
| `SmsService` | `backend/services/smsService.js` |
| `JobController` | `backend/controllers/jobControllers.js` |
| `AuthController` | `backend/controllers/authController.js` |
| `JobRoutes` | `backend/routes/jobs.js` |
| `UserRoutes` | `backend/routes/users.js` |

Two behaviours of the code are easy to misread:

- **Phone normalisation.** `normalizePhone` only removes white space and non-digits, so `0712345678` stays `0712345678` (`backend/middleware/validation.js:6-9`; `Validation.NormalizePhoneKeepsLocalPrefix`). `register` stores the phone as submitted, trimmed. Only `formatPhoneNumber` in the SMS service rewrites prefixes to `254`.
- **Application counts.** The Application hooks adjust `applicationsCount` with raw updates (`backend/models/application.js:37-50`), while the Job pre-save hook resets it to the embedded array's length (`backend/models/jobs.js:147-150`). The two disagree after a view: `JobController.CounterDivergesAfterView` proves that the count and the Application documents drift apart.

## Model

| member | source | states |
|---|---|---|
| Documents.CastString | backend/models/user.js:71-73 | a String path keeps a string, spells out a boolean, and accepts a number exactly when it is a whole number it can write out in decimal; anything else fails |
| Documents.CastStringReadsBack | backend/models/user.js:71-73 | a number cast to a string reads back with `Number(...)` as the same number |
| Documents.CastNumber | backend/models/user.js:94-103 | a number is kept, undefined, null and the empty string leave the path unset, and a non-empty string casts exactly when `Number(...)` reads it, to that number |
| JobSchema.ParseJobType | backend/models/jobs.js:16-20 | a string is accepted as a job type exactly when it is one of the four enum names, and it parses back to the type with that name |
| JobSchema.ParseCategory | backend/models/jobs.js:21-29 | the ten-value category enum: accepted exactly when the string names a category |
| JobSchema.ParsePeriod | backend/models/jobs.js:57-61 | the five salary periods: accepted exactly when the string names one |
| JobSchema.ParseStatus | backend/models/jobs.js:87-91 | the four job statuses: accepted exactly when the string names one |
| JobSchema.ParseApplicationStatus | backend/models/application.js:15-19 | the four application statuses: accepted exactly when the string names one |
| JobSchema.EnumRoundTrips | backend/models/jobs.js:16-29 | the names of each enum are pairwise distinct, so parsing a name gives back its value |
| JobSchema.NewEmbeddedApplication | backend/models/jobs.js:92-107 | an embedded application entry starts pending and is stamped with the current time |
| JobSchema.NewJob | backend/models/jobs.js:47-134 | a new job is open, in KES, not negotiable, not urgent, not featured, with no views, no applications and a count of 0; saving it changes nothing |
| JobSchema.PreSave | backend/models/jobs.js:147-150 | saving sets the count to the length of the embedded array and changes nothing else |
| JobSchema.PreSaveDiscardsCount | backend/models/jobs.js:147-150 | the count a job held before a save has no influence on the saved document, and saving twice is saving once |
| JobSchema.FormattedSalaryEndsWith | backend/models/jobs.js:140-144 | the formatted salary ends with the period name, except for `project`, where it ends with the amount and has no suffix |
| ApplicationSchema.IncApplicationsCount | backend/models/application.js:39-41 | the `$inc` update moves only the count of the job with that id, by exactly the increment; every other modelled field and every other job is untouched |
| ApplicationSchema.SaveThenRemoveRestores | backend/models/application.js:37-50 | one post-save followed by one post-remove of the same application leaves every job as it was, in every modelled field |
| ApplicationSchema.HooksBreakPreSaveAgreement | backend/models/application.js:37-50 | a job whose count matched its embedded array is off by one after either hook, because the hooks bypass the pre-save hook |
| Store.SaveApplication | backend/models/application.js:34-42 | a save is refused exactly when another document holds the same (job, worker) pair; otherwise a new application is appended, the post-save hook runs, and the unique indexes keep holding |
| Store.RemoveApplication | backend/models/application.js:45-50 | after a remove no document has that id, every other application is still stored and nothing is added, the users are untouched, and the post-remove hook has run |
| Store.SavingTwiceCountsTwice | backend/models/application.js:37-42 | saving the same new application twice stores it once but raises its job's count by two |
| JobController.FeaturedJobs | backend/controllers/jobControllers.js:37-39 | at most ten jobs, all featured, sorted newest first, all drawn from the store |
| JobController.FeaturedJobsAreNewest | backend/controllers/jobControllers.js:37-39 | a featured job left out means the list is full, and every listed job is at least as new as it |
| JobController.GetJobById | backend/controllers/jobControllers.js:59-97 | an unknown id is not found; otherwise the job's views rise by exactly one and the pre-save hook resets its count to the embedded array's length, no other modelled field changes, and at most three similar jobs come along (open, same category, a different id, all from the store); fewer than three only when every similar job is among them |
| JobController.ApplyForJob | backend/controllers/jobControllers.js:217-282 | guards in order: missing job, job not open, existing (job, worker) application; success exactly when all pass, creating one pending application with the cover message defaulting to the empty string, and running the post-save hook |
| JobController.ApplyAddsOneApplication | backend/controllers/jobControllers.js:254-261 | a successful apply adds exactly one application for that job |
| JobController.CounterDivergesAfterView | backend/controllers/jobControllers.js:72-73 | after one application, viewing the job saves it and resets its count to 0, while one Application document for it exists |
| JobController.SkillsOf | backend/controllers/jobControllers.js:173-177 | an array of skills is kept; a non-empty string gives one item per comma-separated part, each the trimmed part; a falsy value gives the empty array; any other truthy value has no `split` and fails |
| JobController.InputOf | backend/controllers/jobControllers.js:163-172 | the county defaults to Nairobi, the period to `day` and the amount to 0 when missing |
| JobController.FailingPaths | backend/controllers/jobControllers.js:158-187 | the set of paths that fail casting or validation is empty exactly when every path of the new job is acceptable: the title, description, county and exact location cast to String (a whole number or a boolean is spelled out), the title not blank once trimmed, the enums named after that cast, and every skill castable to String |
| JobController.BuildJob | backend/models/jobs.js:5-44 | the new job carries the String cast of the title (trimmed), of the description, the county and the exact location, the parsed type and category, the cast amount, period and negotiability, and each skill cast to String and trimmed; it is open, not featured, in KES, with no views or applications and `isUrgent` coerced to Boolean, and it satisfies the schema |
| JobController.WholeNumberTitle | backend/models/jobs.js:5-9 | a whole-number title is accepted wherever a string title is, and the job stores its decimal spelling |
| JobController.CreateJob | backend/controllers/jobControllers.js:105-211 | a missing title, description or category is refused and the store is untouched; otherwise the employer is resolved first and the resulting users are kept whatever happens next; creation succeeds exactly when the skills can be read and every path casts and validates; a failure reports exactly the failing paths and adds no job; a created job is appended, attached to the resolved employer, with the cast submitted values, the fallbacks and the defaults; the store stays well-formed |
| JobController.Construct | backend/controllers/jobControllers.js:158-187 | building and saving the job succeeds exactly when the skills can be read and every path casts and validates; unreadable skills are a server error, invalid paths are reported exactly, and success appends the job with its cast values and defaults |
| JobController.DemoFields | backend/controllers/jobControllers.js:139-146 | the demo employer's paths, an employer named Demo Employer with county Nairobi, are a valid profile with every required path |
| JobController.PhoneVerifiedUser | backend/controllers/jobControllers.js:139-146 | a user created with `isVerified: { phone: true }` has only the phone flag set, no code, the given paths over the defaults, and is valid when its phone and paths are |
| JobController.DemoEmployer | backend/controllers/jobControllers.js:139-146 | the demo employer has phone `254700000000`, password `demo123`, only the phone flag verified, and passes the user validators |
| JobController.FindOrCreate | backend/controllers/jobControllers.js:136-147 | an existing holder of the phone is returned with the store unchanged; otherwise the user is saved with its password hashed and appended; either way the returned id is the first holder of the phone, jobs and applications are untouched and the store stays well-formed |
| JobController.FindOrCreateOnce | backend/controllers/jobControllers.js:136-147 | running the lookup-or-create twice for one phone creates at most one user: the second run returns the first run's user and changes nothing |
| JobController.ResolveEmployer | backend/controllers/jobControllers.js:130-150 | the employer is the first user with phone `254700000000` when one exists, with the store unchanged; otherwise the hashed demo employer is appended under the fresh id and attached |
| JobController.ResolveEmployerOnce | backend/controllers/jobControllers.js:136-147 | a second resolution finds the employer the first one attached and changes nothing |
| JobController.Categories | backend/controllers/jobControllers.js:287-306 | one row per distinct category of the open jobs, each counting its jobs, sorted by count descending, summing to the number of open jobs |
| JobController.JobStatsOf | backend/controllers/jobControllers.js:325-372 | totals exist exactly when some job is open; totalJobs counts the open jobs and urgentJobs counts the urgent ones among them; one row per distinct job type holding that type's exact number of open jobs, covering every open job; at most five top categories, sorted by count |
| JobController.DisplayName | backend/controllers/jobControllers.js:303 | the display name is the category name with its first letter upper-cased |
| UserSchema.ParsePath | backend/models/user.js:5-149 | a request key names a profile path exactly when it is that path's name |
| UserSchema.CastPath | backend/models/user.js:7-120 | a cast value always meets its path's constraints (the user-type enum, the rating in [0, 5], years of experience at least 0, the county required); a value that already meets them is kept as it is; null is accepted exactly on the optional paths that are not objects |
| UserSchema.CastPathIdempotent | backend/models/user.js:7-120 | a cast value casts to itself |
| UserSchema.StringPathsCast | backend/models/user.js:71-73 | a String path stores the String cast of its value: booleans spelled out, whole numbers in decimal |
| UserSchema.NameCast | backend/models/user.js:12-16 | `name` is accepted exactly when its String cast is non-blank, and stores that cast trimmed |
| UserSchema.EmailCast | backend/models/user.js:29-34 | a non-null `email` is accepted exactly when it has a String cast, and stores that cast trimmed and lower-cased |
| UserSchema.RatingCast | backend/models/user.js:94-99 | a string `rating` is accepted exactly when `Number(...)` reads it as a number in [0, 5], and that number is stored |
| UserSchema.TotalReviewsCast | backend/models/user.js:100-103 | a string `totalReviews` is accepted exactly when `Number(...)` reads it as a number, and that number is stored |
| UserSchema.ActiveFlagCast | backend/models/user.js:117-120 | `active` is accepted exactly when the Boolean cast succeeds, and stores the cast flag (`"false"` deactivates) |
| UserSchema.ObjectPathsCast | backend/models/user.js:37-58 | an object path keeps exactly its declared, defined fields, each with its own field cast |
| UserSchema.CastField | backend/models/user.js:37-58 | a sub-field's cast meets its validator and keeps a valid value; null is refused only for the county; `years` reads numeric strings at least 0; the flags take the Boolean cast and the strings the String cast |
| UserSchema.CastObject | backend/models/user.js:37-44 | an object casts exactly when every declared field casts and a location has its county; the result keeps exactly the declared, defined fields, cast |
| UserSchema.CastArray | backend/models/user.js:47-50 | an array casts exactly when every element has a String cast, keeping its length with each element cast (and trimmed for `skills`); a single castable value becomes a one-element array |
| UserSchema.DefaultProfile | backend/models/user.js:51-146 | exactly the defaulted paths get a default, and every default meets its path's constraints |
| UserSchema.NewUser | backend/models/user.js:76-89 | a new user has every verification flag false; given paths are kept and the others take their defaults |
| UserSchema.PreSave | backend/models/user.js:152-162 | the password is hashed when it was modified and left alone otherwise |
| UserSchema.HashOnlyWhenModified | backend/models/user.js:152-162 | saving twice without touching the password hashes it once |
| UserSchema.Save | backend/models/user.js:17-28 | a save succeeds exactly when the document is valid (10–15 digit phone, required paths, acceptable values), a modified password has at least six characters and no other user has the phone; the saved document keeps its phone and profile |
| UserSchema.VerifiedUpdate | backend/models/user.js:76-89 | an update leaves the flags alone exactly when it names neither `isVerified` nor one of its dotted flag paths |
| UserSchema.Applied | backend/controllers/authController.js:277-281 | `$set` writes the named paths with their cast values and the dotted sub-paths of `location`, `experience` and `notifications` into their parent's stored fields, stamps `updatedAt`, and leaves every unnamed typed field and profile path as it was |
| UserSchema.MergeProfile | backend/controllers/authController.js:277-281 | the merged profile is the stored one updated path by path: named paths cast, dotted sub-paths overlaid on the stored object, every other path kept; a valid profile with a location stays valid |
| UserSchema.OneFieldMerge | backend/controllers/authController.js:277-281 | a single dotted key such as `location.county` writes that one field into the stored object and keeps its other fields and every other path |
| UserSchema.SingleDottedKey | backend/controllers/authController.js:277-281 | the dotted key of one declared field names no top-level path and no other field |
| UserSchema.TypedKeysAbsent | backend/controllers/authController.js:277-281 | an update made only of profile and dotted profile keys touches no typed field, so its casts pass exactly when the profile casts do |
| UserSchema.DottedValidatorsRun | backend/controllers/authController.js:277-281 | the validators run on dotted keys: `experience.years` of -1 and a null `location.county` are refused |
| UserSchema.ParentAndChildConflict | backend/controllers/authController.js:277-281 | naming `location` together with `location.county` is refused as a conflict |
| UserSchema.ProfileUpdateSameKeys | backend/controllers/authController.js:270-281 | two updates that agree on every profile key and dotted profile key update a profile alike |
| UserSchema.AppliedKeepsValid | backend/controllers/authController.js:277-281 | an update whose casts and validators pass keeps the user valid |
| UserSchema.ToJson | backend/models/user.js:170-176 | the JSON form never holds the password, the code or its expiry, and holds every other field unchanged |
| Validation.NormalizePhone | backend/middleware/validation.js:6-9 | null exactly for a missing or empty phone; otherwise digits only, never longer than the input |
| Validation.NormalizePhoneKeepsDigits | backend/middleware/validation.js:6-9 | normalising keeps exactly the digits of the input, in order |
| Validation.NormalizePhoneIdempotent | backend/middleware/validation.js:6-9 | a normalised phone with a digit normalises to itself |
| Validation.NormalizePhoneTwiceDropsDigitless | backend/middleware/validation.js:7-8 | the digitless phone `ab` normalises to the empty string, which a second pass turns into null |
| Validation.NormalizePhoneKeepsLocalPrefix | backend/middleware/validation.js:8 | `0712345678` stays `0712345678`; no prefix is rewritten |
| Validation.KenyanPatternShape | backend/middleware/validation.js:32 | the Kenyan pattern accepts exactly 12-digit 2547/2541 numbers and 10-digit 07/01 numbers |
| Validation.ValidateRegistration | backend/middleware/validation.js:14-58 | the request passes exactly when the error list is empty, and there are at most five errors |
| Validation.RegistrationErrorsInCheckOrder | backend/middleware/validation.js:14-58 | the error list is the fixed message list restricted to the failing checks (user type, name, phone, password, location), in that order |
| Validation.AcceptedPhoneShape | backend/middleware/validation.js:29-37 | an accepted phone normalises to 10 or 12 digits |
| Validation.ValidateLogin | backend/middleware/validation.js:63-84 | an error exactly for a missing phone and for a missing password, in that order |
| Validation.ValidateJobPosting | backend/middleware/validation.js:89-124 | passes exactly when the title check, the description check, the salary check (an object whose amount is a number not at most 0) and the location check all pass; at most four errors |
| Validation.JobPostingErrorsInCheckOrder | backend/middleware/validation.js:89-124 | the job-posting errors are the failing checks' messages in check order |
| Validation.SalaryMustBeObjectWithPositiveAmount | backend/middleware/validation.js:101-109 | an accepted salary is an object whose `amount` is a number above 0, or NaN, which no comparison rejects |
| AuthController.GenerateVerificationCode | backend/controllers/authController.js:16-18 | the code is six decimal digits whose value is in [100000, 999999] |
| AuthController.ValidatedPhoneFitsSchema | backend/middleware/validation.js:29-37 | every phone the registration validator accepts, once normalised, passes the User schema's 10–15 digit validator |
| AuthController.RegisterWith | backend/controllers/authController.js:23-66 | a phone in use is refused, then a given email in use; success exactly when both are free, the skills cast and the phone passes the schema |
| AuthController.CreateUser | backend/controllers/authController.js:47-66 | the new user is appended with the hashed password, no flag set, active, a fresh code that expires ten minutes from now, and is valid |
| AuthController.StoredEmail | backend/models/user.js:29-34 | the stored email is the submitted one trimmed and lower-cased, and the `email` path accepts it as it is |
| AuthController.RegistrationFieldValues | backend/controllers/authController.js:52-64 | the stored county, trimmed name and user type come from the body, skills default to the empty array, and the email is trimmed and lower-cased |
| AuthController.CreatedProfile | backend/controllers/authController.js:57-60 | the saved user holds the submitted county and, without skills, the empty array |
| AuthController.RegistrantActive | backend/models/user.js:117-120 | a registrant who sets no `active` path is active |
| AuthController.RegisterKeepsWellFormed | backend/controllers/authController.js:23-66 | a registration with a fresh id keeps the store well-formed |
| AuthController.RegisterAsWritten | backend/controllers/authController.js:52-66 | as written, the stored phone is the trimmed phone as submitted |
| AuthController.PlusPhoneRegistrationFails | backend/controllers/authController.js:52-66 | every `+2547…` phone passes the validator, yet its registration fails on save with nothing in use |
| AuthController.UnacceptedPhoneFails | backend/controllers/authController.js:52-66 | whenever the submitted phone is not 10–15 digits, an otherwise acceptable registration fails on save |
| AuthController.Register | backend/controllers/authController.js:23-66 | storing the normalised phone: a validated body registers exactly when its phone and email are free and its skills cast |
| AuthController.PlusPhoneRegisters | backend/controllers/authController.js:52-66 | with the corrected registration a free `+2547…` phone registers and stores the 12-digit number |
| AuthController.FreeRegistration | backend/controllers/authController.js:23-66 | a validated body without email, with castable skills and a free phone, registers |
| AuthController.Login | backend/controllers/authController.js:107-139 | an unknown phone and a wrong password give the same error; an inactive account is refused before the password is compared; success records `lastLogin` and changes nothing else |
| AuthController.LoginSucceeds | backend/controllers/authController.js:128-139 | the right password on an active account logs in and keeps the store well-formed |
| AuthController.VerifyPhone | backend/controllers/authController.js:175-215 | checks in order: unknown user, already verified, code mismatch, code expired strictly before now; success sets the phone flag and clears the code and its expiry, changing nothing else |
| AuthController.ExpiryIsStrict | backend/controllers/authController.js:204 | a code is still good at the very millisecond it expires and expired one millisecond later |
| AuthController.RegisteredCodeVerifies | backend/controllers/authController.js:47-49 | the code a registration issues verifies the phone up to ten minutes later and is refused as expired after that |
| AuthController.RegisteredUser | backend/controllers/authController.js:52-66 | a registration leaves a valid, unverified user with a fresh code appended last |
| AuthController.PendingCodeVerifies | backend/controllers/authController.js:196-215 | a pending code verifies until its expiry instant and is refused after it |
| AuthController.ResendVerification | backend/controllers/authController.js:392-417 | an unknown or verified user is refused; otherwise only the code and its expiry change, to a fresh code and ten minutes from now |
| AuthController.ResetPassword | backend/controllers/authController.js:357-372 | the user found by phone gets the new password, hashed, whatever code is sent; an unknown phone is refused; a missing or short new password fails on save |
| AuthController.ResetPasswordSucceeds | backend/controllers/authController.js:369-372 | a found user with a new password of at least six characters is reset, and the store stays well-formed |
| AuthController.UpdateWith | backend/controllers/authController.js:277-281 | the update's casts run first, then an unknown user is refused; success replaces only that user by the updated document |
| AuthController.UpdateKeepsWellFormed | backend/controllers/authController.js:277-281 | a successful update keeps phones unique and every user valid |
| AuthController.StripTopLevel | backend/controllers/authController.js:270-275 | the body loses exactly the five restricted top-level keys |
| AuthController.UpdateProfileAsWritten | backend/controllers/authController.js:265-281 | as written, the password and phone never change |
| AuthController.DottedKeyVerifiesPhone | backend/controllers/authController.js:270-281 | as written, an unverified user becomes phone-verified by sending `isVerified.phone: true`, without any code |
| AuthController.StripRestricted | backend/controllers/authController.js:270-275 | the body loses exactly the restricted keys and every dotted path beneath one |
| AuthController.StrippedKeysUntouched | backend/controllers/authController.js:270-275 | stripping keeps every profile path and removes every key that reaches a restricted field |
| AuthController.DottedKeysUnrestricted | backend/controllers/authController.js:270-275 | no dotted profile key is one of the deleted keys or beneath one |
| AuthController.UpdateProfile | backend/controllers/authController.js:265-304 | the password, phone, verification flags, code and expiry never change; named profile paths take their cast values, dotted sub-paths overlay their parent object and every other path keeps its value; a known user is updated exactly when the profile casts and validators pass, and is refused otherwise |
| AuthController.UpdateProfileKeepsWellFormed | backend/controllers/authController.js:277-281 | the corrected update keeps the store well-formed |
| SmsService.FormatPhoneNumber | backend/services/smsService.js:29-51 | a missing phone is refused; every formatted number is digits only and starts with 254 |
| SmsService.FormatPhoneRules | backend/services/smsService.js:34-48 | on the digits of the phone: a leading 0 becomes 254, a leading 7 gains 254, a leading 254 is kept, anything else is refused |
| SmsService.DigitlessPhoneRefused | backend/services/smsService.js:44-48 | a phone without digits is refused as badly formatted |
| SmsService.FormatPhoneIdempotent | backend/services/smsService.js:39-50 | formatting a formatted number changes nothing |
| SmsService.KenyanPhonesFormat | backend/services/smsService.js:39-50 | every phone the registration validator accepts formats to a 12-digit 2547 or 2541 number |
| SmsService.VerificationMessage | backend/services/smsService.js:79-82 | the message contains the code and the ten-minute validity |
| SmsService.JobAlertMessage | backend/services/smsService.js:89-94 | the alert starts with the fixed head and the job title (or "New job"), ends with the fixed tail, and contains the county (or "your area") and the formatted amount (or "Negotiable") |
| JobRoutes.DiffDays | backend/routes/jobs.js:49 | the whole days between two instants, rounded down |
| JobRoutes.AgoOf | backend/routes/jobs.js:51-55 | 0 days is Today, 1 is Yesterday, other values below 7 (negative ones included) are days, 7–29 are 1–4 weeks (rounded down), 30 and more are months (rounded down) |
| JobRoutes.PostedDays | backend/routes/jobs.js:46-56 | a job posted on the current day reads "Today", one posted the day before reads "Yesterday" |
| JobRoutes.Find | backend/routes/jobs.js:128 | the first job whose id equals the parameter as a number; none for an unknown or non-numeric id |
| JobRoutes.ListJobs | backend/routes/jobs.js:114-124 | the listing fails with a server error exactly when some job's salary has no amount, since `salary.amount.toLocaleString()` throws; otherwise it holds every job |
| JobRoutes.ViewJob | backend/routes/jobs.js:127-144 | an unknown id is not found and changes nothing; otherwise only that job's views rise, by exactly one, and the bump stays; the job is answered exactly when its salary has an amount, and otherwise the rendering throws and a server error is answered |
| JobRoutes.Apply | backend/routes/jobs.js:173-186 | an unknown id is not found; otherwise only that job's applications rise, by exactly one |
| JobRoutes.ApplyTwiceCountsTwice | backend/routes/jobs.js:173-186 | nothing checks for repeats: applying twice counts two applications |
| JobRoutes.MaxId | backend/routes/jobs.js:155 | the largest id, attained by some job, or NaN when some id is not a number |
| JobRoutes.NextId | backend/routes/jobs.js:155 | 1 for an empty list, otherwise the largest id plus one, or NaN |
| JobRoutes.NextIdFresh | backend/routes/jobs.js:155 | a numeric next id exceeds every id, so no job carries it |
| JobRoutes.Posted | backend/routes/jobs.js:154-161 | the new job holds the body's fields, the body's id or else the next id, today's date, 0 views, 0 applications and is not urgent, whatever the body says about those |
| JobRoutes.PostJobAsWritten | backend/routes/jobs.js:147-170 | refused exactly when one of the seven required fields is falsy; otherwise that job is appended, whatever the salary holds |
| JobRoutes.AmountlessSalaryBreaksReads | backend/routes/jobs.js:114-163 | as written, a post whose salary has no amount is accepted, and then GET / fails for every caller and GET /:id fails for that job |
| JobRoutes.NumericSalaryBreaksReads | backend/routes/jobs.js:114-163 | the concrete case: `salary: 5000` posted into an empty list, after which GET / and GET /1 both answer a server error |
| JobRoutes.PostJob | backend/routes/jobs.js:147-170 | the corrected post: refused, leaving the list alone, exactly when a required field is missing or the salary has no amount; otherwise one job is appended holding the body's fields, the body's id or the next id, today's date, 0 views, 0 applications and not urgent |
| JobRoutes.PostKeepsRendering | backend/routes/jobs.js:114-163 | with the corrected post, a list whose jobs all render still does after a post |
| JobRoutes.ReadsKeepWorking | backend/routes/jobs.js:114-186 | a list whose jobs all render lists without error, keeps rendering after a view or an application, and a view then fails only for an unknown id |
| JobRoutes.PostedJobFound | backend/routes/jobs.js:154-163 | a job posted without an id is the one its new id finds |
| JobRoutes.Stats | backend/routes/jobs.js:81-93 | totalJobs is the list length, views and applications are sums with missing values as 0, and urgentJobs counts the urgent jobs, never more than the total |
| JobRoutes.ViewBumpsTotalViews | backend/routes/jobs.js:127-144 | viewing a known job adds one to the total views and changes no other statistic, even when its rendering then fails |
| JobRoutes.ApplyBumpsTotalApplications | backend/routes/jobs.js:173-186 | applying adds one to the total applications and changes no other statistic |
| JobRoutes.PostAddsOneJob | backend/routes/jobs.js:147-170 | posting adds one job and no views, applications or urgent jobs |
| JobRoutes.Featured | backend/routes/jobs.js:96-107 | the first three urgent jobs in list order, or all of them when there are fewer |
| JobRoutes.Categories | backend/routes/jobs.js:63-78 | one row per distinct category key, in order of first appearance; every job's key has a row, counts sum to the number of jobs, and the display name capitalises the first letter |
| JobRoutes.Rows | backend/routes/jobs.js:72-76 | each tally entry becomes a row with the same name and count, and the counts sum alike |
| JobRoutes.BumpsKeepCategories | backend/routes/jobs.js:127-186 | viewing or applying leaves the categories table unchanged |
| UserRoutes.FormatUser | backend/routes/users.js:156-161 | the record loses its email and nothing else |
| UserRoutes.RequiredSkills | backend/routes/users.js:188 | one part per comma plus one; every part is trimmed, lower-case and free of commas, and it is the lower-cased trim of the matching comma-separated part |
| UserRoutes.ByTypeIsFilter | backend/routes/users.js:173-177 | the user-type stage keeps exactly the users whose type equals the lower-cased parameter, in order |
| UserRoutes.ByLocationIsFilter | backend/routes/users.js:180-184 | the user-type and location stages together keep exactly the users matching both, the location as a case-insensitive substring, in order |
| UserRoutes.BySkillsIsFilter | backend/routes/users.js:187-194 | the first three stages together keep exactly the users matching type, location and, when the raw user type is exactly `worker`, every requested skill |
| UserRoutes.ByRatingIsFilter | backend/routes/users.js:197-201 | the first four stages together keep exactly the users that also have at least the parsed minimum rating |
| UserRoutes.PipelineIsOneFilter | backend/routes/users.js:170-209 | the five filters in sequence are one filter by their conjunction: users are only removed, never reordered |
| UserRoutes.ListUsers | backend/routes/users.js:166-230 | total is the full length, count is the number listed, and the list is the formatted filtered users |
| UserRoutes.Workers | backend/routes/users.js:235-253 | exactly the workers, in order, without email |
| UserRoutes.Employers | backend/routes/users.js:258-276 | exactly the employers, in order, without email |
| UserRoutes.WorkersAndEmployersDisjoint | backend/routes/users.js:235-276 | no user is in both lists, so together they hold no more users than there are |
| UserRoutes.Find | backend/routes/users.js:283-284 | the first user whose id equals the parsed integer; none for an unknown or non-numeric id |
| UserRoutes.UserDetail | backend/routes/users.js:281-333 | an unknown id is not found; otherwise the user without email; a worker gets exactly min(totalReviews, 2) sample reviews in order and anyone else none; three completed jobs per review |
| UserRoutes.StatsPathNotFound | backend/routes/users.js:281-284 | `/stats` is caught by `/:id`, parses as NaN and is always not found |
| UserRoutes.Reviewed | backend/routes/users.js:435-445 | the review carries the sent reviewer and rating, the comment defaulting to "" and the job to null, today's date; only the reviewed user's totalReviews changes, by one |
| UserRoutes.AddReviewAsWritten | backend/routes/users.js:413-460 | as written: not found for an unknown id, refused exactly when the written guard fails |
| UserRoutes.NaNRatingAccepted | backend/routes/users.js:427-432 | as written, a rating that is not a number passes the guard and the review is added |
| UserRoutes.GreatIsNotANumber | backend/routes/users.js:427 | the rating "great" converts to NaN |
| UserRoutes.AddReview | backend/routes/users.js:413-460 | with the intended guard: a review is added only with a reviewer and a numeric rating from 1 to 5, and raises totalReviews by exactly one |
| UserRoutes.WorkerSkills | backend/routes/users.js:467-477 | every skill of every worker is in the tallied list, and every listed skill is some worker's skill |
| UserRoutes.PopularSkills | backend/routes/users.js:465-498 | at most ten distinct skills, most frequent first, each with its occurrence count among workers; a skill left out occurs no more often than any listed one, and when it is as frequent as a listed one it was seen after it; fewer than ten only when every worker skill is listed |
| UserRoutes.Stats | backend/routes/users.js:543-598 | total, worker and employer counts; workers per location with distinct locations, exact counts and every worker's location present; the exact numbers of fully verified workers and employers and their sum |
| Seqs.PermutationKeepsDistinct | backend/routes/users.js:480-482 | sorting a table with distinct keys keeps the keys distinct |
| Seqs.Tally | backend/routes/users.js:470-480 | one entry per distinct key, in order of first occurrence, each counting its key's occurrences, the counts summing to the number of keys |
| Seqs.SortDescStable | backend/routes/users.js:482 | the sort is stable: elements with equal keys come out in their input order |
| Seqs.Rank | backend/routes/users.js:470-482 | the table sorted by count, largest first, and among equal counts in order of first occurrence; distinct keys, exact counts, every key present |
| Seqs.TopRanked | backend/routes/users.js:480-483 | the first n entries of the ranking: sorted, distinct, exact counts; every omitted key is no more frequent than any kept one, and an omitted key as frequent as a kept one was seen after it; fewer than n entries only when every key is kept |

## Left out

- **HTTP wiring.** This covers `backend/server.js`, `backend/routes/auth.js`, response bodies and status codes. Errors are datatype constructors.
- **Database bootstrap.** `backend/config/database.js` is I/O and calls `process.exit`. The unique indexes are predicates on the store (`Store.WellFormed`).
- **Cryptography and tokens.** bcrypt hashing and comparison are function parameters. JWT signing and `crypto.randomBytes` are left out.
- **Clock and randomness.** `Date.now` and `Math.random` are integer parameters. Dates are integer milliseconds, and the day strings of the demo routes are day-aligned timestamps.
- **SMS delivery.** `sendSMS` and `sendMockSMS` are console output and a delay. Only the message texts and phone formatting are modelled.
- **Floating point and locale output.** This covers average salaries and ratings, `toFixed`, `Math.round`, and `toLocaleString`, which is a parameter where a template uses it. Numbers are `real`.
- **Case mapping.** Only ASCII letters are case-mapped.
- **Query projections.** Mongoose `populate` and `select` are left out.
- **GET /:id/reviews of the demo user routes.** It returns a fixed sample list capped at totalReviews, plus an average rating.
- **PUT /:id/profile of the demo user routes.** It changes nothing and only returns a merged copy.
- **Operations not named as part of this model.** This covers `forgotPassword`, `getCurrentUser`, `getJobs` and the front end.
- **`Job.findByFilters`.** It is called by `getJobs` but is defined nowhere, so there is no logic to model.
- **The sample records.** The demo routes' sample users and jobs are parameters.
- **Concurrency.** The check-then-save races in `register` and `applyForJob` are not modelled. Each operation runs alone against the store.
- **Property enumeration order.** JavaScript lists array-index-like keys, such as `"42"`, first and in numeric order. The category, skill and location tallies list every key in first-occurrence order.
- UserRoutes.PopularSkills: for skills spelled as array indices (`"2"`, `"10"`), the source's `Object.entries` order, and so the choice among equally frequent skills at the cut, is numeric rather than first-occurrence order.
- JobRoutes.ListJobs: only whether the listing renders is modelled. The `postedAgo` and `formattedSalary` texts added to each entry are not; the same holds for the job `JobRoutes.ViewJob` answers.
- JobRoutes.Featured: the selection is modelled, and the rendering is not. That rendering throws like GET / when a selected job's salary has no amount. Only urgent jobs are selected, and POST / never stores an urgent job.
- **Route order.** The user `/stats` handler is unreachable. `UserRoutes.StatsPathNotFound` proves this; the handler's counts are still modelled as `UserRoutes.Stats`.
- JobController.ResolveEmployer: the `catch` branch is not modelled. After a database error it falls back to the fixed id `65d4f8a9b4c1e8f9c8a7b6c5`, and database failures are outside this model. The employer's name that `createJob` passes on goes to a path the Job schema does not declare, so it is dropped. The handler loads the User model as `../models/User`, the same way `authController.js` does, so the model assumes that load succeeds.
- JobController.JobStatsOf: leaves out the average salary and the sum of views. Totals are only counted.
- UserRoutes.UserDetail: leaves out the fixed `responseRate` and `averageResponseTime` strings.
- Documents.CastNumber: a cast failure is any string that `Number(...)` turns into NaN, and `Number(...)` reads only decimal literals (see `Js.StringToNumber` below).
- Documents.CastString: numbers with a fractional part, and whole numbers of 10^21 or more, which JavaScript writes in exponent form, are refused instead of being converted to text. An object whose `_id` is a string, which Mongoose casts to that `_id`, is refused too.
- Js.StringToNumber, Js.ParseFloat and Js.ParseInt: only optional white space, a sign, decimal digits and (except for `parseInt`) a fractional part are read. `Number(...)` turns hexadecimal, binary and octal literals (`0x1`), exponents (`1e0`) and `Infinity` into NaN here, although JavaScript reads them. `parseFloat` stops before an exponent and does not read `Infinity`. `parseInt` reads `0x5` as 0, without the automatic base 16. So `JobRoutes.Find` does not find job 1 for `0x1` or `1e0`, and a `minRating` of `-Infinity`, which `parseFloat` reads as minus infinity in the source, keeps no one in `UserRoutes.ByRatingIsFilter`.
- Find: `JobRoutes.Find` inherits the decimal-only `Number(...)` above, and `UserRoutes.Find` reads its id with base-10 `parseInt`, without the automatic base 16 that `parseInt` uses for a `0x` prefix (`0x5` finds user 5 in the source).
- Categories: `JobRoutes.Categories`, and the skill and location tallies behind `UserRoutes.PopularSkills` and `UserRoutes.Stats`, count into a plain JavaScript object (`backend/routes/jobs.js:67`, `backend/routes/users.js:474` and `:552`). A key that names an `Object.prototype` member, such as `__proto__` or `constructor`, misbehaves there. The model's tallies treat every key alike.
- IncApplicationsCount: the Job schema's `timestamps: true` and `updatedAt` (`backend/models/jobs.js:131-136`) are not modelled, so the `updatedAt` stamp of the `$inc` update is not modelled either.
- SaveThenRemoveRestores: a job is restored in every modelled field. Its `updatedAt`, which each hook's update stamps, is not modelled.
- GetJobById: the `updatedAt` stamp of the view's `save()` is not modelled.
- UserSchema.CastPath: these casts are not modelled, and the model refuses them:
  - `null` for the object paths (`location`, `experience`, `notifications`);
  - date strings for `lastLogin` and `createdAt`, which accept only numbers (milliseconds);
  - `null` elements inside an array;
  - numbers with a fractional part given to a String path (see `Documents.CastString`).
- UserSchema.CastArray: a `null` element is refused, although Mongoose's String cast keeps it as `null` (the same gap as in `UserSchema.CastPath`).
- JobController.FailingPaths: a `null` element of a `skills` array is reported as a failing `skills` path. Mongoose's String cast keeps null elements of the `[{ type: String, trim: true }]` array (`backend/models/jobs.js:30-33`), so the source saves the job. The model's job skills are strings and cannot hold `null`.
- JobController.CreateJob: the same refusal. `skills: ["plumbing", null]` gives `ValidationFailed({"skills"})` here, where the source creates the job.
- JobController.Construct: the same refusal as `JobController.CreateJob`.
- UserSchema.MergeProfile: dotted keys are modelled only for the declared sub-fields of `location`, `experience` and `notifications`. Other dotted keys, such as `skills.0`, are dropped as strict mode drops undeclared paths. A stored parent that is not an object is treated as an empty object.
- String length: Dafny counts code points, while JavaScript's `.length` counts UTF-16 units. The name, password, title and description length checks (`backend/middleware/validation.js:24`, `:40`, `:93` and `:97`, and the `minlength` of `backend/models/user.js:114`) differ for characters outside the Basic Multilingual Plane: "😀😀😀" has length 6 in JavaScript and 3 here.
- Non-string request fields: the inputs listed as strings or optional strings above cannot hold a number, a boolean, an array or an object. The source's behaviour for these is not modelled:
  - a numeric JSON phone at registration is converted with `toString` and cast;
  - a numeric title or description at job posting makes `title.trim()` throw (`backend/middleware/validation.js:93-97`);
  - a numeric cover message is cast to String by the Application schema;
  - a numeric login phone is cast by the query, and a numeric login password makes bcrypt's comparison throw;
  - a numeric reset phone is cast by the query, and a numeric new password such as `123456` is cast to the String `"123456"` and saved;
  - a repeated query key such as `?userType=a&userType=b` is delivered by Express as an array, on which `.toLowerCase` throws.

## Findings

| source | as written | input that shows it | evidently intended | confidence | as-written member | corrected member |
|---|---|---|---|---|---|---|
| backend/controllers/authController.js:52-66 | `register` stores the phone as submitted (trimmed), although the validator only checked its normalised digits | phone `+254712345678` (any `+2547` followed by eight digits), nothing else in use | store the normalised phone the validator accepted | high; not executed | AuthController.PlusPhoneRegistrationFails | AuthController.PlusPhoneRegisters |
| backend/controllers/authController.js:270-281 | `updateProfile` deletes only the five top-level restricted keys, so a dotted path beneath one reaches `$set` | body `{"isVerified.phone": true}` from an unverified user | no update may reach the restricted fields or any path beneath them | high; not executed | AuthController.DottedKeyVerifiesPhone | AuthController.StrippedKeysUntouched |
| backend/routes/jobs.js:147-163 | POST / checks only that `salary` is truthy, while GET / and GET /:id render `salary.amount.toLocaleString()`, which throws when the amount is missing | a body with the seven fields and `salary: 5000`, then GET /api/jobs or GET /api/jobs/1 | every stored job carries a salary amount, so that every job renders | medium; not executed | JobRoutes.AmountlessSalaryBreaksReads | JobRoutes.PostKeepsRendering |
| backend/routes/users.js:427 | `rating < 1 \|\| rating > 5` is false for a rating that is not a number, so the guard lets it through | rating `"great"` with any reviewerId | the rating must be a number from 1 to 5 | high; not executed | UserRoutes.NaNRatingAccepted | UserRoutes.AddReview |
