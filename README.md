# Places, accounts and forms of a community places directory

This project models the core of a small Express/MongoDB web application where
users register, add places (name, type, services, address, description, tags)
and edit or delete the places they added. It covers:

- **Validation** (`helpers/validation.js`). These are the input checks defined
  in that file, which no other file of the program calls: `checkId`, `checkString`, `checkStringArray` (which trims an
  array in place) and `checkNumber`.
- **Places** (`data/places.js`). These places have a structured location. The
  module covers create, look-up, owner-only update and owner-only delete over
  the `places` collection. The collection is a map from `_id` to record.
- **AddPlaces** (`data/addplaces.js`). These places have a flat address, a
  description and tags. Look-up coerces legacy scalar list fields to arrays.
  The module also lists the places one user added.
- **PlaceFields**. This is the conversion both update operations apply to a
  list field: an array is trimmed element-wise, and a comma-joined string is
  split and then trimmed.
- **Users** (`data/users.js`). Registration normalises the email (trimmed,
  lower-cased) and keeps it unique. The module also covers look-up by email and
  the profile update. The `users` collection is a map keyed by the stored email.
- **RegisterForm**, **PlaceForm** and **SearchForm** (`public/js/*.js`). These
  are the browser-side checks:
  - the registration form's four field validators and its submit handler;
  - the place edit form's error list;
  - the search page's tag autocomplete merge and its submit checks.
- **Text** and **Js**. These are the JavaScript primitives the code relies on:
  `trim` and the `\s` whitespace class, `split` on one character, `join`,
  ASCII `toLowerCase`, truthiness, numbers with NaN and infinities, and
  thrown errors as `Result`.

State that the source changes in place is modelled as classes:
- a collection is a `map` field that the store's methods reassign;
- the array `checkStringArray` trims is an `array`;
- the tags input whose value `select` rewrites is a class with a `value` field.

Pure computations are modelled as functions with lemmas about them.

Some things outside the core are parameters of the model:
- `ObjectId.isValid` is a `string -> bool` given to each store;
- `bcrypt.hash` is a `string -> string`;
- the driver's new `_id` is a `newId` argument;
- `new Date()` is a `now` argument;
- JavaScript's string-to-number conversion is a `string -> Num` argument.

## Model

| member | source | states |
|---|---|---|
| Text.Trim | public/js/places.js:28-34 | the result has no surrounding whitespace, is empty exactly when the input is blank, and is no longer than the input |
| Text.TrimParts | public/js/places.js:28-34 | `trim()` removes only whitespace: the input is a blank prefix, the trimmed value and a blank suffix |
| Text.TrimPadding | public/js/places.js:28-34 | a value without surrounding whitespace comes back unchanged from `trim()` whatever blank padding surrounds it |
| Text.TrimIdempotent | helpers/validation.js:26 | trimming twice is trimming once |
| Text.TrimBlankPadding | data/users.js:16 | whitespace added on both sides of a string does not change its trim |
| Text.TrimToLower | data/users.js:16 | lower-casing commutes with trimming, so the order of `trim().toLowerCase()` does not matter |
| Text.Split | public/js/search.js:35 | `split(',')` yields at least one piece and no piece holds the separator |
| Text.JoinSplit | public/js/search.js:35 | joining the pieces of a split with the separator gives back the string |
| Text.SplitJoin | data/places.js:76 | splitting a list joined with a separator gives back the list when no element holds the separator |
| Text.SplitTrimJoin | data/addplaces.js:86 | split-then-trim undoes a join with the separator plus blank padding, for trimmed, separator-free elements |
| Validation.CheckId | helpers/validation.js:5-18 | each of the four errors in the source's order with its message; success exactly for a non-blank string that is a valid ObjectId once trimmed, returning that trim |
| Validation.CheckString | helpers/validation.js:20-31 | each of the three errors with its message; success exactly for a non-blank string, returning its non-empty trim |
| Validation.CheckStringIdempotent | helpers/validation.js:20-31 | passing `checkString` its own result returns that result again |
| Validation.CheckIdIdempotent | helpers/validation.js:5-18 | passing `checkId` its own result returns that result again |
| Validation.CheckNumber | helpers/validation.js:51-60 | success exactly for a non-NaN number within the given inclusive bounds (infinities compared as JavaScript does), returning it unchanged; a non-number or NaN gets the "must be a valid number" message |
| Validation.FirstBad | helpers/validation.js:39-43 | the index of the first element that is not a non-blank string; every element before it is one |
| Validation.CheckStringArray | helpers/validation.js:33-49 | a non-array is rejected; otherwise the array is trimmed in place up to the first bad element and the rest is left untouched; the same array is returned when there is no bad element, else the "is invalid" error |
| PlaceFields.ToTrimmedList | data/places.js:74-76 | every element trimmed and in input order; for a string, one element per comma-separated piece, none holding a comma |
| PlaceFields.CommaTextRoundTrip | data/addplaces.js:84-92 | a list joined with "," plus blank padding comes back from the string branch unchanged |
| PlaceFields.ArrayInputIdempotent | data/addplaces.js:84-85 | re-submitting the trimmed array changes nothing |
| Places.TrimLocation | data/places.js:15-20 | all four location fields are trimmed |
| Places.Revised | data/places.js:70-85 | the update overwrites name, type, services and location with trimmed input and sets `updatedAt`; owner, rating counters and `createdAt` are kept |
| Places.PlaceStore.CreatePlace | data/places.js:5-39 | an invalid owner id gives "Invalid user ID format: ..." and a reused `_id` the duplicate-key error, both with the collection unchanged; otherwise exactly the new trimmed record with zero rating and both dates `now` is added |
| Places.PlaceStore.GetPlaceById | data/places.js:46-54 | "Invalid ID", "Place not found", or the stored record |
| Places.PlaceStore.UpdateOne | data/places.js:87-90 | only a record matching both id and owner is revised; the counts report the match and the change; since every stored owner is a well-formed id, a malformed owner matches nothing |
| Places.PlaceStore.UpdatePlace | data/places.js:56-98 | the four errors in order, each with the collection unchanged; success exactly for the owner of an existing record, which is replaced by its revision and returned |
| Places.PlaceStore.DeleteOne | data/places.js:114-117 | only a record matching both id and owner is removed; a malformed owner removes nothing |
| Places.PlaceStore.DeletePlace | data/places.js:100-124 | the four errors in order, each with the collection unchanged; success exactly for the owner, removing that one record |
| Places.CreateThenGet | data/places.js:33-38 | a created place is found again by its id as created |
| Places.UpdateThenGet | data/places.js:96-97 | an updated place is read back as revised, with its original owner and creation time |
| AddPlaces.Strings | data/addplaces.js:14 | an array of strings as stored, element for element |
| AddPlaces.AsList | data/addplaces.js:52-60 | an array is kept; a truthy scalar becomes a one-element array and a falsy one the empty array |
| AddPlaces.Normalized | data/addplaces.js:52-62 | both list fields are arrays after coercion; every other field is as stored |
| AddPlaces.NormalizedIdempotent | data/addplaces.js:52-60 | coercing a coerced record changes nothing |
| AddPlaces.Revised | data/addplaces.js:80-95 | seven fields are overwritten with trimmed input; owner, rating counters and `dateAdded` are kept |
| AddPlaces.RevisedTwice | data/addplaces.js:80-95 | applying the same update twice gives the record that one update gives |
| AddPlaces.IdsOfAppend | data/addplaces.js:148 | the ids of a list with one more entry are the old ids plus that entry's id |
| AddPlaces.PlaceStore.CreatePlace | data/addplaces.js:5-37 | an invalid owner id and a reused `_id` are rejected with the collection unchanged; otherwise exactly the new trimmed record with zero rating and `dateAdded` `now` is added |
| AddPlaces.PlaceStore.GetPlaceById | data/addplaces.js:44-64 | "Invalid ID", "Place not found", or the stored record with its list fields coerced to arrays |
| AddPlaces.PlaceStore.UpdateOne | data/addplaces.js:97-100 | only a record matching both id and owner is revised; the counts report the match and the change; since every stored owner is a well-formed id, a malformed owner matches nothing |
| AddPlaces.PlaceStore.UpdatePlace | data/addplaces.js:66-108 | the four errors in order, each with the collection unchanged; success exactly for the owner, the record replaced by its revision |
| AddPlaces.PlaceStore.DeleteOne | data/addplaces.js:124-127 | only a record matching both id and owner is removed; a malformed owner removes nothing |
| AddPlaces.PlaceStore.DeletePlace | data/addplaces.js:110-134 | the four errors in order, each with the collection unchanged; success exactly for the owner, removing that one record |
| AddPlaces.PlaceStore.GetPlacesByUser | data/addplaces.js:138-154 | an invalid id gives "Invalid user ID format: ..."; otherwise the result lists every record owned by the user, each once, paired with its id, and nothing else |
| AddPlaces.CreateThenGet | data/addplaces.js:31-36 | a created place is found again by its id exactly as created, since its lists are already arrays |
| AddPlaces.ResubmitUpdate | data/addplaces.js:66-108 | an owner's second identical update succeeds with the same record and leaves the collection as the first one left it |
| Users.NormalEmail | data/users.js:16 | the stored email is trimmed, has no capital ASCII letter and is no longer than the input |
| Users.NormalEmailIdempotent | data/users.js:16 | normalising a normalised email changes nothing |
| Users.NormalEmailVariant | data/users.js:16 | the same email typed in another letter case with surrounding whitespace normalises to the same stored email |
| Users.CheckNewUser | data/users.js:12-25 | the three argument errors in order; success exactly when all fields are present, the normalised email has '@' and '.', and the password has at least 6 characters; it yields the normalised email and the trimmed username |
| Users.CheckNewUserStable | data/users.js:12-25 | a stored email passes the argument checks again and normalises to itself |
| Users.Applied | data/users.js:92-96 | the `$set` changes the bio and photo only when present and nothing else |
| Users.SelectProfileFields | data/users.js:79-88 | a bio is set exactly when it is a non-blank string, and it is stored trimmed; the photo is always set |
| Users.UserStore.CreateUser | data/users.js:11-55 | argument errors, "Email is already registered." and the duplicate-key error leave the collection unchanged; otherwise one account is added under the normalised email with the hashed password, no bookmarks, role "user", empty photo and bio, created `now`; emails stay unique keys and ids stay unique |
| Users.UserStore.FindUserByEmail | data/users.js:57-65 | "Email is required." for an empty argument; otherwise the account stored under the normalised email, or none |
| Users.UserStore.UpdateUserProfile | data/users.js:67-103 | "Invalid user ID." for a missing or malformed id and "Could not update profile. User may not exist." for an unknown one, both with the collection unchanged; otherwise only that account's bio (when given) and photo change |
| Users.RegisterThenFind | data/users.js:16-62 | an account registered under an email is found by any case and whitespace variant of it |
| Users.RegisterTwice | data/users.js:28-32 | registering a variant of a registered email again fails with "Email is already registered." |
| RegisterForm.EmailPatternCharacterised | public/js/register.js:57 | the email pattern accepts exactly the strings with no whitespace, a single '@' that is not first, and a later '.' with characters on both sides |
| RegisterForm.ValidateEmailField | public/js/register.js:49-63 | "Email is required" for empty input, "Please enter a valid email" for a malformed one, and a pass exactly for a well-formed email |
| RegisterForm.ValidateUsernameField | public/js/register.js:70-84 | the two messages, and a pass exactly for at least 3 characters |
| RegisterForm.ValidatePasswordField | public/js/register.js:91-120 | the first failing rule's message, in the source's order; a pass exactly when length, upper-case letter, digit and special character are all present |
| RegisterForm.ValidateConfirmPasswordField | public/js/register.js:128-142 | the two messages, and a pass exactly for a non-empty confirmation equal to the password |
| RegisterForm.Shown | public/js/register.js:13-42 | no more messages than checks, and none exactly when every check passes |
| RegisterForm.HandleSubmit | public/js/register.js:13-42 | every validator runs and its message is shown, in field order; the form is submitted exactly when no message is shown |
| RegisterForm.SubmitConditions | public/js/register.js:13-42 | the form is submitted exactly for a well-formed trimmed email, a trimmed username of at least 3 characters, a password meeting all rules and a matching confirmation |
| RegisterForm.FormAcceptedByServer | data/users.js:12-25 | a registration the form submits also passes `createUser`'s argument checks |
| PlaceForm.FailedRules | public/js/places.js:37-51 | the failing rules in increasing order, each failing rule listed |
| PlaceForm.CollectErrors | public/js/places.js:37-51 | the seven pushes give the messages of the failing rules, in rule order |
| PlaceForm.ErrorsUpToRules | public/js/places.js:37-51 | pushing rule by rule lists exactly the messages of the failed rules, in order |
| PlaceForm.FormErrorsListFailures | public/js/places.js:37-51 | a rule's message is listed exactly when that rule fails |
| PlaceForm.FormErrorsEmpty | public/js/places.js:54-60 | the error list is empty exactly when no rule fails |
| PlaceForm.ValidateForm | public/js/places.js:13-61 | the error list is the failing rules' messages; the form is valid exactly when it is empty; otherwise the text is "Form errors: " followed by the messages joined with ", " |
| PlaceForm.BlankEntryRejected | public/js/places.js:49 | a tags value with a blank comma-separated entry is rejected |
| PlaceForm.NonBlankEntriesAccepted | public/js/places.js:49 | a tags value whose entries are all non-blank is accepted |
| PlaceForm.EmptyEntryExample | public/js/places.js:49 | "yoga,,spa" is rejected |
| PlaceForm.TrailingCommaExample | public/js/places.js:34-51 | "yoga, " is rejected, its trim ending in an empty entry |
| PlaceForm.TwoTagsExample | public/js/places.js:49 | "yoga, spa" is accepted |
| SearchForm.NonEmpty | public/js/search.js:35 | the filter keeps only non-empty entries drawn from the input |
| SearchForm.NonEmptyMembers | public/js/search.js:35 | an entry is kept exactly when it is in the input and non-empty |
| SearchForm.ParseTags | public/js/search.js:35 | every tag read from the input is non-empty, trimmed and free of commas |
| SearchForm.ParseJoined | public/js/search.js:35-42 | a value written by joining plain tags with ", " reads back as those tags without the empty ones |
| SearchForm.ParseJoinedTags | public/js/search.js:35-42 | a value written from non-empty plain tags reads back as exactly those tags |
| SearchForm.TagsInput.Select | public/js/search.js:33-47 | the input's new value is the value after selecting the tag |
| SearchForm.SelectParsed | public/js/search.js:35-43 | selecting a plain tag appends it once when absent and leaves the tag list as it was when present |
| SearchForm.SelectLists | public/js/search.js:35-43 | after selecting a non-empty plain tag it is listed, and every tag listed before still is |
| SearchForm.SelectTwice | public/js/search.js:35-43 | selecting the same plain tag twice gives the value that selecting it once gives |
| SearchForm.Submit | public/js/search.js:59-86 | the "at least one criterion" block exactly when all six inputs are empty; the rating block exactly when a criterion is given and the rating is non-empty and not a number within 0 to 5 inclusive |
| SearchForm.RatingAgreesWithCheckNumber | public/js/search.js:77-81 | the page's rating check accepts exactly what `checkNumber` with bounds 0 and 5 accepts, both bounds included |

## Left out

- I/O, connection handling, `console` output, the DOM (showing and hiding error boxes, `preventDefault`) and the Express routes and views are not part of this model.
- Concurrency is left out: every operation runs alone, so the gap between a `findOne` check and the write that follows it is not modelled.
- `getAllPlaces` (both data files) and the order in which `find` returns documents are left out; `getPlacesByUser` is specified up to order.
- Unacknowledged writes are left out: "Database did not acknowledge the insertion", "Place was not found after creation" and "Could not create user." cannot happen in the model, so an insert always succeeds once its checks pass.
- Users.UserStore.UpdateUserProfile: "No valid fields to update." is modelled but cannot happen, because the photo key is always set; the model also leaves out the differences between `findOneAndUpdate` driver versions, and treats `null` as the only "not found" result.
- Users.UserStore.CreateUser: the three arguments are modelled as strings; the checks `createUser` applies to non-string values are left out.
- Users.NormalEmail: `toLowerCase` is modelled on ASCII letters only; Unicode case mapping is not modelled.
- Users.CheckNewUser, RegisterForm.ValidateUsernameField and RegisterForm.ValidatePasswordField: string lengths are counted in characters, not UTF-16 code units, so the `length` checks (`password.length < 6`, `username.length < 3`, `password.length < 8`) differ from the source for characters outside the Basic Multilingual Plane.
- ObjectIds are compared as strings, so the same id written in another hex letter case counts as a different id.
- Places.PlaceStore.CreatePlace: the two `new Date()` readings are taken as the same instant `now`.
- The unique index on a place's name and `location.city`, which the collection setup creates together with a new `places` collection, is not modelled: two places may share a name and city here, where with the index the second write would fail with a duplicate-key error. Flat records (data/addplaces.js) have no `location.city`, so the index sees their city as null and, among flat records, the name alone would have to be unique; that is not modelled either.
- Places.PlaceStore and AddPlaces.PlaceStore each hold their own map, but data/places.js and data/addplaces.js read and write the same `places` collection. What crosses between the two record shapes is not modelled: AddPlaces' `getPlacesByUser` also lists structured records, AddPlaces' `getPlaceById` turns a structured record's missing flat fields into empty lists or `undefined`, and Places' `getPlaceById` can return a flat record.
- Places.PlaceStore.UpdatePlace and AddPlaces.PlaceStore.UpdatePlace: every update field is modelled as a string (or a list input). The PUT routes pass the request body unchecked, so a missing or non-string field makes the `trim()` call throw a TypeError after the ownership check and before the write; that error path is not modelled.
- Validation.CheckNumber: the "must be at least" and "cannot exceed" messages omit the bound value, which the source formats from a JavaScript number.
- SearchForm.Submit and SearchForm.TagsInput.Select assume jQuery is loaded; without it the page installs neither handler, so neither check nor tag merge runs.
- `filterXSS` is taken as absent, so `sanitize` is the identity, as the pages fall back to when the library is not loaded.
- SearchForm.Submit: how JavaScript converts the rating string to a number is a parameter, not modelled.
- SearchForm.SelectTwice and SearchForm.SelectParsed hold for tags that are comma-free and have no surrounding whitespace, which is how the suggested tags come from the server; a suggestion with a comma would be split apart on the next read.
- A legacy record's list fields are kept in whatever shape the collection holds them (array or scalar); other shapes (for example a non-string array element) are treated as opaque values.
