# Course authoring and storage routes of an LMS, in Dafny

This project models the parts of the LMS web application that have logic of their own:

- the course record schema (`courseSchema` and its three enumerations);
- the create-course page: its default form values, the Generate-Slug button, the submit gate and the handling of the server action's result;
- the `CreateCourseAction` server action, which validates and then appends one row to the course table;
- the pre-signed upload route (`POST /api/s3/upload`);
- the delete route (`DELETE /api/s3/delete`).

Request bodies and form values are JSON values (`Json.Value`). Numbers are `real`, because the schemas accept fractional numbers. NaN and Infinity cannot be represented, and the schemas reject them anyway. Foreign calls are parameters:

- the session lookup is a `SessionLookup` value;
- whether the ORM insert throws is a `bool`;
- the URL signer is a function that returns `None` when it throws;
- the key prefix is a string argument;
- whether the store's delete call throws is a `bool`;
- whether `request.json()` throws is an `Option`.

Modules, one per source file, plus three small shared ones:

| module | file | models |
|---|---|---|
| `Wrappers`, `Json`, `Http` | wrappers.dfy, json.dfy | `Option`; JSON values, JavaScript property access and truthiness; HTTP responses |
| `CourseSchema` | course_schema.dfy | lib/zodSchema.ts |
| `Slug` | slug.dfy | the slug expression in app/admin/courses/create/page.tsx |
| `CreateCoursePage` | create_course_page.dfy | the rest of app/admin/courses/create/page.tsx |
| `CourseActions` | course_actions.dfy | app/admin/courses/actions.ts |
| `S3Upload` | s3_upload.dfy | app/api/s3/upload/route.ts |
| `S3Delete` | s3_delete.dfy | app/api/s3/delete/route.ts |

The schema, the slug rule, key naming and the upload route are functions, because none of them changes state. The upload route changes no state: its only effect is calling the signer. So `S3Upload.Post` returns the response together with the sign request it handed over, and `None` there means no signing was attempted. The course table, the object store and the page's form state are classes, and the handlers that change them are methods.

Where the design description and the code disagree, the model follows the code:

- the design describes a client-side upload state machine, but the uploader only logs the files it accepts;
- the design describes admin-only, rate-limited routes, but neither storage route checks identity;
- the design says storage keys are globally unique, but the prefix comes from `uuidv4` imported from the validation library, which there builds a schema rather than an identifier, so the model assumes nothing about it;
- the design says deleting an absent object counts as success, but the route has no such case.

## Model

| member | source | states |
|---|---|---|
| `Json.Member` | app/api/s3/delete/route.ts:7-8 | reading a field of `null` throws; on an object it gives the field when present; on anything else it gives undefined |
| `CourseSchema.Decode` | lib/zodSchema.ts:21-32 | a parsed record holds, for each of the ten schema keys, exactly the value the input object has there |
| `CourseSchema.SafeParse` | lib/zodSchema.ts:21-32 | an accepted input always gives a record that passes every field check, and the record is the input's own fields |
| `CourseSchema.DecodeEncode` | lib/zodSchema.ts:21-32 | round trip: decoding the JSON form of any record gives the record back |
| `CourseSchema.SafeParseEncode` | lib/zodSchema.ts:21-32 | a record is accepted if and only if all ten checks hold, and it is then returned unchanged |
| `CourseSchema.UnknownKeysIgnored` | lib/zodSchema.ts:21-32 | extra keys outside the schema do not change the parse |
| `CourseSchema.MissingFieldRejected` | lib/zodSchema.ts:21-32 | an object missing any schema key is rejected |
| `CourseSchema.StringFieldRule` | lib/zodSchema.ts:22-30 | in a valid record, setting title, description, fileKey, smallDescription or slug keeps it valid exactly when the new string is non-empty |
| `CourseSchema.PriceRule` | lib/zodSchema.ts:25 | a price is accepted if and only if it is at least 0; 0 itself is accepted |
| `CourseSchema.DurationRule` | lib/zodSchema.ts:26 | a duration is accepted if and only if it is at least 1; 0 is rejected and 1 accepted |
| `CourseSchema.EnumerationRule` | lib/zodSchema.ts:27-31 | level, category and courseStatus are accepted exactly when they are members of their lists |
| `CourseSchema.EnumerationsExact` | lib/zodSchema.ts:3-19 | the lists have 11, 3 and 3 entries with no duplicates; membership is case-sensitive |
| `CourseSchema.SomeCourseValid` | lib/zodSchema.ts:21-32 | some record passes every check |
| `Slug.SlugifyConcat` | app/admin/courses/create/page.tsx:154-157 | the slug of a concatenation is the concatenation of the slugs, so order is preserved |
| `Slug.SlugifyChar` | app/admin/courses/create/page.tsx:154-157 | for one character, the three-step chain equals the one-step reference `SlugOfChar` |
| `Slug.SlugifyCharwise` | app/admin/courses/create/page.tsx:154-157 | the whole chain equals the reference applied character by character |
| `Slug.SlugifySplice` | app/admin/courses/create/page.tsx:155-157 | at any position, a space gives exactly one `-`; a letter, digit, `_` or `-` survives in place, lower-cased; any other character is deleted, not replaced |
| `Slug.SpacesBecomeHyphens` | app/admin/courses/create/page.tsx:156 | n spaces give n hyphens: runs are not collapsed, and leading or trailing spaces stay as hyphens |
| `Slug.SlugAlphabet` | app/admin/courses/create/page.tsx:154-157 | every slug character is in `a-z`, `0-9`, `_` or `-` |
| `Slug.SlugFixesSlugStrings` | app/admin/courses/create/page.tsx:154-157 | a string over the slug alphabet is its own slug |
| `Slug.SlugIdempotent` | app/admin/courses/create/page.tsx:154-157 | generating a slug from a slug returns it unchanged |
| `Slug.SlugNoLonger` | app/admin/courses/create/page.tsx:154-157 | the slug is never longer than the title |
| `Slug.SlugEmptyIff` | app/admin/courses/create/page.tsx:154-157 | the slug is empty exactly when the title has no letter, digit, `_`, `-` or space |
| `CreateCoursePage.SubmittedAsWritten` | app/admin/courses/create/page.tsx:54-65 | the form object the resolver validates has no `courseStatus` key; the status sits under `status` |
| `CreateCoursePage.AsWrittenNeverValidates` | app/admin/courses/create/page.tsx:52-66 | as written, the schema resolver rejects every form state |
| `CreateCoursePage.Submitted` | app/admin/courses/create/page.tsx:324-349 | corrected binding: the status select supplies `courseStatus` |
| `CreateCoursePage.SubmittedValidatesIff` | app/admin/courses/create/page.tsx:52-53 | with the correction, a form passes the resolver exactly when its record is valid, and the handler receives that record |
| `CreateCoursePage.DefaultsRejected` | app/admin/courses/create/page.tsx:54-65 | the defaults fail validation; any form still holding the default fileKey `""` or the default duration `0` is rejected |
| `CreateCoursePage.FromNumberInput` | app/admin/courses/create/page.tsx:287-289 | a NaN reading of a number input is stored as 0; any other reading is stored as read |
| `CreateCoursePage.ClearedNumberInputs` | app/admin/courses/create/page.tsx:287-312 | clearing the duration input makes a valid form invalid; clearing the price input keeps it valid |
| `CreateCoursePage.Dispatch` | app/admin/courses/create/page.tsx:72-87 | reset happens exactly when redirect happens, and both only on a returned "success"; a redirect goes to `/admin/courses`; no notice appears only for a status that is neither "success" nor "error" |
| `CreateCoursePage.DispatchNotices` | app/admin/courses/create/page.tsx:75-86 | the notice texts: a fixed failure notice on a throw, a success notice on "success", and on "error" a notice that carries the response's message |
| `CreateCoursePage.ActionResponsesAlwaysNotify` | app/admin/courses/create/page.tsx:80-87 | each of the action's three responses produces a notice, and only "Course created successfully" resets the form |
| `CreateCoursePage.CoursePage.constructor` | app/admin/courses/create/page.tsx:52-66 | the form starts at its default values, with no notice and no navigation |
| `CreateCoursePage.CoursePage.GenerateSlug` | app/admin/courses/create/page.tsx:152-159 | only `slug` changes, to the slug of the current title, which is over the slug alphabet and no longer than the title |
| `CreateCoursePage.CoursePage.OnSubmit` | app/admin/courses/create/page.tsx:68-91 | the new form values, notices and route history are those the dispatch prescribes |
| `CreateCoursePage.CoursePage.HandleSubmit` | app/admin/courses/create/page.tsx:117-119 | an invalid form changes nothing; a valid one is handled as `OnSubmit` prescribes |
| `CourseActions.UserIdOf` | app/admin/courses/actions.ts:30 | the row's user id is present exactly when someone is signed in, and is then that user's id |
| `CourseActions.CourseTable.Create` | app/admin/courses/actions.ts:27-32 | the insert either appends the row or throws and leaves the table as it was |
| `CourseActions.CreateCourseAction` | app/admin/courses/actions.ts:9-45 | the status is always "success" or "error". A throwing session lookup gives "Failed to create course", even for invalid data. Otherwise invalid data gives "Invalid course data" with the table unchanged. Otherwise a throwing insert gives "Failed to create course". Otherwise exactly one row is appended: the parsed fields plus the session's user id. Existing rows are never changed, and validity of all rows is preserved |
| `S3Upload.ParseUpload` | app/api/s3/upload/route.ts:9-14 | an accepted request has a non-empty fileName and fileType, a fileSize of at least 1 and a boolean isImage, all taken from the body; a well-typed body is accepted exactly when those bounds hold |
| `S3Upload.ParseEncodeUpload` | app/api/s3/upload/route.ts:9-14 | round trip: a request is accepted, unchanged, exactly when its name and type are non-empty and its size is at least 1 |
| `S3Upload.NonBooleanIsImageRejected` | app/api/s3/upload/route.ts:13 | a missing or non-boolean isImage is rejected |
| `S3Upload.UniqueFileName` | app/api/s3/upload/route.ts:30 | the key is the prefix, one `-`, then the file name |
| `S3Upload.KeyEndsWithName` | app/api/s3/upload/route.ts:30 | the key ends with `"-" + fileName` |
| `S3Upload.KeyInjectiveInName` | app/api/s3/upload/route.ts:30 | for one prefix, different file names give different keys |
| `S3Upload.KeysCollideAcrossPrefixes` | app/api/s3/upload/route.ts:30 | different (prefix, name) pairs can give the same key |
| `S3Upload.Post` | app/api/s3/upload/route.ts:16-51 | the status is 200, 400 or 500. 400 "Invalid request data" happens exactly when the body parses but fails the schema. The signer is called exactly when the request is valid, always with a 360-second expiry and the route's bucket. 200 happens exactly when signing succeeds, and it returns the URL and the signed command's key. Every other failure is 500 "Failed to generate pre-signed URL" |
| `S3Upload.PostCommandFields` | app/api/s3/upload/route.ts:29-42 | on a valid request the command is bucket, fileType, fileSize and `prefix-fileName` with expiry 360, and a 200 returns that key |
| `S3Upload.IsImageIgnored` | app/api/s3/upload/route.ts:29-36 | two bodies differing only in the boolean isImage get identical results and signer calls |
| `S3Delete.ObjectStore.Send` | app/api/s3/delete/route.ts:15-20 | one command is recorded for exactly the given key; on success a string key is removed from the store; on a throw nothing is removed |
| `S3Delete.RequestKey` | app/api/s3/delete/route.ts:7-9 | an unparsable or `null` body throws; otherwise the key counts as present exactly when the body has a truthy `key` field, and it is that field |
| `S3Delete.FalsyKeysMissing` | app/api/s3/delete/route.ts:9 | an absent key, `""`, `null`, `false` and `0` all count as missing; any non-empty string counts as present |
| `S3Delete.Delete` | app/api/s3/delete/route.ts:5-33 | a missing key gives 400 "Key is required" with no command and no change. A body that throws gives 500 "Failed to delete file" with no command. A present key gives exactly one delete for exactly that key, then 200 "File deleted successfully" or, if the call throws, 500. Whether the object existed plays no part, and no caller identity is consulted |

## Findings

| source | as written | input that shows it | evidently intended | confidence | as-written member | corrected member |
|---|---|---|---|---|---|---|
| app/admin/courses/create/page.tsx:64 | The status default (line 64) and the status select (line 347) use the form key `status`. The schema used as the form's resolver requires `courseStatus` (lib/zodSchema.ts:31). So every form state fails the resolver, and `onSubmit` is never called | a fully and validly filled form, e.g. title "T", slug "t", fileKey "k", duration 1, status "DRAFT" | the status field bound to `courseStatus` | not executed; high | `CreateCoursePage.AsWrittenNeverValidates` | `CreateCoursePage.SubmittedValidatesIff` |

`CreateCoursePage.CoursePage.HandleSubmit` uses the corrected binding (`Submitted`), so the submit path of the model can be reached.

## Left out

- The client-side upload state machine (phases, progress, preview revocation, rollback) and the rejection classifier: they do not exist in the code, because the uploader only logs the accepted files (components/file-uploaded/uploader.tsx:10-13). The uploader also ignores the `value` and `onChange` it is given.
- The drop-zone limits (one file, `image/*`, 5 MiB): they are settings passed to a foreign library, which enforces them.
- Presentational components, the rich-text editor, authentication, email, rate-limit configuration and the client singletons: they are views or configured vendor clients with no logic of their own, and no shown route applies the rate limits.
- `Slug.LowerChar` lower-cases ASCII only. The JavaScript `toLowerCase` also maps a few non-ASCII characters to ASCII ones. For example, the Kelvin sign becomes `k`, and a dotted capital I becomes `i` followed by a combining dot. The model deletes these characters instead. The slug lemmas are exact for ASCII titles.
- URL signing, the URL format and the prefix source: the signer is a function parameter, and the prefix is an argument with no uniqueness assumed.
- The ORM: `CourseActions.CourseTable.Create` either appends atomically or throws with no effect. Whether an absent user id makes the insert throw is decided by the `createThrows` argument, because the database schema is not part of this model.
- `S3Delete.ObjectStore.Send`: a truthy key that is not a string is recorded as sent, but the store is left as it is, because what the storage SDK does with such a key is not visible. A call that throws is taken to remove nothing.
- Bucket identity: the upload and delete routes read their bucket names from different variables. The upload bucket is a parameter, and the delete store is the object passed in. Nothing relates the two.
- `Json.Member` covers the field name `key` and the schema fields. Built-in properties of strings and arrays (such as `length`) are not modelled.
- hooks/try-catch and lib/types are not part of this model. `CallOutcome` assumes that the helper reports a rejected call as an error and a settled call as data. `ApiResponse` is assumed to be `{status, message}` with a string status.
- Asynchrony: the transition wrapper, the disabled button while pending, and the timing and display of toasts. Notices and navigation are recorded as sequences, in order.
- `setValue`'s `shouldValidate` option only re-displays validation messages, and `console.log` has no effect on state; neither is modelled.
- Zod error-message structure: parse failures are `None`. String lengths are counted in characters rather than UTF-16 code units; this only matters for emptiness, where the two agree.
