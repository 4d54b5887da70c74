# Job portal client: filters, form encoding and profile display in Dafny

This project models the deterministic logic under four pages of a React client for a job portal. It proves properties of that logic.

- **Job listings.** The page holds the fetched jobs. It offers their distinct locations, in first-occurrence order, in a selector. It keeps the shown list equal to the jobs whose title contains the query, ignoring letter case, and whose location equals the selected one. An empty query or an empty selection matches every job.
- **My applications.** The page filters applications by a title search and by a status, where `"All"` keeps every status. A missing job reads as the empty title. A separate classifier picks the CSS classes of a status badge.
- **Register.** The form record changes one field per input event. Submission turns the record into an ordered list of multipart form entries:
  - null values are skipped;
  - the resume is sent as a file;
  - the comma-separated skills text is sent as a JSON array of trimmed, non-empty items;
  - every other field is sent as its text.

  The status message is coloured green when it contains "success", ignoring case.
- **Profile.** The skills memo splits a text on commas and line feeds, trims each piece and drops the empty ones; an array loses only its empty items. The render branch shows what the memo returns. `Field` shows `"-"` for a missing or blank value. `formatDate` shows `"-"` for a missing date. The edit form writes one key of `editData` per keystroke.

Modules:

- `Wrappers`: `Option`.
- `Seqs`: subsequence, order-preserving filter, map, de-duplication in first-occurrence order.
- `JsStrings`: the JavaScript string operations the pages use:
  - `toLowerCase`;
  - `includes`;
  - `trim`, over the exact ECMAScript white-space and line-terminator set;
  - `split` on single characters and `join`;
  - the `split/map(trim)/filter(Boolean)` pipeline.
- `Json`: `JSON.stringify` of an array of strings. A strict parser for that output is its inverse.
- `JobListings`, `MyApplications`, `Register`, `Profile`: one module per page. The state each page updates is a class; the page's filters, classifiers and encoders are functions.

## Model

| member | source | states |
|---|---|---|
| JobListings.FilterJobs | src/pages/JobListings.tsx:39-48 | the shown jobs are an order-preserving subsequence of the jobs; a job is shown iff it is fetched, the title test holds and the location test holds; a shown job appears as often as it was fetched |
| JobListings.DistinctLocations | src/pages/JobListings.tsx:29-30 | the location list has no duplicates; it holds a location iff some job is there; its order is the order of first occurrence among the jobs' locations |
| JobListings.FilterWithoutCriteria | src/pages/JobListings.tsx:27 | with an empty query and no selected location, every job is shown, in order |
| JobListings.FilterIgnoresQueryCase | src/pages/JobListings.tsx:41-43 | two queries with the same lower-case form show the same jobs |
| JobListings.FilterLocationExact | src/pages/JobListings.tsx:44-46 | a non-empty selection shows only jobs whose location equals it exactly |
| JobListings.ListedLocationKeepsAJob | src/pages/JobListings.tsx:29-30 | with an empty query, any location offered by the selector shows at least one job |
| JobListings.TitleSearchExample | src/pages/JobListings.tsx:41-43 | a "Backend Developer" job is shown for the queries "backend" and "BACKEND" |
| JobListings.LocationSelectionExample | src/pages/JobListings.tsx:44-46 | selecting "Pune" keeps the job at "Pune" and drops the jobs at "Pune City" and "pune" |
| JobListings.ConjunctionExample | src/pages/JobListings.tsx:47 | a job is shown only when both tests hold: "dev" with "Pune" keeps the Pune "Frontend Dev" job and drops the Mumbai "Backend Dev" job |
| JobListings.JobListingsPage.constructor | src/pages/JobListings.tsx:14-18 | the page starts with no jobs, no shown jobs, no locations, no query and "All Locations", a state in which the shown list is the filter of the jobs |
| JobListings.JobListingsPage.RunFilterEffect | src/pages/JobListings.tsx:39-50 | the effect sets the shown list to the filter of the jobs under the current query and selection, and changes nothing else |
| JobListings.JobListingsPage.FetchSucceeded | src/pages/JobListings.tsx:26-30 | after a fetch the page holds the data and its distinct locations; the shown list is the filtered data, which is all the data when query and selection are empty |
| JobListings.JobListingsPage.SetSearchTitle | src/pages/JobListings.tsx:39-50 | after typing a query the shown list is the filter of the jobs under the new query; re-entering the current query changes nothing |
| JobListings.JobListingsPage.SetSelectedLocation | src/pages/JobListings.tsx:39-50 | after choosing a location the shown list is the filter of the jobs under the new selection; choosing the current one changes nothing |
| MyApplications.FilterApplications | src/pages/MyApplications.tsx:61-64 | the listed applications are an order-preserving subsequence; an application is listed iff its title contains the search, ignoring case, and the status filter is "All" or equals its status; a listed application appears as often as it was fetched |
| MyApplications.InitialFilterShowsAll | src/pages/MyApplications.tsx:16-17 | with the initial empty search and "All", every application is listed |
| MyApplications.MissingJobMatchesOnlyEmptyQuery | src/pages/MyApplications.tsx:62 | an application without a job matches the search iff the search is empty |
| MyApplications.StatusFilterExact | src/pages/MyApplications.tsx:63 | a status filter other than "All" lists only applications with exactly that status |
| MyApplications.FilterIgnoresQueryCase | src/pages/MyApplications.tsx:62 | two searches with the same lower-case form list the same applications |
| MyApplications.GetStatusStyle | src/pages/MyApplications.tsx:46-59 | the grey default is returned iff the status is not one of the four known ones |
| MyApplications.StatusStylesDistinct | src/pages/MyApplications.tsx:47-55 | the four known statuses get four different styles |
| MyApplications.MyApplicationsPage.constructor | src/pages/MyApplications.tsx:15-19 | the page starts with no applications, an empty search, the "All" filter, loading on and no error |
| MyApplications.MyApplicationsPage.FilteredApplications | src/pages/MyApplications.tsx:61-64 | the listed applications of the current state are a subsequence satisfying both tests, and every application satisfying them is listed, as often as it was fetched |
| MyApplications.MyApplicationsPage.SetSearchQuery | src/pages/MyApplications.tsx:81 | typing sets the search to the typed text; the applications, status filter, loading flag and error are unchanged |
| MyApplications.MyApplicationsPage.SetStatusFilter | src/pages/MyApplications.tsx:88 | choosing a status sets the filter to it; the applications, search, loading flag and error are unchanged |
| MyApplications.MyApplicationsPage.FetchSucceeded | src/pages/MyApplications.tsx:33-39 | a successful fetch stores the data, clears the error and stops loading; the search and status filter are unchanged |
| MyApplications.MyApplicationsPage.FetchFailed | src/pages/MyApplications.tsx:35-39 | a failed fetch shows the fixed error text, stops loading and keeps the list |
| Register.Put | src/pages/Register.tsx:48-50 | object spread: an existing key keeps its place and a new key is appended; the looked-up value changes for the written key only |
| Register.TextChangeSetsOneField | src/pages/Register.tsx:49-50 | a non-file input sets the field it names to its text; every other field, `resume` included, is unchanged |
| Register.FileChangeSetsResume | src/pages/Register.tsx:47-48 | the file input sets `resume` to the first file, or to null when none is chosen; every other field is unchanged |
| Register.ChangeKeepsKeys | src/pages/Register.tsx:45-51 | a change to a field the record already has keeps the record's keys in their order |
| Register.ApplyChange | src/pages/Register.tsx:46-51 | after a change the record has the key the event writes (`resume` for the file input, the input's name otherwise); a record without duplicate keys keeps none |
| Register.InitialKeysDistinct | src/pages/Register.tsx:23-37 | the thirteen keys of the initial form are pairwise different |
| Register.PutKeepsDistinct | src/pages/Register.tsx:48-50 | object spread never creates a second entry for a key |
| Register.EncodeValue | src/pages/Register.tsx:57-70 | a value is skipped iff it is null; it is sent as a file iff the key is `resume` and the value a file, and then as that file; a skills text is sent as a JSON text that parses back to its split items; any other text is sent as itself, and a file under another key as "[object File]" |
| Register.EncodeSkills | src/pages/Register.tsx:62-67 | the skills entry is a JSON text that parses back to the split items, each non-empty, trimmed and comma-free |
| Register.EncodeForm | src/pages/Register.tsx:55-71 | the submission has exactly one entry per non-null key, in record order |
| Register.EncodeFormLookup | src/pages/Register.tsx:56-70 | the entry sent under each key is the encoding of that key's value; a null key sends nothing |
| Register.NullSkippedTextSent | src/pages/Register.tsx:57-69 | a null field is absent from the submission; a text field other than `skills`, the empty one included, is sent as exactly its text |
| Register.BlankSkillsEncodeEmpty | src/pages/Register.tsx:63-67 | a skills text made only of commas and white space is sent as "[]" |
| Register.EmptySkillsExample | src/pages/Register.tsx:63-67 | an empty skills text is sent as "[]" |
| Register.BlankSkillsExample | src/pages/Register.tsx:63-67 | the skills text " , ," is sent as "[]" |
| Register.CleanSkillsEncodeThemselves | src/pages/Register.tsx:63-67 | clean items typed with commas between them are sent as exactly those items |
| Register.IsSuccessMessage | src/pages/Register.tsx:99 | a message counts as success iff "success" occurs somewhere in its lower-cased text |
| Register.MessageBanner | src/pages/Register.tsx:97-102 | no banner iff the message is empty; a green banner iff it is non-empty and a success; the banner shows the message |
| Register.SuccessTestIgnoresCase | src/pages/Register.tsx:99 | messages that differ only in letter case get the same colour |
| Register.NoULetterIsNotSuccess | src/pages/Register.tsx:99 | a message without the letter u in either case is not a success |
| Register.ServerErrorIsNotSuccess | src/pages/Register.tsx:85 | "Server error" is shown in red |
| Register.RegisterPage.constructor | src/pages/Register.tsx:23-41 | the page starts with the initial form, whose keys are distinct, and no message |
| Register.RegisterPage.HandleChange | src/pages/Register.tsx:45-52 | the form record becomes the updater's result on the old record and keeps its keys distinct; the message is unchanged |
| Register.AppendEntry | src/pages/Register.tsx:57-70 | one pass of the loop body appends exactly the encoding of that key and value |
| Register.RegisterPage.BuildSubmission | src/pages/Register.tsx:54-71 | the loop appends exactly the entries of the record's encoding, so the entry keys are the non-null keys in order, and the entry under each key is the encoding of that key's value |
| JsStrings.ToLowerCase | src/pages/JobListings.tsx:42 | the lower-cased text has the same length, and each character is the lower-case form of the character at that index |
| JsStrings.OccursIncludes | src/pages/JobListings.tsx:42 | an occurrence of the pattern at any index is found by `includes` |
| JsStrings.IncludesOccurs | src/pages/JobListings.tsx:42 | when `includes` holds, it names an index where the pattern occurs |
| JsStrings.IncludesIffOccurs | src/pages/JobListings.tsx:42 | `includes` holds iff the pattern occurs at some index |
| JsStrings.Trim | src/pages/Register.tsx:65 | the result of `trim` starts and ends with a character that is not white space |
| JsStrings.TrimEmptyIff | src/pages/Profile.tsx:273 | `trim` is empty iff the text is only white space |
| JsStrings.TrimIsSlice | src/pages/Register.tsx:65 | `trim` returns a contiguous slice of its input with only white space around it |
| JsStrings.Split | src/pages/Register.tsx:64 | `split` gives at least one piece, and no piece contains a separator |
| JsStrings.SplitItems | src/pages/Register.tsx:63-66 | every item of the split/trim/filter pipeline is non-empty, trimmed and free of the separators |
| JsStrings.SplitItemsOfJoin | src/pages/Register.tsx:63-66 | clean items joined with a separator are split back into exactly those items |
| JsStrings.SplitItemsIdempotent | src/pages/Profile.tsx:52-55 | splitting the joined items of a split gives the same items |
| JsStrings.SplitItemsOfBlank | src/pages/Profile.tsx:52-55 | a text of separators and white space gives no items |
| JsStrings.JoinSplit | src/pages/Register.tsx:64 | joining the pieces of a split on a character with that character gives back the text |
| Json.StringifyArray | src/pages/Register.tsx:67 | the empty array, and only it, is written as "[]" |
| Json.StringifyRoundTrip | src/pages/Register.tsx:67 | parsing the JSON text of a string array gives the array back |
| Json.StringifyInjective | src/pages/Register.tsx:67 | different arrays are written as different texts |
| Seqs.FilterIsSubsequence | src/pages/JobListings.tsx:40 | `filter` keeps an order-preserving subsequence |
| Seqs.FilterCount | src/pages/JobListings.tsx:40 | `filter` keeps each kept value as often as it occurs and drops every other value |
| Seqs.Distinct | src/pages/JobListings.tsx:29-30 | `Array.from(new Set(...))` has no duplicates, the same members, and first-occurrence order |
| Profile.ParseSkills | src/pages/Profile.tsx:49-56 | every skill the memo returns is non-empty; a missing user, a missing `skills` key, an empty text and an empty array give no skills |
| Profile.TextSkillsAreClean | src/pages/Profile.tsx:52-55 | skills split from a text are non-empty, trimmed, and free of commas and line feeds |
| Profile.ArraySkillsKeepOrder | src/pages/Profile.tsx:51 | an array of skills keeps its order and loses exactly its empty items: every other item stays, as often as it occurs |
| Profile.SkillsTextRoundTrip | src/pages/Profile.tsx:52-55 | clean items written one per line, or with commas between them, are read back as written |
| Profile.JsonSkillsTextIsSplitOnCommas | src/pages/Profile.tsx:52-55 | a skills text holding a JSON array is split on its commas, so brackets and quotes stay in the chips |
| Profile.ParsedSkills | src/pages/Profile.tsx:128-139 | an array is used as it is; a text that does not parse as a string array gives no skills |
| Profile.RenderSkills | src/pages/Profile.tsx:141-154 | "No skills added." is shown iff the parsed list is empty; otherwise one chip per parsed item |
| Profile.RenderTakesArrayBranch | src/pages/Profile.tsx:127-139 | the memo always yields an array, so the card shows exactly the memo's items, all non-empty, and the `JSON.parse` branch is never taken |
| Profile.TextBranchDecodesStringifiedArray | src/pages/Profile.tsx:130-136 | had the text branch been reached with the text registration sends, it would decode the original items |
| Profile.TextProp | src/pages/Profile.tsx:109-113 | a property is read iff the key holds a string, and then it is that string |
| Profile.FieldText | src/pages/Profile.tsx:270-275 | the shown text is never empty and never padded; it is "-" for a missing or blank value and the trimmed value otherwise |
| Profile.FormatDate | src/pages/Profile.tsx:277-292 | a missing or empty date shows "-"; any other date shows its locale rendering or itself |
| Profile.EditField | src/pages/Profile.tsx:236-237 | an edit sets its key to the typed text and leaves every other key, present or absent, as it was |
| Profile.EditInputValue | src/pages/Profile.tsx:235 | an input shows "" when there is no edit data or no such key, and the stored text when the key holds a string |
| Profile.EditShowsTypedValue | src/pages/Profile.tsx:235-237 | after an edit the input shows what was typed |
| Profile.PassingYearEditLeavesDisplay | src/pages/Profile.tsx:113 | editing `passingYear` leaves `passing_year`, and the passing year the card shows, unchanged |
| Profile.PassingYearInputStartsEmpty | src/pages/Profile.tsx:228-235 | a user without a `passingYear` key opens the dialog with an empty passing-year input |
| Profile.ProfilePage.constructor | src/pages/Profile.tsx:22-24 | the page starts with no user, no edit data and the dialog closed |
| Profile.ProfilePage.Skills | src/pages/Profile.tsx:49-56 | every skill the page shows is non-empty |
| Profile.ProfilePage.ProfileLoaded | src/pages/Profile.tsx:40 | the loaded profile becomes the shown user; the edit data and the dialog are unchanged |
| Profile.ProfilePage.CloseModal | src/pages/Profile.tsx:248 | the Cancel button, like the dialog's own close handler at line 177, closes the dialog and changes nothing else |
| Profile.ProfilePage.EditInput | src/pages/Profile.tsx:228-238 | typing in one of the six inputs replaces `editData` by the edit of that key; the shown user does not change |
| Profile.ProfilePage.OpenModal | src/pages/Profile.tsx:63-66 | opening the dialog copies the shown user into `editData` and opens the dialog |
| Profile.ProfilePage.SaveSucceeded | src/pages/Profile.tsx:221-222 | a saved profile becomes the shown user and the dialog closes |

## Left out

- Network and storage. The axios and fetch calls, the token in `localStorage`, and the response handling of registration (src/pages/Register.tsx:73-89) are not modelled. Their results enter the model as method parameters, such as `FetchSucceeded(data)` or `SaveSucceeded(updated)`. The early return of MyApplications without a token is not modelled either.
- Navigation, timers, alerts, and most loading flags, rendering and CSS. The exceptions are:
  - the `loading` flag of MyApplications;
  - the status-badge classifier;
  - the green or red class of the registration message (Register.MessageBanner);
  - the choice between skill chips and "No skills added." (Profile.RenderSkills).
- `toLowerCase` folds ASCII letters only; full Unicode case mapping is not modelled. `trim` uses the exact ECMAScript white-space set.
- Profile.FormatDate: parsing by `Date` and the locale rendering are a function parameter, so only the empty case and the choice between the rendering and the raw text are proved.
- Json.StringifyArray: strings are sequences of Unicode scalar values, so a JavaScript string holding an unpaired surrogate, which `JSON.stringify` writes as a `\udXXX` escape, cannot be represented. The parser accepts only the compact form of a string array: no white space, numbers, objects or nesting. It stands in for `JSON.parse` on that form, and on other text it returns None where `JSON.parse` might succeed.
- Profile.TextProp: a key holding an array reads as absent. The page would call `trim` on it and throw.
- The profile user is a map from keys to strings or string arrays. Other JSON values under its keys, and JavaScript key order, are not modelled. Neither matters to the logic above.
- Register.EncodeValue: a file kept under a key other than `resume` is sent as the text "[object File]". The model does not cover any other `toString` result, since the form holds only strings, files and null.
- Register.Put: JavaScript orders integer-like keys such as "0" or "12" before all other keys, so spreading in a new key of that kind would place it first. The model appends every new key. The page's input names are fixed, and none of them is integer-like.
- The avatar URL fallback (src/pages/Profile.tsx:76-80) is a display detail and is not modelled.
