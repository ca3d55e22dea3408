# isaraya-link in Dafny

isaraya-link is a "link-in-bio" service. A signed-in user owns one or more company profiles, and
each profile is published at its own slug. This project models the parts of the client that hold
rules of their own:

- the slug cleaner and the profile-creation dialog that gates creation on slug availability;
- the `profiles` table with its create, update and delete guards, and its queries;
- URL normalisation and the length schema of the company-information form;
- the theme and palette editor, with its table of preset themes;
- the current-profile selection, remembered in the browser's local storage;
- the promotions editor: expiry, and the payloads its dialog builds;
- the checks, form fields and URLs of the image-hosting helpers;
- the WhatsApp link of a public profile.

Each source file becomes one module:

| module | file |
|---|---|
| `Common` | option and result types; `find`/`findIndex` |
| `JsText` | JavaScript `trim`, the `\s` class, ASCII `toLowerCase`, `startsWith`, UTF-16 `length` |
| `Slug` | the slug cleaner |
| `Profiles` | the table and its hooks |
| `CreateProfileDialog` | the dialog |
| `CompanyInfo` | the company-information form |
| `ColorCustomization` | the theme editor |
| `ProfileContext` | the current-profile selection |
| `Promotions` | the promotions editor |
| `Cloudinary` | the image-hosting helpers |
| `WhatsApp` | the WhatsApp button |

State that the source overwrites step by step is a `class`; pure logic is functions and lemmas.

- Classes:
  - `Profiles.ProfileTable`: the rows and an insertion clock.
  - `CreateProfileDialog.DialogState`: the dialog's React state.
  - `ColorCustomization.ThemeEditor`: the editor's state.
  - `ProfileContext.ProfileProvider`: the current profile and the storage map.
  - `Promotions.PromotionsManager`: the dialog state.
- Some backend answers are parameters: whether the availability RPC was reached (in the dialog
  and inside the create), whether the update's slug pre-check query failed, the id the database
  generates for a new row, and whether the promotion store accepted a write. The other store
  errors are not modelled (see Left out).
- Library functions are parameters too: `encodeURIComponent`, Zod's e-mail check, and the slug
  `generate_unique_slug` returns.

The central invariant is `Profiles.SlugsDistinct`: no two profiles share a slug. It holds
under every sequence of creates, updates and deletes when the update guard is corrected. With the
guard as written, it holds only on updates whose slug is non-empty and whose pre-check query
answered (see Findings).

`handleSlugChange` replaces each character outside `[a-z0-9-]` with `-` rather than deleting it,
then collapses hyphen runs and strips the edge hyphens. `Slug.CleanSlugWords` proves the result
equal, on every input, to the maximal runs of ASCII letters and digits of the lower-cased input
joined by single hyphens. So "Café Dakar!!" becomes "caf-dakar" (`Slug.CleanSlugCafeDakar`) and
"a.b" becomes "a-b" (`Slug.CleanSlugSeparates`).

## Model

| member | source | states |
|---|---|---|
| Common.FindIndex | src/contexts/ProfileContext.tsx:29 | the index returned lies within the list |
| Common.FindIndexSpec | src/contexts/ProfileContext.tsx:29 | the index returned satisfies the predicate and no earlier element does; `None` exactly when no element does |
| Common.FindSpec | src/contexts/ProfileContext.tsx:29 | the element returned is in the list and satisfies the predicate; `None` exactly when no element does |
| Common.FindFirst | src/components/admin/ColorCustomization.tsx:83 | `find` returns the first element satisfying the predicate |
| Common.OrDefault | src/lib/cloudinary.ts:6-7 | `value || fallback` on an optional string: the value when present and non-empty, otherwise the fallback (also the stored-colour reads of the theme editor) |
| JsText.TrimStart | src/components/admin/CompanyInfoForm.tsx:14 | the result is a suffix of the input, everything dropped is white space, and it does not start with white space |
| JsText.TrimEnd | src/components/admin/CompanyInfoForm.tsx:14 | the result is a prefix of the input, everything dropped is white space, and it does not end with white space |
| JsText.Trim | src/components/admin/CompanyInfoForm.tsx:14 | the result is a slice of the input with no white space at either end; it is empty exactly when the input is all white space |
| JsText.TrimEmptyIff | src/components/admin/CompanyInfoForm.tsx:14 | trimming leaves nothing exactly when every character is white space |
| JsText.TrimOfTrimmed | src/components/admin/CompanyInfoForm.tsx:14 | a string with no white space at its ends is its own trim |
| JsText.TrimIdempotent | src/components/admin/CompanyInfoForm.tsx:14 | trimming twice is trimming once |
| JsText.ToLowerAscii | src/components/dashboard/CreateProfileDialog.tsx:113 | each of A-Z maps to its own lower-case letter (same offset in the alphabet); every other character is unchanged |
| JsText.LowerAscii | src/components/dashboard/CreateProfileDialog.tsx:113 | same length as the input, each character lower-cased as above |
| JsText.Utf16Length | src/components/dashboard/CreateProfileDialog.tsx:46 | JavaScript `length` lies between the number of characters and twice that number; `JsText.Utf16LengthChar` and `JsText.Utf16LengthAppend` fix its value on every string |
| JsText.Utf16LengthChar | src/components/dashboard/CreateProfileDialog.tsx:46 | a character of the Basic Multilingual Plane counts one code unit, any other character two (a surrogate pair) |
| JsText.Utf16LengthAppend | src/components/admin/CompanyInfoForm.tsx:116-122 | `length` adds up over concatenation |
| JsText.Utf16LengthAscii | src/components/admin/CompanyInfoForm.tsx:116-122 | on ASCII text `length` is the number of characters |
| Slug.ReplaceInvalid | src/components/dashboard/CreateProfileDialog.tsx:114 | the length is kept; each character in `[a-z0-9-]` stays where it is, and each other character becomes `-` in its place |
| Slug.CollapseHyphens | src/components/dashboard/CreateProfileDialog.tsx:115 | definition of `.replace(/-+/g, '-')`, no contract of its own; `Slug.CollapseRun` and `Slug.CollapseHyphensThen` state that each hyphen run becomes exactly one hyphen, `Slug.CollapseWords` gives its result on slug characters, and `Slug.CollapseShape`, `Slug.CollapseKeepsAlnums` and `Slug.CollapseFixes` state the rest |
| Slug.CollapseShape | src/components/dashboard/CreateProfileDialog.tsx:115 | no two hyphens in a row; the first and last characters are kept; the result is empty only for empty input; the character set is kept |
| Slug.StripEdgeHyphens | src/components/dashboard/CreateProfileDialog.tsx:116 | at most two characters go, and a string with no hyphen at either end is left as it is; `Slug.StripKeepsShape` and `Slug.StripKeepsAlnums` state the rest |
| Slug.CleanSlug | src/components/dashboard/CreateProfileDialog.tsx:112-116 | the cleaned slug holds only `[a-z0-9-]`, never two hyphens in a row, and no hyphen at either end |
| Slug.AlnumsAppend | src/components/dashboard/CreateProfileDialog.tsx:112-116 | the letters and digits of a concatenation are those of each part, in order |
| Slug.StripKeepsShape | src/components/dashboard/CreateProfileDialog.tsx:116 | stripping the edge hyphens of a collapsed string leaves a clean slug |
| Slug.CollapseKeepsAlnums | src/components/dashboard/CreateProfileDialog.tsx:115 | collapsing hyphens keeps every letter and digit, in order |
| Slug.StripKeepsAlnums | src/components/dashboard/CreateProfileDialog.tsx:116 | stripping edge hyphens keeps every letter and digit |
| Slug.ReplaceKeepsAlnums | src/components/dashboard/CreateProfileDialog.tsx:114 | replacing invalid characters keeps exactly the letters and digits |
| Slug.CleanSlugKeepsAlnums | src/components/dashboard/CreateProfileDialog.tsx:112-116 | the slug's letters and digits are exactly those of the lower-cased input, in order (nothing here says where the hyphens go: `Slug.CleanSlugWords` does) |
| Slug.CleanSlugEmptyIff | src/components/dashboard/CreateProfileDialog.tsx:115-116 | the slug is "" exactly when the input has no ASCII letter or digit, so input made only of hyphens or invalid characters cleans to "" |
| Slug.CollapseFixes | src/components/dashboard/CreateProfileDialog.tsx:115 | a string with no double hyphen is left unchanged by collapsing |
| Slug.CollapseAppend | src/components/dashboard/CreateProfileDialog.tsx:115 | two pieces that do not meet at two hyphens collapse separately |
| Slug.CollapseHyphenRun | src/components/dashboard/CreateProfileDialog.tsx:115 | a run of one or more hyphens collapses to a single hyphen |
| Slug.CollapseHyphensThen | src/components/dashboard/CreateProfileDialog.tsx:115 | a hyphen run in front of text not starting with a hyphen becomes one hyphen in front of that text, collapsed |
| Slug.CollapseRun | src/components/dashboard/CreateProfileDialog.tsx:115 | a hyphen run between text not ending and text not starting with a hyphen becomes exactly one hyphen between the two, each collapsed |
| Slug.Words | src/components/dashboard/CreateProfileDialog.tsx:112-116 | the maximal runs of ASCII letters and digits, in order: a string starting with a letter or digit has at least one; `Slug.WordsAreWords` and `Slug.WordsEmptyIff` state the rest |
| Slug.WordsAreWords | src/components/dashboard/CreateProfileDialog.tsx:112-116 | every run is non-empty and holds only letters and digits |
| Slug.WordsEmptyIff | src/components/dashboard/CreateProfileDialog.tsx:112-116 | there is no run exactly when the string has no letter or digit |
| Slug.WordsAgree | src/components/dashboard/CreateProfileDialog.tsx:114 | strings with the same letters and digits at the same places, and non-letters elsewhere, have the same runs, so replacing invalid characters by `-` does not change them |
| Slug.JoinWordsEdges | src/components/dashboard/CreateProfileDialog.tsx:112-116 | joining runs with `-` gives a non-empty text that starts and ends with a letter or digit |
| Slug.JoinWordsGlue | src/components/dashboard/CreateProfileDialog.tsx:112-116 | a letter added in front of the first run is a letter in front of the join |
| Slug.CollapseWords | src/components/dashboard/CreateProfileDialog.tsx:115 | on a non-empty string of slug characters, collapsing gives its runs joined by single hyphens, with one hyphen kept at each end that had one, or a lone hyphen when there is no run |
| Slug.FormStep | src/components/dashboard/CreateProfileDialog.tsx:115 | that result takes the same first step as collapsing: a hyphen before a hyphen goes, any other first character stays |
| Slug.StripFrame | src/components/dashboard/CreateProfileDialog.tsx:116 | stripping removes exactly one edge hyphen on each side that has one, around text with none of its own |
| Slug.CleanSlugWords | src/components/dashboard/CreateProfileDialog.tsx:112-116 | the cleaner against an independent definition: the slug is the maximal runs of ASCII letters and digits of the lower-cased input joined by single hyphens, so every invalid character or hyphen run between two runs becomes exactly one hyphen and nothing is left at the ends |
| Slug.CleanSlugFixpoint | src/components/dashboard/CreateProfileDialog.tsx:112-116 | a string is its own cleaning exactly when it has the clean-slug shape |
| Slug.CleanSlugIdempotent | src/components/dashboard/CreateProfileDialog.tsx:112-116 | cleaning an already cleaned slug returns it unchanged |
| Slug.CleanSlugCafeDakar | src/components/dashboard/CreateProfileDialog.tsx:112-116 | "Café Dakar!!" cleans to "caf-dakar" |
| Slug.CleanSlugSeparates | src/components/dashboard/CreateProfileDialog.tsx:114-115 | "a.b" cleans to "a-b": an invalid character separates the letters around it |
| Profiles.CreateOutcome | src/hooks/useProfiles.ts:84-109 | no user gives NotAuthenticated; an RPC that failed or said "taken" gives SlugTaken; success exactly when a user is signed in, the RPC answered "available" and the id is new; the row is the draft with `user_id` set |
| Profiles.AfterCreate | src/hooks/useProfiles.ts:99-106 | on success the new row is added under its id and every other row is kept; on failure the table is unchanged |
| Profiles.CreateKeepsSlugsDistinct | src/hooks/useProfiles.ts:92-106 | a create never lets two profiles share a slug |
| Profiles.CreateKeepsWellFormed | src/hooks/useProfiles.ts:99-106 | a create keeps every row under its own id with a distinct insertion stamp |
| Profiles.Apply | src/hooks/useProfiles.ts:145 | every column present in the update is overwritten and every absent one kept, column by column; id, owner and stamp never change; an empty update leaves the row as it was |
| Profiles.UpdateOutcome | src/hooks/useProfiles.ts:128-151 | as written: refused as taken exactly when the slug is present, non-empty, the lookup answered and another row holds it; otherwise success exactly when the row exists, and the new row is the old one with the update applied |
| Profiles.UpdateToOwnSlugAccepted | src/hooks/useProfiles.ts:130-137 | with distinct slugs, updating a profile to its own slug succeeds |
| Profiles.UpdateWithoutSlugSkipsCheck | src/hooks/useProfiles.ts:130 | an update without a slug succeeds exactly when the row exists |
| Profiles.UpdateKeepsSlugsDistinct | src/hooks/useProfiles.ts:130-148 | with the guard as written, an update with a non-empty slug whose lookup answered keeps slugs distinct |
| Profiles.UpdateKeepsWellFormed | src/hooks/useProfiles.ts:143-148 | an update, under either guard, keeps ids and stamps as they were |
| Profiles.EmptySlugUpdateDuplicates | src/hooks/useProfiles.ts:130 | counterexample: updating to "" skips the check and leaves two profiles holding "" |
| Profiles.FailedLookupUpdateDuplicates | src/hooks/useProfiles.ts:132-138 | counterexample: a failed pre-check query reads as "no conflict" and leaves two profiles holding the same slug |
| Profiles.CheckedUpdateOutcome | src/hooks/useProfiles.ts:128-151 | corrected guard: success exactly when the row exists and, if a slug was given, the lookup answered and no other row holds it; the new row is the old one with the update applied; a failed lookup is a store error and a held slug is refused as taken |
| Profiles.CheckedUpdateKeepsSlugsDistinct | src/hooks/useProfiles.ts:130-148 | the corrected update keeps slugs distinct on every input |
| Profiles.CheckedUpdateAgrees | src/hooks/useProfiles.ts:130-141 | where the written guard runs and its lookup answers, the two guards give the same outcome |
| Profiles.AfterDelete | src/hooks/useProfiles.ts:173-176 | exactly the row with the id is gone, every other row is untouched, and with distinct slugs its slug is free again |
| Profiles.DeleteKeepsSlugsDistinct | src/hooks/useProfiles.ts:173-176 | a delete keeps slugs distinct |
| Profiles.Run | src/hooks/useProfiles.ts:84-176 | definition: a sequence of creates, updates and deletes applied in order, no contract of its own; its invariant is `Profiles.RunKeepsSlugsDistinct` |
| Profiles.RunKeepsSlugsDistinct | src/hooks/useProfiles.ts:84-176 | starting from distinct slugs, any sequence of creates, updates and deletes keeps them distinct: always with the corrected guard, and with the written guard when every update is benign |
| Profiles.ListFrom | src/hooks/useProfiles.ts:19-23 | the listing holds only the user's rows, strictly newest first |
| Profiles.ListFromComplete | src/hooks/useProfiles.ts:19-23 | every row of the user stamped before the bound is listed |
| Profiles.ListProfiles | src/hooks/useProfiles.ts:9-30 | refused exactly when nobody is signed in; otherwise the user's rows, newest first |
| Profiles.ListProfilesComplete | src/hooks/useProfiles.ts:19-26 | every profile of the signed-in user appears in the listing |
| Profiles.GetProfile | src/hooks/useProfiles.ts:35-52 | a missing or empty id is refused before any query; success exactly for an id in the table, returning that row |
| Profiles.GetProfileBySlug | src/hooks/useProfiles.ts:57-75 | a missing or empty slug is refused; a profile returned has that slug and is active |
| Profiles.ProfileFoundBySlug | src/hooks/useProfiles.ts:63-68 | with distinct slugs, an active profile is found by its slug |
| Profiles.InactiveNotFoundBySlug | src/hooks/useProfiles.ts:67 | an inactive profile is never served by its slug |
| Profiles.CheckSlugAvailability | src/hooks/useProfiles.ts:193-203 | an answer exactly when the RPC was reached, and the answer is whether no row holds the slug |
| Profiles.CheckIgnoresExcludeId | src/hooks/useProfiles.ts:195-197 | the result does not depend on `excludeId`, so a profile's own slug is reported as taken |
| Profiles.ProfileTable.constructor | src/hooks/useProfiles.ts:99-106 | an empty, well-formed table |
| Profiles.ProfileTable.CreateProfile | src/hooks/useProfiles.ts:84-109 | the outcome is `CreateOutcome`; the row is inserted on success and nothing changes on failure; slugs stay distinct |
| Profiles.ProfileTable.UpdateProfile | src/hooks/useProfiles.ts:128-151 | the outcome is `CheckedUpdateOutcome`, the corrected guard; the row is replaced on success and nothing changes on failure; slugs stay distinct |
| Profiles.ProfileTable.DeleteProfile | src/hooks/useProfiles.ts:172-179 | the table becomes `AfterDelete`, and slugs stay distinct |
| CreateProfileDialog.DialogState.constructor | src/components/dashboard/CreateProfileDialog.tsx:16-22 | every field blank, not edited by hand, nothing checked |
| CreateProfileDialog.DialogState.SetCompanyName | src/components/dashboard/CreateProfileDialog.tsx:16 | the company name becomes the typed value |
| CreateProfileDialog.DialogState.AutoSlugEffect | src/components/dashboard/CreateProfileDialog.tsx:29-42 | the generated slug replaces the slug only for a non-empty name while the slug was not edited by hand; after a manual edit the slug never changes |
| CreateProfileDialog.DialogState.HandleSlugChange | src/components/dashboard/CreateProfileDialog.tsx:109-118 | marks the slug as edited by hand and stores the cleaned value, which has the clean-slug shape |
| CreateProfileDialog.DialogState.AvailabilityEffect | src/components/dashboard/CreateProfileDialog.tsx:45-61 | a slug shorter than 3 code units is never checked and clears the result; otherwise the result is the RPC's answer, or null if the RPC failed |
| CreateProfileDialog.DialogState.SubmitGuards | src/components/dashboard/CreateProfileDialog.tsx:66-84 | passes exactly when the slug is at least 3 code units long, not known to be taken, and (when no answer is known yet) the check made now reaches the RPC and finds it free; a negative answer from that check is recorded as false, and nothing else changes |
| CreateProfileDialog.DialogState.ResetForm | src/components/dashboard/CreateProfileDialog.tsx:95-102 | every field blank, not edited by hand, nothing checked |
| CreateProfileDialog.DialogState.HandleSubmit | src/components/dashboard/CreateProfileDialog.tsx:63-107 | a profile is created exactly when the submit guards pass and the create succeeds, and it is the row the create inserts; a negative answer from the check made at submit time is recorded as false; a short or known-taken slug creates nothing and changes nothing; a created profile has an available slug, is active, carries the form's fields, and is inserted; after a creation the form is blank; on any other failure the table and the fields are unchanged, and the only possible change is null→false for a slug found taken |
| CreateProfileDialog.DialogState.SubmitEnabled | src/components/dashboard/CreateProfileDialog.tsx:219-226 | definition of the button's `disabled` condition, no contract of its own; `CreateProfileDialog.EnabledPassesGuards` and `CreateProfileDialog.InvalidOnlySlugDisables` state what it guarantees |
| CreateProfileDialog.EnabledPassesGuards | src/components/dashboard/CreateProfileDialog.tsx:219-226 | an enabled submit button means the slug-length and known-taken guards of submit pass and a name is typed |
| CreateProfileDialog.InvalidOnlySlugDisables | src/components/dashboard/CreateProfileDialog.tsx:109-118 | a hand-typed slug with no ASCII letter or digit cleans to "" and keeps the submit button disabled |
| CompanyInfo.HasHttpScheme | src/components/admin/CompanyInfoForm.tsx:18 | definition of `/^https?:\/\//i`, no contract of its own; `CompanyInfo.NormalizeUpperScheme` and `CompanyInfo.PrefixedHasScheme` state that it ignores case and accepts the added prefix |
| CompanyInfo.NormalizeUrl | src/components/admin/CompanyInfoForm.tsx:12-24 | "" exactly for blank input; a non-empty result is trimmed and has an http(s) scheme in any case; an input whose trim has a scheme gives the trim; otherwise `https://` + the trim |
| CompanyInfo.PrefixedHasScheme | src/components/admin/CompanyInfoForm.tsx:23 | `https://` before trimmed, non-empty text gives a trimmed URL with a scheme |
| CompanyInfo.NormalizeUrlIdempotent | src/components/admin/CompanyInfoForm.tsx:12-24 | normalising twice is normalising once |
| CompanyInfo.NormalizeBare | src/components/admin/CompanyInfoForm.tsx:14-24 | a trimmed, non-empty text with no scheme becomes exactly `https://` followed by it |
| CompanyInfo.NormalizeBareDomain | src/components/admin/CompanyInfoForm.tsx:23 | "example.com" becomes `https://` followed by "example.com" |
| CompanyInfo.NormalizeSchemed | src/components/admin/CompanyInfoForm.tsx:14-24 | a trimmed URL that already has an http or https scheme, in any case, is kept unchanged |
| CompanyInfo.NormalizeUpperScheme | src/components/admin/CompanyInfoForm.tsx:18-20 | "HTTP://x" is kept as it is: the scheme test ignores case |
| CompanyInfo.FieldIssue | src/components/admin/CompanyInfoForm.tsx:26-42 | a field has no issue exactly when its length is within its bounds and, for the e-mail, the format check passes |
| CompanyInfo.FirstIssue | src/components/admin/CompanyInfoForm.tsx:139-144 | no issue exactly when every listed field passes; otherwise the issue of a field before which every field passes |
| CompanyInfo.Validate | src/components/admin/CompanyInfoForm.tsx:122 | accepts exactly when every field of the schema passes, returning the value itself; otherwise reports the first issue in key order |
| CompanyInfo.SchemaOrderComplete | src/components/admin/CompanyInfoForm.tsx:26-42 | the schema's key list names every field |
| CompanyInfo.SchemaPassesAllFields | src/components/admin/CompanyInfoForm.tsx:26-42 | passing every entry of the key list is the same as passing every field |
| CompanyInfo.WithinSchemaPasses | src/components/admin/CompanyInfoForm.tsx:26-42 | a value within every field's bounds raises no issue on any field |
| CompanyInfo.PassingIsWithinSchema | src/components/admin/CompanyInfoForm.tsx:26-42 | a value raising no issue on any field is within every field's bounds |
| CompanyInfo.ValidateAcceptsIff | src/components/admin/CompanyInfoForm.tsx:26-42 | validation accepts exactly the values within the bounds (name 1-100, slogan/address 200, maps URL 500, description 1000, phone/WhatsApp 20, website and socials 100, valid e-mail of at most 100) |
| CompanyInfo.EmptyNameReportedFirst | src/components/admin/CompanyInfoForm.tsx:27 | an empty company name is the issue reported, with "Le nom est requis" |
| CompanyInfo.Normalized | src/components/admin/CompanyInfoForm.tsx:116-120 | the website and maps URL are normalised |
| CompanyInfo.NormalizedPassesThrough | src/components/admin/CompanyInfoForm.tsx:116-120 | every other field is passed through unchanged |
| CompanyInfo.NormalizedIdempotent | src/components/admin/CompanyInfoForm.tsx:116-120 | resubmitting normalised values sends the same values |
| CompanyInfo.SubmitCompanyInfo | src/components/admin/CompanyInfoForm.tsx:116-132 | accepted exactly when the normalised values are within the schema, and then the values sent are the normalised ones |
| CompanyInfo.PrefixCountsTowardWebsiteLimit | src/components/admin/CompanyInfoForm.tsx:116-122 | bounds are checked after normalisation: a bare website of more than 92 code units is refused |
| CompanyInfo.HttpsPrefixLength | src/components/admin/CompanyInfoForm.tsx:23 | `https://` adds 8 code units |
| ColorCustomization.FindTheme | src/components/admin/ColorCustomization.tsx:83 | definition: `find` over the preset table, no contract of its own; its meaning is `ColorCustomization.FindThemeMeaning` and `ColorCustomization.FindThemeByName` |
| ColorCustomization.FindThemeMeaning | src/components/admin/ColorCustomization.tsx:83 | a theme found is in the table under that name; none is found exactly when no entry has the name |
| ColorCustomization.ThemeNamesDistinct | src/components/admin/ColorCustomization.tsx:16-48 | the preset names are pairwise distinct |
| ColorCustomization.FindThemeByName | src/components/admin/ColorCustomization.tsx:83 | looking up a preset by its name finds that preset |
| ColorCustomization.LightIsDefault | src/components/admin/ColorCustomization.tsx:16-58 | the light preset and the custom entry hold the default colours |
| ColorCustomization.SelectLightGivesDefault | src/components/admin/ColorCustomization.tsx:115-121 | selecting `light` yields the default colours whatever the current palette |
| ColorCustomization.PaletteFrom | src/components/admin/ColorCustomization.tsx:53-59 | no stored colours give the defaults; otherwise each colour is the stored one or its default |
| ColorCustomization.StoredReadsBack | src/components/admin/ColorCustomization.tsx:68-74 | a saved palette with no empty colour reads back as itself; for every key, an empty colour reads back as that key's default and any other colour as itself |
| ColorCustomization.WithColor | src/components/admin/ColorCustomization.tsx:90-95 | the chosen key holds the new value, and the other four colours are unchanged |
| ColorCustomization.ColorsAfterSelect | src/components/admin/ColorCustomization.tsx:82-87 | definition of the colours after a selection, no contract of its own; its meaning is `ColorCustomization.ColorsAfterSelectMeaning` and `ColorCustomization.SelectLightGivesDefault` |
| ColorCustomization.ColorsAfterSelectMeaning | src/components/admin/ColorCustomization.tsx:82-87 | a preset name other than `custom` gives the colours of the table entry with that name; `custom` or a name no entry has keeps the current ones |
| ColorCustomization.SavedUpdate | src/components/admin/ColorCustomization.tsx:101-107 | the update sets exactly `theme_preset` and `custom_colors` and no other column |
| ColorCustomization.SaveThemeOutcome | src/components/admin/ColorCustomization.tsx:97-107 | saving a theme meets no slug check: both guards agree, and it succeeds exactly when the profile exists, keeping every other column |
| ColorCustomization.ThemeEditor.constructor | src/components/admin/ColorCustomization.tsx:52-60 | the theme is the stored preset or `light`, each colour the stored one or its default, custom mode exactly for `custom` |
| ColorCustomization.ThemeEditor.SyncFromProfile | src/components/admin/ColorCustomization.tsx:62-76 | a non-empty preset replaces the theme and stored colours replace the palette; the mode keeps following the theme |
| ColorCustomization.ThemeEditor.HandleThemeSelect | src/components/admin/ColorCustomization.tsx:78-88 | the theme becomes the name, custom mode exactly for `custom`, and the colours become `ColorsAfterSelect` |
| ColorCustomization.ThemeEditor.HandleColorChange | src/components/admin/ColorCustomization.tsx:90-95 | one colour replaced, the others and the theme untouched |
| ColorCustomization.ThemeEditor.HandleReset | src/components/admin/ColorCustomization.tsx:115-122 | the theme becomes `light`, custom mode ends, and the colours are the light preset's |
| ColorCustomization.ThemeEditor.SelectPresetMode | src/components/admin/ColorCustomization.tsx:141-146 | custom mode ends; from `custom`, `light` is selected with its colours; otherwise nothing else changes |
| ColorCustomization.ThemeEditor.SelectCustomMode | src/components/admin/ColorCustomization.tsx:157-160 | custom mode begins with the theme `custom`, keeping the palette |
| ColorCustomization.ThemeEditor.Payload | src/components/admin/ColorCustomization.tsx:101-107 | the update carries no slug, the selected theme and the current palette |
| ProfileContext.GetItem | src/contexts/ProfileContext.tsx:26 | a value exactly when the key is stored, and then the stored value |
| ProfileContext.SelectedProfile | src/contexts/ProfileContext.tsx:25-37 | the profile picked is in the list; a non-empty saved id that matches gives that profile; otherwise the first |
| ProfileContext.SelectedIsFirstMatch | src/contexts/ProfileContext.tsx:29 | when several profiles hold the saved id, the first of them is picked |
| ProfileContext.StoreAfterSet | src/contexts/ProfileContext.tsx:45-52 | a profile's id is stored under the key, or the key is removed; every other key is untouched |
| ProfileContext.ChosenProfileRestored | src/contexts/ProfileContext.tsx:24-52 | with distinct, non-empty ids, a profile set as current is the one selected on the next load |
| ProfileContext.EmptyIdNotRestored | src/contexts/ProfileContext.tsx:28-37 | a profile whose id is "" is saved but not restored: the first profile is selected |
| ProfileContext.ProfileProvider.constructor | src/contexts/ProfileContext.tsx:21 | no current profile, storage as given |
| ProfileContext.ProfileProvider.SelectionEffect | src/contexts/ProfileContext.tsx:24-43 | a non-empty list selects `SelectedProfile`, a member of the list, without touching storage; an empty list with nobody signed in clears the profile and the key; an empty list with a user signed in changes nothing |
| ProfileContext.ProfileProvider.SetCurrentProfile | src/contexts/ProfileContext.tsx:45-52 | the current profile becomes the given one, and storage becomes `StoreAfterSet` |
| Promotions.IsPromotionValid | src/components/admin/PromotionsManager.tsx:96-99 | definition, no contract of its own; `Promotions.ValidityOnlyEnds` and `Promotions.ExpiredBadgeIff` state what it means |
| Promotions.ShowsExpiredBadge | src/components/admin/PromotionsManager.tsx:238-240 | definition, no contract of its own; `Promotions.ExpiredBadgeIff` states exactly when the badge shows |
| Promotions.ExpiredBadgeIff | src/components/admin/PromotionsManager.tsx:238-240 | the badge shows exactly when an end date is present and not later than now; the end instant itself counts as expired; the badge shows exactly when the promotion is not valid |
| Promotions.ValidityOnlyEnds | src/components/admin/PromotionsManager.tsx:96-99 | a promotion valid at an instant was valid at every earlier one |
| Promotions.DayOf | src/components/admin/PromotionsManager.tsx:53 | the UTC day returned contains the instant |
| Promotions.MidnightOf | src/components/admin/PromotionsManager.tsx:68 | the saved instant is a UTC midnight |
| Promotions.DayRoundTrip | src/components/admin/PromotionsManager.tsx:53-68 | a day survives saving and re-opening |
| Promotions.FormToData | src/components/admin/PromotionsManager.tsx:66-69 | an empty date field gives null; a date is saved as an instant within that day; the other fields are copied |
| Promotions.FormOf | src/components/admin/PromotionsManager.tsx:49-55 | title and description copied; a missing discount text is ""; a missing flag is true; the date is the UTC day of the end |
| Promotions.ResaveTruncatesEnd | src/components/admin/PromotionsManager.tsx:53-68 | opening and saving unchanged moves the end back to its UTC midnight, by less than a day |
| Promotions.ResaveCanExpire | src/components/admin/PromotionsManager.tsx:53-99 | a promotion valid before such a save can be expired after it |
| Promotions.PromotionsManager.constructor | src/components/admin/PromotionsManager.tsx:25-33 | closed dialog, nothing edited, blank form |
| Promotions.PromotionsManager.ResetForm | src/components/admin/PromotionsManager.tsx:35-44 | a blank form with `is_active` true and nothing being edited |
| Promotions.PromotionsManager.HandleOpenDialog | src/components/admin/PromotionsManager.tsx:46-60 | the dialog opens; an existing promotion is edited with its form, otherwise the form is blank |
| Promotions.PromotionsManager.HandleSubmit | src/components/admin/PromotionsManager.tsx:62-88 | an edited promotion gives an update with only the form data; otherwise a create with the profile id and `display_order` = the number listed; a success closes and resets the dialog, a failure changes nothing |
| Cloudinary.CloudName | src/lib/cloudinary.ts:6-39 | the cloud name is never empty, so the missing-configuration checks never fire |
| Cloudinary.UploadPreset | src/lib/cloudinary.ts:7 | the upload preset is never empty |
| Cloudinary.Join | src/lib/cloudinary.ts:63 | a single tag is sent as itself |
| Cloudinary.Split | src/lib/cloudinary.ts:63 | the reference inverse of the join: at least one piece, none holding the separator |
| Cloudinary.SplitJoin | src/lib/cloudinary.ts:63 | the tags are recovered from the joined value when none holds a comma |
| Cloudinary.AppendOptional | src/lib/cloudinary.ts:57-68 | appending an optional field keeps the form ordered and adds its name, and only its name, when given |
| Cloudinary.UploadForm | src/lib/cloudinary.ts:53-55 | the form starts with `file` and `upload_preset` |
| Cloudinary.UploadFormThroughFolder | src/lib/cloudinary.ts:53-60 | after the folder step, the names are `file`, `upload_preset` and, when given, `folder`, in that order |
| Cloudinary.UploadFormFields | src/lib/cloudinary.ts:53-68 | the form is ordered; `folder`, `tags` and `transformation` are each present exactly when given, with their values, the tags joined by commas |
| Cloudinary.UploadFormThroughTags | src/lib/cloudinary.ts:53-64 | after the tags step, the form is ordered and `folder` and `tags` are each present exactly when given, with their values |
| Cloudinary.UploadFormOrdered | src/lib/cloudinary.ts:53-68 | every name of the whole form appears at most once, in append order |
| Cloudinary.UploadFormKeepsEarlier | src/lib/cloudinary.ts:53-68 | appending the transformation keeps `folder` and `tags` as they were |
| Cloudinary.UploadFormTransformation | src/lib/cloudinary.ts:66-68 | `transformation` is present exactly when given, with its value |
| Cloudinary.BuildForm | src/lib/cloudinary.ts:53-68 | the appends build exactly `UploadForm` |
| Cloudinary.PrepareUpload | src/lib/cloudinary.ts:31-71 | a non-image is refused before the size is looked at; a file over 10 MiB is refused; accepted exactly otherwise, with the upload URL and `UploadForm` |
| Cloudinary.SizeLimitExample | src/lib/cloudinary.ts:47-50 | an image of exactly 10 MiB is accepted, one byte more is refused |
| Cloudinary.DeleteFromCloudinary | src/lib/cloudinary.ts:97-102 | always refused |
| Cloudinary.GetCloudinaryUrl | src/lib/cloudinary.ts:110-125 | the URL is exactly the delivery base, `/`, the transformation and `/` when one is given and non-empty, then the public id: prefix, suffix and length pin each part |
| Cloudinary.TransformationIsPathPrefix | src/lib/cloudinary.ts:120-124 | a non-empty transformation is a path segment before the public id; an empty one is the same as none |
| WhatsApp.RemoveWhitespace | src/components/WhatsAppButton.tsx:14 | the result has no white space, is no longer than the input, and is the input itself when it had none |
| WhatsApp.RemoveWhitespaceChar | src/components/WhatsAppButton.tsx:14 | a single character is dropped exactly when it is in the `\s` class, and kept otherwise |
| WhatsApp.RemoveWhitespaceAppend | src/components/WhatsAppButton.tsx:14 | removal works piece by piece, keeping the order of what remains |
| WhatsApp.RemoveWhitespaceIdempotent | src/components/WhatsAppButton.tsx:14 | removing white space twice is removing it once |
| WhatsApp.DropsSeparatingSpace | src/components/WhatsAppButton.tsx:14 | a space between two runs free of white space is dropped and both runs are kept whole |
| WhatsApp.SpacedNumberExample | src/components/WhatsAppButton.tsx:14 | "77 123" becomes "77123" |
| WhatsApp.Message | src/components/WhatsAppButton.tsx:13 | the message is the greeting, the company name, then the request |
| WhatsApp.MessageInjective | src/components/WhatsAppButton.tsx:13 | different companies get different messages |
| WhatsApp.WhatsAppUrl | src/components/WhatsAppButton.tsx:11-14 | no link exactly when the number is absent or "" |
| WhatsApp.UrlParts | src/components/WhatsAppButton.tsx:14 | the link is `https://wa.me/`, the number with no white space, then `?text=` and the encoded message |
| WhatsApp.BlankNumberGivesNumberlessLink | src/components/WhatsAppButton.tsx:11-14 | as written: a number " " passes the guard and gives a link with no number |
| WhatsApp.CheckedWhatsAppUrl | src/components/WhatsAppButton.tsx:11-14 | corrected guard: no link exactly when nothing is left once white space is removed; any link it gives is the written one |
| WhatsApp.CheckedUrlNamesNumber | src/components/WhatsAppButton.tsx:14 | every link of the corrected guard carries a non-empty number segment |

## Left out

- I/O is not modelled, only its outcome:
  - the Supabase queries and RPCs, the `fetch` of the upload (src/lib/cloudinary.ts:73-89), toasts, console logging, and react-query caching and invalidation;
  - some backend answers are parameters: an RPC reached, the update's pre-check lookup failed, the promotion store accepted, a generated id.
- Profiles.CreateOutcome: the insert (`.insert().select().single()` then `if (error) throw`, src/hooks/useProfiles.ts:99-108) fails in the model only when the generated id is already a row. Any other store or network error on that insert, such as a database constraint, is not modelled.
- Profiles.UpdateOutcome: the write itself (`.update().eq().select().single()`, src/hooks/useProfiles.ts:143-150) fails in the model only when no row has the id. A store or network error on that write is not modelled. The same holds for Profiles.CheckedUpdateOutcome.
- Profiles.AfterDelete: the delete always succeeds in the model. Its `if (error) throw` (src/hooks/useProfiles.ts:173-178) on a store or network error is not modelled.
- Profiles.ListProfiles: the query's `if (error) throw` (src/hooks/useProfiles.ts:19-26) is not modelled. Neither are those of Profiles.GetProfile (lines 41-47) and Profiles.GetProfileBySlug (lines 63-70), beyond the missing or ambiguous row that `.single()` reports.
- Concurrency and timing are not modelled:
  - the 500 ms debounce of the two dialog effects and their cancellation;
  - the check-then-write race between clients.
  - Effects are events fired one at a time, in any order.
- `generate_unique_slug` and `is_slug_available` run in the database, and their SQL is not part of this model.
  - The generated slug is a parameter of `CreateProfileDialog.DialogState.AutoSlugEffect`.
  - `is_slug_available` is taken to mean "no row holds the slug" (`Profiles.SlugAvailable`).
- Any uniqueness constraint the database may put on the slug column is not part of this model either. The client-side guards are the only ones modelled.
- Column defaults of the database other than `user_id` and `created_at` are not modelled. `created_at` is an insertion stamp from a counter, which orders the listing.
- JavaScript `toLowerCase` is modelled for A-Z only. The few non-ASCII characters that lower-case to ASCII are not modelled.
- The slug cleaner works on code points, while JavaScript's regular expressions work on UTF-16 code units. An astral character becomes `--` there and `-` here, and the collapse step that follows makes the two results equal.
- `encodeURIComponent` and Zod's `.email()` check are abstract function parameters.
- Zod's default messages for the `.max` bounds are not modelled. `CompanyInfo.Message` returns `None` for them.
- `loadCompanyInfo` and the `company_info` update of the company form are I/O and left out. Only the normalise-then-validate step is modelled.
- `handleDelete` of the promotions editor is a browser `confirm` followed by a store call, with no rule of its own, and is left out.
- ColorCustomization.ThemeEditor.HandleColorChange: the key is one of the five palette keys. The source accepts any string key and would add a sixth, but its colour inputs only name the five.
- The theme editor's `handleSubmit` is modelled as `ColorCustomization.ThemeEditor.Payload` plus the table update it sends. The toast that follows is left out.
- Dates are integers: milliseconds since the epoch for instants, and a UTC day number for the form's date field. Local time zones and `toLocaleDateString` are not modelled.
- `useProfileTheme`, the thin table hooks (`usePromotions`, `useProducts`, `useServices`, `useCompanyInfo`), the CRUD forms, pages and scripts are outside the modelled core.
- `deleteFromCloudinary`'s console warning is not modelled. Only its refusal is.
- `uploadToCloudinary`'s missing-configuration checks (src/lib/cloudinary.ts:35-39, 114-116) cannot fire, because both values fall back to non-empty defaults. `Cloudinary.CloudName` proves this, and the dead branches are not modelled.

## Findings

| source | as written | input that shows it | evidently intended | confidence | as-written member | corrected member |
|---|---|---|---|---|---|---|
| src/hooks/useProfiles.ts:130-148 | the slug pre-check runs only when `updates.slug` is truthy, but the update then writes the slug even when it is "" | rows "a" with slug "" and "b" with slug "shop"; update "b" with slug "" | every slug given in an update is checked against the other profiles | not executed; lower if the database enforces slug uniqueness | Profiles.EmptySlugUpdateDuplicates | Profiles.CheckedUpdateOutcome, Profiles.CheckedUpdateKeepsSlugsDistinct |
| src/hooks/useProfiles.ts:132-138 | the pre-check query's error is ignored, so a failed lookup (`existingProfiles` null) reads as "no other profile holds it" | rows "a" with slug "shop" and "b" with slug "cafe"; update "b" to "shop" while the lookup fails | a failed lookup refuses the update instead of passing it | not executed; lower if the database enforces slug uniqueness | Profiles.FailedLookupUpdateDuplicates | Profiles.CheckedUpdateOutcome, Profiles.CheckedUpdateKeepsSlugsDistinct |
| src/components/WhatsAppButton.tsx:11-14 | the guard tests the raw number, but the link uses the number with white space removed | `whatsapp` = " " | no button when no digit is left once white space is removed | not executed | WhatsApp.BlankNumberGivesNumberlessLink | WhatsApp.CheckedWhatsAppUrl, WhatsApp.CheckedUrlNamesNumber |
