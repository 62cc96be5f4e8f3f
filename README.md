# Prompt revision diff, commit hash, access checks and organization rules

A Dafny model of the core of the genum prompt-management backend. It has four parts.

- **The change report between two prompt revisions** (`findDiff`). The prompt text is line-diffed. The model config is pretty-printed as JSON with a two-space indent and line-diffed the same way. A note is added when the language model changed. Removed lines are shown as `- line` and added lines as `+ line`, and each part goes in its own tagged section: `<promptChanges>`, `<languageModelConfigChanges>` and `<languageModelChanges>`. The line diff is a longest-common-subsequence alignment written out in Dafny (module `LineDiff`). Splitting text into lines is module `Text`. The JSON printer is module `Json`. The section layout is `ReportText`, and the report itself is `DiffReport`.
- **The commit identity of a prompt revision** (`commitHash`, module `Hash`). It is a 64-character lowercase hex token: the SHA-256 digest of a canonical encoding of the revision's value, language model id, language model config and generation count. The encoding is length-prefixed and tagged, so it is injective. The digest function is a parameter.
- **Access checks and API-key selection** (`checkPromptAccess`, `checkMemoryAccess`, `checkTestcaseAccess`, `getApiKeyByQuota`, module `Access`). These are decisions over database rows, which are held in an explicit `Store` of maps. The cloud/local instance kind is a boolean parameter.
- **Organization service rules** (`OrganizationService`, module `Organization`):
  - validation of an organization's custom provider;
  - adding a member, where an ADMIN becomes OWNER of every project of the organization;
  - inviting a member by e-mail.

  The database tables are fields of an `OrganizationService` object. The methods update those fields.

The implementations of `findDiff` and `commitHash` (`apps/core/src/utils/diff.ts` and `apps/core/src/utils/hash.ts`) are not part of this model. Their behaviour is modelled from what their unit tests assert, and the "## Model" table cites those tests.

Design choices where the tests leave freedom:

- **Lines.** The empty text has no lines. A final `'\n'` ends the last line rather than starting an empty one.
- **Alignment tie-break.** When two different lines are equally good to drop, the old line is removed first. So a changed line shows as its removal immediately followed by its addition.
- **JSON.** Values follow `JSON.stringify(value, null, gap)`. Members are printed in their stored order. Numbers are kept as decimal literal strings.
- **Key selection.** The result records the database reads that were made: whether the system organization id was read, and whose keys were looked up.
- **Report lookups.** The report records the model ids the label lookup was called with.
- **Reading a report back.** `ReportText.ReadReport` splits a report into the lines of its three sections. The source has no such reader; it is there to state what the layout guarantees, namely that a report loses none of its diffs.

The *sets* of changed lines are not mirror images when the two texts are swapped. Their *counts* are. `LineDiff.ChangeCountsSymmetric` proves the counts. `LineDiff.SwappedLinesNotMirrored` exhibits two swapped lines for which the sets differ.

## Model

| member | source | states |
|---|---|---|
| Text.Lines | apps/core/src/utils/diff.test.ts:50-58 | no line of a text contains the line terminator |
| Text.JoinLines | apps/core/src/utils/diff.test.ts:50-58 | joining the lines of a text gives the text back, less a final newline |
| Text.LinesJoin | apps/core/src/utils/diff.test.ts:50-58 | splitting lines joined by newlines gives the same lines back, if none contains a newline and the last is not empty |
| Text.SingleLine | apps/core/src/utils/diff.test.ts:11-21 | a non-empty text without a newline is a single line |
| Text.JoinAppend | apps/core/src/utils/diff.test.ts:27-39 | two non-empty runs of lines joined together are the two joins with one newline between them |
| Json.UnescapeEscape | apps/core/src/utils/diff.test.ts:32-35 | the escaped body of a JSON string literal reads back as the original string |
| Json.EscapePlain | apps/core/src/utils/diff.test.ts:33-34 | a key made of plain characters is printed unchanged between its quotes |
| Json.CompactIsOneLine | apps/core/src/utils/diff.test.ts:32-35 | a well-formed value printed without a gap contains no newline |
| Json.StringifyDelimited | apps/core/src/utils/diff.test.ts:32-35 | at every gap and indentation arrays print bracketed, objects braced and strings quoted; a well-formed value prints as a non-empty text that does not end in a newline |
| Json.Pretty | apps/core/src/utils/diff.test.ts:32-35 | a scalar pretty-prints exactly as in the one-line form; the pretty text of a well-formed value is exactly its lines joined by newlines, so its line diff loses nothing |
| Json.PrettySingleMemberText | apps/core/src/utils/diff.test.ts:32-35 | a one-member object with a scalar value pretty-prints as the brace, the member line `  "key": value` and the closing brace, separated by newlines |
| Json.PrettySingleMember | apps/core/src/utils/diff.test.ts:32-35 | that printed object splits into exactly three lines: `{`, the two-space-indented member, `}` |
| LineDiff.Align | apps/core/src/utils/diff.test.ts:50-65 | an alignment reads exactly the old lines on its old side and exactly the new lines on its new side |
| LineDiff.DiffLines | apps/core/src/utils/diff.test.ts:50-65 | every reported change is a removal or an addition of a whole line, and no reported line contains a newline |
| LineDiff.ChangesKeepRemovedAdded | apps/core/src/utils/diff.test.ts:50-65 | dropping the kept lines of an alignment keeps every removed and every added line, in order |
| LineDiff.DiffLinesPartition | apps/core/src/utils/diff.test.ts:50-65 | for two texts, the removed lines of their diff are a subsequence of the old text's lines and the added lines of the new text's lines; the unreported lines are a common subsequence of both; as multisets, old lines = unreported + removed and new lines = unreported + added |
| LineDiff.DiffLinesIsMinimal | apps/core/src/utils/diff.test.ts:50-65 | no alignment of the two texts' lines removes fewer lines or adds fewer lines than their diff |
| LineDiff.DiffIsPartition | apps/core/src/utils/diff.test.ts:50-65 | removed lines are a subsequence of the old lines and added lines a subsequence of the new lines; what is not reported is a common subsequence of both; as multisets, old = kept + removed and new = kept + added |
| LineDiff.AlignIsLongest | apps/core/src/utils/diff.test.ts:50-65 | no alignment of the same two line sequences keeps more lines than the diff's alignment |
| LineDiff.DiffLinesSelf | apps/core/src/utils/diff.test.ts:42-48 | the diff of any text with itself is empty |
| LineDiff.SingleLineChange | apps/core/src/utils/diff.test.ts:27-30 | two different single lines align as removal of the old one followed by addition of the new one |
| LineDiff.OneLineTextsDiff | apps/core/src/utils/diff.test.ts:27-30 | two different one-line texts diff to exactly `[Remove(old), Add(new)]` |
| LineDiff.ChangedMiddle | apps/core/src/utils/diff.test.ts:32-35 | between a shared first and last line, a changed middle line diffs to its removal then the new line's addition, and nothing else |
| LineDiff.ChangedMiddleThenAdded | apps/core/src/utils/diff.test.ts:50-65 | after a shared first line, a line changed before a shared line with one line appended diffs to removal, addition, addition |
| LineDiff.ChangeCountsSymmetric | apps/core/src/utils/diff.test.ts:50-65 | diffing the other way round removes as many lines as were added and adds as many as were removed (counts only; see Left out) |
| LineDiff.SwappedLinesNotMirrored | apps/core/src/utils/diff.test.ts:50-65 | for `[1, 2]` and `[2, 1]` the line removed one way is not the line added the other way |
| ReportText.EmptySection | apps/core/src/utils/diff.test.ts:45-47 | a section without lines is its opening tag directly followed by its closing tag |
| ReportText.Section | apps/core/src/utils/diff.test.ts:27-39 | a section is its lines on separate lines: the two tags on one line when it has none, otherwise the opening tag, each line, the closing tag |
| ReportText.Report | apps/core/src/utils/diff.test.ts:23-48 | the report is the prompt, config and model sections' lines, in that order, one per line |
| ReportText.ReadReportOfReport | apps/core/src/utils/diff.test.ts:23-48 | a report whose lines hold no newline and do not start with `<` reads back into exactly its three sections' lines |
| ReportText.OneLineSection | apps/core/src/utils/diff.test.ts:37-39 | a one-line section is the opening tag, newline, the line, newline, the closing tag |
| ReportText.TwoLineSection | apps/core/src/utils/diff.test.ts:27-35 | a two-line section has each line on its own line between the tags |
| ReportText.EmptyReportText | apps/core/src/utils/diff.test.ts:42-48 | the report with no changes is the three pairs of adjacent tags, one per line |
| ReportText.ReportEndsWithModelSection | apps/core/src/utils/diff.test.ts:37-39 | the report ends with the model section |
| DiffReport.FormatChanges | apps/core/src/utils/diff.test.ts:28-29 | one rendered line per change, in order, each `- ` or `+ ` followed by the line |
| DiffReport.ModelChange | apps/core/src/utils/diff.test.ts:37-39 | the lookup is called, once and with the new id, exactly when the ids differ; the section holds `Model changed to <label>`, or the lookup's error is passed on |
| DiffReport.IdenticalStatesEmptyReport | apps/core/src/utils/diff.test.ts:42-48 | identical states give the all-empty report, and the lookup is never called |
| DiffReport.SameModelNoLookup | apps/core/src/utils/diff.test.ts:67-73 | with equal model ids the report ends with an empty model section, and the lookup is never called, whatever the texts and configs |
| DiffReport.ChangedModelNote | apps/core/src/utils/diff.test.ts:37-39 | with different model ids the lookup is called once, with the new id, and the report ends with the section holding `Model changed to <label>` |
| DiffReport.LookupFailureFailsReport | apps/core/src/utils/diff.test.ts:37-39 | a failing lookup fails the whole report with the lookup's error; no partial report is produced |
| DiffReport.RenderedChangesReadBack | apps/core/src/utils/diff.test.ts:28-29 | the rendered lines of a section read back as exactly the changes they show |
| DiffReport.SectionBodySplits | apps/core/src/utils/diff.test.ts:27-35 | a section body splits back into its rendered lines, and they read back as the line diff |
| DiffReport.NumberConfigChange | apps/core/src/utils/diff.test.ts:32-35 | changing the number of a one-member config diffs to removal of the old member line and addition of the new one; the braces are unchanged |
| DiffReport.ConfigDiff | apps/core/src/utils/diff.test.ts:32-35 | the config diff is whole-line removals and additions, none holding a newline, and equal configs give no change |
| DiffReport.FindDiff | apps/core/src/utils/diff.test.ts:23-73 | the lookup is called once with the new id exactly when the model ids differ, and never otherwise; the report succeeds exactly when the ids agree or that call succeeds; otherwise it fails with the call's error |
| DiffReport.FindDiffReadsBack | apps/core/src/utils/diff.test.ts:23-73 | a successful report reads back into three sections: the prompt section parses back into the line diff of the two prompt texts, the config section into the line diff of the two pretty-printed configs, and the model section is empty when the ids agree and holds `Model changed to <label>` otherwise |
| DiffReport.DiffsReadBack | apps/core/src/utils/diff.test.ts:27-39 | a report of two rendered line diffs and plain model lines reads back into those diffs and lines |
| DiffReport.TestPromptLines | apps/core/src/utils/diff.test.ts:27-30 | `Old prompt content` to `New prompt content` renders as `- Old prompt content` and `+ New prompt content` |
| DiffReport.TestConfigLines | apps/core/src/utils/diff.test.ts:32-35 | `{temperature: 0.5}` to `{temperature: 0.7}` renders as `- ` and `+ ` before the two-space-indented member lines `"temperature": 0.5` and `"temperature": 0.7` |
| DiffReport.ChangedStatesReport | apps/core/src/utils/diff.test.ts:11-40 | the full report of the first test: both prompt lines, both temperature lines, `Model changed to GPT-4`, and a single lookup of model id 2 |
| DiffReport.MultilineDiff | apps/core/src/utils/diff.test.ts:50-65 | `Line 1, Line 2, Line 3` to `Line 1, Line 2.5, Line 3, Line 4` diffs to exactly: remove `Line 2`, add `Line 2.5`, add `Line 4` |
| Hash.Digits | apps/core/src/utils/hash.test.ts:53-58 | the decimal numeral of a count is non-empty and all digits |
| Hash.DigitsValueOfDigits | apps/core/src/utils/hash.test.ts:53-58 | a numeral reads back as its number |
| Hash.DigitsInjective | apps/core/src/utils/hash.test.ts:53-58 | different counts have different numerals |
| Hash.IntTextInjective | apps/core/src/utils/hash.test.ts:36-41 | different model ids, negative ones included, have different texts |
| Hash.NetstringPrefix | apps/core/src/utils/hash.test.ts:29-34 | a length-prefixed field is recovered from the front of the input, whatever follows it |
| Hash.EncodeJsonPrefix | apps/core/src/utils/hash.test.ts:43-51 | an encoded config is recovered from the front of the input, whatever follows it |
| Hash.CanonicalInput | apps/core/src/utils/hash.test.ts:20-65 | the canonical input starts with the length-prefixed value and ends with the length-prefixed generation count |
| Hash.CanonicalInputInjective | apps/core/src/utils/hash.test.ts:20-65 | two revisions have the same canonical input if and only if value, model id, config and generation count all agree |
| Hash.Hex | apps/core/src/utils/hash.test.ts:26 | the hex form of n bytes is 2n lowercase hex characters |
| Hash.UnhexHex | apps/core/src/utils/hash.test.ts:26 | the hex form of a digest reads back as the digest |
| Hash.CommitHash | apps/core/src/utils/hash.test.ts:20-27 | the token is 64 lowercase hex characters |
| Hash.TokenDeterminesDigest | apps/core/src/utils/hash.test.ts:29-58 | different digests give different tokens |
| Hash.TokenIgnoresOtherFields | apps/core/src/utils/hash.test.ts:60-65 | revisions that agree on the four identifying fields get the same token, whatever their name, project, assertion, flags or timestamps |
| Hash.ValueChangesInput | apps/core/src/utils/hash.test.ts:29-34 | changing the value changes the canonical input |
| Hash.ModelIdChangesInput | apps/core/src/utils/hash.test.ts:36-41 | changing the model id changes the canonical input |
| Hash.ConfigChangesInput | apps/core/src/utils/hash.test.ts:43-51 | changing the config changes the canonical input |
| Hash.ConfigAsTextChangesInput | apps/core/src/utils/hash.test.ts:43-51 | replacing an object config by the JSON text of any object changes the canonical input |
| Hash.CountChangesInput | apps/core/src/utils/hash.test.ts:53-58 | changing the generation count changes the canonical input |
| Access.CheckPromptAccess | apps/core/src/services/access/AccessService.test.ts:42-61 | the prompt is returned if and only if it exists and belongs to the project; otherwise `Prompt is not found` |
| Access.ForeignPromptLooksMissing | apps/core/src/services/access/AccessService.test.ts:50-61 | a prompt of another project gives exactly the answer a missing prompt gives |
| Access.CheckMemoryAccess | apps/core/src/services/access/AccessService.test.ts:64-77 | the memory is returned if and only if it exists for that prompt; otherwise `Memory is not found` |
| Access.ForeignMemoryLooksMissing | apps/core/src/services/access/AccessService.test.ts:73-77 | a memory of another prompt gives exactly the answer a missing memory gives |
| Access.CheckTestcaseAccess | apps/core/src/services/access/AccessService.test.ts:80-100 | the test case is returned if and only if it exists and its prompt's project matches; otherwise `Testcase is not found` |
| Access.ForeignTestcaseLooksMissing | apps/core/src/services/access/AccessService.test.ts:89-100 | a test case of another project gives exactly the answer a missing one gives |
| Access.TestcaseAccessIsPromptAccess | apps/core/src/services/access/AccessService.test.ts:80-100 | test case access succeeds exactly when access to its prompt succeeds |
| Access.GetApiKeyByQuota | apps/core/src/services/access/AccessService.test.ts:103-196 | the system organization id is read exactly when the system's quota pays (local, or cloud with positive balance); the key looked up is the organization's own, otherwise the system organization's; `quotaUsed` tells which; the result fails exactly when the lookup finds nothing |
| Access.LocalIgnoresBalance | apps/core/src/services/access/AccessService.test.ts:163-179 | on a local instance the balance never changes the outcome |
| Access.KeySelectionErrors | apps/core/src/services/access/AccessService.test.ts:127-133 | a failure carries `User API key not found for <vendor>`, `System organization ID not found in database` or `System API key not found for <vendor>`, according to the case |
| Access.BillingMatchesOwner | apps/core/src/services/access/AccessService.test.ts:112-155 | the quota is billed exactly when the key handed out is not the organization's own |
| Access.KeyErrorsDistinct | apps/core/src/services/access/AccessService.test.ts:181-196 | the three key-selection failure messages are pairwise different |
| Organization.ValidateCustomProvider | apps/core/src/services/organization.service.ts:36-53 | a missing provider is `ProviderNotConfigured`, and that check comes first; a missing or empty base URL is `ProviderNoBaseUrl`; on success the four fields are copied unchanged |
| Organization.ValidProviderAccepted | apps/core/src/services/organization.service.ts:47-52 | every provider with a base URL validates to `{id, key, baseUrl, name}` |
| Organization.ProviderErrorMessagesDistinct | apps/core/src/services/organization.service.ts:7-19 | the two provider errors are raised with different messages, `Custom provider not configured` and `Provider has no base URL configured` |
| Organization.ProjectsOf | apps/core/src/services/organization.service.ts:73 | a project is listed if and only if it belongs to the organization |
| Organization.OwnerMemberships | apps/core/src/services/organization.service.ts:74-76 | one OWNER membership of the user per project, in project order |
| Organization.OwnerMembershipsOfOrganization | apps/core/src/services/organization.service.ts:72-77 | the sync creates a membership if and only if it is an OWNER membership of that user in a project of the organization |
| Organization.AppendNewMemberKeepsUnique | apps/core/src/services/organization.service.ts:57-62 | adding a user who is not yet a member keeps every user at most once per organization |
| Organization.InviteTokenOfInviteUrl | apps/core/src/services/organization.service.ts:95 | the token reads back from the invite URL |
| Organization.InviteUrlInjective | apps/core/src/services/organization.service.ts:95 | different tokens give different invite URLs |
| Organization.OrganizationService.GetValidatedCustomProvider | apps/core/src/services/organization.service.ts:36-53 | the organization's stored provider, validated, with both errors as if-and-only-if conditions on the table |
| Organization.OrganizationService.SyncProjectMembershipByOrganizationRole | apps/core/src/services/organization.service.ts:72-77 | the project memberships get one OWNER row per project of the organization, appended in order; every other table is unchanged |
| Organization.OrganizationService.AddOrganizationMember | apps/core/src/services/organization.service.ts:55-70 | an existing member is refused with `User is already a member of the organization` and nothing changes; otherwise the member is appended; an ADMIN also gets the OWNER memberships and any other role none; members stay unique |
| Organization.OrganizationService.CreateMemberInvitation | apps/core/src/services/organization.service.ts:79-106 | an address of an existing member is refused with `User is already a member`; otherwise the invitation is stored with role ADMIN, whatever role was requested, and returned with the URL `<frontend>/invite/<token>` |

## Left out

- The implementation files `apps/core/src/utils/diff.ts` and `apps/core/src/utils/hash.ts` are not part of this model. The model reproduces what their tests assert. The exact diff library, JSON canonicalisation and hash input layout are modelled choices: an LCS alignment, `JSON.stringify` layout and a length-prefixed encoding.
- LineDiff.ChangeCountsSymmetric: swapping the two texts mirrors only the numbers of removed and added lines, not the lines themselves. With the Remove-first tie-break the old line of a changed pair is removed first, so for `[1, 2]` and `[2, 1]` the line removed one way is not the line added the other way (LineDiff.SwappedLinesNotMirrored). A tie-break that behaves the same under swapping could still give the set property; this model does not use one.
- Hash.CanonicalInput: config objects are encoded in their stored member order, so two configs with the same members in a different order give different inputs and different tokens. Independence from key order is not modelled.
- DiffReport.FindDiffReadsBack: a model label containing a line break is excluded, because it would put the note on several lines of the report.
- Json.Pretty: members are printed in their stored order, as `JSON.stringify` does. Sorting keys so that the same object built in another order prints the same is not modelled, because nothing in the tests shows it.
- Floating-point config values: JSON numbers are decimal literal strings, compared as text.
- Hash.CommitHash: SHA-256 is a parameter of type `string -> Digest`. A different canonical input is proved to give a different token only when the digests differ (Hash.TokenDeterminesDigest). Collision resistance is not modelled. How text is turned into bytes before hashing is not modelled either: the digest function takes the text.
- Prompt timestamps are integers. Dates are not modelled.
- The label lookup of `findDiff` is a function parameter returning a result, and asynchrony is not modelled. The lookup calls are returned as a trace, not counted by a mock.
- Access: the database is a `Store` of maps. The instance kind is a parameter. The balance is a real number. The vendor is a string.
- Access.CheckMemoryAccess: the database query by (id, prompt id) is modelled as a lookup by id followed by a check of the prompt id. These agree when ids are unique.
- Organization.OrganizationService.CreateMemberInvitation: no e-mail is sent, and `orgName` is only passed through. The frontend base URL and the database-generated token are parameters; the environment variable and the instance-type check are left out.
- Organization.OrganizationService.HasMemberWithEmail: finding a member by e-mail goes through a user-to-e-mail map in the service state.
- Organization.OrganizationService.AddOrganizationMember: the database's own handling of a project membership that already exists is not modelled. The sync appends its rows.
- `apps/core/src/auth/local/middleware.ts` is request plumbing and is not modelled.
- Serialisation failures for cyclic config values cannot occur, since the JSON datatype is inductive.
