# Recuerdos — a verified model of the family-memories app's core logic

Recuerdos is a small web application in which a family shares memories: a
category, an optional photo, a story and an author name. This project models
in Dafny the parts of it that hold logic, and proves what they do:

- **Voice dictation** (`VoiceRecorder`). The speech engine reports the whole
  result list of a session on every event. Each event commits the final
  transcripts it reads, each followed by a space, and keeps a preview of the
  non-final ones. A cursor marks where the next event starts reading. It is a class,
  `TranscriptAccumulator`, whose `OnResult` method is the handler loop and whose
  `Sync` method is the effect that runs when listening starts or stops.
  Within one run of events with no `Sync` in between, each final result read
  is committed exactly once (`TwoEventsAppendOnce`, `ReplayAppendsNothing`).
  Two things fall outside that. A `Sync` while listening rewinds the cursor,
  and earlier finals are committed again. A result that the cursor passes
  while it is still interim is never committed once it turns final.
- **Story formatting** (`FormatStory`). A story written from a suggested question
  starts with a marker, then the question, a blank line and the answer.
  `FormatStory` splits such a story. `GetStoryPreview` is documented as the
  preview for memory cards: the answer part, cut to `maxLength` characters
  plus `"..."`. The home page does not call it. Its cards cut the whole story
  inline, marker and question included.
- **Invite codes** (`InviteCodes`). The static code table and its
  case-insensitive lookup.
- **Session helpers** (`Auth`). `isLoggedIn`, `getCurrentUser`,
  `canAddMemories` and `logout` over a `Browser` whose `localStorage` is a map.
  It also carries a flag for the server side, where there is no `window`.
- **Question catalogue** (`DeepQuestions`). The 27 suggested questions, the
  filter by category and the lookup by id.
- **Home page helpers** (`HomePage`). The icon and label of a stored category
  key, with a fallback. The relative age of a memory, from an integer
  millisecond difference. The 100-character card preview.
- **Add-memory form** (`AddMemory`). A class, `AddMemoryForm`, with the page's
  state and its event handlers. `Submit` validates the form, uploads the photo,
  inserts the record and redirects. It takes the backend replies as parameters
  and returns the requests it issued. The pure rules are functions beside it:
  validation, the record, the upload path and the pure outcome `SubmitOutcome`.
- `Text` holds the JavaScript string operations these rely on. Those are
  `indexOf`, `startsWith`, `split`/`join`, `replace`, `toLowerCase`, `trim`,
  `split(...).pop()` and integer printing. `Categories` holds the five
  categories.

The handler moves the cursor to one past the last final result read, and
leaves it in place when nothing final was read
(components/VoiceRecorder.tsx:44).

## Model

| member | source | states |
|---|---|---|
| VoiceRecorder.TranscriptAccumulator.OnResult | components/VoiceRecorder.tsx:34-57 | Reads results from the cursor to the end of the list. Appends to the committed text each final transcript plus one space, in order. The cursor ends one past the last final result read. The preview is the concatenation of the non-final transcripts. The callback value is the new committed text exactly when something final was read. |
| VoiceRecorder.TranscriptAccumulator.Sync | components/VoiceRecorder.tsx:92-111 | Starting (or a text change while listening) seeds the committed text with the shown text and rewinds the cursor to 0. Stopping clears the preview and rewinds the cursor. |
| VoiceRecorder.TranscriptAccumulator.constructor | components/VoiceRecorder.tsx:11-16 | Starts with empty text, cursor 0, empty preview, not listening. |
| VoiceRecorder.FinalText | components/VoiceRecorder.tsx:39-44 | The `final` string of one event. Contract in `OnResult`, `FinalTextNonEmptyIff`, `FinalTextSplits`, `ReadsOnlyFromCursor` and `TwoEventsAppendOnce`. |
| VoiceRecorder.InterimText | components/VoiceRecorder.tsx:45-50 | The `interim` string of one event. Contract in `OnResult`, `InterimEmptyWhenAllFinal` and `ReadsOnlyFromCursor`. |
| VoiceRecorder.NextCursor | components/VoiceRecorder.tsx:39-44 | The new cursor is either the old one or lies in the range just read. |
| VoiceRecorder.NextCursorIsPastLastFinal | components/VoiceRecorder.tsx:39-44 | The cursor never moves back. It stays put when nothing final was read. Otherwise it sits just past a final result, with no final result after it in the range. |
| VoiceRecorder.FinalTextNonEmptyIff | components/VoiceRecorder.tsx:39-52 | The appended text is non-empty exactly when some result read was final. |
| VoiceRecorder.FinalTextSplits | components/VoiceRecorder.tsx:39-42 | The final text of a range is the final text of its two halves, concatenated in index order. |
| VoiceRecorder.InterimEmptyWhenAllFinal | components/VoiceRecorder.tsx:35-50 | With no non-final result in range the preview is empty. |
| VoiceRecorder.ReadsOnlyFromCursor | components/VoiceRecorder.tsx:39 | Only the range read matters: lists that agree on it give the same text, preview and cursor, whatever they hold elsewhere. |
| VoiceRecorder.ReplayAppendsNothing | components/VoiceRecorder.tsx:39-48 | Delivering the same list again appends nothing and leaves the cursor in place. |
| VoiceRecorder.TwoEventsAppendOnce | components/VoiceRecorder.tsx:39-54 | Suppose a later list keeps the earlier list's entries up to the cursor. Then two events append exactly what one reading of the later list appends: nothing is duplicated. |
| VoiceRecorder.InterimPassedOverIsLost | components/VoiceRecorder.tsx:39-48 | A result read as interim and passed by the cursor is lost when it turns final: the second list `a b` (both final) adds nothing after a first event on `a` (interim) and `b` (final), so the text stays `"b "` instead of `"a b "`. |
| FormatStory.GetStoryPreview | lib/format-story.tsx:42-62 | The preview is never longer than `maxLength + 3`. |
| FormatStory.PreviewText | lib/format-story.tsx:46-54 | The untruncated preview text. Contract in `PreviewTextOfMarkedStory` and `FormatStorySplit`. |
| FormatStory.FormatStory | lib/format-story.tsx:5-36 | `formatStory` as a question/answer split. Contract in `FormatStorySplit` and `MarkedStoryPieces`. |
| FormatStory.ShortPlainStoryUnchanged | lib/format-story.tsx:46-61 | A story without the marker and within the limit is shown unchanged. |
| FormatStory.PreviewTruncation | lib/format-story.tsx:57-61 | A long preview text becomes its first `maxLength` characters plus `"..."`, length `maxLength + 3`. A short one is kept. |
| FormatStory.PreviewTextOfMarkedStory | lib/format-story.tsx:46-54 | For a marked story the preview text is what follows the first blank line. With no blank line it is the whole story, marker included. |
| FormatStory.SeparatorAfterMarker | lib/format-story.tsx:7-9 | The first blank line of a marked story lies after the marker. |
| FormatStory.MarkedStoryPieces | lib/format-story.tsx:7-13 | Removing the marker from the first piece leaves the text between marker and blank line. That text has no blank line. Marker, question, blank line and rest rebuild the story. |
| FormatStory.FormatStorySplit | lib/format-story.tsx:5-36 | A story splits into question and answer exactly when it has the marker and a blank line. The question has no blank line. The answer is the preview's untruncated text. The pieces rebuild the story. Any other story is returned whole. |
| Text.ReplaceFirst | lib/format-story.tsx:12 | Without an occurrence the string is unchanged. When the pattern is a prefix, exactly that prefix is replaced. |
| Text.IndexOfIsFirst | lib/format-story.tsx:9 | `indexOf` finds the first occurrence: none lies before it, and none exists when it fails. |
| Text.IndexOf | lib/format-story.tsx:9 | `indexOf`. Contract: the index found is an occurrence, and `IndexOfIsFirst` says it is the first. |
| Text.StartsWith | lib/format-story.tsx:7 | `startsWith`. Contract in `ReplaceFirst` and `FormatStorySplit`. |
| Text.SplitHasTwoPiecesIff | lib/format-story.tsx:9-11 | A split has two or more pieces exactly when the separator occurs. |
| Text.SplitPiecesLackSeparator | lib/format-story.tsx:9 | No piece of a split contains the separator. |
| Text.Split | lib/format-story.tsx:9 | `split` with a string separator. Contract in `SplitHasTwoPiecesIff`, `SplitPiecesLackSeparator` and `JoinSplit`. |
| Text.Join | lib/format-story.tsx:13 | `join`. Contract in `JoinSplit` and `SplitTailJoin`. |
| Text.JoinSplit | lib/format-story.tsx:9-13 | Joining a split with the same separator gives back the string. |
| Text.SplitTailJoin | lib/format-story.tsx:13 | `split(sep).slice(1).join(sep)` is the suffix after the first separator. |
| Text.LastSegmentIsSuffix | app/add-memory/page.tsx:67 | The last piece of a split has no separator in it, ends the string, and starts right after an occurrence of the separator. For a one-character separator such as `"."`, that is the last occurrence, so the piece is fixed. Without a separator it is the whole string. |
| Text.LastSegment | app/add-memory/page.tsx:67 | `split(sep).pop()`. Contract in `LastSegmentIsSuffix`. |
| Text.TrimIsSlice | app/add-memory/page.tsx:55 | `trim` cuts only whitespace off both ends, leaves none at either end, and gives `""` exactly for an all-whitespace string. |
| Text.Trim | app/add-memory/page.tsx:55 | `trim`. Contract in `TrimIsSlice`. |
| Text.ToLower | lib/invite-codes.ts:27 | `toLowerCase` on ASCII letters. Contract in `CaseInsensitive`, `UpperCaseAccepted` and `TableCodesLowerCase`. |
| Text.NatToStringRoundTrip | app/page.tsx:75-76 | The printed digits of a number read back as that number. |
| Text.NatToString | app/page.tsx:75-76 | The decimal digits in a template string. Contract in `NatToStringRoundTrip`. |
| Text.IntToString | app/page.tsx:75-76 | A template number, with a minus sign when negative. Contract in `NatToStringRoundTrip` and `BucketTextsDiffer`. |
| InviteCodes.FindCode | lib/invite-codes.ts:26-29 | `find` returns the first matching entry, or none when no entry matches. |
| InviteCodes.Matches | lib/invite-codes.ts:27 | The `find` predicate. Contract in `FindCode`, `CaseInsensitive` and `TableCodesDistinct`. |
| InviteCodes.ValidateInviteCode | lib/invite-codes.ts:25-30 | `validateInviteCode`. Contract in `FindCode`, `ValidIffSomeEntryMatches`, `CaseInsensitive` and the three examples. |
| InviteCodes.IsValidInviteCode | lib/invite-codes.ts:35-37 | `isValidInviteCode`. Contract in `ValidIffSomeEntryMatches` and `ExampleEmpty`. |
| InviteCodes.ValidIffSomeEntryMatches | lib/invite-codes.ts:25-37 | A code is valid exactly when some entry matches it. A result is a table entry that matches. |
| InviteCodes.CaseInsensitive | lib/invite-codes.ts:27 | Codes that agree up to ASCII case give the same result. |
| InviteCodes.UpperCaseAccepted | lib/invite-codes.ts:27 | An upper-cased code gives the same result as the code. |
| InviteCodes.TableCodesLowerCase | lib/invite-codes.ts:13-20 | The table codes are already lower case. |
| InviteCodes.TableCodesDistinct | lib/invite-codes.ts:13-20 | Lower-cased codes are pairwise distinct, so at most one entry matches. Exactly one entry, `invitado-2024`, is a guest. |
| InviteCodes.ExampleUpperCaseFamily | lib/invite-codes.ts:13-30 | `"PAPA-2024"` gives Papá, family. |
| InviteCodes.ExampleGuest | lib/invite-codes.ts:13-30 | `"invitado-2024"` gives Invitado, guest. |
| InviteCodes.ExampleEmpty | lib/invite-codes.ts:25-37 | `""` gives null and is not valid. |
| Auth.Browser.constructor | lib/auth.ts:15-17 | A browser has a fixed window flag and a storage map. |
| Auth.Browser.Logout | lib/auth.ts:38-43 | With a window it removes exactly the three session keys and keeps every other key. Afterwards nobody is logged in and there is no user. Without a window nothing changes. |
| Auth.Browser.GetItem | lib/auth.ts:17-28 | `localStorage.getItem`, null for a missing key. Contract in `LoggedInIffCodeKey` and `CurrentUserIffAllKeys`. |
| Auth.Browser.IsLoggedIn | lib/auth.ts:15-18 | `isLoggedIn`. Contract in `LoggedInIffCodeKey`, `NoWindowNoSession` and `LoggedInWithoutUser`. |
| Auth.Browser.GetCurrentUser | lib/auth.ts:23-33 | `getCurrentUser`. Contract in `CurrentUserIffAllKeys`, `CurrentUserImpliesLoggedIn` and `UncheckedRole`. |
| Auth.Browser.CanAddMemories | lib/auth.ts:48-51 | `canAddMemories`. Contract in `CanAddIffFamily` and `UncheckedRole`. |
| Auth.NoWindowNoSession | lib/auth.ts:15-51 | Without a window: not logged in, no user, cannot add memories. |
| Auth.LoggedInIffCodeKey | lib/auth.ts:15-18 | Logged in exactly when the invite-code key is present, even holding `""`. |
| Auth.CurrentUserIffAllKeys | lib/auth.ts:23-33 | A user exists exactly when all three keys hold non-empty values. It carries exactly those values. |
| Auth.CurrentUserImpliesLoggedIn | lib/auth.ts:17-30 | A current user implies a session. |
| Auth.LoggedInWithoutUser | lib/auth.ts:17-30 | An empty stored code is logged in without a user, so the converse fails. |
| Auth.CanAddIffFamily | lib/auth.ts:48-51 | Adding memories is allowed exactly in a browser whose three session keys all hold non-empty values and whose stored role is `"family"`. It implies a session. |
| Auth.UncheckedRole | lib/auth.ts:28-32 | A stored role that is neither family nor guest still yields a user, who cannot add memories. |
| Categories.KeysDistinct | lib/deep-questions.ts:11 | The five categories are all listed and have distinct keys. |
| DeepQuestions.FilterKeepsExactlyCategory | lib/deep-questions.ts:208-212 | The filter keeps exactly the entries of the category, in table order. |
| DeepQuestions.GetQuestionsByCategory | lib/deep-questions.ts:208-212 | `getQuestionsByCategory`. Contract in `FilterKeepsExactlyCategory`, `FiltersPartition` and `QuestionCounts`. |
| DeepQuestions.FilterConcat | lib/deep-questions.ts:211 | Filtering a concatenation is concatenating the filtered parts. |
| DeepQuestions.FilterLengthIsCount | lib/deep-questions.ts:211 | The filter keeps one entry per occurrence of the category. |
| DeepQuestions.FiltersPartition | lib/deep-questions.ts:211 | The five category filters together keep every entry exactly once. |
| DeepQuestions.FilterSections | lib/deep-questions.ts:15-203 | The count of a category in the table is the sum of its counts in the six sections. |
| DeepQuestions.ChildhoodAndOriginsCategories | lib/deep-questions.ts:16-56 | The categories of the childhood section, in order. |
| DeepQuestions.FamilyAndLoveCategories | lib/deep-questions.ts:57-99 | The categories of the family section, in order. |
| DeepQuestions.LifeWisdomCategories | lib/deep-questions.ts:100-140 | The categories of the life-wisdom section, in order. |
| DeepQuestions.WorkAndPassionsCategories | lib/deep-questions.ts:141-155 | The categories of the work section, in order. |
| DeepQuestions.SensoryMemoriesCategories | lib/deep-questions.ts:156-181 | The categories of the sensory section, in order. |
| DeepQuestions.ConnectionCategories | lib/deep-questions.ts:182-202 | The categories of the connection section, in order. |
| DeepQuestions.ChildhoodAndOriginsCounts | lib/deep-questions.ts:16-56 | Per-category counts of the childhood section (5 childhood, 1 work). |
| DeepQuestions.FamilyAndLoveCounts | lib/deep-questions.ts:57-99 | Per-category counts of the family section (6 family). |
| DeepQuestions.LifeWisdomCounts | lib/deep-questions.ts:100-140 | Per-category counts of the life-wisdom section (1 family, 5 other). |
| DeepQuestions.WorkAndPassionsCounts | lib/deep-questions.ts:141-155 | Per-category counts of the work section (1 work, 1 other). |
| DeepQuestions.SensoryMemoriesCounts | lib/deep-questions.ts:156-181 | Per-category counts of the sensory section (3 childhood, 1 other). |
| DeepQuestions.ConnectionCounts | lib/deep-questions.ts:182-202 | Per-category counts of the connection section (2 family, 1 other). |
| DeepQuestions.ChildhoodTotal | lib/deep-questions.ts:15-212 | 8 childhood questions. |
| DeepQuestions.FamilyTotal | lib/deep-questions.ts:15-212 | 9 family questions. |
| DeepQuestions.PetsTotal | lib/deep-questions.ts:15-212 | No pets question. |
| DeepQuestions.WorkTotal | lib/deep-questions.ts:15-212 | 2 work questions. |
| DeepQuestions.OtherTotal | lib/deep-questions.ts:15-212 | 8 other questions. |
| DeepQuestions.QuestionCounts | lib/deep-questions.ts:15-212 | 27 questions: 8 childhood, 9 family, none for pets (an empty result), 2 work, 8 other. |
| DeepQuestions.FindById | lib/deep-questions.ts:225-227 | `find` by id gives the first entry with that id, or null when no entry has it. |
| DeepQuestions.GetQuestionById | lib/deep-questions.ts:225-227 | `getQuestionById`. Contract in `FindById` and `GetQuestionByIdRange`. |
| DeepQuestions.NumberedConcat | lib/deep-questions.ts:15-203 | Consecutive numbering carries over a concatenation. |
| DeepQuestions.FindNumbered | lib/deep-questions.ts:226 | In a consecutively numbered list, lookup by id succeeds exactly in range, at offset `id - base`. |
| DeepQuestions.ChildhoodAndOriginsNumbered | lib/deep-questions.ts:16-56 | Ids 1 to 6 in order. |
| DeepQuestions.FamilyAndLoveNumbered | lib/deep-questions.ts:57-99 | Ids 7 to 12 in order. |
| DeepQuestions.LifeWisdomNumbered | lib/deep-questions.ts:100-140 | Ids 13 to 18 in order. |
| DeepQuestions.WorkAndPassionsNumbered | lib/deep-questions.ts:141-155 | Ids 19 and 20. |
| DeepQuestions.SensoryMemoriesNumbered | lib/deep-questions.ts:156-181 | Ids 21 to 24 in order. |
| DeepQuestions.ConnectionNumbered | lib/deep-questions.ts:182-202 | Ids 25 to 27 in order. |
| DeepQuestions.TableNumbered | lib/deep-questions.ts:15-203 | The table is numbered 1 to 27 in order, and no two entries share an id. |
| DeepQuestions.GetQuestionByIdRange | lib/deep-questions.ts:225-227 | `getQuestionById(n)` is non-null exactly for 1 ≤ n ≤ 27. It is then the n-th entry, whose id is n. |
| HomePage.KnownCategoryLookup | app/page.tsx:45-65 | Each of the five keys gets its own table entry. No two categories share an icon or a label, and the "other" entries equal the fallbacks. |
| HomePage.UnknownCategoryFallback | app/page.tsx:53-64 | Any other string is shown exactly like the "other" category. |
| HomePage.CategoryIcon | app/page.tsx:45-54 | `getCategoryIcon`. Contract in `KnownCategoryLookup` and `UnknownCategoryFallback`. |
| HomePage.CategoryLabel | app/page.tsx:56-65 | `getCategoryLabel`. Contract in `KnownCategoryLookup` and `UnknownCategoryFallback`. |
| HomePage.LookupOr | app/page.tsx:53-64 | `table[key]`, or the fallback when that is missing or empty. Contract in `KnownCategoryLookup` and `UnknownCategoryFallback`. |
| HomePage.DiffDays | app/page.tsx:70-71 | The whole days elapsed. Contract in `DiffDaysIsFloor`. |
| HomePage.GetRelativeTime | app/page.tsx:67-78 | `getRelativeTime`. Contract in `RelativeTimeBuckets` and `BucketTextsDiffer`. |
| HomePage.DaysAgo | app/page.tsx:75 | The `Hace d días` text. Contract in `RelativeTimeBuckets` and `BucketTextsDiffer`. |
| HomePage.WeeksAgo | app/page.tsx:76 | The `Hace w semanas` text. Contract in `RelativeTimeBuckets` and `BucketTextsDiffer`. |
| HomePage.DiffDaysIsFloor | app/page.tsx:70-71 | The day count is the floor of the millisecond difference over one day, negative differences included. |
| HomePage.BucketTextsDiffer | app/page.tsx:73-76 | The texts of the different buckets never coincide. |
| HomePage.RelativeTimeBuckets | app/page.tsx:67-78 | Each bucket holds in both directions. Day 0 gives `"Hoy"` and day 1 `"Ayer"`. Any other day below 7, negatives included, gives `"Hace d días"`. Days 7 to 29 give `"Hace w semanas"` with w = d / 7 between 1 and 4. From day 30 on the calendar date is shown. |
| HomePage.CardPreviewCut | app/page.tsx:176-178 | A story of at most 100 characters is shown whole. A longer one shows its first 100 characters plus `"..."`. |
| HomePage.CardPreviewIsStoryPreview | app/page.tsx:176-178 | For a story without the marker, the card preview equals `getStoryPreview` with its default limit. |
| HomePage.CardPreview | app/page.tsx:176-178 | The card's inline cut. Contract in `CardPreviewCut` and `CardPreviewIsStoryPreview`. |
| AddMemory.AddMemoryForm.constructor | app/add-memory/page.tsx:15-23 | The form starts empty: no category, photo or preview, empty texts, not submitting, no error. |
| AddMemory.AddMemoryForm.SelectCategory | app/add-memory/page.tsx:147 | Choosing a category sets it and nothing else. |
| AddMemory.AddMemoryForm.SelectPhoto | app/add-memory/page.tsx:28-35 | A chosen file replaces the photo and its preview. An empty choice changes nothing. |
| AddMemory.AddMemoryForm.RemovePhoto | app/add-memory/page.tsx:210-213 | "Quitar foto" clears both the file and the preview and nothing else. |
| AddMemory.AddMemoryForm.PromptClick | app/add-memory/page.tsx:49-51 | The story becomes the prompt followed by one space, and nothing else changes. The page defines this handler but never attaches it to an element. |
| AddMemory.AddMemoryForm.Submit | app/add-memory/page.tsx:53-111 | The requests issued, and the new error and submitting state, are those of `SubmitOutcome` on the old state. The form's inputs are left unchanged. |
| AddMemory.AddMemoryForm.ShowsPhotoAndStory | app/add-memory/page.tsx:167-225 | When the photo and story steps show: once a category is chosen. No lemma beyond its definition. |
| AddMemory.AddMemoryForm.ShowsAuthorAndSubmit | app/add-memory/page.tsx:246 | When the author step shows. Contract in `EnabledButtonPassesValidation` and `PromptShowsAuthorStep`. |
| AddMemory.AddMemoryForm.SubmitDisabled | app/add-memory/page.tsx:268 | When the submit button is disabled. Contract in `EnabledButtonPassesValidation`. |
| AddMemory.IsComplete | app/add-memory/page.tsx:55 | The validation of `handleSubmit`. Contract in `IsCompleteIff`. |
| AddMemory.FileExtension | app/add-memory/page.tsx:67 | `name.split(".").pop()`. Contract in `UploadPathShape`. |
| AddMemory.UploadPath | app/add-memory/page.tsx:67-71 | The storage path. Contract in `UploadPathShape` and `SubmitRequestOrder`. |
| AddMemory.BuildRecord | app/add-memory/page.tsx:91-96 | The inserted row. Contract in `InsertedRecord`. |
| AddMemory.InsertStep | app/add-memory/page.tsx:90-103 | The insert, its error check and the redirect. Contract in `CompleteSubmitEndsCleanly`, `SubmitRequestOrder` and `FailureMessages`. |
| AddMemory.FailureMessage | app/add-memory/page.tsx:78-110 | The message a failing call leaves. Contract in `FailureMessages`. |
| AddMemory.SubmitOutcome | app/add-memory/page.tsx:53-111 | `handleSubmit` on values. Contract in `AddMemoryForm.Submit`, `IncompleteSubmitIssuesNothing`, `CompleteSubmitEndsCleanly`, `SubmitRequestOrder`, `InsertedRecord` and `FailureMessages`. |
| AddMemory.IsCompleteIff | app/add-memory/page.tsx:55 | The form passes validation exactly when a category is chosen and neither story nor author name is all whitespace. |
| AddMemory.IncompleteSubmitIssuesNothing | app/add-memory/page.tsx:55-58 | An incomplete form gets `"Por favor completa todos los campos"`. No request is issued and `isSubmitting` is unchanged. |
| AddMemory.CompleteSubmitEndsCleanly | app/add-memory/page.tsx:60-110 | A complete form either succeeds (no error, still submitting, redirect last) or fails (message set, submitting false again, no redirect). It succeeds exactly when every call it makes succeeds. |
| AddMemory.SubmitRequestOrder | app/add-memory/page.tsx:67-100 | The upload is issued exactly when there is a photo, and first. The insert is issued unless the upload failed. |
| AddMemory.InsertedRecord | app/add-memory/page.tsx:64-96 | The record carries the chosen category, the trimmed story and author, and the public URL, or null without a photo. |
| AddMemory.FailureMessages | app/add-memory/page.tsx:78-110 | An upload reply error is reported behind "Error al subir la foto: ", an insert reply error behind "Error al guardar el recuerdo: ". A thrown `Error`, from either call, reports its own message without a prefix. Anything else thrown gives the generic message. |
| AddMemory.UploadPathShape | app/add-memory/page.tsx:67-71 | The path is `memories/` + stem + `.` + extension. The extension has no dot, ends the name, and is preceded in the name by a dot, so it is the piece after the last dot. A name without a dot is its own extension. |
| AddMemory.EnabledButtonPassesValidation | app/add-memory/page.tsx:246-268 | When the submit button is shown and enabled, the form passes validation and is not submitting. |
| AddMemory.PromptShowsAuthorStep | app/add-memory/page.tsx:49-51 | After a prompt click, the trimmed story is non-empty exactly when the prompt is not all whitespace. |

## Left out

- The speech engine's construction and configuration, the support check, and the `onerror`/`onend` restart paths (components/VoiceRecorder.tsx:18-32,59-89) are timers and asynchronous engine control. As written they read the `isListening` captured at mount, which is always false, so they never restart.
- `Sync` does not model the guard on the engine existing (components/VoiceRecorder.tsx:93). The model assumes a supported engine. Without one the effect does nothing.
- The rewinding effect runs on every change of `currentText` while listening. The next event then reads index 0 again and commits earlier finals a second time. The model keeps this behaviour as written, and `ScenarioRewindRereads` traces it. Whether the host triggers it depends on a caller that is not part of this model.
- Every Supabase call is left out: the storage upload, the public URL, the insert and the select (app/add-memory/page.tsx:74-100, app/page.tsx:29-43). Their replies are parameters of `Submit`, as is the public URL.
- `getRandomQuestion` draws from `Math.random`, a floating-point random source, so it is left out.
- `Date.now()` and `Math.random()` in the upload file name become the `stem` parameter of `UploadPath`.
- `new Date` parsing and `toLocaleDateString` become the integer millisecond difference handed to `GetRelativeTime` and the `CalendarDate` result.
- HomePage.CategoryIcon, HomePage.CategoryLabel: a lookup of an inherited `Object.prototype` key such as `"constructor"` is not modelled; such keys are treated like any other unknown key.
- `toLowerCase` folds ASCII letters only, and `trim` strips the ECMAScript whitespace and line-terminator characters.
- Lengths count Dafny characters rather than UTF-16 code units, so the 100-character cuts may differ from JavaScript on characters outside the Basic Multilingual Plane.
- The story marker is the exact four-character sequence written in lib/format-story.tsx:7. It is not reinterpreted as an emoji.
- The JSX markup is left out, including the markup `formatStory` returns. Also left out: the category buttons' styling, the placeholders per category, the textarea's `maxLength` of 1000 (a browser input limit) and its character counter.
- AddMemory.AddMemoryForm.Submit: `handleSubmit` awaits the upload and insert calls, and the other handlers stay live meanwhile. The submission is modelled as one atomic step. The requests use the values read when the handler started, so the outcome is the same.
- The story and author text fields' `onChange` handlers only copy the input into state, so they are left out.
- JavaScript numbers are modelled as unbounded integers, for both question ids and millisecond differences.
- FormatStory.GetStoryPreview: its `maxLength` is a natural number. With a negative limit the source returns `"..."`, which breaks the `maxLength + 3` bound, so that case is not modelled.
