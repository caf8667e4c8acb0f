# ClearConsent core, modelled in Dafny

ClearConsent is a web application in which healthcare providers publish
consent modules (consent text, an optional video, tags). Providers invite
patients by e-mail, and patients sign through a tokenised link. A server
function then lays out and stores a signed consent PDF. This project models
the logic at the centre of that system and proves properties of it:

- **The consent-PDF generator** (`generate-consent-pdf`):
  - `sanitize`, which normalises white space, and the greedy word wrapper `wrapText`;
  - the classifier that turns a module description into sections
    (`parseDescription`);
  - the page-breaking layout engine, with its shared cursor `yPos` and the
    current page, and its drawing helpers (`ensureSpace`, `drawSectionBox`,
    `drawLabelValue`, `drawParagraph`, `drawBullet`, `drawSubheading`);
  - the header, the boxes in document order, the signature box, and the
    footer pass that numbers the pages.

  `ConsentPdfLayout` specifies every drawing step as a function on an
  abstract document: a list of pages, each a list of draw operations, plus
  the cursor. Class `ConsentPdfEngine.Layout` performs the same steps in
  place on its `pages` and `yPos` fields. Each of its methods is proved to
  leave exactly the state the corresponding function describes.
- **The provider dashboard pages:**
  - invitations: derived status, expiry rewrite, search and status filter,
    deletion, menu actions;
  - patients: grouping the submissions by e-mail into one record per
    patient, and the search;
  - the module library: search, the video/text filter, delete and duplicate;
  - the module editor: tags, the video-URL classifier, and save validation
    and normalisation;
  - the recent-submissions table;
  - the navigation bar.
- **The sign-in / sign-up form**: the validators and the submit handling.
- **The patient's signing page**: how a fetched invite is admitted or
  refused, the onboarding screens and the handlers that move between them,
  and when the consent can be submitted.

Modules:

- `Wrappers`, `JsText`, `JsArray`: the JavaScript primitives the code relies on, such as `trim`, `toLowerCase`, `includes`, `split`, `join` and `filter`.
- `Withdrawals`: the withdrawal field as the queries return it. It is `null`, an object or an array.
- `ConsentPdfText`, `ConsentPdfSections`, `ConsentPdfLayout`, `ConsentPdfEngine`: the PDF generator.
- `Invitations`, `Patients`, `Modules`, `ModuleEditor`, `Auth`, `ConsentSigning`, `RecentSubmissions`, `ProviderNav`: one module per UI file.

Font measurements are parameters (`Metrics`: the width of a string in the
two text fonts, and the rise of a box title). The text of the signing date
is an input. Timestamps are integers, and "now" is a parameter wherever the
source reads the clock. The results of database and authentication calls
are parameters of the handlers that receive them.

## Model

| member | source | states |
|---|---|---|
| JsText.Trim | src/pages/Auth.tsx:40 | `trim` leaves no white space (the ECMAScript `\s` set) at either end |
| JsText.TrimIsSlice | src/pages/ModuleEditor.tsx:82 | the trimmed string is a slice of the input with only white space removed around it |
| JsText.TrimEmptyIffAllSpace | src/pages/ModuleEditor.tsx:125 | `!s.trim()` holds exactly when every character of `s` is white space |
| JsText.SplitJoins | src/components/layout/ProviderNav.tsx:47 | the pieces of `split(c)` hold no `c`, and joining them with `c` gives the string back |
| JsText.SplitHead | src/components/layout/ProviderNav.tsx:59 | the first piece of `split(c)` is the text before the first `c` |
| JsText.IncludesAppend | src/pages/Modules.tsx:136 | a substring stays a substring when text is appended |
| JsText.IncludesPrepend | src/components/dashboard/RecentSubmissionsTable.tsx:139 | a substring stays a substring when text is put in front |
| JsText.NatToStringInjective | supabase/functions/generate-consent-pdf/index.ts:466 | different numbers print differently |
| JsArray.FilterMembers | src/pages/Invitations.tsx:284 | `filter` keeps exactly the elements that pass |
| JsArray.FilterAppend | src/pages/Invitations.tsx:172 | `filter` distributes over concatenation, keeping the order |
| JsArray.FilterDistinct | src/pages/ModuleEditor.tsx:89 | filtering a list without repeats gives a list without repeats |
| Withdrawals.Normalise | src/pages/Invitations.tsx:267-269 | a withdrawal is found exactly when the field holds one (an empty array holds none), and it is the first one held |
| Withdrawals.HasWithdrawalIffNormalised | src/pages/Patients.tsx:62 | Patients' `Array.isArray(w) ? w.length > 0 : !!w` agrees with the normalised withdrawal being present |
| ConsentPdfText.ReplaceControls | supabase/functions/generate-consent-pdf/index.ts:107 | each newline, carriage return and tab becomes one space and nothing else changes |
| ConsentPdfText.CollapseShape | supabase/functions/generate-consent-pdf/index.ts:107 | after `replace(/\s+/g, " ")` every white-space character is a single space that stands alone |
| ConsentPdfText.CollapseKeepsText | supabase/functions/generate-consent-pdf/index.ts:107 | collapsing keeps every character that is not white space, in order |
| ConsentPdfText.CollapseKeepsWords | supabase/functions/generate-consent-pdf/index.ts:107 | collapsing keeps the maximal runs of non-white-space exactly: no word is split or merged |
| ConsentPdfText.WordsInReplaceControls | supabase/functions/generate-consent-pdf/index.ts:106 | turning `\n`, `\r` and `\t` into spaces keeps the words |
| ConsentPdfText.TrimKeepsWords | supabase/functions/generate-consent-pdf/index.ts:107 | `trim()` keeps the words |
| ConsentPdfText.WordsInGood | supabase/functions/generate-consent-pdf/index.ts:110 | the words of a text are non-empty and hold no white space |
| ConsentPdfText.SanitizeSpec | supabase/functions/generate-consent-pdf/index.ts:106-107 | `sanitize` returns the normal form (no `\n`, `\r` or `\t`, no white-space runs, no space at either end) with the same non-space characters in order; it is exactly the input's maximal runs of non-white-space joined by single spaces, so splitting it on spaces gives those runs back, and it is empty exactly when the input has none |
| ConsentPdfText.SanitizeFixesNormalised | supabase/functions/generate-consent-pdf/index.ts:106-107 | a string already in normal form comes back unchanged |
| ConsentPdfText.SanitizeIdempotent | supabase/functions/generate-consent-pdf/index.ts:106-107 | sanitising twice is sanitising once |
| ConsentPdfText.WordsOfNormalised | supabase/functions/generate-consent-pdf/index.ts:110 | splitting a non-blank sanitised text on spaces gives non-empty words without spaces |
| ConsentPdfText.WrapText | supabase/functions/generate-consent-pdf/index.ts:109-124 | the `wrapText` loop returns exactly `WrapLines` |
| ConsentPdfText.Pack | supabase/functions/generate-consent-pdf/index.ts:111-123 | the greedy loop over the words returns exactly `WrapFrom`, its recursive definition |
| ConsentPdfText.WrapJoinsToSanitized | supabase/functions/generate-consent-pdf/index.ts:109-124 | joining the wrapped lines with single spaces gives back `sanitize(text)` |
| ConsentPdfText.WrapBlankIffNoLines | supabase/functions/generate-consent-pdf/index.ts:110-122 | no lines exactly when the sanitised text is blank |
| ConsentPdfText.WrapMultiWordLinesFit | supabase/functions/generate-consent-pdf/index.ts:115-120 | no line is empty, and only a line holding one word may be wider than `maxWidth` |
| ConsentPdfText.WrapIsGreedy | supabase/functions/generate-consent-pdf/index.ts:114-117 | every break was forced: a line plus a space plus the next line's first word is wider than `maxWidth` |
| ConsentPdfText.WrapKeepsWords | supabase/functions/generate-consent-pdf/index.ts:110-122 | the words of the lines, in order, are exactly the words of the sanitised text and the maximal runs of non-white-space of the caller's text, so no word is split or merged |
| ConsentPdfSections.HeadingPatternMeans | supabase/functions/generate-consent-pdf/index.ts:292 | `/^[A-Z][^.!?]*$/` matches exactly a line that starts with a capital and has no `.`, `!` or `?` anywhere |
| ConsentPdfSections.ClassifyText | supabase/functions/generate-consent-pdf/index.ts:281-299 | a line is skipped exactly when it is blank; any other line contributes non-empty, trimmed text |
| ConsentPdfSections.TitleIsHeading | supabase/functions/generate-consent-pdf/index.ts:292-297 | a short capitalised line without a stop, such as "Risks", is a heading |
| ConsentPdfSections.SentenceIsParagraph | supabase/functions/generate-consent-pdf/index.ts:292-299 | a line without a marker but with a `.`, `!` or `?`, such as "Risks are listed below.", is a paragraph |
| ConsentPdfSections.LongLineIsParagraph | supabase/functions/generate-consent-pdf/index.ts:292 | a capitalised line of 80 characters or more is a paragraph |
| ConsentPdfSections.MarkerStripped | supabase/functions/generate-consent-pdf/index.ts:285-291 | `# `, `- ` and `• ` are stripped; `# ` starts a heading and the others a bullet |
| ConsentPdfSections.ParseDescription | supabase/functions/generate-consent-pdf/index.ts:275-306 | the loop of `parseDescription` returns exactly `Parse` |
| ConsentPdfSections.ParseShape | supabase/functions/generate-consent-pdf/index.ts:286-304 | no section is emitted with no heading, paragraph or bullet, and every section after the first has a heading |
| ConsentPdfSections.ParseKeepsLines | supabase/functions/generate-consent-pdf/index.ts:280-304 | the headings, paragraphs and bullets of all sections are exactly the lines of each kind, in input order |
| ConsentPdfSections.ParseCountsBodyLines | supabase/functions/generate-consent-pdf/index.ts:280-304 | paragraphs plus bullets equal the number of non-blank lines that are not headings |
| ConsentPdfLayout.EnsureSpaceMakesRoom | supabase/functions/generate-consent-pdf/index.ts:126-131 | nothing changes when `yPos - n >= 104`; otherwise exactly one empty page is added and `yPos` is 738, so for `n <= 634` there is room afterwards |
| ConsentPdfLayout.StackedShape | supabase/functions/generate-consent-pdf/index.ts:214-252 | unbroken rows: the glyph only before the first line, every line at the text column, each 14 points below the previous |
| ConsentPdfLayout.RowsNoBreak | supabase/functions/generate-consent-pdf/index.ts:214-252 | rows that fit stay on the current page, and the cursor drops 14 points per line |
| ConsentPdfLayout.RowsPageCount | supabase/functions/generate-consent-pdf/index.ts:215 | every row adds at most one page |
| ConsentPdfLayout.RowsDraws | supabase/functions/generate-consent-pdf/index.ts:214-252 | page breaks never lose, repeat or reorder a row |
| ConsentPdfLayout.ParagraphNoBreak | supabase/functions/generate-consent-pdf/index.ts:212-226 | without a break, `drawParagraph` lowers `yPos` by 14 per wrapped line plus 4, the lines in a column at `MARGIN + 8 + indent` |
| ConsentPdfLayout.BulletNoBreak | supabase/functions/generate-consent-pdf/index.ts:228-253 | without a break, `drawBullet` lowers `yPos` by 14 per line with no gap; the glyph is drawn once, by the first line, and the text starts at `bulletX + 12` |
| ConsentPdfLayout.ParagraphFloor | supabase/functions/generate-consent-pdf/index.ts:212-226 | a paragraph keeps every text baseline at or above the footer line 104 |
| ConsentPdfLayout.BulletFloor | supabase/functions/generate-consent-pdf/index.ts:228-253 | a bullet keeps every text baseline at or above 104 |
| ConsentPdfLayout.LabelValueFloor | supabase/functions/generate-consent-pdf/index.ts:192-210 | a label/value row keeps its baseline at or above 104 |
| ConsentPdfLayout.SubheadingFloor | supabase/functions/generate-consent-pdf/index.ts:255-266 | a subheading keeps its baseline at or above 104 |
| ConsentPdfLayout.ParagraphAdvances | supabase/functions/generate-consent-pdf/index.ts:212-226 | a paragraph removes no page; without a new page it draws only between the old and the new cursor |
| ConsentPdfLayout.SectionBlocksDraw | supabase/functions/generate-consent-pdf/index.ts:372-382 | the sections come out in order: a subheading for a heading, then the paragraphs, then the bullets |
| ConsentPdfLayout.SectionBoxGeometry | supabase/functions/generate-consent-pdf/index.ts:143-190 | the content starts 32 below the cursor left by `ensureSpace(60)`; the border's bottom is `endY - 10` and its height `startY - endY + 26`, so its top is `startY + 16`; the cursor ends 16 lower still |
| ConsentPdfLayout.SectionBoxEncloses | supabase/functions/generate-consent-pdf/index.ts:170-187 | content kept on one page lies strictly inside the border |
| ConsentPdfLayout.SectionBoxDraws | supabase/functions/generate-consent-pdf/index.ts:143-190 | whatever the page breaks, a box draws its header bar and title, its content, then its border |
| ConsentPdfLayout.SectionBoxFloor | supabase/functions/generate-consent-pdf/index.ts:143-190 | a box keeps its texts above the footer; the signature box needs the room the caller's `ensureSpace(180)` gives |
| ConsentPdfLayout.SignatureBoxFits | supabase/functions/generate-consent-pdf/index.ts:394-446 | with 180 points free the signature box adds no page, and the cursor stays above the footer |
| ConsentPdfLayout.HeaderLayout | supabase/functions/generate-consent-pdf/index.ts:311-347 | the header fits on the first page; it shows the practice name or else the provider's name, and the "Provider:" line exactly when both names are set |
| ConsentPdfLayout.ContentDraws | supabase/functions/generate-consent-pdf/index.ts:311-446 | the content shows the header, then each box whole, in the source's order |
| ConsentPdfLayout.BoxTitles | supabase/functions/generate-consent-pdf/index.ts:160-166 | a box has exactly one title, its own |
| ConsentPdfLayout.ContentTitles | supabase/functions/generate-consent-pdf/index.ts:350-396 | the box titles appear once each, in order; "CONSENT INFORMATION" appears exactly when the module has a non-empty description |
| ConsentPdfLayout.ContentFloor | supabase/functions/generate-consent-pdf/index.ts:126-446 | no content text reaches the footer zone, on any page |
| ConsentPdfLayout.SignatureOnOnePage | supabase/functions/generate-consent-pdf/index.ts:393-446 | `ensureSpace(180)` keeps the signature box on the page where it starts |
| ConsentPdfLayout.FootersStamp | supabase/functions/generate-consent-pdf/index.ts:449-473 | the footer pass adds no page and keeps each page's content in front; page `i` gets "Page i+1 of N", N being the final page count, below all content text |
| ConsentPdfLayout.FootersNumbered | supabase/functions/generate-consent-pdf/index.ts:466 | no two pages carry the same page label |
| ConsentPdfEngine.Layout.constructor | supabase/functions/generate-consent-pdf/index.ts:102-103 | one empty page, cursor at `PAGE_HEIGHT - MARGIN` |
| ConsentPdfEngine.Layout.EnsureSpace | supabase/functions/generate-consent-pdf/index.ts:126-131 | the new pages and cursor are `ConsentPdfLayout.EnsureSpace` of the old |
| ConsentPdfEngine.Layout.DrawLabelValue | supabase/functions/generate-consent-pdf/index.ts:192-210 | the new state is `LabelValue` of the old |
| ConsentPdfEngine.Layout.DrawRows | supabase/functions/generate-consent-pdf/index.ts:214-224 | the row loop leaves the state `Rows` describes |
| ConsentPdfEngine.Layout.DrawParagraph | supabase/functions/generate-consent-pdf/index.ts:212-226 | the new state is `Paragraph` of the old |
| ConsentPdfEngine.Layout.DrawBullet | supabase/functions/generate-consent-pdf/index.ts:228-253 | the new state is `Bullet` of the old |
| ConsentPdfEngine.Layout.DrawSubheading | supabase/functions/generate-consent-pdf/index.ts:255-266 | the new state is `Subheading` of the old |
| ConsentPdfEngine.Layout.DrawSections | supabase/functions/generate-consent-pdf/index.ts:372-382 | the section loop leaves the state `SectionBlocks` describes |
| ConsentPdfEngine.Layout.DrawSignature | supabase/functions/generate-consent-pdf/index.ts:397-445 | the new state is `SignatureBlock` of the old |
| ConsentPdfEngine.Layout.DrawSectionBox | supabase/functions/generate-consent-pdf/index.ts:143-190 | the new state is `SectionBox` of the old |
| ConsentPdfEngine.Layout.DrawHeader | supabase/functions/generate-consent-pdf/index.ts:311-347 | the new state is `Header` of the old |
| ConsentPdfEngine.Layout.StampFooters | supabase/functions/generate-consent-pdf/index.ts:449-473 | the footer loop leaves `Footers` of the old pages and keeps the cursor |
| ConsentPdfEngine.Layout.RenderContent | supabase/functions/generate-consent-pdf/index.ts:311-446 | from a new document, the content pages are `Content` |
| ConsentPdfEngine.Generate | supabase/functions/generate-consent-pdf/index.ts:102-473 | the finished pages are `Document`, footers included |
| Invitations.GetWithdrawal | src/pages/Invitations.tsx:264-270 | a withdrawal is found exactly when there is a first submission whose field holds one, and it is the first held there |
| Invitations.EffectiveStatusCases | src/pages/Invitations.tsx:272-282 | "withdrawn" exactly for a completed invite with a withdrawal; "expired" exactly for a stored expired or an overdue pending invite; viewed and completed never expire |
| Invitations.ExpireAll | src/pages/Invitations.tsx:143-152 | every invite keeps its place and all but its status; exactly the overdue pending invites change status, and they become "expired" |
| Invitations.ExpireKeepsEffectiveStatus | src/pages/Invitations.tsx:143-152 | the rewrite does not change the status the page shows |
| Invitations.FilteredMembers | src/pages/Invitations.tsx:284-297 | an invite is listed exactly when the query occurs in one of its four fields and, unless "all", its shown status is the chosen one |
| Invitations.EmptySearchListsAll | src/pages/Invitations.tsx:284-297 | the empty query with "all" lists every invite in order |
| Invitations.MissingFieldsMatchOnlyEmptyQuery | src/pages/Invitations.tsx:286-289 | a missing name or module is searched as "", so a non-empty query can only match the e-mail |
| Invitations.SearchIgnoresQueryCase | src/pages/Invitations.tsx:286-289 | the search ignores the case of the query |
| Invitations.DeleteKeepsOthers | src/pages/Invitations.tsx:172 | deletion keeps every other invite in order and drops the id |
| Invitations.ActionsPartition | src/pages/Invitations.tsx:460-503 | each status offers exactly one of resend, send-new and the PDF actions; the link actions come exactly with resend |
| Patients.GroupByEmail | src/pages/Patients.tsx:56-79 | the `forEach` over a `Map` returns `Grouped`: one record per distinct e-mail in first-seen order, with the first submission's names and date, the submission count, and whether any submission was withdrawn |
| Patients.LatestIsNewest | src/pages/Patients.tsx:52 | with the query's newest-first order, `latest_signed_at` is the newest date among the e-mail's submissions |
| Patients.CountsSum | src/pages/Patients.tsx:64-73 | the consent counts add up to the number of submissions |
| Patients.GroupedKeys | src/pages/Patients.tsx:57-79 | each e-mail has exactly one record, and each record's e-mail occurs |
| Patients.FilteredPatientsMembers | src/pages/Patients.tsx:87-94 | a record is listed exactly when the query occurs in its e-mail or names; the empty query lists them all, in order |
| Modules.FilteredMembers | src/pages/Modules.tsx:134-148 | a module is listed exactly when it matches the search and the filter |
| Modules.FilterPartition | src/pages/Modules.tsx:142-145 | "video" and "text" split the modules, and "all" keeps each one |
| Modules.EmptySearchListsAll | src/pages/Modules.tsx:134-148 | the empty search with "all" lists every module |
| Modules.NullFieldsNeverMatch | src/pages/Modules.tsx:137-139 | without a description and tags, only the name is searched |
| Modules.HandleDeleteSpec | src/pages/Modules.tsx:99-105 | after a delete no module has the id and all others stay; without a target, or on failure, nothing changes |
| Modules.DuplicateSpec | src/pages/Modules.tsx:110-131 | the copy, named "<name> (Copy)", goes first in front of the old list; every search that finds the original finds it, and it has the original's filters |
| ModuleEditor.ModuleForm.AddTag | src/pages/ModuleEditor.tsx:81-86 | the tags become `TagsAfterAdd`; the input is cleared exactly when a tag was added |
| ModuleEditor.ModuleForm.RemoveTag | src/pages/ModuleEditor.tsx:88-90 | the tags become `TagsAfterRemove`, nothing else changes |
| ModuleEditor.AddTagSpec | src/pages/ModuleEditor.tsx:81-86 | the trimmed input is appended exactly when it is not blank and not a tag yet; the list stays without repeats and with trimmed, non-blank tags |
| ModuleEditor.RemoveTagSpec | src/pages/ModuleEditor.tsx:88-90 | every occurrence of the tag goes, the others stay in order, and repeat-freedom and clean tags are kept |
| ModuleEditor.RemoveUndoesAdd | src/pages/ModuleEditor.tsx:81-90 | removing a tag just added restores the old list |
| ModuleEditor.PrefixesExclusive | src/pages/ModuleEditor.tsx:177 | the two YouTube prefixes never match at the same place, so trying them in turn is the alternation |
| ModuleEditor.YouTubeIdShape | src/pages/ModuleEditor.tsx:177 | the captured id is a non-empty run that stops at `&`, white space or the end, right after the prefix |
| ModuleEditor.VimeoIdShape | src/pages/ModuleEditor.tsx:183 | the captured Vimeo id is a non-empty run of digits |
| ModuleEditor.EmbedUrlYouTube | src/pages/ModuleEditor.tsx:177-180 | the leftmost YouTube link decides: its id goes in the embed URL |
| ModuleEditor.EmbedUrlVimeo | src/pages/ModuleEditor.tsx:183-186 | with no YouTube link, the leftmost Vimeo link gives the player URL |
| ModuleEditor.EmbedUrlOther | src/pages/ModuleEditor.tsx:174-193 | with neither link, a `.mp4`/`.webm`/`.ogg` URL is kept and anything else, the empty URL included, gives nothing |
| ModuleEditor.DirectVideoIgnoresCase | src/pages/ModuleEditor.tsx:189 | the extension test ignores case |
| ModuleEditor.SaveChecks | src/pages/ModuleEditor.tsx:124-136 | name, then consent text, then sign-in are checked in that order, with their messages; a save passing all three writes, an update when editing |
| ModuleEditor.SaveNormalises | src/pages/ModuleEditor.tsx:140-146 | the row has trimmed non-blank name and text, a video URL only when a non-blank one was entered, and tags only when there are some |
| Auth.EmailPatternIffShape | src/pages/Auth.tsx:41 | the e-mail pattern accepts exactly: no white space, one `@` with text before it, and after it a `.` that is neither first nor last |
| Auth.ValidateEmailSpec | src/pages/Auth.tsx:39-43 | a blank address is "required" first; any other address is accepted exactly when it has that shape |
| Auth.ValidatePasswordSpec | src/pages/Auth.tsx:45-49 | the empty password is "required", and a password passes exactly when it has 6 or more characters |
| Auth.ValidateFullNameSpec | src/pages/Auth.tsx:51-55 | login never asks for a name; sign-up needs 2 characters once trimmed |
| Auth.FormPassesIff | src/pages/Auth.tsx:57-65 | the form passes exactly when all three validators pass |
| Auth.AuthForm.ValidateForm | src/pages/Auth.tsx:57-65 | stores all three errors and returns whether there are none |
| Auth.AuthForm.HandleBlur | src/pages/Auth.tsx:67-72 | marks the field touched and refreshes its error only |
| Auth.AuthForm.HandleSubmit | src/pages/Auth.tsx:74-99 | an invalid form touches every field and sends nothing; a valid one signs in or signs up, as the mode says |
| Auth.SubmitNeedsValidFields | src/pages/Auth.tsx:74-99 | no request carries a malformed address or a short password, and a sign-up always carries a name of 2 or more characters |
| ConsentSigning.GateInviteSpec | src/pages/ConsentSigning.tsx:85-114 | only the first row of a good fetch is admitted, and only when not expired and not completed; expiry is reported before completion |
| ConsentSigning.ValidateNameSpec | src/pages/ConsentSigning.tsx:132 | a name passes only with two characters that are not white space |
| ConsentSigning.CanSubmitSpec | src/pages/ConsentSigning.tsx:327-331 | both boxes and a non-blank signature are needed; the video box counts exactly when there is a video |
| ConsentSigning.StepSpec | src/pages/ConsentSigning.tsx:121 | "complete" is final, only a success reaches it, and Back returns to "choice" |
| ConsentSigning.CompleteNeedsSuccess | src/pages/ConsentSigning.tsx:121 | however the screens are visited, "complete" is reached only by a successful handler or a fetch with both names |
| ConsentSigning.AccountErrorSpec | src/pages/ConsentSigning.tsx:175-196 | account creation runs the guest checks first, with the same messages, then the password checks |
| ConsentSigning.SigningFlow.LoadInvite | src/pages/ConsentSigning.tsx:76-122 | a refused invite sets the error; an admitted one is stored with its e-mail, and with both names the names are copied and the screen becomes "complete" |
| ConsentSigning.SigningFlow.Navigate | src/pages/ConsentSigning.tsx:442 | a button moves the screen as `Step` says, nothing else changes |
| ConsentSigning.SigningFlow.PickSignIn | src/pages/ConsentSigning.tsx:455 | "Sign In" pre-fills the login e-mail and opens the login screen |
| ConsentSigning.SigningFlow.GuestContinue | src/pages/ConsentSigning.tsx:140-172 | the first failing check's message, with the screen kept; otherwise "complete" |
| ConsentSigning.SigningFlow.AccountCreate | src/pages/ConsentSigning.tsx:174-236 | the first failing check's message, or the sign-up's error, with the screen kept; otherwise "complete" |
| ConsentSigning.SigningFlow.SignIn | src/pages/ConsentSigning.tsx:238-287 | missing credentials, then the sign-in's error ("Invalid login credentials" becomes its own message); otherwise the profile's names and "complete" |
| ConsentSigning.SigningFlow.HandleSubmit | src/pages/ConsentSigning.tsx:289-325 | nothing is sent unless `canSubmit` holds and invite and token exist; only a call that went through completes |
| RecentSubmissions.FormatPatientNameSpec | src/components/dashboard/RecentSubmissionsTable.tsx:123-125 | never empty and trimmed; "Unknown" when both parts are blank, otherwise `"first last"` trimmed, and exactly `"first last"` for parts with no outer white space |
| RecentSubmissions.IsWithdrawnSpec | src/components/dashboard/RecentSubmissionsTable.tsx:127-133 | withdrawn exactly for an object or a non-empty array; `null` and `[]` are not withdrawn |
| RecentSubmissions.BlankQueryKeepsAll | src/components/dashboard/RecentSubmissionsTable.tsx:136 | a white-space-only query keeps every submission, in order |
| RecentSubmissions.FilteredMembers | src/components/dashboard/RecentSubmissionsTable.tsx:135-143 | otherwise a submission is kept exactly when the lowercased, untrimmed query occurs in the lowercased `"first last"` or e-mail |
| RecentSubmissions.NamePartMatches | src/components/dashboard/RecentSubmissionsTable.tsx:138-141 | a query found in the first or in the last name alone finds the submission |
| RecentSubmissions.SearchIgnoresQueryCase | src/components/dashboard/RecentSubmissionsTable.tsx:137 | the search ignores the case of the query |
| RecentSubmissions.FilteredAppend | src/components/dashboard/RecentSubmissionsTable.tsx:135 | the filter distributes over concatenation and keeps order |
| ProviderNav.FirstCharsAreWordStarts | src/components/layout/ProviderNav.tsx:47-49 | `split(" ").map(n => n[0]).join("")` is exactly the first letter of every word |
| ProviderNav.InitialsSpec | src/components/layout/ProviderNav.tsx:44-57 | at most 2 characters; with a full name, the upper-cased first letters of its first two words, empty exactly for an all-space name; else the e-mail's first two characters upper-cased; else "U" |
| ProviderNav.InitialsOfTwoWords | src/components/layout/ProviderNav.tsx:45-51 | "first last…" gives the upper-cased first letters of both words |
| ProviderNav.DisplayNameSpec | src/components/layout/ProviderNav.tsx:59 | never empty; the full name, else the e-mail before its first "@", else "User" |
| ProviderNav.OneActiveItem | src/components/layout/ProviderNav.tsx:24-29 | at most one nav item is active (exact equality, line 75 and 123), and one is exactly when the path is one of the four hrefs |

## Left out

- The PDF library (document creation, font embedding, `save`) is not modelled. A page is a list of abstract draw operations, and colours, opacity and line thickness are left out.
- Font metrics (`widthOfTextAtSize`, `heightAtSize`) are floating point. They are parameters: a width function from strings to natural numbers, read as the measured width rounded up (exact for the `<= maxWidth` test, since every maximum width is an integer), and an integer title rise.
- The visual centring of a box title in its header bar (generate-consent-pdf/index.ts:149-151) is not computed. The rise is a parameter, constrained only to keep the title inside the bar.
- Formatting of the signing date (`toLocaleString` with a time zone) is locale behaviour. The formatted string is an input.
- `desc.split(/\n+/)` is modelled as `split("\n")`. The extra empty pieces are blank lines, which the loop skips anyway.
- `toLowerCase` and `toUpperCase` map only ASCII letters. Characters whose case mapping changes the length (such as "ß") are not modelled.
- Strings are sequences of Unicode scalar values, not UTF-16 code units. `n[0]` in `getInitials` therefore yields a whole character even outside the Basic Multilingual Plane.
- The HTTP wrapper is not modelled. The same goes for CORS, Supabase queries and RPCs (including `mark_invite_viewed`), storage upload, signed URLs, the `regenerate` short cut, toasts, the clipboard, `localStorage` and navigation. Their results are handler parameters.
- `Date` objects are integers, and the current time is an explicit parameter.
- ConsentSigning.SigningFlow.GuestContinue: `validateDOB` (ConsentSigning.tsx:133-138) parses dates, so its result is a boolean parameter.
- ConsentSigning.SigningFlow.AccountCreate: the same `validateDOB` result is a parameter. Profile creation after sign-up is a database write.
- The setters of the input fields (`setFirstName`, `setTagInput`, …) are plain field assignments and have no members.
- ModuleEditor's `fetchModule` and `generateConsentText` are database and AI-service calls.
- The video-embed code of ConsentSigning.tsx (758-786) and PatientDashboard.tsx (329-355) is not modelled. It differs from the modelled `getVideoEmbedUrl`: it also accepts `youtube.com/embed/` links, it requires an 11-character video id of letters, digits, `_` and `-`, and it falls back to a plain `<video>` element for any other URL.
- There are no models of send-invite-email, the NewInvitation, PatientSettings, PatientDashboard, Dashboard and Settings pages, RecentWithdrawals, or the static UI and routing files. They are I/O and markup, or repeat logic modelled here.
- Auth.AuthForm.HandleSubmit: the loading flag and the messages after a failed sign-in or sign-up are not modelled. The method returns the request it would send.
