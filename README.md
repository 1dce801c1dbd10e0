# Resume analyzer: verified model of its exporters, gates and login check

This project models the deterministic core of a small résumé-analysis web
application: a browser script (`script.js`) with a `ResumeAnalyzer` class, a
React page (`app/page.tsx`) and a login script (`login.js`). The remote model
call supplies an analysis: an ATS score, keyword lists, suggestions, skill
gaps and a structured "enhanced résumé". This project proves what the
application then does with that analysis:

- **Enhanced résumé to PDF** (`ResumePdf`, on the shared `Pager` cursor). A
  greedy single pass moves a cursor `y` down the page. Before a section, an
  item header, a subheader or a bullet point it reserves 50, 30, 15 or
  `lines * 14` units. It starts a new page at the 40-unit margin whenever the
  reservation would cross `pageHeight - 40`.
- **Analysis report to PDF** (`ReportPdf`). A second cursor uses fixed
  geometry: start at 20, a heading moves to a new page when `y > 260`, a text
  block moves when it would pass 280, and each line is 5 units.
- **Both documents to Word** (`Word`). These build the ordered list of docx
  paragraphs with their heading levels, runs and spacing.
- **Agreement of the two formats** (`ExportsAgree`). The Word résumé is the
  PDF block sequence with the two kinds of horizontal rule removed. The Word
  report carries the PDF report's texts line for line.
- **Score banding** (`Banding` for `displayATSScore`, `Customizer` for the
  page's colour, label and alert). The thresholds are 80 and 60.
- **The analyze gate.** `Analyzer` models the button state and the click
  guard of `ResumeAnalyzer`. `Customizer` models the page's
  `analyzeResume`/`disabled` pair.
- **The login check** (`Login`). An empty-input guard is followed by the first
  user whose username and password both match.

Modules:

| Module | File | Role |
|---|---|---|
| `Wrappers` | `wrappers.dfy` | `Option`, with `GetOr` for JavaScript's `x \|\| default` |
| `Text` | `text.dfy` | ECMAScript `trim`, `join`, ASCII `toUpperCase`, integer to decimal text |
| `Analysis` | `analysis.dfy` | the analysis and enhanced-résumé data model |
| `Banding` | `banding.dfy` | `displayATSScore` |
| `Customizer` | `customizer.dfy` | the `app/page.tsx` component state and banding |
| `Analyzer` | `analyzer.dfy` | the `ResumeAnalyzer` state class |
| `Login` | `login.dfy` | the submit handler of `login.js` |
| `Pager` | `pager.dfy` | the jsPDF document seen as placed blocks, plus the cursor class |
| `ResumePdf` | `resume_pdf.dfy` | `exportEnhancedResumeToPDF` with `checkPageBreak` |
| `ReportPdf` | `report_pdf.dfy` | `exportAnalysisToPDF` with `addSection` |
| `Word` | `word.dfy` | `exportEnhancedResumeToWord`, `exportAnalysisToWord` with `createSection` |
| `ExportsAgree` | `exports.dfy` | what the PDF and the Word exports have in common |

Modelling choices:

- **Text measuring.** `splitTextToSize(text, width).length` becomes an
  injected `Measure` function. The page width and height are integer
  parameters, and the margin is the source's constant 40.
- **Exporters as cursor methods.** The PDF exporters are methods over a
  `PageCursor` object with the fields `y`, `pageCount` and `placed`. Their
  `checkPageBreak`, `addPage` and `y +=` steps are method calls in the
  source's order. Each exporter is proved against a reference layout
  (`ResumePdf.ResumeLayout`, `ReportPdf.ReportLayoutOf`): the first block at
  the top of page 1, then every block of `ResumeBlocks`/`ReportBlocks`
  placed by `Pager.GreedyLayout` with the module's `PlaceAfter` rule. That
  rule decides the break, the page and the `y` of a block from the drawing
  before it. So the exporters' drawings, every `y`, every break and the page
  count are all fixed by the input.
- **Word exporters.** These are methods whose loops push paragraphs. Each is
  proved equal to a reference function (`ResumeParagraphs`,
  `ReportParagraphs`). Lemmas about that function give its counts and
  heading levels.
- **Missing values.** A falsy subheader is the empty string. A missing score
  (`atsScore` absent) is `None`. The analysis and the enhanced résumé are
  `Option`s, so the early `return` of each exporter is modelled.
- **Trimming.** The two analyze gates differ: `script.js` trims both texts
  before testing them, while `app/page.tsx` tests the raw strings. Each
  module follows its own file.
- **Section titles.** The résumé exporter only reserves 50 units before a
  section title. The model promises nothing about a title left alone at the
  bottom of a page.

## Model

| member | source | states |
|---|---|---|
| Text.Trim | login.js:9 | the result is empty exactly when the input is all ECMAScript whitespace; otherwise it neither starts nor ends with whitespace, and the input is blank prefix + result + blank suffix |
| Text.ToUpper | script.js:531 | same length as the input, each character upper-cased |
| Text.Join | script.js:513 | no parts give the empty string, one part gives itself; the result starts with the first part and ends with the last |
| Text.JoinLength | script.js:513 | a joined list is as long as its parts plus one separator between each two |
| Text.IntToString | script.js:387 | the decimal text of an integer: never empty, a leading minus sign exactly for negatives, digits after it |
| Text.NatDigitsRoundTrip | script.js:387 | the digits of a natural number read back as that number |
| Text.IntToStringRoundTrip | script.js:387 | the decimal text reads back as the integer it came from |
| Text.IntToStringInjective | script.js:387 | different integers print differently |
| Analysis.ScoreText | script.js:387 | `ATS Score: `, then the score's decimal text or `undefined` for a missing score, then `%` |
| Analysis.ScoreTextInjective | script.js:468 | two score lines are equal only for equal scores, so the report shows which score it had |
| Banding.BandOf | script.js:242-254 | excellent iff score >= 80, good iff 60 <= score < 80, needs improvement iff score < 60 |
| Banding.BandMonotone | script.js:242-254 | a higher score never lands in a lower band |
| Banding.DisplayedScore | script.js:232 | a missing score is shown as 0, and a present one as itself |
| Banding.DisplayATSScore | script.js:231-260 | score text is the displayed score and `%`; colour class, label and message all belong to the band of the displayed score |
| Banding.ColorClassInjective | script.js:242-254 | the three colour classes are pairwise different |
| Banding.ColorIdentifiesBand | script.js:242-254 | two scores get the same colour class iff they fall in the same band |
| Customizer.InitialState | app/page.tsx:30-33 | the page starts with empty inputs, no analysis and not analyzing |
| Customizer.AnalyzeResume | app/page.tsx:46-49 | with either raw input empty the state is unchanged; otherwise only `isAnalyzing` becomes true |
| Customizer.CompleteAnalysis | app/page.tsx:77-78 | the result is stored and `isAnalyzing` drops; the inputs are unchanged |
| Customizer.ButtonDisabled | app/page.tsx:164 | the button is enabled iff no analysis runs and a click would start one |
| Customizer.AnalyzeRoundTrip | app/page.tsx:46-79 | from an enabled button: while running, the button is disabled and the old analysis kept; on completion, the result is stored and the button is enabled again |
| Customizer.ScoreColor | app/page.tsx:82-86 | the colour of the band of the score, with thresholds 80 and 60 |
| Customizer.ScoreLabel | app/page.tsx:88-92 | "Excellent", "Good" or "Needs Improvement" by the same thresholds |
| Customizer.AlertSuffix | app/page.tsx:210 | the alert text of the band of the score |
| Customizer.BandTextsInjective | app/page.tsx:82-92 | colours, labels and alert texts each differ between bands |
| Customizer.ColorLabelAlertAgree | app/page.tsx:82-92 | two scores share a colour iff they share a label iff they share an alert text |
| Analyzer.HasContent | script.js:70 | both trimmed texts are non-empty iff neither text is all whitespace |
| Analyzer.AnalyzeDisabled | script.js:68-72 | disabled iff either text is all whitespace or loading is on |
| Analyzer.FailureMessage | script.js:108 | the error's message when non-empty, else the fallback; never empty |
| Analyzer.ResumeAnalyzer.constructor | script.js:3-8 | empty texts, no analysis, not loading |
| Analyzer.ResumeAnalyzer.UpdateAnalyzeButtonState | script.js:68-72 | the button's disabled flag becomes the predicate of the current fields; nothing else changes |
| Analyzer.ResumeAnalyzer.InputResumeText | script.js:23-26 | stores the résumé text and brings the button in step |
| Analyzer.ResumeAnalyzer.InputJobDescription | script.js:27-30 | stores the job text and brings the button in step |
| Analyzer.ResumeAnalyzer.SetLoadingState | script.js:78-83 | sets the loading flag; the button is in step, so it is disabled while loading |
| Analyzer.ResumeAnalyzer.HandleAnalyzeClick | script.js:88-95 | rejects with the missing-input message, changing nothing, iff a trimmed text is empty; otherwise it enters loading with the button disabled |
| Analyzer.ResumeAnalyzer.CompleteAnalysis | script.js:97-111 | a present result is stored, otherwise the analysis is kept; an error is reported iff the call failed; loading always ends and the button then reflects the inputs |
| Analyzer.EnabledIffClickStarts | script.js:68-92 | with loading off, the button is enabled iff a click passes the guard |
| Analyzer.LoadingDisables | script.js:68-72 | loading always disables the button |
| Analyzer.ClickThenComplete | script.js:88-111 | the click is rejected iff a trimmed text was empty, and then reports nothing and keeps the analysis and loading flag; a started one ends out of loading with the button in step, stores a returned result or keeps the old analysis, and sends a failure's message to the modal |
| Login.FindUser | login.js:25-27 | the index of the first user whose username and password both match, or none when no user matches |
| Login.Submit | login.js:9-36 | missing input iff the trimmed username or the raw password is empty; fetch failure iff the input is present and the list could not be read; welcome iff some user matches the trimmed username and raw password, greeting with the trimmed name; else invalid credentials |
| Login.WelcomesFirstMatch | login.js:25-30 | the greeting uses the first matching user in list order |
| Login.Message | login.js:13-40 | never empty; a welcome is `Login successful! Welcome, `, the user name and a full stop |
| Login.MessageIdentifiesOutcome | login.js:13-40 | equal messages mean equal outcomes: the text tells missing input, fetch failure, bad credentials and each user's welcome apart |
| Pager.LastPageIsBreaks | script.js:495-500 | in a page flow, the last page index equals the number of page breaks taken |
| Pager.NoEmptyPage | script.js:495-500 | in a page flow, every page up to the last holds at least one drawing |
| Pager.GreedyLayout | script.js:493-568 | the single pass places exactly one drawing per block |
| Pager.LayoutBlocks | script.js:493-568 | a greedy layout draws exactly the given blocks, in order |
| Pager.LayoutFromBlocks | script.js:493-568 | a first drawing followed by the greedy layout of the rest draws the whole block list, in order |
| Pager.GreedyConcat | script.js:526-568 | laying out two block lists one after the other is laying out their concatenation, so nested loops compose |
| Pager.Chain | script.js:526-568 | two consecutive greedy runs from a cursor form one greedy run of the concatenated blocks |
| Pager.Extend | script.js:559-565 | one more block placed by the rule extends a greedy run by that block |
| Pager.LayoutIsGreedy | script.js:493-568 | in a greedy layout, every drawing after the first is where the rule puts it after the drawing before it |
| Pager.PageCursor.constructor | script.js:490-493 | a one-page document, nothing drawn, cursor at the top margin |
| Pager.PageCursor.AddPage | script.js:497-498 | one more page and `y` back at the top; the drawings are unchanged |
| Pager.PageCursor.Draw | script.js:506 | appends the block at the cursor on the current page; `y` and the page count are unchanged |
| Pager.PageCursor.Advance | script.js:507 | moves `y` down by the given amount and nothing else |
| ResumePdf.PlaceAfter | script.js:495-565 | a checked block whose reservation, counted from the previous drawing's `y` plus its advance (plus 10 after an item), would cross `pageHeight - 40` goes to the next page at 40 (60 for a section title); otherwise it stays on the page at that `y` (20 more for a title) |
| ResumePdf.GreedyKeepsReserves | script.js:495-500 | when every drawing follows the placement rule and the first needs no check, every checked block kept its reservation or was moved to a fresh page at the margin |
| ResumePdf.ReservesKeptPointsFit | script.js:559-565 | a point lies on one page within the margins, unless it alone is taller than the printable area; then it starts at the top margin |
| ResumePdf.CheckPageBreak | script.js:495-500 | exactly one new page with `y` at the margin when `y + space > pageHeight - margin`; otherwise page count and `y` unchanged; nothing drawn |
| ResumePdf.PlaceChecked | script.js:527-532 | break check, offset, draw: the drawing appended is the one the placement rule gives; a new page with the block at 40 + offset exactly when the reservation crosses the limit, else the same page at `y` + offset; `y` is left at the drawing |
| ResumePdf.PlaceUnchecked | script.js:513-516 | the block is appended at the cursor on the current page, which is where the placement rule puts an unchecked block; `y` and the page count unchanged |
| ResumePdf.RenderItemHead | script.js:540-554 | draws the header, then the subheader only when there is one, as the greedy layout of those blocks; `y` is left 15 below the last of them |
| ResumePdf.RenderPoint | script.js:559-565 | appends the point's drawing as the placement rule gives it: a new page at 40 exactly when `y + lines*14` crosses the limit; `y` then moves by `lines*14` |
| ResumePdf.RenderItem | script.js:539-567 | the drawings grow by the greedy layout of the item's blocks; `y` ends 10 below the last one's advance |
| ResumePdf.RenderSectionHead | script.js:527-537 | the greedy layout of the upper-cased title and the rule: the rule on the title's page 8 below it, and `y` left 28 below the title |
| ResumePdf.RenderSection | script.js:526-568 | the drawings grow by the greedy layout of the section's blocks |
| ResumePdf.RenderSections | script.js:526-568 | the drawings grow by the greedy layout of all sections' blocks, in order |
| ResumePdf.RenderHead | script.js:502-523 | name, contact, rule and summary land on page 1 at 40, 60, 80 and 105, as the greedy layout after the name; one page, and `y` left at 105 + 14 per summary line |
| ResumePdf.ResumeLayout | script.js:486-568 | the reference layout draws exactly the résumé's blocks, in order |
| ResumePdf.FinishedLayout | script.js:493-568 | a cursor holding the name followed by the greedy layout of the other blocks is the reference layout, greedy, a page flow with page count = 1 + breaks, every reservation kept |
| ResumePdf.ExportEnhancedResumeToPdf | script.js:486-571 | nothing without a résumé; otherwise exactly the reference layout: every block once and in model order, head on page 1, each block where the placement rule puts it after the previous one, page count = 1 + breaks, every reservation kept |
| ReportPdf.ListBlocksLength | script.js:396-402 | one text block per list item |
| ReportPdf.ReportBlockCount | script.js:412-415 | a report has 8 + gaps + suggestions blocks |
| ReportPdf.PlaceAfter | script.js:390-409 | a heading goes to the next page at 20 when the cursor (the previous drawing's `y` plus its advance, plus 5 after a section) is past 260, a text block when it would pass 280; otherwise on the same page at that cursor |
| ReportPdf.ReportLayoutOf | script.js:377-415 | the reference layout draws exactly the report's blocks, in order |
| ReportPdf.GreedyKeepsReserves | script.js:391-405 | when every drawing follows the placement rule and the first is not part of a section, no heading sits below 260 and every text block ends by 280 or starts a fresh page at 20 |
| ReportPdf.ReportLayoutShape | script.js:381-415 | the reference layout starts with the title at 20 and the score line at 30 on page 1, is greedy and respects every check |
| ReportPdf.PlaceLines | script.js:398-401 | appends the drawing the rule gives; a new page at 20 exactly when `y + lines*5 > 280`; then `y` moves by `lines*5` |
| ReportPdf.PlaceHeading | script.js:391-394 | appends the drawing the rule gives; a new page at 20 exactly when `y > 260`; then `y` moves by 8 |
| ReportPdf.AddListItems | script.js:396-402 | the drawings grow by the greedy layout of one bulleted block per item, in order |
| ReportPdf.AddSection | script.js:390-410 | the drawings grow by the greedy layout of the heading and of one block per item or one joined block; `y` ends 5 below the last block |
| ReportPdf.DrawReportHead | script.js:381-388 | the title at 20 and the score line at 30, on page 1, as the greedy layout after the title; one page, `y` left at 45 |
| ReportPdf.AddReportSections | script.js:412-415 | the drawings grow by the greedy layout of the four sections in their fixed order and with their list flags |
| ReportPdf.FinishedReport | script.js:377-418 | a cursor holding the head followed by the greedy layout of the sections is the reference layout; page flow with page count = 1 + breaks |
| ReportPdf.ExportAnalysisToPdf | script.js:377-418 | nothing without an analysis; otherwise exactly the reference layout: every block once and in order, each where the placement rule puts it, page count = 1 + breaks, every check respected |
| Word.PointParagraphsShape | script.js:639-649 | one bullet paragraph per point, none of them a heading |
| Word.ItemParagraphsShape | script.js:616-649 | an item gives 1 + [subheader] + points paragraphs, exactly one of them HEADING_2 |
| Word.ItemsParagraphsShape | script.js:615-650 | the items give the sum of their sizes, one HEADING_2 each and no HEADING_1 |
| Word.SectionsParagraphsShape | script.js:604-651 | the sections give the sum of (1 + their items' sizes), one HEADING_1 each and one HEADING_2 per item |
| Word.ResumeParagraphsShape | script.js:580-651 | 3 + Σ(1 + Σ(1 + [subheader] + points)) paragraphs: one TITLE, one HEADING_1 per section, one HEADING_2 per item |
| Word.HeadShape | script.js:580-601 | the head has one TITLE and no HEADING_1 or HEADING_2 |
| Word.TitleFree | script.js:604-651 | the sections contribute no TITLE paragraph |
| Word.PushItem | script.js:616-649 | appends exactly the item's paragraphs |
| Word.ExportEnhancedResumeToWord | script.js:573-661 | nothing without a résumé; otherwise exactly the résumé's paragraphs in model order |
| Word.ListParagraphsLength | script.js:436-446 | one paragraph per list item |
| Word.ReportParagraphCount | script.js:460-476 | a report has 8 + gaps + suggestions paragraphs |
| Word.CreateSection | script.js:426-456 | a HEADING_2 title, then one bullet per item (in order) or one comma-joined paragraph |
| Word.ExportAnalysisToWord | script.js:420-484 | nothing without an analysis; otherwise title, score heading and the four sections in order |
| ExportsAgree.ResumeExportsAgree | script.js:486-661 | dropping the rules from the PDF's blocks gives exactly the Word résumé's paragraphs |
| ExportsAgree.ReportExportsAgree | script.js:377-484 | equal lengths, and the k-th Word paragraph reads exactly as the k-th PDF block |

## Left out

- The remote analysis call, its prompt, its response schema and the JSON parsing. These are network I/O; `Analyzer.ResumeAnalyzer.CompleteAnalysis` takes the call's outcome as a parameter.
- The chatbot. It is network I/O and DOM.
- All DOM rendering: the `display*` methods, the tabs, the error modal, and the classes that hide the spinner. These are UI only. The modal text is returned as a value.
- The `.txt` file upload through `FileReader`. It is asynchronous I/O; its effect on the state equals `InputResumeText`.
- The jsPDF and docx internals, fonts, colours, line widths, x positions and centring at `pageWidth / 2`. None of them affect `y` or the page count. Saving and downloading are left out too.
- In the résumé PDF, the bullet glyph and the point's lines are two `doc.text` calls at the same `y`. They are modelled as one `Point` block.
- Real A4 dimensions. These are floats in jsPDF; page width and height are integer parameters here.
- The mock analysis and the 2-second timer of `app/page.tsx`. `Customizer.CompleteAnalysis` takes any result.
- The fetch of `user.json`, the redirect and its timer in `login.js`. The user list is a parameter, and `None` stands for every failure of the fetch.
- `Text.ToUpper`: upper-cases ASCII letters only, because Unicode case mapping is not modelled.
- Banding.DisplayedScore: covers integer scores only, because the score is a JSON number and fractions are not modelled. A score of 0 and a missing score both show as 0, as in the source.
- A missing `points`, `items`, `contact` or `sections` field of the enhanced résumé. The source throws in that case, and the model's types always have the field.
- In the Word paragraphs, a spacing of 0 stands for a spacing the source does not set.
- Analysis.ScoreText: a score that is JSON `null` prints `null` in the template, and that case is not modelled; the score is either a present integer or absent (`undefined`).
- Keyword extraction and scoring. No such code exists; the score comes from outside.
