# Zzira: the offline replica, the document codec, ranking and bulk selection

A Dafny model of four parts of Zzira, and proofs of what they promise.

**The document codec** (`internal/adf`). `Adf` is the document model. `Storage` prints a document as
Confluence storage markup: functions of the document, and a `Builder` that methods write to as the
original does. `HtmlReader` (in `FromHtml.dfy`) reads markup back: functions of the markup that is
left, and a class `HtmlParser` whose methods move a position through the source and are proved to
compute those functions. `Closing` is the search for a close tag. `StorageNested` and `StorageTags`
prove that what is printed is well nested for every document, whatever its strings hold, and that its
tags are those of the document's structure, to which text adds none. `Settle` says, from the document alone,
what comes back from its markup, and `Gather` what becomes of inline content that stands among blocks: each
run of it, trimmed, is a paragraph in its place. `Reading`, `PanelParts`, `PanelTitles`, `OpenMarkup`, `PanelHeads`,
`GatherCuts`, `LooseReading`, `RoundTripInline`, `RoundTripLeaves` and `RoundTrip` prove it for every document of
paragraphs, headings, lists, quotes, panels, code blocks, task lists and rules, panels in panels and inline
content among the blocks included. `LooseText` tells the same of plain text from its markup alone, and
`Attributes` what each attribute is written and read as.
`ReadShape` proves that reading gives no other documents, and `Canonical` which of all documents come
back unchanged: those and only those it calls canonical.
`Calendar`, with `Decimals`, numbers the days of the Gregorian calendar, writes them and reads them; a date is printed as
its day and comes back as the moment that day begins with. `Losses` says what is lost behind a nested
panel and behind a break left open, and `CodeMacros` what becomes of code in a macro. `Normalize` is the
ingest normaliser.

**The offline replica** (`cmd/client`). `Actions` says what one action of the server's log does to the
tables and which issues it reports. `ReplaySpec` (in `Replay.dfy`) tells what a whole log leaves
without replaying it. `Bootstrap` shows that a snapshot stands for the log it was taken after.
`Worker` is the worker as a machine whose steps are the stretches of code between network waits, with
any server and any user; `Outbox`, `Protocol`, `Progress` and `Mirror` prove what holds in all its
runs, `Passes` and `CatchUp` what gets done in them when the server answers, and `LocalEdits` what a page's
messages store. `Store` and `Replica` are the tables and the worker as classes whose methods change fields in
place, each proved to do exactly what the machine does.

**Ranking** (`internal/agile`, `internal/lexorank`). `Ranking` is moves in a total order, one by one
and as a block. `IssueMoves` processes a request forwards or backwards and is proved to leave one
block. `Lexorank` finds a rank before, after or between others and says exactly when it finds one;
`SiteRank` finds it around a reference and shows that writing it is the move that `IssueMoves` builds on;
`RankedMoves` joins them: which issues of a request get a rank, and what order the ranks are left in.

**Bulk selection** (`internal/api3`). `BulkFields` counts fields and proves the count to be an
intersection; `BulkTransitions` narrows transitions workflow by workflow; `BulkCursors` pages back and
forth.

Where the code and its comments disagree, the model follows the code.

- The comment on `FromHTML` calls it the inverse of `ToHTML` for the structures the product produces.
  `ToHTML` is not part of this model; of `ToStorage` it is the inverse exactly on the canonical documents
  of `Canonical`. A panel whose first status shows text gains a title; what stands behind a
  panel inside another panel is lost, and nothing else of nested panels is; code gains a line end and
  has its references read twice, so `&lt;` in it comes back as `<`. A break left open, as the HTML form
  writes it, takes what stands before its matching close, or all that is left of its paragraph.
- The code of a macro is kept with its tags taken out, and a raw section, in which the storage format keeps
  such code, counts as a tag: the code in it is lost, as `CodeMacros` proves.
- The comments in `lexorank.go` call what `before` and `after` answer the largest rank below and the
  smallest above. Neither is: a rank always lies between. `Lexorank` proves among which ranks they are.
- `Mid` is to answer a rank between any two in order. It gives up on some with room between them, and
  `Lexorank` gives the exact condition, told from the letters of the bounds. Below a lowest rank such
  as `tX` one issue can be ranked, and then none directly between that one and `tX`.

## Model

| member | source | states |
|---|---|---|
| Storage.Render | internal/adf/adf.go:41-56 | writing to the builder produces the storage markup of the whole document |
| Storage.RenderNode | internal/adf/adf.go:64-252 | each node kind appends exactly its element, attributes escaped, children between the tags |
| Storage.RenderText | internal/adf/adf.go:260-293 | a text is escaped, then wrapped innermost first in link, code, strong and em as its marks say; the last usable link wins |
| Storage.RenderItems | internal/adf/adf.go:170-191 | the tasks of a list are written in order, one without an id named by its place |
| Escape.EscapeRoundTrip | internal/adf/fromhtml.go:357-376 | unescaping what was escaped gives the text back, for every string |
| Escape.EscapeIsInert | internal/adf/adf.go:260-293 | escaped text holds no bracket or quote, so it can neither open, close nor quote markup |
| Escape.EscapeTrim | internal/adf/fromhtml.go:151-163 | trimming escaped text and unescaping it trims the text itself |
| StorageTags.StorageIsWellNested | internal/adf/adf.go:38-293 | the storage markup of every document, unknown kinds and arbitrary strings included, is a well-nested run of tags |
| StorageTags.TagsOfStorage | internal/adf/adf.go:38-293 | the tags of every document's storage markup, in order, are those of its kinds, marks and escaped attributes |
| StorageTags.TextAddsNoTag | internal/adf/adf.go:260-293 | leaving all text out of a document leaves the tags of its markup as they are |
| Closing.FindClosing | internal/adf/fromhtml.go:116-148 | the scanning loop returns the position its specification names, or -1 |
| Closing.FindsMatchingClose | internal/adf/fromhtml.go:116-148 | behind any well-nested body the search finds the close that matches, past inner elements of the same name, of longer names and self-closing ones, in any letter case |
| HtmlReader.ParseHtml | internal/adf/fromhtml.go:15-34 | the parser reads every string to the document the specification gives it, an empty one to one paragraph |
| HtmlReader.HtmlParser.NextElement | internal/adf/fromhtml.go:72-103 | the next element, its inner markup and where it ends; each one found is not empty and lies within the source |
| HtmlReader.HtmlParser.Blocks | internal/adf/fromhtml.go:38-68 | the block loop gathers blocks and flushes loose text between them, and ends on every string |
| HtmlReader.BlockNode | internal/adf/fromhtml.go:184-225 | one block element read as its node, or none when the element is not modelled |
| HtmlReader.MacroNode | internal/adf/fromhtml.go:186-204 | a panel macro keeps its kind, its body and, as a bold line, its title; a code macro its text |
| HtmlReader.ListItems | internal/adf/fromhtml.go:265-286 | every item of a list, in order, one with nothing in it given a paragraph |
| HtmlReader.TaskItems | internal/adf/fromhtml.go:229-263 | every task of a task list, in order |
| HtmlReader.ReadTask | internal/adf/fromhtml.go:241-258 | a task takes its id and its content from its fields, the last of each, and is done when any status in it says so |
| HtmlReader.InlineNodes | internal/adf/fromhtml.go:288-355 | the inline loop reads all that is left, elements and text, and ends on every string |
| HtmlReader.InlineElementNodes | internal/adf/fromhtml.go:298-351 | what one inline element reads as: a break, a mention, a status, a date, marked children, or its children |
| HtmlReader.StripTags | internal/adf/fromhtml.go:380-394 | the text outside tags, unescaped |
| Calendar.DaysOfCivil | internal/adf/adf.go:211-229 | the day found for a number of days, before or after 1970 and in any year, is a day of the calendar with that number |
| Calendar.CivilOfDays | internal/adf/fromhtml.go:346-349 | every day of the calendar is found again by its number |
| Calendar.EpochIs | internal/adf/fromhtml.go:346-349 | the day that moments are counted from is the first of January 1970 |
| Calendar.ParseCivilText | internal/adf/fromhtml.go:346-349 | a written day is read back as itself if and only if its year has four digits and no sign; any other is refused |
| Calendar.TextOfParsed | internal/adf/fromhtml.go:346-349 | a day that is read, so one that exists in its month and year, is written as it stood |
| Calendar.MidnightOf | internal/adf/fromhtml.go:346-349 | the moment read from the day of a moment is that day's beginning, before 1970 too |
| RoundTripLeaves.ReadDate | internal/adf/fromhtml.go:346-349 | a printed date reads back as the beginning of its day, and as nothing when its year is not one of 0 to 9999 |
| RoundTripLeaves.DateReadPrints | internal/adf/fromhtml.go:346-349 | a date read from markup prints the day it was read from |
| RoundTripInline.ReadMarked | internal/adf/fromhtml.go:288-355 | a text printed with its marks reads back as that text with exactly those marks, inner ones first |
| RoundTripLeaves.InlineSettles | internal/adf/fromhtml.go:288-355 | all inline content, any sequence of texts, mentions, statuses, breaks, dates, emoji and media, reads back as its settled form |
| Gather.TrimmedPrints | internal/adf/fromhtml.go:41-48 | a run of inline content without the space at its ends prints what the run prints, trimmed, and nothing is left of it exactly when it shows nothing |
| Gather.FlushReads | internal/adf/fromhtml.go:41-48 | what a run prints, read loose, is one paragraph of the trimmed run's settled form, or nothing |
| LooseReading.InlineShift | internal/adf/fromhtml.go:49-64 | inline content among blocks, of any kind, is set aside as it is printed until a block follows or the markup ends |
| GatherCuts.TitleKept | internal/adf/fromhtml.go:151-163 | gathering a panel's inline content into paragraphs leaves the title it is given |
| GatherCuts.GatherCut | internal/adf/fromhtml.go:166-178 | gathering it and then cutting behind the first panel inside keeps the same blocks as cutting and then gathering |
| PanelTitles.TitleIs | internal/adf/fromhtml.go:151-163 | the title read for a panel is the text of the first status anywhere inside it, or none |
| OpenMarkup.NeverCloses | internal/adf/fromhtml.go:116-148 | in markup that closes only what it opened, whatever is still open at its end, no close of an element opened before it is found |
| OpenMarkup.OpenElement | internal/adf/fromhtml.go:72-103 | an element left open is read with all that is left |
| PanelHeads.PanelBodyIs | internal/adf/fromhtml.go:166-178 | the body read for a panel is the markup of its content up to the end of the first panel body inside it, and all of it when there is none |
| PanelHeads.HeadTitle | internal/adf/fromhtml.go:151-163 | a panel left open takes its title from the first status in what is kept of it |
| RoundTrip.HeadReads | internal/adf/fromhtml.go:38-68 | what a panel keeps of any content reads back as that content, cut behind the first panel inside it and gathered, settles |
| RoundTrip.CodeReads | internal/adf/fromhtml.go:217-218 | a printed code block reads back with its text, one line end for each piece, unescaped once more |
| RoundTrip.PanelReads | internal/adf/fromhtml.go:186-197 | a printed panel reads back as a panel of its settled kind, behind the title it is given, with what it keeps of its content |
| RoundTrip.BlockReads | internal/adf/fromhtml.go:38-68 | every printed block reads back as its settled form, behind a paragraph of what was loose before it, and what follows is read on its own |
| RoundTrip.MixedReads | internal/adf/fromhtml.go:38-68 | blocks with inline content among them read back as that content, every run of it gathered in a paragraph in its place, settles |
| RoundTrip.ItemsRead | internal/adf/fromhtml.go:265-286 | so do the items of a list, one that shows nothing as an empty paragraph |
| RoundTrip.ReadsGathered | internal/adf/fromhtml.go:11-34 | for every document of the shape with inline content among its blocks, in quotes, panels and list items too, reading its storage markup gives exactly the settled form of the document gathered |
| LooseText.TextReads | internal/adf/fromhtml.go:41-48 | any text read alone is one paragraph with the text trimmed, or an empty one when it is blank |
| LooseText.TextAroundReads | internal/adf/fromhtml.go:41-64 | text in front of any block and behind it is a paragraph there, when it is not blank |
| LooseText.TextInsideReads | internal/adf/fromhtml.go:265-286 | and so it is in a list item and in a quote |
| RoundTrip.ReadsSettled | internal/adf/fromhtml.go:11-34 | for every document of the shape, of any depth, panels in panels and code blocks included, reading its storage markup gives exactly its settled form |
| Canonical.MarksSettle | internal/adf/adf.go:260-293 | marks come back as they were if and only if they are link, code, strong, em in that order, each once, with a link that is kept |
| Canonical.DateSettles | internal/adf/fromhtml.go:346-349 | a date comes back unchanged if and only if its only attribute is the decimal of a moment that a day of the years 0 to 9999 begins with |
| Canonical.InlineKept | internal/adf/fromhtml.go:288-376 | inline content comes back unchanged if and only if it is canonical: no blank or adjacent plain texts, canonical marks, mentions, statuses and dates |
| Canonical.PanelLastIs | internal/adf/fromhtml.go:166-178 | nothing is cut off a panel's content if and only if nothing stands behind a panel in it |
| Canonical.KeptWhole | internal/adf/fromhtml.go:186-197 | a panel that comes back with the content it had was given no title and kept its content whole |
| ReadShape.ReadsBlocks | internal/adf/fromhtml.go:11-34 | whatever string is read, every block of the document is one that is modelled, with items in lists, tasks in task lists and inline content in paragraphs, at any depth, and there is at least one |
| Canonical.RoundTripsExactly | internal/adf/fromhtml.go:11-34 | a document, any at all, comes back from its storage markup unchanged if and only if it is canonical; for panels: no title taken from a status, and nothing behind a panel inside a panel |
| Canonical.ReadAgain | internal/adf/fromhtml.go:11-34 | what is read from any string, printed and read again, is its settled form |
| Attributes.PanelKinds | internal/adf/adf.go:411-426 | in any case and with any space around it, the kind of an info, note, warning or tip panel is drawn and comes back as itself; an error is drawn and comes back as a warning, a success as a tip, every other kind as a plain panel, custom |
| Attributes.StatusColours | internal/adf/adf.go:428-435 | a status is written and read back in its colour, in any case and with any space around it, and in grey when it is none of the six |
| Attributes.HeadingLevels | internal/adf/adf.go:70-78 | a heading whose level is a number from 1 to 6 is written with it, rounded down |
| Attributes.OtherHeadings | internal/adf/adf.go:70-78 | and every other is of the first level |
| Attributes.TasksTold | internal/adf/adf.go:176-202 | a task is written and comes back under its own id or its place, done exactly when its state says so |
| Attributes.EmojiTold | internal/adf/adf.go:231-240 | an emoji is written as its text, or its short name between colons |
| Attributes.AddressesKept | internal/adf/adf.go:295-309 | an address is dropped if it is empty, has space around it or a control character; one with a scheme is kept exactly for http, https and mailto, one that begins with a colon never, any other always |
| Attributes.LastLinkDecides | internal/adf/adf.go:264-277 | of several links on a text the last with an address decides |
| Attributes.TitlesAreBold | internal/adf/fromhtml.go:188-195 | a macro's title is read as a bold line of its own before the panel's body |
| Attributes.MarksAreRead | internal/adf/fromhtml.go:303-309 | strong and b, em and i, code, s and del, and u are read as the marks they stand for |
| Attributes.StrayTagsArePassed | internal/adf/fromhtml.go:86-93 | comments, declarations and stray close tags add nothing to what is read |
| Attributes.NamesInAnyCase | internal/adf/fromhtml.go:105-114 | a tag's name is what stands before space in it, in any letter case |
| Losses.NestedPanelForgets | internal/adf/fromhtml.go:166-178 | two panels whose contents agree up to the end of the first panel inside them, and in the first status, read the same |
| Losses.NestedPanelKept | internal/adf/fromhtml.go:166-178 | a panel whose first block is a panel comes back if and only if that is all it holds, its kind is one that is read, and the inner one is canonical |
| Losses.RuleIsLost | internal/adf/fromhtml.go:166-178 | a rule behind a panel in a panel: that document reads as the one without it, which does come back |
| Losses.OpenBreakReads | internal/adf/fromhtml.go:72-103 | for every rest: an unclosed break reads as a break, then what stands behind the close that the search finds for it, or nothing when it finds none |
| Losses.OpenBreakSwallows | internal/adf/fromhtml.go:72-103 | before well-nested markup it reads as a break alone |
| Losses.OpenBreakInParagraph | internal/adf/fromhtml.go:72-103 | in a paragraph the text before it is kept, well-nested markup behind it in the paragraph is lost, and what follows the paragraph is read on its own |
| CodeMacros.CodeMacroReads | internal/adf/fromhtml.go:197-199 | a code macro with escaped code is read as a code block of it, its references read twice |
| CodeMacros.SectionIsLost | internal/adf/fromhtml.go:197-199 | code without angle brackets in a raw section of a macro is lost: the code block is empty, so the code comes back if and only if it was blank |
| CodeMacros.RawLabel | internal/adf/fromhtml.go:323-332 | a mention's label in a raw section is the section's text |
| Normalize.NormalizeNode | internal/adf/adf.go:479-509 | a node becomes its normal form, and the change flag says whether anything was removed |
| Normalize.KeepMarks | internal/adf/adf.go:488-496 | the supported marks remain, in order, and the flag says whether one was dropped |
| Normalize.NormalizeAll | internal/adf/adf.go:479-509 | children are normalised in order, those with nothing left dropped |
| Normalize.CollectTextNodes | internal/adf/adf.go:512-521 | the texts of a subtree, in order, unmarked |
| Normalize.NormalIsClean | internal/adf/adf.go:460-509 | nothing unsupported, node or mark, is left anywhere in a normal form |
| Normalize.NormalTwice | internal/adf/adf.go:460-509 | normalising twice is normalising once |
| Normalize.NormalKeepsText | internal/adf/adf.go:361-370 | normalising keeps the plain text of every document with a supported root |
| Normalize.ChangedExactly | internal/adf/adf.go:479-509 | the change flag is up if and only if the normal form differs from the node |
| Normalize.UnsupportedBecomesText | internal/adf/adf.go:479-487 | an unsupported node becomes a paragraph of exactly its texts, unmarked and in order, and is dropped when it has none |
| Normalize.SupportedKeepsKind | internal/adf/adf.go:488-508 | a supported one keeps its kind, attributes, text and supported marks |
| Actions.ReplayConcat | cmd/client/main.go:503-524 | replaying two pages one after the other is replaying them joined |
| Actions.ReportsExactly | cmd/client/main.go:583-613 | every changed view is reported if and only if comments and attachments stay with their issue, deletes name the issue of the row they delete and no worklog leaves an unnamed issue |
| Actions.PageReports | cmd/client/main.go:502-532 | an issue that a whole page does not report looks the same before and after it |
| ReplaySpec.ReplayHolds | cmd/client/main.go:583-901 | a row of any of the ten tables is present, with a content, if and only if some action put that content under that key and no later one put the key again, deleted it or removed an issue it belongs to |
| ReplaySpec.GoneStaysGone | cmd/client/main.go:638-654 | once an issue is deleted or tombstoned, and along any log that never names it again, no row of any table refers to it |
| Bootstrap.SnapshotInstalls | cmd/client/main.go:130-221 | installing a snapshot into tables without issues, comments, attachments and worklogs gives those it was taken from |
| Bootstrap.BootstrapThenTail | cmd/client/main.go:130-221 | a snapshot of the log at a point, then what followed it, leaves what the whole log leaves |
| Outbox.Sending | cmd/client/main.go:992-1018 | sending the head keeps the sends, repeats struck out, a prefix of the commands in order |
| Outbox.HeadById | cmd/client/main.go:1024-1032 | since ids are never reused, what is deleted or refused by id is the head and only the head |
| Outbox.Accepting | cmd/client/main.go:1024-1027 | deleting an accepted head keeps accepted commands followed by the queue equal to those enqueued |
| Protocol.StepKeeps | cmd/client/main.go:73-115 | every step, with any answer of any server, keeps the protocol's invariant |
| Protocol.RunKeeps | cmd/client/main.go:73-115 | so it holds in every run |
| Progress.RunsAreSafe | cmd/client/main.go:992-1037 | in every run: one pass at most waits, and while the guard is held; accepted plus queued is enqueued, in order; sends without repeats are a prefix of it; only the head is refused and none is in flight while it is; checkpoint at most head |
| Progress.NothingSentWhileRefused | cmd/client/main.go:1003-1006 | from a refused head on, until a retry or a purge, nothing is sent and no queued command is lost or reordered |
| Progress.CheckpointNeverFalls | cmd/client/main.go:497-526 | until the replica is revoked its checkpoint never falls, whatever pages the server sends |
| Progress.RevocationEmpties | cmd/client/main.go:482-486 | an answer that revokes the replica leaves no row, command or checkpoint, and neither a send nor a second sync in flight |
| Progress.ReplyLowersRank | cmd/client/main.go:92-115 | every answer to a waiting pass brings maintenance nearer its end |
| Progress.MaintenanceEnds | cmd/client/main.go:92-115 | without new commands or requests, a run holds no more answers than the rank, which the queue's length bounds |
| Progress.RequestIsServed | cmd/client/main.go:73-90 | maintenance asked for during a pass starts none beside it, but by the time the worker is idle a full-drain pass has begun since |
| Mirror.EffectAgrees | cmd/client/main.go:583-901 | one action on the replica and on the authority keeps them agreeing, and ends the exception for the issue it settles |
| Mirror.EditAgrees | cmd/client/main.go:1128-1172 | an optimistic edit changes only the issue it marks as touched, or adds a local comment |
| Mirror.RunMirrors | cmd/client/main.go:465-534 | in every run with any server the replica holds what the actions it replayed say, but for touched issues and the user's own comments |
| Mirror.BetweenJoins | cmd/client/main.go:497-524 | pages of one log that follow one another join up |
| Mirror.ReplicaIsTheLog | cmd/client/main.go:465-534 | with a server that keeps to one log, in every run, untouched issues, shared comments, attachments and worklogs are the fold of the log up to the checkpoint, however it was cut, rolled back or bootstrapped |
| Mirror.EveryTableIsTheLog | cmd/client/main.go:465-534 | without a snapshot, every other table is too |
| Passes.PageIsApplied | cmd/client/main.go:497-534 | a page from the checkpoint whose numbers rise within its range and whose actions do not fail is replayed whole, and checkpoint and head are the page's |
| Passes.OtherAnswerKeeps | cmd/client/main.go:465-500 | any other answer to a sync that does not revoke changes nothing stored |
| Passes.FailedSyncEnds | cmd/client/main.go:97-99 | a pass whose first sync is not accepted sends nothing and is over |
| Passes.PassAsks | cmd/client/main.go:92-97 | maintenance asked for while idle and online asks for a page from the checkpoint, or first for a snapshot when the replica is fresh |
| Passes.OfflineAsksNothing | cmd/client/main.go:93-96 | offline it asks for nothing and ends |
| Passes.SnapshotIsApplied | cmd/client/main.go:130-221 | a snapshot of a log's tables leaves those tables in an empty replica, and its number as checkpoint and head |
| Passes.OtherSnapshotKeeps | cmd/client/main.go:140-160 | any other answer changes nothing stored |
| Passes.SnapshotThenPage | cmd/client/main.go:92-99 | whatever is answered to that, the page from the checkpoint is asked for next, and the queue is as it was |
| Passes.SyncThenSends | cmd/client/main.go:97-103 | after an accepted sync the head is sent if it is not refused and a request can be made of it; otherwise the pass ends |
| Passes.AcceptedThenSends | cmd/client/main.go:100-110 | an accepted head leaves the queue, and the next one is sent when all are to be |
| Passes.FullPassDrains | cmd/client/main.go:92-115 | a full pass answered well sends and removes, each once and in order, exactly the commands before the first that is refused or cannot be sent; the queue is empty when all can be, and the worker idle unless more was asked for |
| Passes.ShortPassSends | cmd/client/main.go:100-110 | any other pass sends and removes the head alone |
| Passes.SendEndsPass | cmd/client/main.go:1028-1036 | a send that is not accepted removes nothing and is the pass's last; it marks the head exactly when the status refuses it |
| CatchUp.CatchesUp | cmd/client/main.go:465-534 | in any run with such pages, each answered sync takes a replica that is behind at least one number further, and never past the head |
| CatchUp.ReplicaCatchesUp | cmd/client/main.go:465-534 | with a server that keeps to one log, after enough answered syncs the checkpoint is the log's head and the tables are the whole log's, every one of them when no snapshot was taken |
| Store.Rows.Apply | cmd/client/main.go:583-613 | the dispatch changes the tables as the action's effect says, reports its issues, and on failure changes nothing |
| Store.Rows.ApplyIssue | cmd/client/main.go:820-872 | an upsert replaces the row, a delete drops the issue and all that belongs to it |
| Store.Rows.ApplyComment | cmd/client/main.go:874-901 | an upsert stores a shared row, a delete without both ids fails |
| Store.Rows.ApplyAttachment | cmd/client/main.go:748-775 | an upsert replaces the row, a delete without both ids fails |
| Store.Rows.ApplyWorklog | cmd/client/main.go:777-818 | the start defaults to the creation, and the previous issue of a moved worklog is reported |
| Store.Rows.ApplyLink | cmd/client/main.go:615-634 | both ends of a link are reported |
| Store.Rows.ApplyTombstone | cmd/client/main.go:638-654 | an issue and every row of seven tables that refers to it are dropped |
| Store.Rows.ApplyBoard | cmd/client/main.go:656-687 | anything but an upsert deletes the board |
| Store.Rows.ApplySprint | cmd/client/main.go:689-701 | anything but an upsert deletes the sprint |
| Store.Rows.ApplySprintIssue | cmd/client/main.go:703-716 | membership is kept by sprint and issue |
| Store.Rows.ApplyWatcher | cmd/client/main.go:718-730 | watchers are kept by issue and user |
| Store.Rows.ApplyNotification | cmd/client/main.go:732-746 | anything but an upsert deletes the notification |
| Replica.Replica.MaintenanceCycle | cmd/client/main.go:73-90 | with a pass under way a request only sets the pending flag, otherwise a pass begins |
| Replica.Replica.MaintenancePass | cmd/client/main.go:92-104 | a pass ends at once when offline, asks for a snapshot when the replica is fresh, and otherwise syncs |
| Replica.Replica.ApplyPage | cmd/client/main.go:502-524 | the page loop succeeds exactly when the numbers rise within the page's range and no action fails, then leaves the replay of the page and gathers all it reports |
| Replica.Replica.Sync | cmd/client/main.go:465-534 | each kind of answer has its outcome; a page is applied as a whole with its checkpoint, or not at all |
| Replica.Replica.PurgePrivateReplica | cmd/client/main.go:536-542 | tables, outbox, checkpoint and head are emptied, the numbering of commands goes on |
| Replica.Replica.BootstrapIfEmpty | cmd/client/main.go:140-221 | a snapshot's rows are upserted in order and its number becomes checkpoint and head, or nothing happens |
| Replica.Replica.DrainOutbox | cmd/client/main.go:992-1018 | only an unrefused head is sent; otherwise draining is over |
| Replica.Replica.CommandAnswered | cmd/client/main.go:1024-1036 | an accepted head is deleted and draining may go on, a rejected one is marked, any other stays |
| Replica.Replica.Answered | cmd/client/main.go:92-115 | the waiting pass goes on as the machine does |
| Replica.Replica.EnqueueMessage | cmd/client/main.go:932-959 | a command and its local result are saved together, or neither is |
| Replica.Replica.ApplyOptimistic | cmd/client/main.go:1128-1172 | a comment is added, or the issue shown changes its status, its summary, or its description when the submitted text is not the one it shows |
| Worker.DescriptionEdited | cmd/client/main.go:1155-1170 | a form that submits a description as it was shown keeps the stored document with its structure; any other text is stored plainly and then shown but for line ends at its end; doing it twice changes nothing more |
| LocalEdits.CommandIsQueued | cmd/client/main.go:932-959 | a command is queued as given, unrefused, under an unused id, behind those before it, or nothing is stored when its comment's id is taken |
| LocalEdits.CommentIsShown | cmd/client/main.go:1135-1147 | a comment is shown under the issue in view as the user's own, and every other row stays |
| LocalEdits.StatusIsShown | cmd/client/main.go:1148-1152 | a transition shows the issue in view, and no other, in its new status by name and category |
| LocalEdits.EditIsShown | cmd/client/main.go:1153-1171 | an edit changes the summary of the issue in view unless it is empty, its description unless it is the one shown, and nothing else |
| LocalEdits.RetryClears | cmd/client/main.go:1067-1071 | a retry clears the refusal of the queue's first command and nothing else |
| LocalEdits.SeedIsStored | cmd/client/main.go:1072-1090 | an issue the replica lacks is stored as to be done, and one it has stays as it is |
| Replica.Replica.RetryRefused | cmd/client/main.go:1067-1071 | only the head of the queue is cleared for another try |
| Replica.Replica.SeedView | cmd/client/main.go:1072-1090 | an issue shown by the server is stored only when the replica has none |
| Replica.Replica.ShowView | cmd/client/main.go:1091-1093 | the issue shown is the one that edits then apply to |
| Replica.Replica.NetworkState | cmd/client/main.go:1098-1103 | the network flag is what later passes go by |
| Ranking.RankedAfterPlaces | internal/agile/software.go:624-697 | moves that follow one another after a reference leave one block in its place, each issue where it was moved last, repeats and the reference itself included |
| Ranking.RankedBeforePlaces | internal/agile/software.go:624-697 | the same for moves before a reference, made last first |
| Ranking.PlacedKeepsOthers | internal/agile/software.go:621-623 | issues outside the block keep their order, and none is lost or made |
| Ranking.PlacedStaysDistinct | internal/agile/software.go:621-623 | the result is a total order again |
| IssueMoves.OneReference | internal/agile/software.go:598-619 | in a request that is let through the two references joined are the one given, and there are 1 to 50 issues |
| IssueMoves.RejectedExactly | internal/agile/software.go:598-619 | a request is let through exactly when it has 1 to 50 issues, not two references, one where called for, and no field but the rank; otherwise the first of these it fails is why |
| IssueMoves.EntryExactly | internal/agile/software.go:640-682 | the entry's status, id, key and errors for each way an issue can fail, and 200 exactly when it succeeds |
| IssueMoves.Moves.Process | internal/agile/software.go:640-682 | one issue gets its one entry; if it succeeds it is moved next to the anchor and becomes it, otherwise nothing moves |
| IssueMoves.Moves.Forwards | internal/agile/software.go:687-691 | the forward loop leaves the chain of moves after, every entry and the failure flag |
| IssueMoves.Moves.Backwards | internal/agile/software.go:683-686 | the backward loop leaves the chain of moves before, every entry and the failure flag |
| IssueMoves.ApplyIssueMoves | internal/agile/software.go:624-697 | for any request: the block stands in the reference's place, no issue is ever in the order twice, one entry for each issue of the request, no content exactly when none failed, and an unknown reference changes nothing |
| IssueMoves.RequestOrderBlock | internal/agile/software.go:621-697 | for distinct issues without the reference, those that can be moved form one contiguous block in request order directly before or after it |
| IssueMoves.EachOnItsOwn | internal/agile/software.go:640-682 | and each fails or succeeds on its own account |
| Lexorank.Mid | internal/lexorank/lexorank.go:30-42 | the dispatch on empty bounds; bounds out of order are refused |
| Lexorank.MidExactly | internal/lexorank/lexorank.go:30-42 | a rank is found if and only if: no upper bound is given, or the lower is missing and the upper not of the lowest letter alone, or the two are in order and a letter fits between before the upper one falls |
| Lexorank.MidIsWithin | internal/lexorank/lexorank.go:30-42 | what is found lies strictly within the bounds |
| Lexorank.Between | internal/lexorank/lexorank.go:84-112 | the digit loop gives the lower bound's letters up to the first place where a letter fits, and the middle one there |
| Lexorank.BetweenExactly | internal/lexorank/lexorank.go:84-112 | it finds a rank if and only if somewhere a letter fits between the padded bounds and before that the upper one's letter never falls below the lower one's; the limit on its length never matters |
| Lexorank.BetweenIsWithin | internal/lexorank/lexorank.go:84-112 | what it finds is strictly between the two, in byte order |
| Lexorank.RoomBetween | internal/lexorank/lexorank.go:28-29 | between two ranks in order lies another unless the upper is the lower and one lowest letter |
| Lexorank.MidGivesUp | internal/lexorank/lexorank.go:84-112 | between az and bA none is found although azN lies there |
| Lexorank.BeforeLeavesNoGap | internal/lexorank/lexorank.go:45-67 | below a rank whose first letter above the lowest is followed by another but the highest, the rank found leaves none to be found between the two, though one lies there |
| Lexorank.RefusedAtOnce | internal/lexorank/lexorank.go:45-67 | before tX the rank sz is found, and between sz and tX none |
| Lexorank.BeforeExactly | internal/lexorank/lexorank.go:45-67 | none is found below a rank if and only if it is of the lowest letter alone |
| Lexorank.BeforeIsBelow | internal/lexorank/lexorank.go:45-67 | the answer, when there is one, is a rank below |
| Lexorank.RoomBelow | internal/lexorank/lexorank.go:44-45 | a rank lies below every rank but the lowest letter |
| Lexorank.BeforeIsNotLargest | internal/lexorank/lexorank.go:44-45 | the answer is never the largest rank below: with the highest letter added it is still below |
| Lexorank.BeforeIsLargestOf | internal/lexorank/lexorank.go:45-67 | it is the largest of those no longer than itself that do not begin as the bound does up to its first letter above the lowest |
| Lexorank.After | internal/lexorank/lexorank.go:70-82 | the loop raises the last letter that can be raised, or adds one |
| Lexorank.AfterIsAbove | internal/lexorank/lexorank.go:69-82 | the answer is above, and never the smallest: the bound with the lowest letter added lies between |
| Lexorank.AfterIsSmallestOf | internal/lexorank/lexorank.go:70-82 | it is the smallest rank above that does not begin with the bound itself |
| SiteRank.RankAround | internal/store/jira_software.go:215-247 | the rank lies between the reference and all the other issues on the asked side of it; there is none if and only if the reference has no rank or none is found between it and its nearest neighbour there |
| SiteRank.BoundsAreUnique | internal/store/jira_software.go:228-245 | there is one highest rank below the reference and one lowest above |
| SiteRank.RankBeforeMoves | internal/store/jira_software.go:213-247 | where ranks differ, writing that rank turns the order into the one with the issue directly before the reference |
| SiteRank.RankAfterMoves | internal/store/jira_software.go:213-247 | and likewise directly after |
| RankedMoves.EntryTells | internal/agile/software.go:660-677 | an issue whose turn comes to be ranked gets entry 200 if and only if a rank is found between the reference and its nearest neighbour then, and else 500 |
| RankedMoves.RequestRanks | internal/agile/software.go:624-697 | with ranks that differ: when a whole request is done, the ranks put the issues in exactly the order that the moves of the request leave |
| RankedMoves.NextIsRefused | internal/agile/software.go:660-677 | before a lowest issue whose rank is such as tX one issue is ranked, and the next to be put between the two fails with 500 and leaves the ranks as they were |
| BulkFields.BulkEditableSources | internal/api3/api3_bulk_issues.go:580-592 | time tracking is replaced by its two estimates, in place |
| BulkFields.EditableByKind | internal/api3/api3_bulk_issues.go:692-739 | the type offered for each kind of field |
| BulkFields.FieldIsDescribed | internal/api3/api3_bulk_issues.go:640-651 | a field is offered with its name, description and type, a search when it is an assignee, several values when it is components, labels or versions |
| BulkFields.OptionsShown | internal/api3/api3_bulk_issues.go:658-660 | every option of a candidate is one that a source lists, shown as a person, a priority or plainly by that source's kind |
| BulkFields.CandidatesTell | internal/api3/api3_bulk_issues.go:618-664 | after any sources a candidate tells how often its field was seen, whether any required it, and all their options |
| BulkFields.CountIsIntersection | internal/api3/api3_bulk_issues.go:666-671 | where each form lists its fields once, a field is counted as often as there are forms exactly when every form has it |
| BulkFields.CountsRightExactly | internal/api3/api3_bulk_issues.go:666-671 | the count gives the intersection for every selection out of a pool of forms if and only if each form of the pool lists its fields once |
| BulkFields.ListedTwiceMisleads | internal/api3/api3_bulk_issues.go:666-671 | for an offer made by that count: a field that a form lists twice is withheld when that form is the only one selected, and offered beside a form that lacks it |
| BulkFields.CommonBulkEditableFields | internal/api3/api3_bulk_issues.go:594-690 | a field is offered exactly when it is counted as often as there are selected pairs of project and work type, each gone through once, so where forms list fields once exactly when every selected form has it with a bulk type; it is required exactly when some form requires it, has all their options, the name, description and type some form gives it, and a search over exactly the selected projects when it is an assignee; the fields come by name, then id |
| BulkFields.SortByName | internal/api3/api3_bulk_issues.go:682-689 | the answer holds each offered field once, by name without regard to case, then by id |
| BulkTransitions.AvailableOf | internal/api3/api3_bulk_issues.go:84-94 | the transitions without a screen, by id |
| BulkTransitions.ShownByBean | internal/api3/api3_bulk_issues.go:84-94 | with the name and the target of the last answer that offers it |
| BulkTransitions.GroupsTell | internal/api3/api3_bulk_issues.go:72-111 | a workflow's group lists its issues in order and offers exactly the transitions available without a screen on every one of them |
| BulkTransitions.OrderDoesNotMatter | internal/api3/api3_bulk_issues.go:72-111 | the same transitions are offered whatever order the issues arrive in |
| BulkTransitions.BulkAvailableTransitions | internal/api3/api3_bulk_issues.go:55-111 | the loop builds those groups, and stops at the first issue that cannot be read |
| Decimals.AtoiOfItoa | internal/api3/api3_bulk_issues.go:764-782 | an offset written in decimal is read back |
| BulkCursors.IssuedDecodes | internal/api3/api3_bulk_issues.go:764-782 | an issued cursor decodes to its offset under its own query and is refused under any other |
| BulkCursors.DecodedWasIssued | internal/api3/api3_bulk_issues.go:768-782 | whatever decodes carries the query it is used under |
| BulkCursors.NoCursorStartsAtFirst | internal/api3/api3_bulk_issues.go:784-810 | without a cursor a page begins at the first item, with two of them nowhere, and always within the items |
| BulkCursors.NextPage | internal/api3/api3_bulk_issues.go:784-810 | the cursor onwards leads to where the page ends, and there is none on the last page |
| BulkCursors.PreviousPage | internal/api3/api3_bulk_issues.go:784-810 | the cursor back leads fifty items back, or to the start |
| BulkCursors.PagesCover | internal/api3/api3_bulk_issues.go:510-517 | following the cursors from the first page visits every item once, in order, and stops |
| BulkCursors.BackAndForth | internal/api3/api3_bulk_issues.go:510-517 | going back from any page so reached returns to the start of the one before it |

## Left out

Codec:

- RoundTrip.ReadsGathered: speaks of paragraphs, headings, lists, quotes, panels, code blocks, task lists and rules, and of inline content, media as such, in and among them; of documents with tables or unknown kinds it is only said that they do not come back unchanged.
- The HTML form (`ToHTML`) is not modelled.
- Underline and strike are read as marks and never printed in storage, so they are among the marks that do not come back.
- A timestamp that is a number is a real number cut toward zero; what becomes of one beyond 64 bits is the platform's.
- HtmlReader.StripTags: unescaping knows the five references that escaping writes, here and wherever text is read.
- RoundTrip.CodeReads: likewise, and since code is unescaped twice, RoundTrip.ReadsGathered too: other references in the text of code, such as `&copy;`, are turned into characters by the library and kept by the model.
- Escape.EscapeRoundTrip: unescaping knows the five references that escaping writes; the others of HTML are not part of this model.
- Attributes.AddressesKept: an address is judged by white space, control characters and its scheme; the rest of URL parsing is not part of this model.
- Text is ASCII: folding to lower case and white space beyond ASCII, which can change byte offsets, are not modelled.
- JSON decoding, the `version` of nodes, attributes the codec never reads, and the account list of mentions.

Replica:

- SQL is modelled by maps, a transaction by saving and restoring, network waits by the events that answer them; a panic that the worker reports is not modelled.
- A request that a message handler starts in a goroutine is its own event, so it may be interleaved anywhere after the message.
- JSON payloads arrive decoded or as undecodable; payload columns that no rule looks at are one opaque string.
- The stored `actions` history table, the posts to the page and the drawing of views; which issues would be drawn is modelled.
- Replica.Replica.ApplyOptimistic: the form arrives decoded, with the id a comment is to have and the status a transition leads to.
- Reopening the worker on stored tables: a run starts from an empty replica.
- The server's numbers are natural, and its log in Mirror.ReplicaIsTheLog is given as a whole, of which each answer shows a part.
- Mirror.ReplicaIsTheLog: says nothing of boards, sprints, watchers and links after a snapshot, since a snapshot brings none; Mirror.EveryTableIsTheLog covers them without one.
- Local comments are never removed by a sync, so the user's own comment stays beside the server's copy of it; the model keeps that.

Ranking:

- Permissions, visibility and moves between sprints are given per issue, as what the repository answers when that issue is processed.
- Lexorank.BeforeIsNotLargest: the largest rank below and the smallest above, which the comments promise, are not what is computed; what is stated instead is among which ranks the answers are largest and smallest.
- SiteRank.RankBeforeMoves: needs ranks that differ; issues that share the default rank have no order among themselves to move in. Ranks are compared byte by byte, which the database's collation has to do as well.
- Identifiers in the store are not empty.

Bulk selection:

- Permissions, the reporter's own contract, searching and the JSON of the answer.
- BulkFields.CommonBulkEditableFields: a field's options are a map, so their order by key is left out. The order of forms decides which form's name and description are shown; the model lets it be any order. Which fields a project's form has is given.
- An option is identified by the pair of its id and name, where the original joins them with a zero byte.
- Base64 and the hash in the query's fingerprint: a cursor is the text before encoding, and the fingerprint a string without a colon.
