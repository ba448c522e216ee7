# Kanban task board — a Dafny model of its core

This project models the client-side core of a Kanban task application.
- **Board transition.** A card moves between six columns (`todo`, `in_progress`, `review`, `blocked`, `rejected`, `completed`). The move clears or stamps the card's reviewer, blocker and close-time fields on the way.
- **Notification factory.** `createNotification` builds the record that the board controller emits for a move. The controller itself is not part of this model.
- **Status labels and colours.** The board shows a label and a colour per column.
- **New/edit task form.** It normalises the submitted payload and decides which assignees each row may pick.
- **Assignee filter.** It summarises which assignees are selected.
- **Task details modal.** It resolves every label from overrides, the fetched task and fallbacks.
- **Profile settings page.** It derives initials, name parts, profile completion and a dirty flag. Its save handler commits the username and photo and chooses the toast message.

Files, one module each:
- `wrappers.dfy`: `Option`.
- `text.dfy`: the JavaScript string operations used:
  - `trim` over the exact ECMAScript whitespace set;
  - `split(/\s+/)`, `charAt(0)`, upper/lower case;
  - decimal rendering of numbers.
- `tasks.dfy`: the column enumeration, the task record and the board.
- `task_board.dfy`: `moveTaskInBoard`. It is an imperative method over sequences, proved equal to the specification function `Move`; the properties of `Move` are proved as lemmas.
- `task_status.dfy`: column labels and colour classes.
- `notifications.dfy`: `createNotification` and the unread count.
- `directory.dfy`: directory entries and `find`.
- `task_form.dfy`: the new/edit task form.
- `assignee_filter.dfy`: the assignee filter.
- `task_details.dfy`: the details modal labels.
- `settings.dfy`: the settings page. Its pure derivations are functions. Its form state is a class, `ProfileSettings`, whose methods update the fields the page's state setters update.

## Model

| member | source | states |
|---|---|---|
| Text.Trim | src/utils/notifications.ts:10 | `trim()` keeps no whitespace at either end, never grows the string, and yields "" exactly when the input is all whitespace |
| Text.TrimIdempotent | src/app/settings/page.tsx:98-100 | trimming a trimmed string changes nothing, which is what makes comparing trimmed usernames stable |
| Text.InitialOf | src/utils/notifications.ts:10 | `trim().charAt(0).toUpperCase()` is at most one character, empty exactly for a blank string, else the upper-cased first non-blank character |
| Text.Words | src/app/settings/page.tsx:75-77 | every token `split(/\s+/)` keeps after dropping empty ones is a non-empty run without whitespace |
| Text.WordsOfBlankPrefix | src/app/settings/page.tsx:75-77 | leading whitespace of any kind and length produces no token |
| Text.WordsOfWordThenGap | src/app/settings/page.tsx:75-77 | a word followed by any non-empty run of whitespace is the first token, and splitting resumes after the run |
| Text.TrimOfPadded | src/app/settings/page.tsx:75-76 | `trim()` removes exactly the whitespace around a string whose ends are not whitespace |
| Text.WordsOfJoin | src/app/settings/page.tsx:75-77 | splitting words joined by arbitrary non-empty whitespace runs (spaces, tabs, newlines, repeated) gives back exactly those words |
| Text.Decimal | src/utils/notifications.ts:13 | `${n}` for a non-negative integer is a non-empty string of digits without a leading zero, one digit exactly below 10 |
| Text.ParseDecimalOfDecimal | src/utils/notifications.ts:13 | the decimal rendering reads back as the same number |
| Text.DecimalInjective | src/utils/notifications.ts:13 | distinct numbers render as distinct strings |
| Tasks.ColumnKey | src/utils/task-status.ts:4-11 | every column has a key that parses back to that column |
| Tasks.Board.WithColumn | src/utils/task-board.ts:49-53 | `{ ...state, [c]: list }` sets column `c` to `list` and leaves every other column unchanged |
| Tasks.BoardIdBagWithColumn | src/utils/task-board.ts:49-53 | replacing one column exchanges that column's ids for the new list's ids in the board's id multiset |
| Tasks.UniquePosition | src/utils/task-board.ts:7 | on a board with distinct ids, an id sits at one position of a column at most |
| TaskBoard.FirstIndexOf | src/utils/task-board.ts:7 | `findIndex`: -1 exactly when no card has the id, else the first position holding it |
| TaskBoard.FindTaskIndex | src/utils/task-board.ts:7 | the scan returns the first index holding the id, or -1 |
| TaskBoard.Clamp | src/utils/task-board.ts:46 | the insertion index is `toIndex` inside `[0, len]`, 0 below it and `len` above it |
| TaskBoard.RemoveAt | src/utils/task-board.ts:10 | `splice(i, 1)` shortens the list by one and removes exactly that card's id |
| TaskBoard.InsertAt | src/utils/task-board.ts:47 | `splice(k, 0, t)` puts `t` at `k`, and removing it again restores the list |
| TaskBoard.MovedTask | src/utils/task-board.ts:12-42 | leaving review for a column other than review/completed clears the reviewer; entering completed stamps `closedAt` unless it is set (truthy); leaving completed clears a set `closedAt` and keeps an empty or absent one as it was; leaving blocked clears the blocker; all other fields are kept |
| TaskBoard.Move | src/utils/task-board.ts:3-54 | a missing id returns the board unchanged, and columns other than source and target are untouched |
| TaskBoard.MoveTaskInBoard | src/utils/task-board.ts:3-54 | the copy/find/splice/rewrite/clamped-splice procedure computes exactly `Move` |
| TaskBoard.MovePreservesIds | src/utils/task-board.ts:10-53 | a move neither loses nor duplicates cards: the id multiset and the card count are unchanged |
| TaskBoard.MovePreservesDistinctIds | src/utils/task-board.ts:3-54 | distinct ids stay distinct after a move |
| TaskBoard.MovePlacement | src/utils/task-board.ts:44-53 | the card lands at the clamped index of the target list, which is the source list after removal when the move stays in one column; the other cards keep their order, and the source loses only that card |
| TaskBoard.MoveInPlace | src/utils/task-board.ts:3-54 | moving a card to its own position is the identity, except that a completed card without a close time is stamped |
| TaskBoard.MoveAgainIsNoOp | src/utils/task-board.ts:3-54 | repeating a finished move onto the card's new position changes nothing |
| TaskBoard.ReopenThenCompleteRestamps | src/utils/task-board.ts:22-34 | moving out of completed and back in stamps the new close time |
| TaskStatus.StatusLabel | src/utils/task-status.ts:3-13 | every column has a non-empty label |
| TaskStatus.StatusLabelTable | src/utils/task-status.ts:4-11 | the label of each of the six columns |
| TaskStatus.StatusLabelsDistinct | src/utils/task-status.ts:4-11 | no two columns share a label |
| TaskStatus.StatusColorClass | src/utils/task-status.ts:15-31 | the green class of the `default` branch is drawn for `completed` and for no other column |
| TaskStatus.StatusColorClassTable | src/utils/task-status.ts:15-31 | the colour class of each of the six columns |
| TaskStatus.StatusColorClassesDistinct | src/utils/task-status.ts:15-31 | the six columns get six different colours |
| TaskStatus.OnlyCompletedReachesDefault | src/utils/task-status.ts:27-29 | among the columns, only `completed` falls through to the `default` branch |
| Notifications.NotificationId | src/utils/notifications.ts:13 | ids start with `notification-` |
| Notifications.NotificationIdInjective | src/utils/notifications.ts:13 | different clock or random readings give different ids |
| Notifications.CreateNotification | src/utils/notifications.ts:3-23 | the record copies the name, title, statuses and reviewer; it is unread; the initial is that of the trimmed name; the id and timestamp come from the clock |
| Notifications.UnreadCount | src/components/tasks/notifications-dropdown.tsx:44 | at most the number of notifications; zero exactly when all are read; all of them exactly when none is read |
| Notifications.UnreadCountAppend | src/components/tasks/notifications-dropdown.tsx:44 | unread counts add over concatenation |
| Notifications.FreshNotificationIsUnread | src/components/tasks/notifications-dropdown.tsx:44 | adding a new notification anywhere raises the unread count by one |
| Directory.IndexOfAssignee | src/components/tasks/assignee-filter.tsx:43-45 | first directory position with the id, or -1 when there is none |
| Directory.FindAssignee | src/components/tasks/assignee-filter.tsx:43-45 | `find` returns the first entry with the id, and nothing for an absent id |
| TaskForm.TrimAll | src/components/tasks/new-task-modal.tsx:103-104 | `map(v => v.trim())` trims row by row into a new list |
| TaskForm.NonEmpty | src/components/tasks/new-task-modal.tsx:105 | `filter(Boolean)` keeps exactly the non-empty strings |
| TaskForm.CleanAssigneeIds | src/components/tasks/new-task-modal.tsx:103-105 | the cleaned list holds exactly the non-empty trims of the rows, each of them clean |
| TaskForm.CleanAssigneeIdsAppend | src/components/tasks/new-task-modal.tsx:103-105 | cleaning works row by row and keeps the row order |
| TaskForm.CleanAssigneeIdsOfClean | src/components/tasks/new-task-modal.tsx:103-105 | already clean ids pass through unchanged |
| TaskForm.FallbackAssignees | src/components/tasks/new-task-modal.tsx:107-112 | exactly one id: the first directory entry's, or "" for an empty directory |
| TaskForm.SubmitTask | src/components/tasks/new-task-modal.tsx:98-124 | no payload exactly when the title is blank; otherwise the payload has the trimmed title, the cleaned assignees or the fallback, `assigneeId` equal to the first of them, and the priority chosen, else initial, else medium |
| TaskForm.InitialAssignees | src/components/tasks/new-task-modal.tsx:66-77 | an edit starts from the stored list, else the single stored id, else the first directory entry, else one empty row |
| TaskForm.EditKeepsAssignees | src/components/tasks/new-task-modal.tsx:66-124 | saving an edit without touching the rows submits exactly the rows it started from, given clean stored ids |
| TaskForm.OtherRowIds | src/components/tasks/new-task-modal.tsx:226-228 | the non-empty ids of all rows except the current one |
| TaskForm.OfferedEntries | src/components/tasks/new-task-modal.tsx:229-233 | an entry is offered when no other row holds it or the row itself does |
| TaskForm.OfferedEntriesAppend | src/components/tasks/new-task-modal.tsx:229-233 | filtering works entry by entry, so the options keep the directory order |
| TaskForm.AvailableAssignees | src/components/tasks/new-task-modal.tsx:225-233 | row `index` offers exactly the directory entries no other row chose, plus its own |
| Settings.AuthorInitial | src/app/settings/page.tsx:73 | the initial of the display name, else of the email, else "U" |
| Settings.SplitName | src/app/settings/page.tsx:75-77 | first and last name are whitespace-free words (or absent), and a last name implies a first name |
| Settings.SplitNameOfJoin | src/app/settings/page.tsx:75-77 | a display name of words separated by any whitespace runs, with any surrounding whitespace, splits into its first two words |
| Settings.WordInitials | src/app/settings/page.tsx:83-87 | at most two initials; for non-empty words, one per word, each the upper-cased first character of its word |
| Settings.NameInitials | src/app/settings/page.tsx:79-88 | with both names present, the two raw first letters |
| Settings.NameInitialsForms | src/app/settings/page.tsx:79-88 | with one word, its upper-cased initial; with none, the author initial |
| Settings.FilledProfileFields | src/app/settings/page.tsx:90-96 | at most five fields, and all five exactly when each is filled |
| Settings.ProfileCompletion | src/app/settings/page.tsx:166-168 | the rounded percentage is 20 per filled field, at most 100 |
| Settings.IsDirty | src/app/settings/page.tsx:98-100 | an untouched form is clean, a changed photo is always dirty, and with equal trimmed usernames the photo alone decides, so whitespace-only username edits are not changes |
| Settings.SavedIsClean | src/app/settings/page.tsx:98-100 | committing the trimmed username and the previewed photo leaves the page not dirty |
| Settings.PasswordsMatch | src/app/settings/page.tsx:102-103 | the passwords match exactly when they are equal and non-empty |
| Settings.ChangedFields | src/app/settings/page.tsx:110-118 | "Username" is listed exactly when the username changed and "Profile photo" exactly when the photo changed, username first; the length is the number of changes |
| Settings.SaveToastMessage | src/app/settings/page.tsx:151-157 | no change keeps the current text; one change names that field; several give the generic profile text |
| Settings.SaveToastMessageCases | src/app/settings/page.tsx:111-117 | one changed field names it, two give the generic text, none keeps the old text |
| Settings.ChangedFieldsIffDirty | src/app/settings/page.tsx:98-117 | a save reports a change exactly when the page was dirty |
| Settings.ProfileSettings.constructor | src/app/settings/page.tsx:29-60 | the mount effect loads a truthy stored photo and the stored username; the page starts clean |
| Settings.ProfileSettings.EditUsername | src/app/settings/page.tsx:380 | typing sets the username |
| Settings.ProfileSettings.PreviewProfileImage | src/app/settings/page.tsx:212-224 | only a non-empty read result replaces the preview |
| Settings.ProfileSettings.RemoveProfileImage | src/app/settings/page.tsx:226-228 | the preview is cleared |
| Settings.ProfileSettings.SubmitProfileForm | src/app/settings/page.tsx:333-337 | the confirmation opens only when the page is dirty |
| Settings.ProfileSettings.HandleSave | src/app/settings/page.tsx:105-165 | commits the trimmed username and the preview photo, leaves the page clean, shows the toast with the message `SaveToastMessage` picks for the changed fields |
| Settings.ProfileSettings.ConfirmSave | src/app/settings/page.tsx:550-553 | saving through the dialog commits the trimmed username and the preview photo, sets the toast text `SaveToastMessage` picks for the changed fields, closes the dialog and leaves the page clean |
| AssigneeFilter.SelectedAssignee | src/components/tasks/assignee-filter.tsx:43-45 | the entry matching the first selected id, nothing for an empty filter |
| AssigneeFilter.ButtonLabel | src/components/tasks/assignee-filter.tsx:59-65 | "All assignees" for no selection; for one id, the name of a directory entry with that id, else "Assignee"; for several, text starting with a non-zero digit |
| AssigneeFilter.BadgeInitial | src/components/tasks/assignee-filter.tsx:55-57 | the badge is at most one letter |
| AssigneeFilter.EmptyFilterLabel | src/components/tasks/assignee-filter.tsx:55-61 | with no selection the button reads "All assignees" with badge "A" |
| AssigneeFilter.SingleFilterLabel | src/components/tasks/assignee-filter.tsx:62-63 | one id shows the first matching name, or "Assignee" exactly when no entry has the id |
| AssigneeFilter.CountLabel | src/components/tasks/assignee-filter.tsx:64 | several ids show "<n> assignees", and the leading number reads back as n |
| AssigneeFilter.BadgeCases | src/components/tasks/assignee-filter.tsx:55-57 | the badge is the selected name's initial only for one found id, else "A"; it is empty exactly for a blank found name |
| AssigneeFilter.BadgeMatchesLabel | src/components/tasks/assignee-filter.tsx:55-63 | with one found id, the badge is the initial of the label |
| AssigneeFilter.FilterRows | src/components/tasks/assignee-filter.tsx:79-97 | one row per directory entry, checked exactly when its id is selected, with the entry's initial |
| AssigneeFilter.SingleFilterCheckedRow | src/components/tasks/assignee-filter.tsx:43-81 | with one found id, the first checked drop-down row is the entry whose name the button shows |
| TaskDetails.Coalesce | src/components/tasks/task-details-modal.tsx:41-45 | `a ?? b ?? fallback`: an absent value, not an empty one, falls through |
| TaskDetails.DetailsStatusLabel | src/components/tasks/task-details-modal.tsx:69-76 | the four mapped statuses get a capitalised label different from the key; any other status is shown as is |
| TaskDetails.Capitalize | src/components/tasks/task-details-modal.tsx:78-79 | the first character upper-cased, the rest lower-cased, same length |
| TaskDetails.CapitalizeIdempotent | src/components/tasks/task-details-modal.tsx:78-79 | capitalising a capitalised label changes nothing |
| TaskDetails.AssigneeList | src/components/tasks/task-details-modal.tsx:106-111 | the non-empty override, else the assignee label unless it is "Not specified", else nothing |
| TaskDetails.AssigneeListNonEmpty | src/components/tasks/task-details-modal.tsx:106-111 | the list is empty exactly when there is no override and no real assignee |
| TaskDetails.TaskDetailsView | src/components/tasks/task-details-modal.tsx:39-197 | nothing renders exactly when the modal is closed or the task id is null or empty; the details section is drawn exactly when a task was fetched or the title override is non-empty |
| TaskDetails.FallbackView | src/components/tasks/task-details-modal.tsx:41-197 | with nothing known the modal computes "Task", the default description, "Medium", "To do", "Not specified" with initial "N", no reviewer and no assignees; the details section is gated off, so no task field besides the heading "Task" is drawn |
| TaskDetails.DetailsStatusLabelTable | src/components/tasks/task-details-modal.tsx:69-76 | the labels "To do", "In progress", "Review" and "Completed" of the four mapped statuses |
| TaskDetails.DerivedLabels | src/components/tasks/task-details-modal.tsx:76-111 | the shown status label is the map applied to the resolved status, and the assignee list is derived from the override list and the resolved assignee label |
| TaskDetails.OverridesWin | src/components/tasks/task-details-modal.tsx:41-87 | in all seven label chains (title, description, priority, status, created-by, assignee, reviewer) a given override, even an empty one, is what is shown |
| TaskDetails.FetchedThenFallback | src/components/tasks/task-details-modal.tsx:41-87 | without an override, each of the seven chains shows the fetched task's value when present, else its fallback ("Task", the default sentence, "Medium", "todo", "Not specified") |
| TaskDetails.InitialsFollowLabels | src/components/tasks/task-details-modal.tsx:89-101 | each avatar initial is the initial of its label |
| TaskDetails.ReviewerAndApproval | src/components/tasks/task-details-modal.tsx:103-104 | a reviewer is shown exactly when the label is not the placeholder; approval exactly when there is a reviewer and the status is completed |
| TaskDetails.StatusLabelAgainstBoard | src/components/tasks/task-details-modal.tsx:67-76 | blocked and rejected tasks show their raw key; only review and completed match the board's column labels |

Points where the code behaves in a way a reader might not expect, which the model follows:
- **`closedAt`.** The code clears it on leaving `completed` only when it is truthy, so an empty `closedAt` survives the move. The model does the same.
- **Assignee fallback.** When no assignee row holds an id, the form falls back to the first directory entry, else to one empty id.
- **Columns.** The shared column type lists four columns, but the transition and the labels use six. The model uses six.

## Left out

- Text.UpperChar: upper-casing is modelled for ASCII letters only; `toUpperCase` on other scripts is not modelled.
- Text.LowerChar: lower-casing is modelled for ASCII letters only, for the same reason.
- Text.CharAt0: strings are sequences of Unicode scalar values. JavaScript's `charAt(0)` and `s[0]` return one UTF-16 code unit, so for a name starting with a character outside the Basic Multilingual Plane (an emoji, say) the client draws a lone surrogate while the model yields the whole character. UTF-16 code-unit indexing is not modelled; this affects every initial (`InitialOf`, `NameInitials`).
- Notifications.NotificationId: `Math.random()` appears as the text of the number it produced. Its number-to-string conversion is not modelled, and neither is any bound on the clock reading.
- Notifications.CreateNotification: `Date.now()` and `new Date().toISOString()` are the parameters `clock` and `timestamp`. Nothing relates the two readings.
- TaskBoard.MoveTaskInBoard: `toIndex` is an integer. `NaN` and fractional indexes, which `Math.min`/`Math.max` would propagate, are not modelled. `new Date().toISOString()` is the parameter `now`.
- The board controller and its workflows are not part of this model. These are the reviewer selection, blocked-by selection and approval flows, persistence to the external store, and task creation at the head of `todo`.
- Firebase, Firestore, `fetch`, `localStorage` and `FileReader` are I/O and are not part of this model.
- Settings.ProfileSettings.HandleSave: its `localStorage` writes, the Firestore `setDoc` and the 2.5-second timer that hides the toast are not modelled. `typeof window` is taken to be defined.
- Settings.ProfileSettings.PreviewProfileImage: the data URL the file read produces is a parameter.
- The re-authentication and password-change handlers of the settings page are asynchronous I/O and are not modelled; only `passwordsMatch` is.
- Date handling is locale- and time-zone dependent and is not modelled. This covers the deadline, the overdue flag and the close-date label in the details modal, and `toLocaleDateString` in the settings page.
- TaskDetails.DetailsStatusLabel: a status string naming a property of `Object.prototype` (such as `constructor`) would make the record lookup return that property rather than the raw string. The model returns the raw string.
- TaskDetails.TaskDetailsView: the loading bar, the "Failed to load task" error and the "Task not found." line (drawn from the query's loading and error state) are not modelled; only the gate of the details section is.
- Task records are plain values. React state updates, re-rendering and the order of effects are not modelled beyond the state each handler sets.
