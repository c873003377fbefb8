# terminal-notes screens, modelled in Dafny

terminal-notes serves text screens over SSH with Bubble Tea. Each screen is a
Bubble Tea model: a value with a step function `Update(model, msg) -> (model,
cmd)` and a render function `View(model) -> string`. This project models the
four screens in `internal/app/middleware` as immutable Dafny datatypes with
pure, total `Update` and `View` functions, and proves what each key does to
them:

- `Login` (login.go): a username buffer and a password buffer. A flag picks
  which buffer typing goes to. Enter moves to the password, then checks the
  fixed pair ("user", "pass"). A mismatch clears everything and sets an error
  message. The view masks the password.
- `Notes` (list.go): the note list (screen 1), the editor with a rendered
  preview (screen 2) and the detail screen (screen 3), chosen by
  `currentView`. It handles resize, ctrl+c (quit), ctrl+a (show or hide the
  editor), ctrl+e (commit the editor's text as a new note), ctrl+z (open or
  leave the detail screen), mouse events and the arrival of the fetched notes.
  Everything else goes to the widget of the current screen.
- `ArticleList` (articlelist.go): a cursor over two articles and a set of
  ticked positions.
- `ArticleView` (articleview.go): the `Article` record, the fixed article
  source, lookup by ID with a zero-value fallback, and a screen that only
  quits.

`Tea` holds the command tags (`NoCmd`, `Quit`, `Fetch`, `Delegated`) and the
`Step` pair every `Update` returns. `Options` holds `Option`.

The bubbles widgets (list, textarea, viewport) are cut down to the state
list.go reads and writes for a list that is not filtered. The list's "/"
filter is not part of the model (see "## Left out"). What a widget does with a
message it is handed is a function-typed field of a `Widgets` value. The markdown renderer and the three
screen layouts are function-typed fields too (`Widgets.renderMarkdown`,
`Screens`). `Notes.Update` and `Notes.View` take these values as parameters,
so each `Notes` property holds whatever the library does with an unfiltered
list.

Some things the code does that are easy to miss, all modelled as written:

- list.go has no `return` in two `ctrl+e` and `ctrl+z` paths. So ctrl+e with
  the editor hidden goes on to the current screen's widget. ctrl+z off the
  list first switches to screen 1, and then the list widget handles the key.
- Mouse events on screen 2 go to the viewport. On screen 3 they also reach the
  viewport, through the generic hand-off at the end of `Update`. The editor
  never receives one.
- `m.viewportView.viewport.Style.MarginLeft(20)` (list.go:181) throws its
  result away, so it changes nothing.
- The note that ctrl+z copies into `listItemView` is never drawn. Screen 3
  draws the viewport, and `listItemViewModel.View` is never called.
- Committing with ctrl+e leaves the editor's text in place.
- The notes arriving puts up screen 1 but does not clear `showTextArea`. If
  the editor was shown, the next ctrl+a hides it and stays on screen 1.
- In articlelist.go, `selected` is a `map[int]struct{}`, and enter/space
  changes it in place (articlelist.go:68, 70). So the model value handed to
  `Update` changes too. The model treats the ticks as a `set<int>` value. That
  agrees with Go only because the runtime never reuses an old model.
- articlelist.go ticks on the key names "enter" and "space" (articlelist.go:63), and the model matches those names as written. Bubble Tea names the space bar " ", not "space", so in the running program only Enter may tick an article. The source does not show the library's key naming.
- In articlelist.go, "up"/"j" moves the cursor to the NEXT article and
  "down"/"k" to the previous one.

More facts about the code:

- A successful login changes nothing and issues no command. The branch only
  prints a line and carries the comment "Proceed to fetch articles"
  (login.go:49-51). The login screen and the note screen are separate
  programs, and nothing links them.
- The fetched notes switch the note screen to the list, whatever screen was
  showing (list.go:203).
- After ctrl+c the note screen still processes messages. Only its frame is
  frozen at "exiting the ssh session".
- The list's cursor starts at position 0 (`list.New`). So as soon as the notes
  have arrived, ctrl+z opens the first note, "HTML", without any earlier
  cursor movement.

## Model

| member | source | states |
|---|---|---|
| Login.Initial | internal/app/middleware/login.go:22 | the login form starts with empty buffers, no error, and both flags off |
| Login.Submit | internal/app/middleware/login.go:46-65 | Enter on the username only turns on password mode and the prompt; Enter with ("user","pass") leaves the model as it is; any other pair clears both buffers and both flags and sets "Invalid username or password" |
| Login.Erase | internal/app/middleware/login.go:66-75 | Backspace/Delete drop exactly the last character of the active buffer (the shorter buffer plus that character is the old one); on an empty buffer nothing changes; the other buffer, the error and the flags never change |
| Login.Update | internal/app/middleware/login.go:41-88 | the command is Quit exactly for ctrl+c, Esc and ctrl+d, and then the model is unchanged; non-key messages change nothing; the inactive buffer changes only in a failed login, which resets everything; the invariant Valid (flags equal, error empty or the failure text) is kept |
| Login.Mask | internal/app/middleware/login.go:103-105 | the mask for a password of length n is exactly n '*' characters |
| Login.View | internal/app/middleware/login.go:90-115 | every frame starts with "Please enter your credentials:\n\n" |
| Login.EnterMovesToPassword | internal/app/middleware/login.go:62-65 | Enter outside password mode sets both flags and leaves both buffers and the error alone, with no command |
| Login.WrongCredentialsReset | internal/app/middleware/login.go:54-61 | Enter in password mode with a pair other than ("user","pass") empties both buffers, sets the error text and clears both flags |
| Login.RightCredentialsChangeNothing | internal/app/middleware/login.go:47-53 | Enter in password mode with ("user","pass") returns the same model and no command |
| Login.EraseUndoesTyping | internal/app/middleware/login.go:66-84 | typing one character and then Backspace or Delete gives back the original model |
| Login.KeyAppends | internal/app/middleware/login.go:79-84 | any key the form does not name, whatever its text (a rune, a pasted string, a key name such as "tab"), is appended whole to the active buffer, with no command |
| Login.EraseKeys | internal/app/middleware/login.go:66-75 | Backspace and Delete are the same step: both erase from the active buffer as Erase does, with no command |
| Login.TypingAppends | internal/app/middleware/login.go:79-84 | typing a string key by key appends it to the active buffer; the other buffer, the error and the flags are unchanged |
| Login.RunKeepsValid | internal/app/middleware/login.go:41-88 | after any sequence of messages from a Valid model the model is still Valid |
| Login.LoginScenario | internal/app/middleware/login.go:46-84 | typing "user", Enter, "pass" from the start gives ("user","pass", password mode), and the final Enter changes nothing and issues no command |
| Login.PasswordLineMasked | internal/app/middleware/login.go:101-106 | in password mode the frame has "Password: ", then one '*' per password character, then a line break, right after the username line |
| Login.ViewShowsOnlyPasswordLength | internal/app/middleware/login.go:101-106 | two passwords of equal length give the same frame |
| Login.ViewHidesPasswordUntilPasswordMode | internal/app/middleware/login.go:101-109 | outside password mode the frame does not depend on the password |
| Login.ErrorLineIffMessage | internal/app/middleware/login.go:110-112 | the frame differs from the error-free frame exactly when the error message is non-empty, and then it is that frame plus "\n" + message + "\n" |
| ArticleView.FetchArticles | internal/app/middleware/articleview.go:68-73 | the source has exactly two articles, IDs 1 and 2 in that order, titled "First Article" and "Second Article", stamped with the two clock readings |
| ArticleView.FetchArticleByID | internal/app/middleware/articleview.go:58-66 | the result is the first article with the ID when one exists, and the zero Article otherwise; so ID 1 and 2 give the two articles and every other ID gives the zero Article |
| ArticleView.Update | internal/app/middleware/articleview.go:43-52 | the model never changes; the command is Quit exactly for "q" and "ctrl+c", and no command otherwise |
| ArticleView.View | internal/app/middleware/articleview.go:54-56 | the frame is "Title: ", the title, a blank line, the content, then "\n\nPress 'q' to quit\n", with the length that implies |
| ArticleView.ViewShowsOnlyTitleAndContent | internal/app/middleware/articleview.go:54-56 | articles with the same title and content give the same frame; ID, description and date are not shown |
| ArticleView.ViewDeterminesText | internal/app/middleware/articleview.go:54-56 | equal frames with equal-length titles mean equal titles and contents |
| ArticleList.InitialModel | internal/app/middleware/articlelist.go:33-45 | the checklist starts with the same two articles the article source gives, cursor 0 and nothing ticked, so both range invariants hold |
| ArticleList.Toggle | internal/app/middleware/articlelist.go:66-71 | the toggled position flips membership and every other position keeps it |
| ArticleList.Update | internal/app/middleware/articlelist.go:51-76 | "up"/"j" advance the cursor only below len-1; "down"/"k" step back only above 0; "enter"/"space" flip the cursor's tick; other keys change nothing; articles never change, no command is issued, and the cursor and tick range invariants are kept |
| ArticleList.RunKeepsInvariant | internal/app/middleware/articlelist.go:51-76 | over any sequence of messages the cursor stays in 0 .. max(0, len-1), ticks stay in that range, and the articles stay the same |
| ArticleList.ToggleTwiceRestores | internal/app/middleware/articlelist.go:63-72 | two presses of "enter"/"space" give back the original model |
| ArticleList.ForwardThenBackward | internal/app/middleware/articlelist.go:55-62 | a forward key followed by a backward key restores the model when there was a next article |
| ArticleList.RowMarks | internal/app/middleware/articlelist.go:81-89 | the row of article i starts with '>' exactly when i is the cursor, has 'X' in its fourth column exactly when i is ticked, and ends with the title and a line break |
| ArticleList.RowsExtend | internal/app/middleware/articlelist.go:80-90 | the rows for articles 0..i are a prefix of the rows for any longer list prefix |
| ArticleList.RowOnScreen | internal/app/middleware/articlelist.go:78-92 | the row of article i follows the heading and the rows of articles 0..i-1 |
| ArticleList.View | internal/app/middleware/articlelist.go:78-92 | the loop over the articles builds "Articles:\n" followed by the row of every article in list order (with RowOnScreen: row i right after rows 0..i-1) |
| Notes.HalfTowardZero | internal/app/middleware/list.go:141-144 | Go's Width/2, which truncates toward zero for negative widths too |
| Notes.SelectedItem | internal/app/middleware/list.go:177-178 | there is a selected note exactly when the cursor is inside the list, and it is the note under the cursor |
| Notes.InitialModel | internal/app/middleware/list.go:254-271 | the program starts on screen 0, not quitting, with an empty 6x24 list whose cursor is at 0, the editor hidden and empty, and a 100x40 viewport showing its placeholder; this start is Consistent |
| Notes.DummyItems | internal/app/middleware/list.go:234-244 | the fetch yields five notes titled HTML, CSS, JavaScript, React, Vue.js in that order |
| Notes.Init | internal/app/middleware/list.go:67-69 | the first command is the fetch |
| Notes.Perform | internal/app/middleware/list.go:234-244 | the fetch posts back the message carrying the five notes; every other command gets None, which means the model does not say what that command posts |
| Notes.Resize | internal/app/middleware/list.go:139-146 | the list becomes (W-20, H-10), the viewport and the editor (W/2, H-4); nothing else changes |
| Notes.ToggleEditor | internal/app/middleware/list.go:154-161 | ctrl+a flips showTextArea and shows screen 2 when it is now on and screen 1 when off; nothing else changes |
| Notes.CommitNote | internal/app/middleware/list.go:163-173 | the list gains exactly one note at the end, titled with the editor's text and described "Description for " + text; earlier notes stay; the editor is hidden but keeps its text; screen 1 is shown |
| Notes.OpenDetail | internal/app/middleware/list.go:175-183 | on the list, ctrl+z with the cursor on a note copies that note to listItemView and shows screen 3; with the cursor outside the list (an empty list) nothing changes |
| Notes.LoadItems | internal/app/middleware/list.go:196-204 | the loaded notes replace the list in order, the editor is emptied, screen 1 is shown from any screen; showTextArea and everything else stay |
| Notes.Delegate | internal/app/middleware/list.go:207-228 | a message not handled earlier reaches only the current screen's widget (list on 1, editor on 2 with the preview re-rendered from its text, viewport on 3); on any other screen it is dropped with no command |
| Notes.Update | internal/app/middleware/list.go:137-229 | quitting is set only by ctrl+c, which issues Quit, and is never cleared; the screen number stays in 0..3; no step returns to screen 0, and ctrl+a, ctrl+z and the notes arriving always leave it; Consistent (editor hidden while on screen 0) is kept, and from a Consistent model on screen 0 those three messages are exactly the ones that leave it; the list grows only by a commit, a load, or the list widget's own handling |
| Notes.View | internal/app/middleware/list.go:113-132 | while quitting the frame is "exiting the ssh session"; screens 1, 2, 3 draw the list, the editor beside the viewport, and the viewport; any other screen number draws "Invalid view" |
| Notes.ResizeOnlyGeometry | internal/app/middleware/list.go:139-146 | a resize changes only the widget sizes and issues no command |
| Notes.ResizeLastWins | internal/app/middleware/list.go:139-146 | two resizes in a row equal the second one alone |
| Notes.QuittingIsFinal | internal/app/middleware/list.go:113-116 | once quitting, every later frame is "exiting the ssh session", whatever messages follow |
| Notes.CtrlCQuits | internal/app/middleware/list.go:150-152 | ctrl+c issues Quit, and the frame after it and any further messages is "exiting the ssh session" |
| Notes.ToggleEditorTwice | internal/app/middleware/list.go:154-161 | two ctrl+a give back showTextArea and the whole model except the screen number, which matches the flag |
| Notes.CommitAppendsOne | internal/app/middleware/list.go:163-173 | with the editor shown, ctrl+e appends exactly the note made from the editor's text and returns to the list |
| Notes.CommitWhileHiddenInsertsNothing | internal/app/middleware/list.go:163-211 | with the editor hidden, ctrl+e commits nothing: the screen stays, off the list the notes are unchanged, and on the list only the list widget's own handling of the key applies |
| Notes.DetailRoundTrip | internal/app/middleware/list.go:175-211 | ctrl+z opens the note under the cursor on screen 3 with the list untouched; a second ctrl+z returns to screen 1, keeps the note, and hands the key to the list widget |
| Notes.DetailWithoutSelection | internal/app/middleware/list.go:175-183 | ctrl+z on the list with the cursor outside it returns the same model and no command |
| Notes.CtrlZElsewhereShowsList | internal/app/middleware/list.go:184-211 | ctrl+z off the list shows screen 1 and the list widget handles the key; editor, viewport and opened note are unchanged |
| Notes.LoadedItemsReplaceList | internal/app/middleware/list.go:196-204 | loaded notes replace the list in order, empty the editor and show screen 1 with no command; of two loads the later wins |
| Notes.MouseNeverReachesEditor | internal/app/middleware/list.go:189-228 | a mouse event never changes the editor or the screen; on screen 2 it goes to the viewport and the list is untouched |
| Notes.EditorKeepsPreviewInSync | internal/app/middleware/list.go:212-217 | on screen 2 any key not handled earlier goes to the editor, and the preview then shows the rendering of the editor's text |
| Notes.ViewIgnoresOpenedNote | internal/app/middleware/list.go:113-132 | the frame does not depend on the note copied by ctrl+z |
| Notes.RunKeepsKnownView | internal/app/middleware/list.go:137-229 | after any sequence of messages the screen number is still in 0..3, and a Consistent model stays Consistent |
| Notes.ScreenZeroExits | internal/app/middleware/list.go:137-229 | in any state reached from the start that is still on screen 0, a message moves the program off screen 0 exactly when it is ctrl+a, ctrl+z or the notes arriving |
| Notes.StartupShowsFetchedNotes | internal/app/middleware/list.go:234-244 | the first frame is "Invalid view"; the fetch Init asks for, handed to Update, shows the five notes on the list screen with an empty editor and no command; ctrl+z right after that opens the first note ("HTML") on screen 3 |

## Left out

- Notes.SelectedItem: the list's "/" filter is not modelled. With a filter applied, Go's `SelectedItem()` indexes the visible, filtered items, while ctrl+e still appends to all items (list.go:169, list.go:177). The model has one sequence and selects from all of it, so its promises about ctrl+z hold only while no filter is applied.
- SSH and PTY plumbing: `ListMiddleware`, `LoginMiddleware`, `ArticleListMiddleware`, `ArticleViewMiddleware`. This covers the no-terminal rejection and `tea.NewProgram` options. It is transport and program setup. `Notes.InitialModel` keeps only the model values that list.go builds there.
- The Bubble Tea runtime: commands run concurrently and post messages back. Commands are tags here. `Notes.Perform` models only what the fetch posts back.
- Notes.Perform: `None` for `Quit` and `Delegated` means "not modelled", not "posts nothing". The widgets' commands (list.go:210, 214, 223), such as the editor cursor's blink, do post messages. Those come back into `Update` and reach the widget through `Delegate` as `OtherMsg`, but `Perform` does not produce them.
- The `Init` methods of `LoginModel`, `articleListModel` and `articleViewModel` return no command. They have no model here.
- The bubbles widgets' own behaviour: `list.Model`, `textarea.Model`, `viewport.Model` handling a message. Each is a parameter (`Widgets`). How `SetItems` and `InsertItem` move the list's cursor is unseen library code. The model leaves the cursor index unchanged, so after a load it may lie past the end of a shorter list, and then ctrl+z opens nothing.
- Notes.Resize: records the size requested of the editor. `textarea.SetWidth` further subtracts prompt and line-number widths inside the library.
- Notes.InitialModel: takes the editor's default size as a parameter, because `textarea.New` sets it inside the library. The list title, the editor's placeholder, character limit, line numbers and cursor blink are constant settings. The `Screens` and `Widgets` functions absorb them: the list's screen draws the title, the editor's screen draws the placeholder and line numbers, and the editor's update enforces the character limit.
- The `listItemViewModel` methods `FilterValue`, `Title` and `Description` (list.go:62-64) are field reads. `listItemViewModel.View` (list.go:105-110) is never called.
- glamour markdown rendering and lipgloss styling, margins and borders. These are foreign rendering, so they are parameters (`Widgets.renderMarkdown`, `Screens`).
- The `fmt.Println` after a successful login (login.go:52) is a side effect, so it is left out.
- `time.Now()`: every article's date is an opaque `Time` passed in as a parameter. Go's zero time is `ZeroTime`.
- internal/app/models/article.go holds type declarations only and is not part of this model.
- Login.Erase: removes one character, not one byte. Go's `len` and slicing count bytes, and strings here are sequences of characters. So a multi-byte character is removed whole rather than cut.
- Login.View, Login.Mask: draw one '*' per character of the password, where login.go:103 loops `len(m.password)` times and so draws one per byte. A password with multi-byte characters shows fewer stars here than in Go.
