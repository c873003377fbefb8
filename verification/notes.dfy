/** The note screen (internal/app/middleware/list.go): a list of notes, an
    editor with a rendered preview beside it, and a detail screen, switched by
    the `currentView` number (1 list, 2 editor + preview, 3 detail; the
    program starts at 0 until the notes arrive).

    The bubbles widgets are abstracted to the state this file reads and
    writes for a list that is not filtered (see SelectedItem); what the
    widgets themselves do with a message, and how screens are drawn, are
    functions the caller supplies (`Widgets`, `Screens`), so every property
    below holds whatever those functions are. */
module Notes {
  import opened Tea
  import opened Options

  /** A note (`listItemViewModel`): title and description shown in the list,
      the content, and a flag the code never reads. */
  datatype Item = Item(title: string, desc: string, content: string, showItemContent: bool)

  /** list.Model: the notes in order, the cursor position (`Index()`, which
      may lie past the end, e.g. on an empty list), and the size the list is
      drawn at. */
  datatype ListWidget = ListWidget(items: seq<Item>, index: nat, width: int, height: int)

  /** textarea.Model: the text typed so far and the size it is drawn at. */
  datatype TextareaWidget = TextareaWidget(value: string, width: int, height: int)

  /** viewport.Model: its size and the (already rendered) text it shows. */
  datatype ViewportWidget = ViewportWidget(width: int, height: int, content: string)

  datatype ListView = ListView(list: ListWidget, showSelected: bool)
  datatype TextareaView = TextareaView(textarea: TextareaWidget, showTextArea: bool)
  datatype ViewportView = ViewportView(viewport: ViewportWidget, content: string)

  datatype Model = Model(
    listView: ListView,
    textareaView: TextareaView,
    viewportView: ViewportView,
    listItemView: Item,   // the note last opened with ctrl+z
    currentView: int,     // which screen is drawn
    quitting: bool
  )

  /** A mouse event; its fields only matter to the widgets. */
  datatype MouseEvent = MouseEvent(x: int, y: int, action: int)

  /** The messages the screen tells apart: a terminal resize, a key (named as
      Bubble Tea names it: "ctrl+c", "a", "up", ...), a mouse event, the result
      of the note fetch (`itemsMsg`), and anything else (cursor blinks and
      other widget-internal messages). */
  datatype Msg =
    | WindowSize(width: int, height: int)
    | Key(name: string)
    | Mouse(event: MouseEvent)
    | ItemsLoaded(items: seq<Item>)
    | OtherMsg(tag: int)

  /** What the three bubbles widgets do with a message they are handed, and
      the markdown renderer used for the preview. Unknown library code, so a
      parameter of the model. */
  datatype Widgets = Widgets(
    listUpdate: (ListWidget, Msg) -> (ListWidget, Cmd),
    textareaUpdate: (TextareaWidget, Msg) -> (TextareaWidget, Cmd),
    viewportUpdate: (ViewportWidget, Msg) -> (ViewportWidget, Cmd),
    renderMarkdown: string -> string
  )

  /** How the three screens are drawn (lipgloss styling around the widgets'
      own rendering), also a parameter. */
  datatype Screens = Screens(
    listScreen: ListWidget -> string,
    editorScreen: (TextareaWidget, ViewportWidget) -> string,
    detailScreen: ViewportWidget -> string
  )

  const ListScreen := 1
  const EditorScreen := 2
  const DetailScreen := 3

  const QuitMessage := "exiting the ssh session"
  const InvalidView := "Invalid view"

  function Items(m: Model): seq<Item>
  {
    m.listView.list.items
  }

  /** Go's `x / 2` on ints, which truncates toward zero. */
  function HalfTowardZero(x: int): (r: int)
    ensures x >= 0 ==> 0 <= x - 2 * r <= 1
    ensures x < 0 ==> 0 <= 2 * r - x <= 1
  {
    if x >= 0 then x / 2 else -((-x) / 2)
  }

  /** `list.SelectedItem()`: the note at the cursor, when the cursor is
      inside the list. */
  function SelectedItem(l: ListWidget): (r: Option<Item>)
    ensures r.Some? <==> l.index < |l.items|
    ensures r.Some? ==> r.value == l.items[l.index]
  {
    if l.index < |l.items| then Some(l.items[l.index]) else None
  }

  /** The model the program starts from: empty list of size 6x24 with its
      cursor at 0, editor hidden, viewport 100x40 showing its placeholder,
      screen 0. The editor's initial size is the library's default, passed
      in. */
  function InitialModel(editorWidth: int, editorHeight: int): (m: Model)
    ensures m.currentView == 0 && !m.quitting
    ensures Items(m) == [] && !m.textareaView.showTextArea && m.textareaView.textarea.value == ""
    ensures m.listView.list.index == 0
    ensures Consistent(m)
    ensures m.listView.list.width == 6 && m.listView.list.height == 24
    ensures m.viewportView.viewport == ViewportWidget(100, 40, "Viewport content goes here...")
  {
    Model(
      ListView(ListWidget([], 0, 6, 24), false),
      TextareaView(TextareaWidget("", editorWidth, editorHeight), false),
      ViewportView(ViewportWidget(100, 40, "Viewport content goes here..."), ""),
      Item("", "", "", false),
      0,
      false)
  }

  const HtmlDesc := "HTML (HyperText Markup Language) is the standard markup language used to create and structure web pages."
  const CssDesc := "CSS (Cascading Style Sheets) is a style sheet language used for describing the presentation of a document written in a markup language like HTML."
  const JavaScriptDesc := "JavaScript is a programming language used to add interactivity and dynamic behavior to web pages."
  const ReactDesc := "React is a JavaScript library for building user interfaces. It is maintained by Facebook and a community of individual developers and companies."
  const VueDesc := "Vue.js is a progressive JavaScript framework for building user interfaces. It is designed to be incrementally adoptable, and focuses on the view layer."

  /** The five notes the fetch returns. */
  function DummyItems(): (items: seq<Item>)
    ensures |items| == 5
    ensures items[0].title == "HTML" && items[1].title == "CSS" && items[2].title == "JavaScript"
    ensures items[3].title == "React" && items[4].title == "Vue.js"
  {
    [ Item("HTML", HtmlDesc, "HTML Content goes here...", false),
      Item("CSS", CssDesc, "CSS Content goes here...", false),
      Item("JavaScript", JavaScriptDesc, "JavaScript Content goes here...", false),
      Item("React", ReactDesc, "React Content goes here...", false),
      Item("Vue.js", VueDesc, "Vue.js Content goes here...", false) ]
  }

  /** `Init`: the program's first command is the note fetch. */
  function Init(m: Model): (c: Cmd)
    ensures c == Fetch
  {
    Fetch
  }

  /** What running a command yields, as far as the model knows it: the fetch
      posts the five notes back. `None` means the model does not say: Quit
      ends the program, and a widget's command (a cursor blink, say) posts a
      message the model has no value for. */
  function Perform(c: Cmd): (r: Option<Msg>)
    ensures c == Fetch <==> r.Some?
    ensures r.Some? ==> r.value == ItemsLoaded(DummyItems())
  {
    if c == Fetch then Some(ItemsLoaded(DummyItems())) else None
  }

  // ----- the branches of Update -----

  /** Everything except the sizes of the widgets is the same in `a` and `b`. */
  predicate SameButGeometry(a: Model, b: Model)
  {
    && a.listView.list.items == b.listView.list.items
    && a.listView.list.index == b.listView.list.index
    && a.listView.showSelected == b.listView.showSelected
    && a.textareaView.textarea.value == b.textareaView.textarea.value
    && a.textareaView.showTextArea == b.textareaView.showTextArea
    && a.viewportView.viewport.content == b.viewportView.viewport.content
    && a.viewportView.content == b.viewportView.content
    && a.listItemView == b.listItemView
    && a.currentView == b.currentView
    && a.quitting == b.quitting
  }

  /** A terminal resize to `width` x `height`. */
  function Resize(m: Model, width: int, height: int): (r: Model)
    ensures r.listView.list.width == width - 20 && r.listView.list.height == height - 10
    ensures r.viewportView.viewport.width == HalfTowardZero(width)
    ensures r.viewportView.viewport.height == height - 4
    ensures r.textareaView.textarea.width == HalfTowardZero(width)
    ensures r.textareaView.textarea.height == height - 4
    ensures SameButGeometry(m, r)
  {
    var half := HalfTowardZero(width);
    m.(listView := m.listView.(list := m.listView.list.(width := width - 20, height := height - 10)),
       viewportView := m.viewportView.(viewport := m.viewportView.viewport.(width := half, height := height - 4)),
       textareaView := m.textareaView.(textarea := m.textareaView.textarea.(width := half, height := height - 4)))
  }

  /** ctrl+a: show the editor (screen 2) or hide it (screen 1). */
  function ToggleEditor(m: Model): (r: Model)
    ensures r.textareaView.showTextArea == !m.textareaView.showTextArea
    ensures r.currentView == (if r.textareaView.showTextArea then EditorScreen else ListScreen)
    ensures r.(textareaView := m.textareaView, currentView := m.currentView) == m
    ensures r.textareaView.textarea == m.textareaView.textarea
  {
    var show := !m.textareaView.showTextArea;
    m.(textareaView := m.textareaView.(showTextArea := show),
       currentView := if show then EditorScreen else ListScreen)
  }

  /** ctrl+e with the editor shown: a note titled with the editor's text goes
      to the end of the list, the editor is hidden and the list shown. The
      editor keeps its text. */
  function CommitNote(m: Model): (r: Model)
    requires m.textareaView.showTextArea
    ensures |Items(r)| == |Items(m)| + 1
    ensures Items(r)[..|Items(m)|] == Items(m)
    ensures var text := m.textareaView.textarea.value;
            Items(r)[|Items(m)|] == Item(text, "Description for " + text, "", false)
    ensures !r.textareaView.showTextArea && r.currentView == ListScreen
    ensures r.textareaView.textarea == m.textareaView.textarea
    ensures r.listView.list.(items := Items(m)) == m.listView.list
    ensures r.(listView := m.listView, textareaView := m.textareaView, currentView := m.currentView) == m
  {
    var text := m.textareaView.textarea.value;
    var note := Item(text, "Description for " + text, "", false);
    var list := m.listView.list;
    m.(listView := m.listView.(list := list.(items := list.items + [note])),
       textareaView := m.textareaView.(showTextArea := false),
       currentView := ListScreen)
  }

  /** ctrl+z on the list: open the note under the cursor on screen 3; with
      the cursor outside the list (an empty list) nothing changes. */
  function OpenDetail(m: Model): (r: Model)
    requires m.currentView == ListScreen
    ensures SelectedItem(m.listView.list).Some? ==>
              r.listItemView == SelectedItem(m.listView.list).value && r.currentView == DetailScreen
    ensures SelectedItem(m.listView.list).None? ==> r == m
    ensures r.(listItemView := m.listItemView, currentView := m.currentView) == m
  {
    match SelectedItem(m.listView.list)
    case Some(item) => m.(listItemView := item, currentView := DetailScreen)
    case None => m
  }

  /** The notes arrived: they replace the list, the editor is emptied and the
      list is shown, from whatever screen. */
  function LoadItems(m: Model, items: seq<Item>): (r: Model)
    ensures Items(r) == items
    ensures r.textareaView.textarea.value == "" && r.currentView == ListScreen
    ensures r.textareaView.showTextArea == m.textareaView.showTextArea
    ensures r.listView.list.(items := Items(m)) == m.listView.list
    ensures r.textareaView.textarea.(value := m.textareaView.textarea.value) == m.textareaView.textarea
    ensures r.(listView := m.listView, textareaView := m.textareaView, currentView := m.currentView) == m
  {
    m.(listView := m.listView.(list := m.listView.list.(items := items)),
       textareaView := m.textareaView.(textarea := m.textareaView.textarea.(value := "")),
       currentView := ListScreen)
  }

  /** A message nothing above handled goes to the widget of the current
      screen: the list on 1, the editor on 2 (after which the preview is
      re-rendered from the editor's text), the viewport on 3; on any other
      screen it is dropped. */
  function Delegate(w: Widgets, m: Model, msg: Msg): (r: Step<Model>)
    ensures r.model.(listView := m.listView, textareaView := m.textareaView, viewportView := m.viewportView) == m
    ensures m.currentView != ListScreen ==> r.model.listView == m.listView
    ensures m.currentView != EditorScreen ==> r.model.textareaView == m.textareaView
    ensures m.currentView != EditorScreen && m.currentView != DetailScreen ==> r.model.viewportView == m.viewportView
    ensures m.currentView == ListScreen ==> (r.model.listView.list, r.cmd) == w.listUpdate(m.listView.list, msg)
    ensures m.currentView == EditorScreen ==>
              (r.model.textareaView.textarea, r.cmd) == w.textareaUpdate(m.textareaView.textarea, msg)
              && r.model.viewportView.viewport.content == w.renderMarkdown(r.model.textareaView.textarea.value)
    ensures m.currentView == DetailScreen ==>
              (r.model.viewportView.viewport, r.cmd) == w.viewportUpdate(m.viewportView.viewport, msg)
    ensures m.currentView !in {ListScreen, EditorScreen, DetailScreen} ==> r == Step(m, NoCmd)
  {
    if m.currentView == ListScreen then
      var (list, cmd) := w.listUpdate(m.listView.list, msg);
      Step(m.(listView := m.listView.(list := list)), cmd)
    else if m.currentView == EditorScreen then
      var (textarea, cmd) := w.textareaUpdate(m.textareaView.textarea, msg);
      var preview := w.renderMarkdown(textarea.value);
      Step(m.(textareaView := m.textareaView.(textarea := textarea),
              viewportView := m.viewportView.(viewport := m.viewportView.viewport.(content := preview))),
           cmd)
    else if m.currentView == DetailScreen then
      var (viewport, cmd) := w.viewportUpdate(m.viewportView.viewport, msg);
      Step(m.(viewportView := m.viewportView.(viewport := viewport)), cmd)
    else
      Step(m, NoCmd)
  }

  /** Screen numbers the program can be on. */
  predicate KnownView(m: Model)
  {
    0 <= m.currentView <= 3
  }

  /** What holds of every model the program reaches from InitialModel: a known
      screen, and the editor is never shown while still on screen 0 (only
      ctrl+a shows it, and ctrl+a leaves screen 0). */
  predicate Consistent(m: Model)
  {
    KnownView(m) && (m.currentView == 0 ==> !m.textareaView.showTextArea)
  }

  /** One step of the note screen. */
  function Update(w: Widgets, m: Model, msg: Msg): (r: Step<Model>)
    // only ctrl+c sets the quitting flag, and nothing clears it
    ensures r.model.quitting <==> m.quitting || msg == Key("ctrl+c")
    ensures msg == Key("ctrl+c") ==> r.cmd == Quit
    ensures KnownView(m) ==> KnownView(r.model)
    ensures Consistent(m) ==> Consistent(r.model)
    // nothing returns to screen 0, and ctrl+a, ctrl+z and the arrival of the
    // notes always leave it
    ensures r.model.currentView == 0 ==>
              m.currentView == 0 && msg != Key("ctrl+a") && msg != Key("ctrl+z") && !msg.ItemsLoaded?
    // from a consistent model on screen 0 those three are the only way out
    ensures Consistent(m) && m.currentView == 0 ==>
              (r.model.currentView != 0 <==> msg == Key("ctrl+a") || msg == Key("ctrl+z") || msg.ItemsLoaded?)
    // the list can only grow by the one note ctrl+e commits
    ensures |Items(r.model)| > |Items(m)| ==>
              (msg == Key("ctrl+e") && m.textareaView.showTextArea) || msg.ItemsLoaded?
              || r.model.listView.list == w.listUpdate(m.listView.list, msg).0
  {
    match msg
    case WindowSize(width, height) => Step(Resize(m, width, height), NoCmd)
    case Key(k) =>
      if k == "ctrl+c" then Step(m.(quitting := true), Quit)
      else if k == "ctrl+a" then Step(ToggleEditor(m), NoCmd)
      else if k == "ctrl+e" && m.textareaView.showTextArea then Step(CommitNote(m), NoCmd)
      else if k == "ctrl+z" && m.currentView == ListScreen then Step(OpenDetail(m), NoCmd)
      else if k == "ctrl+z" then Delegate(w, m.(currentView := ListScreen), msg)
      else Delegate(w, m, msg)
    case Mouse(_) =>
      if m.currentView == EditorScreen then
        var (viewport, cmd) := w.viewportUpdate(m.viewportView.viewport, msg);
        Step(m.(viewportView := m.viewportView.(viewport := viewport)), cmd)
      else
        Delegate(w, m, msg)
    case ItemsLoaded(items) => Step(LoadItems(m, items), NoCmd)
    case OtherMsg(_) => Delegate(w, m, msg)
  }

  /** The frame drawn for the model. */
  function View(s: Screens, m: Model): (r: string)
    ensures m.quitting ==> r == QuitMessage
    ensures !m.quitting && m.currentView !in {ListScreen, EditorScreen, DetailScreen} ==> r == InvalidView
    ensures !m.quitting && m.currentView == ListScreen ==> r == s.listScreen(m.listView.list)
    ensures !m.quitting && m.currentView == EditorScreen ==>
              r == s.editorScreen(m.textareaView.textarea, m.viewportView.viewport)
    ensures !m.quitting && m.currentView == DetailScreen ==> r == s.detailScreen(m.viewportView.viewport)
  {
    if m.quitting then QuitMessage
    else if m.currentView == ListScreen then s.listScreen(m.listView.list)
    else if m.currentView == EditorScreen then s.editorScreen(m.textareaView.textarea, m.viewportView.viewport)
    else if m.currentView == DetailScreen then s.detailScreen(m.viewportView.viewport)
    else InvalidView
  }

  /** The final model after feeding `msgs` in order. */
  function Run(w: Widgets, m: Model, msgs: seq<Msg>): Model
    decreases |msgs|
  {
    if msgs == [] then m else Run(w, Update(w, m, msgs[0]).model, msgs[1..])
  }

  // ----- properties -----

  /** A resize touches the widgets' sizes and nothing else, and issues no
      command. */
  lemma ResizeOnlyGeometry(w: Widgets, m: Model, width: int, height: int)
    ensures var r := Update(w, m, WindowSize(width, height));
            && r.cmd == NoCmd
            && SameButGeometry(m, r.model)
            && r.model.listView.list.width == width - 20 && r.model.listView.list.height == height - 10
            && r.model.viewportView.viewport.width == HalfTowardZero(width)
            && r.model.textareaView.textarea.width == HalfTowardZero(width)
            && r.model.viewportView.viewport.height == height - 4
            && r.model.textareaView.textarea.height == height - 4
  {
  }

  /** Only the last of two resizes counts. */
  lemma ResizeLastWins(w: Widgets, m: Model, w1: int, h1: int, w2: int, h2: int)
    ensures Update(w, Update(w, m, WindowSize(w1, h1)).model, WindowSize(w2, h2))
            == Update(w, m, WindowSize(w2, h2))
  {
  }

  /** Once quitting, the frame is the farewell line whatever arrives next. */
  lemma {:induction false} QuittingIsFinal(w: Widgets, s: Screens, m: Model, msgs: seq<Msg>)
    requires m.quitting
    ensures Run(w, m, msgs).quitting
    ensures View(s, Run(w, m, msgs)) == QuitMessage
    decreases |msgs|
  {
    if msgs != [] {
      QuittingIsFinal(w, s, Update(w, m, msgs[0]).model, msgs[1..]);
    }
  }

  /** ctrl+c asks the runtime to quit, and from then on every frame is the
      farewell line. */
  lemma CtrlCQuits(w: Widgets, s: Screens, m: Model, later: seq<Msg>)
    ensures Update(w, m, Key("ctrl+c")).cmd == Quit
    ensures View(s, Run(w, m, [Key("ctrl+c")] + later)) == QuitMessage
  {
    var after := Update(w, m, Key("ctrl+c")).model;
    assert ([Key("ctrl+c")] + later)[1..] == later;
    assert Run(w, m, [Key("ctrl+c")] + later) == Run(w, after, later);
    QuittingIsFinal(w, s, after, later);
  }

  /** ctrl+a twice gives the editor flag back; the screen is then the one the
      flag selects. Nothing else changes. */
  lemma ToggleEditorTwice(w: Widgets, m: Model)
    ensures var r1 := Update(w, m, Key("ctrl+a"));
            var r2 := Update(w, r1.model, Key("ctrl+a"));
            && r1.cmd == NoCmd && r2.cmd == NoCmd
            && r2.model.textareaView == m.textareaView
            && r2.model == m.(currentView := if m.textareaView.showTextArea then EditorScreen else ListScreen)
  {
  }

  /** ctrl+e with the editor shown appends exactly one note, titled with the
      editor's text, and returns to the list. */
  lemma CommitAppendsOne(w: Widgets, m: Model)
    requires m.textareaView.showTextArea
    ensures var r := Update(w, m, Key("ctrl+e"));
            var text := m.textareaView.textarea.value;
            && r.cmd == NoCmd
            && Items(r.model) == Items(m) + [Item(text, "Description for " + text, "", false)]
            && !r.model.textareaView.showTextArea && r.model.currentView == ListScreen
  {

  }

  /** ctrl+e with the editor hidden commits nothing: it is handed on like any
      other key, so the editor stays hidden, the screen stays, and the notes
      change only if the list widget itself changes them. */
  lemma CommitWhileHiddenInsertsNothing(w: Widgets, m: Model)
    requires !m.textareaView.showTextArea
    ensures var r := Update(w, m, Key("ctrl+e"));
            && !r.model.textareaView.showTextArea
            && r.model.currentView == m.currentView
            && (m.currentView != ListScreen ==> Items(r.model) == Items(m))
            && (m.currentView == ListScreen ==>
                  (r.model.listView.list, r.cmd) == w.listUpdate(m.listView.list, Key("ctrl+e")))
  {
  }

  /** ctrl+z on the list opens the note under the cursor on the detail screen; a
      second ctrl+z goes back to the list, which also sees that key. The
      opened note is kept. */
  lemma DetailRoundTrip(w: Widgets, m: Model)
    requires m.currentView == ListScreen
    requires SelectedItem(m.listView.list).Some?
    ensures var r1 := Update(w, m, Key("ctrl+z"));
            var r2 := Update(w, r1.model, Key("ctrl+z"));
            && r1.cmd == NoCmd
            && r1.model.currentView == DetailScreen
            && r1.model.listItemView == SelectedItem(m.listView.list).value
            && r1.model.listView == m.listView
            && r2.model.currentView == ListScreen
            && r2.model.listItemView == r1.model.listItemView
            && (r2.model.listView.list, r2.cmd) == w.listUpdate(m.listView.list, Key("ctrl+z"))
  {
  }

  /** ctrl+z on the list with the cursor outside it changes nothing. */
  lemma DetailWithoutSelection(w: Widgets, m: Model)
    requires m.currentView == ListScreen
    requires SelectedItem(m.listView.list).None?
    ensures Update(w, m, Key("ctrl+z")) == Step(m, NoCmd)
  {
  }

  /** ctrl+z on any other screen goes back to the list, and the list widget
      then handles the key. */
  lemma CtrlZElsewhereShowsList(w: Widgets, m: Model)
    requires m.currentView != ListScreen
    ensures var r := Update(w, m, Key("ctrl+z"));
            && r.model.currentView == ListScreen
            && (r.model.listView.list, r.cmd) == w.listUpdate(m.listView.list, Key("ctrl+z"))
            && r.model.textareaView == m.textareaView
            && r.model.viewportView == m.viewportView
            && r.model.listItemView == m.listItemView
  {
  }

  /** Newly loaded notes replace the list in order and bring the list up
      from any screen; of two loads the later one wins. */
  lemma LoadedItemsReplaceList(w: Widgets, m: Model, a: seq<Item>, b: seq<Item>)
    ensures var r := Update(w, m, ItemsLoaded(a));
            && r.cmd == NoCmd
            && Items(r.model) == a
            && r.model.currentView == ListScreen
            && r.model.textareaView.textarea.value == ""
    ensures Update(w, Update(w, m, ItemsLoaded(a)).model, ItemsLoaded(b)).model
            == Update(w, m, ItemsLoaded(b)).model
  {
  }

  /** The editor never receives a mouse event: on the editor screen the
      viewport gets it, elsewhere the current screen's other widget. */
  lemma MouseNeverReachesEditor(w: Widgets, m: Model, e: MouseEvent)
    ensures var r := Update(w, m, Mouse(e));
            && r.model.textareaView == m.textareaView
            && r.model.currentView == m.currentView
            && (m.currentView == EditorScreen ==>
                  (r.model.viewportView.viewport, r.cmd) == w.viewportUpdate(m.viewportView.viewport, Mouse(e))
                  && r.model.listView == m.listView)
  {
  }

  /** On the editor screen, any key the screen does not handle itself goes to
      the editor, and the preview then shows the editor's text rendered. */
  lemma EditorKeepsPreviewInSync(w: Widgets, m: Model, k: string)
    requires m.currentView == EditorScreen
    requires k !in {"ctrl+c", "ctrl+a", "ctrl+e", "ctrl+z"}
    ensures var r := Update(w, m, Key(k));
            && (r.model.textareaView.textarea, r.cmd) == w.textareaUpdate(m.textareaView.textarea, Key(k))
            && r.model.viewportView.viewport.content == w.renderMarkdown(r.model.textareaView.textarea.value)
            && r.model.listView == m.listView
  {
  }

  /** The frame never shows the note opened with ctrl+z: the detail screen
      draws the viewport. */
  lemma ViewIgnoresOpenedNote(s: Screens, m: Model, note: Item)
    ensures View(s, m.(listItemView := note)) == View(s, m)
  {
  }

  /** The screen number stays in 0 .. 3 whatever arrives, and a consistent
      model stays consistent. */
  lemma {:induction false} RunKeepsKnownView(w: Widgets, m: Model, msgs: seq<Msg>)
    requires KnownView(m)
    ensures KnownView(Run(w, m, msgs))
    ensures Consistent(m) ==> Consistent(Run(w, m, msgs))
    decreases |msgs|
  {
    if msgs != [] {
      RunKeepsKnownView(w, Update(w, m, msgs[0]).model, msgs[1..]);
    }
  }

  /** However the program got there from its start, while it is still on
      screen 0 exactly ctrl+a, ctrl+z and the arrival of the notes move it on:
      every other message leaves it on screen 0. */
  lemma ScreenZeroExits(w: Widgets, editorWidth: int, editorHeight: int, msgs: seq<Msg>, msg: Msg)
    requires Run(w, InitialModel(editorWidth, editorHeight), msgs).currentView == 0
    ensures var m := Run(w, InitialModel(editorWidth, editorHeight), msgs);
            (Update(w, m, msg).model.currentView != 0
             <==> msg == Key("ctrl+a") || msg == Key("ctrl+z") || msg.ItemsLoaded?)
  {
    RunKeepsKnownView(w, InitialModel(editorWidth, editorHeight), msgs);
  }

  /** At start-up the frame is "Invalid view" (screen 0); Init's fetch brings
      the five notes, and handing its result to Update shows them on the list
      screen with an empty editor. The cursor starts on the first note, so
      ctrl+z right away opens that note on the detail screen. */
  lemma StartupShowsFetchedNotes(w: Widgets, s: Screens, editorWidth: int, editorHeight: int)
    ensures var m0 := InitialModel(editorWidth, editorHeight);
            && View(s, m0) == InvalidView
            && Perform(Init(m0)).Some?
            && var r := Update(w, m0, Perform(Init(m0)).value);
               && r.cmd == NoCmd
               && Items(r.model) == DummyItems()
               && r.model.currentView == ListScreen
               && r.model.textareaView.textarea.value == ""
               && View(s, r.model) == s.listScreen(r.model.listView.list)
               && var r2 := Update(w, r.model, Key("ctrl+z"));
                  && r2.model.currentView == DetailScreen
                  && r2.model.listItemView == DummyItems()[0]
  {
  }
}
