/** The article checklist (internal/app/middleware/articlelist.go): a cursor
    over a fixed list of articles and a set of ticked positions. */
module ArticleList {
  import opened Tea
  import ArticleView

  type Article = ArticleView.Article

  /** Go keeps the ticked positions in a `map[int]struct{}` used as a set. */
  datatype ArticleListModel = ArticleListModel(articles: seq<Article>, cursor: int, selected: set<int>)

  /** A key, named as Bubble Tea names it ("up", "j", "enter", ...), or any
      other message. */
  datatype Msg = Key(name: string) | NonKey

  function Max(a: int, b: int): int
  {
    if a < b then b else a
  }

  /** The cursor stays on an article, or at 0 when there are none. */
  ghost predicate CursorInRange(m: ArticleListModel)
  {
    0 <= m.cursor <= Max(0, |m.articles| - 1)
  }

  /** Ticked positions are positions the cursor can reach. */
  ghost predicate SelectionInRange(m: ArticleListModel)
  {
    forall i :: i in m.selected ==> 0 <= i <= Max(0, |m.articles| - 1)
  }

  /** The starting checklist: the two articles, cursor on the first, nothing
      ticked. `t1` and `t2` stand for the two `time.Now()` readings. */
  function InitialModel(t1: ArticleView.Time, t2: ArticleView.Time): (m: ArticleListModel)
    ensures m.articles == ArticleView.FetchArticles(t1, t2)
    ensures m.cursor == 0 && m.selected == {}
    ensures CursorInRange(m) && SelectionInRange(m)
  {
    ArticleListModel(
      [ ArticleView.Article(1, "First Article", "This is the first article.", "Content of the first article", t1),
        ArticleView.Article(2, "Second Article", "This is the second article.", "Content of the second article", t2) ],
      0, {})
  }

  predicate IsForwardKey(k: string)  { k == "up" || k == "j" }
  predicate IsBackwardKey(k: string) { k == "down" || k == "k" }
  predicate IsToggleKey(k: string)   { k == "enter" || k == "space" }

  /** `s` with `x` added if absent and removed if present. */
  function Toggle(s: set<int>, x: int): (r: set<int>)
    ensures x in r <==> x !in s
    ensures forall y :: y != x ==> (y in r <==> y in s)
  {
    if x in s then s - {x} else s + {x}
  }

  /** One step: "up"/"j" moves the cursor to the next article, "down"/"k" to
      the previous one, "enter"/"space" ticks or unticks the article under the
      cursor. The articles never change and no command is issued. */
  function Update(m: ArticleListModel, msg: Msg): (r: Step<ArticleListModel>)
    ensures r.cmd == NoCmd
    ensures r.model.articles == m.articles
    ensures msg.Key? && IsForwardKey(msg.name) ==>
              r.model.cursor == (if m.cursor < |m.articles| - 1 then m.cursor + 1 else m.cursor)
    ensures msg.Key? && IsBackwardKey(msg.name) ==>
              r.model.cursor == (if m.cursor > 0 then m.cursor - 1 else m.cursor)
    ensures msg.Key? && IsToggleKey(msg.name) ==>
              r.model.cursor == m.cursor && r.model.selected == Toggle(m.selected, m.cursor)
    ensures !(msg.Key? && IsToggleKey(msg.name)) ==> r.model.selected == m.selected
    ensures !(msg.Key? && (IsForwardKey(msg.name) || IsBackwardKey(msg.name) || IsToggleKey(msg.name))) ==>
              r.model == m
    ensures CursorInRange(m) ==> CursorInRange(r.model)
    ensures CursorInRange(m) && SelectionInRange(m) ==> SelectionInRange(r.model)
  {
    match msg
    case NonKey => Step(m, NoCmd)
    case Key(k) =>
      if IsForwardKey(k) then
        Step(if m.cursor < |m.articles| - 1 then m.(cursor := m.cursor + 1) else m, NoCmd)
      else if IsBackwardKey(k) then
        Step(if m.cursor > 0 then m.(cursor := m.cursor - 1) else m, NoCmd)
      else if IsToggleKey(k) then
        Step(m.(selected := Toggle(m.selected, m.cursor)), NoCmd)
      else
        Step(m, NoCmd)
  }

  /** The final model after feeding `msgs` in order. */
  function Run(m: ArticleListModel, msgs: seq<Msg>): ArticleListModel
    decreases |msgs|
  {
    if msgs == [] then m else Run(Update(m, msgs[0]).model, msgs[1..])
  }

  /** Whatever keys arrive, the cursor and the ticks stay in range and the
      articles stay as they were. */
  lemma {:induction false} RunKeepsInvariant(m: ArticleListModel, msgs: seq<Msg>)
    requires CursorInRange(m) && SelectionInRange(m)
    ensures var r := Run(m, msgs);
            CursorInRange(r) && SelectionInRange(r) && r.articles == m.articles
    decreases |msgs|
  {
    if msgs != [] {
      RunKeepsInvariant(Update(m, msgs[0]).model, msgs[1..]);
    }
  }

  /** Ticking twice restores the selection. */
  lemma ToggleTwiceRestores(m: ArticleListModel, k1: string, k2: string)
    requires IsToggleKey(k1) && IsToggleKey(k2)
    ensures Update(Update(m, Key(k1)).model, Key(k2)).model == m
  {

  }

  /** A forward move followed by a backward move returns to the start, as
      long as there was a next article to move to. */
  lemma ForwardThenBackward(m: ArticleListModel, f: string, b: string)
    requires IsForwardKey(f) && IsBackwardKey(b)
    requires 0 <= m.cursor < |m.articles| - 1
    ensures Update(Update(m, Key(f)).model, Key(b)).model == m
  {
  }

  /** The line the screen draws for article `i`. */
  function Row(m: ArticleListModel, i: int): (line: string)
    requires 0 <= i < |m.articles|
  {
    (if m.cursor == i then ">" else " ") + " [" + (if i in m.selected then "X" else "") + "] "
      + m.articles[i].title + "\n"
  }

  /** The lines for articles 0 .. n-1, in order. */
  function Rows(m: ArticleListModel, n: nat): string
    requires n <= |m.articles|
  {
    if n == 0 then "" else Rows(m, n - 1) + Row(m, n - 1)
  }

  /** The row for article `i` marks the cursor in its first column and a
      tick in its fourth, and ends with the title and a line break. */
  lemma RowMarks(m: ArticleListModel, i: int)
    requires 0 <= i < |m.articles|
    ensures var line := Row(m, i);
            && (line[0] == '>' <==> i == m.cursor)
            && (line[3] == 'X' <==> i in m.selected)
            && line[|line| - |m.articles[i].title| - 1..] == m.articles[i].title + "\n"
  {
  }

  /** Rows for a shorter prefix of the list are a prefix of the rows for a
      longer one, so line i of the screen is Row(m, i) wherever it stands. */
  lemma {:induction false} RowsExtend(m: ArticleListModel, i: nat, n: nat)
    requires i < n <= |m.articles|
    ensures Rows(m, i) + Row(m, i) <= Rows(m, n)
    decreases n - i
  {
    if n == i + 1 {
      assert Rows(m, n) == Rows(m, i) + Row(m, i);
    } else {
      RowsExtend(m, i, n - 1);
      var p := Rows(m, n - 1);
      assert Rows(m, n) == p + Row(m, n - 1);
    }
  }

  /** The screen: a heading, then one row per article in list order (so,
      by RowOnScreen, the row of article i follows the rows of 0 .. i-1). */
  method View(m: ArticleListModel) returns (s: string)
    ensures s == "Articles:\n" + Rows(m, |m.articles|)
  {
    s := "Articles:\n";
    var i := 0;
    while i < |m.articles|
      invariant 0 <= i <= |m.articles|
      invariant s == "Articles:\n" + Rows(m, i)
    {
      var cursor := if m.cursor == i then ">" else " ";
      var checked := if i in m.selected then "X" else "";
      s := s + cursor + " [" + checked + "] " + m.articles[i].title + "\n";
      i := i + 1;
    }
  }

  /** Row i stands on the screen right after the heading and rows 0 .. i-1. */
  lemma RowOnScreen(m: ArticleListModel, i: nat)
    requires i < |m.articles|
    ensures "Articles:\n" + Rows(m, i) + Row(m, i) <= "Articles:\n" + Rows(m, |m.articles|)
  {
    var h := "Articles:\n";
    var a := Rows(m, i) + Row(m, i);
    var b := Rows(m, |m.articles|);
    RowsExtend(m, i, |m.articles|);
    assert b == a + b[|a|..];
    assert h + b == (h + a) + b[|a|..];
    assert h + Rows(m, i) + Row(m, i) == h + a;
  }
}
