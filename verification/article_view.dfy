/** The single-article viewer (internal/app/middleware/articleview.go): the
    Article record, the fixed article source and lookup by ID, and a screen
    whose only reaction to input is to quit. */
module ArticleView {
  import opened Tea

  /** A clock reading. `time.Now()` is outside the model: every function that
      stamps an article takes the readings as parameters. */
  datatype Time = Time(ticks: int)

  /** Go's zero `time.Time`. */
  const ZeroTime := Time(0)

  datatype Article = Article(id: int, title: string, description: string, content: string, dateCreated: Time)

  /** Go's zero `Article{}`: ID 0, empty strings, zero time. */
  const ZeroArticle := Article(0, "", "", "", ZeroTime)

  /** The article source: two articles stamped with the two clock readings
      `t1` and `t2` (Go calls `time.Now()` once per article). */
  function FetchArticles(t1: Time, t2: Time): (r: seq<Article>)
    ensures |r| == 2
    ensures r[0].id == 1 && r[1].id == 2
    ensures r[0].title == "First Article" && r[1].title == "Second Article"
    ensures r[0].dateCreated == t1 && r[1].dateCreated == t2
  {
    [ Article(1, "First Article", "This is the first article.", "Content of the first article", t1),
      Article(2, "Second Article", "This is the second article.", "Content of the second article", t2) ]
  }

  /** The first article of the source whose ID is `id`, or the zero Article
      when none has it. */
  method FetchArticleByID(id: int, t1: Time, t2: Time) returns (a: Article)
    ensures var arts := FetchArticles(t1, t2);
            (exists i :: 0 <= i < |arts| && arts[i].id == id) ==>
              exists i :: 0 <= i < |arts| && arts[i].id == id && a == arts[i]
                          && forall j :: 0 <= j < i ==> arts[j].id != id
    ensures var arts := FetchArticles(t1, t2);
            (forall i :: 0 <= i < |arts| ==> arts[i].id != id) ==> a == ZeroArticle
    ensures id == 1 ==> a == FetchArticles(t1, t2)[0]
    ensures id == 2 ==> a == FetchArticles(t1, t2)[1]
    ensures id != 1 && id != 2 ==> a == ZeroArticle
  {
    var articles := FetchArticles(t1, t2);
    var k := 0;
    while k < |articles|
      invariant 0 <= k <= |articles|
      invariant forall j :: 0 <= j < k ==> articles[j].id != id
    {
      if articles[k].id == id {
        return articles[k];
      }
      k := k + 1;
    }
    return ZeroArticle;
  }

  datatype ArticleViewModel = ArticleViewModel(article: Article)

  /** Messages the viewer can receive: a key, named as Bubble Tea names it
      ("q", "ctrl+c", ...), or anything else. */
  datatype Msg = Key(name: string) | NonKey

  /** The viewer never changes its model; "q" and "ctrl+c" quit. */
  function Update(m: ArticleViewModel, msg: Msg): (r: Step<ArticleViewModel>)
    ensures r.model == m
    ensures r.cmd == Quit <==> msg == Key("q") || msg == Key("ctrl+c")
    ensures r.cmd != Quit ==> r.cmd == NoCmd
  {
    match msg
    case Key(k) => if k == "q" || k == "ctrl+c" then Step(m, Quit) else Step(m, NoCmd)
    case NonKey => Step(m, NoCmd)
  }

  const QuitHint := "\n\nPress 'q' to quit\n"

  /** The screen: the title, a blank line, the content, and the quit hint. */
  function View(m: ArticleViewModel): (r: string)
    ensures |r| == 7 + |m.article.title| + 2 + |m.article.content| + |QuitHint|
    ensures r[..7] == "Title: " && r[7..7 + |m.article.title|] == m.article.title
    ensures r[7 + |m.article.title|..][..2] == "\n\n"
    ensures r[9 + |m.article.title|..][..|m.article.content|] == m.article.content
    ensures r[|r| - |QuitHint|..] == QuitHint
  {
    "Title: " + m.article.title + "\n\n" + m.article.content + QuitHint
  }

  /** The screen shows the title and the content and nothing else of the
      article: ID, description and date do not reach it. */
  lemma ViewShowsOnlyTitleAndContent(m: ArticleViewModel, a: Article)
    requires a.title == m.article.title && a.content == m.article.content
    ensures View(ArticleViewModel(a)) == View(m)
  {
  }

  /** The screen can be read back: once the title's length is known, equal
      screens mean equal titles and equal contents. */
  lemma ViewDeterminesText(m1: ArticleViewModel, m2: ArticleViewModel)
    requires |m1.article.title| == |m2.article.title|
    requires View(m1) == View(m2)
    ensures m1.article.title == m2.article.title && m1.article.content == m2.article.content
  {

  }
}
