/**
 * The application shell: the hash route parser, the article lookup and the
 * "related articles" list of an article page, and the router state that
 * `navigate` and the search box change.
 */
module App {

  import opened Wrappers
  import opened Seqs
  import opened Text
  import Content

  /** The four pages the site can show. */
  datatype Route = Home | Article(id: string) | Directory | Product(id: string)

  /** `route.replace(/^#/, '')`: at most one leading `#` is dropped. */
  function StripHash(route: string): string
  {
    if route != [] && route[0] == '#' then route[1..] else route
  }

  predicate NonEmpty(part: string)
  {
    part != ""
  }

  /** `clean.split('/').filter(Boolean)`: the non-empty path segments of a fragment. */
  function Segments(route: string): seq<string>
  {
    Filter(Split(StripHash(route), '/'), NonEmpty)
  }

  /** Every segment is non-empty and free of `/`. */
  lemma SegmentsAreIds(route: string)
    ensures forall k :: 0 <= k < |Segments(route)| ==> IsRouteId(Segments(route)[k])
  {
    var pieces := Split(StripHash(route), '/');
    var parts := Segments(route);
    assert forall k :: 0 <= k < |parts| ==> parts[k] in pieces;
    SplitPieces(StripHash(route), '/');
  }

  /** Which page a list of segments names. */
  function Classify(parts: seq<string>): Route
  {
    if |parts| == 0 then Home
    else if parts[0] == "article" && |parts| > 1 then Article(parts[1])
    else if parts[0] == "directory" then Directory
    else if parts[0] == "product" && |parts| > 1 then Product(parts[1])
    else Home
  }

  /**
   * The route memo of the application shell: which page a location fragment
   * shows. Parsing never fails; every shape it does not recognise is Home,
   * and the id of an article or product page is a non-empty string without `/`.
   */
  function Parse(route: string): (r: Route)
    ensures (r.Article? || r.Product?) ==> IsRouteId(r.id)
  {
    SegmentsAreIds(route);
    Classify(Segments(route))
  }

  /** The fragment the site's own links and `navigate` calls use for each page. */
  function Format(r: Route): string
  {
    match r
    case Home => "#/"
    case Article(id) => "#/article/" + id
    case Directory => "#/directory"
    case Product(id) => "#/product/" + id
  }

  /** An id a route can carry: a non-empty string without `/`. */
  predicate IsRouteId(id: string)
  {
    id != "" && '/' !in id
  }

  /** Filtering drops an empty piece and keeps a route id. */
  lemma FilterPieces(id: string)
    requires IsRouteId(id)
    ensures Filter([""], NonEmpty) == [] && Filter([id], NonEmpty) == [id]
  {
  }

  /** The segments of `#/first/rest`: `first`, then those of `rest`. */
  lemma SegmentsAfter(first: string, rest: string)
    requires IsRouteId(first)
    ensures Segments("#/" + first + "/" + rest) == [first] + Filter(Split(rest, '/'), NonEmpty)
  {
    var route := "#/" + first + "/" + rest;
    var tail := Split(rest, '/');
    assert Split(StripHash(route), '/') == [""] + ([first] + tail) by {
      assert StripHash(route) == [] + ['/'] + (first + ['/'] + rest);
      SplitAt([], first + ['/'] + rest, '/');
      SplitAt(first, rest, '/');
      SplitNoSeparator(first, '/');
    }
    assert Filter([""] + ([first] + tail), NonEmpty) == [first] + Filter(tail, NonEmpty) by {
      FilterConcat([""], [first] + tail, NonEmpty);
      FilterConcat([first], tail, NonEmpty);
      FilterPieces(first);
    }
  }

  /** The segments of `#/first`: just `first`. */
  lemma SegmentsOfOne(first: string)
    requires IsRouteId(first)
    ensures Segments("#/" + first) == [first]
  {
    var route := "#/" + first;
    assert Split(StripHash(route), '/') == [""] + [first] by {
      assert StripHash(route) == [] + ['/'] + first;
      SplitAt([], first, '/');
      SplitNoSeparator(first, '/');
    }
    assert Filter([""] + [first], NonEmpty) == [first] by {
      FilterConcat([""], [first], NonEmpty);
      FilterPieces(first);
    }
  }

  /** The segments of `#/first/id/rest`: `first`, `id`, then those of `rest`. */
  lemma SegmentsAfterTwo(first: string, id: string, rest: string)
    requires IsRouteId(first) && IsRouteId(id)
    ensures Segments("#/" + first + "/" + (id + "/" + rest)) == [first, id] + Filter(Split(rest, '/'), NonEmpty)
  {
    SegmentsAfter(first, id + "/" + rest);
    LeadingId(id, rest);
  }

  /** A route id followed by `/` contributes itself as one segment. */
  lemma LeadingId(id: string, rest: string)
    requires IsRouteId(id)
    ensures Filter(Split(id + "/" + rest, '/'), NonEmpty) == [id] + Filter(Split(rest, '/'), NonEmpty)
  {
    var tail := Split(rest, '/');
    assert Split(id + "/" + rest, '/') == [id] + tail by {
      SplitAt(id, rest, '/');
      SplitNoSeparator(id, '/');
    }
    FilterConcat([id], tail, NonEmpty);
    FilterPieces(id);
  }

  /** The segments of `#/first/id`: exactly `first` and `id`. */
  lemma SegmentsPair(first: string, id: string)
    requires IsRouteId(first) && IsRouteId(id)
    ensures Segments("#/" + first + "/" + id) == [first, id]
  {
    SegmentsAfter(first, id);
    assert Filter(Split(id, '/'), NonEmpty) == [id] by {
      SplitNoSeparator(id, '/');
      FilterPieces(id);
    }
  }

  /** The segments of `#/first/`: the trailing `/` adds nothing. */
  lemma SegmentsTrailingSlash(first: string)
    requires IsRouteId(first)
    ensures Segments("#/" + first + "/") == [first]
  {
    SegmentsAfter(first, "");
    assert "#/" + first + "/" + "" == "#/" + first + "/";
    assert Split("", '/') == [""];
    FilterPieces(first);
  }

  /** `#/article/` spelled as the prefix and segment the segment lemmas take apart; kept apart to keep literal reasoning small. */
  lemma SpellArticle(rest: string)
    ensures "#/article/" + rest == "#/" + "article" + "/" + rest
  {
  }

  /** The same spelling step for `#/product/`. */
  lemma SpellProduct(rest: string)
    ensures "#/product/" + rest == "#/" + "product" + "/" + rest
  {
  }

  /** The same spelling step for `#/directory/`. */
  lemma SpellDirectory(rest: string)
    ensures "#/directory/" + rest == "#/" + "directory" + "/" + rest
  {
  }

  /** The route literals without an id, spelled segment by segment. */
  lemma SpellBare()
    ensures "#/article" == "#/" + "article" && "#/product" == "#/" + "product"
    ensures "#/directory" == "#/" + "directory"
    ensures "#/article/" == "#/" + "article" + "/" && "#/product/" == "#/" + "product" + "/"
  {
  }

  /** The fragment of an article page shows that article. */
  lemma ParseArticlePage(id: string)
    requires IsRouteId(id)
    ensures Parse("#/article/" + id) == Article(id)
  {
    SpellArticle(id);
    SegmentsPair("article", id);
  }

  /** The fragment of a product page shows that product. */
  lemma ParseProductPage(id: string)
    requires IsRouteId(id)
    ensures Parse("#/product/" + id) == Product(id)
  {
    SpellProduct(id);
    SegmentsPair("product", id);
  }

  /** The fragment of the directory page shows the directory. */
  lemma ParseDirectoryPage()
    ensures Parse("#/directory") == Directory
  {
    SpellBare();
    SegmentsOfOne("directory");
  }

  /** Parsing the fragment of a page gives back that page. */
  lemma ParseFormat(r: Route)
    requires (r.Article? || r.Product?) ==> IsRouteId(r.id)
    ensures Parse(Format(r)) == r
  {
    match r
    case Home => ParseHome();
    case Article(id) => ParseArticlePage(id);
    case Directory => ParseDirectoryPage();
    case Product(id) => ParseProductPage(id);
  }

  /** The empty fragment, `#` and `#/` all show Home. */
  lemma ParseHome()
    ensures Parse("") == Home && Parse("#") == Home && Parse("#/") == Home
  {
    assert StripHash("#/") == "/";
    assert Split("/", '/') == ["", ""];
  }

  /** A fragment made only of slashes, with or without the `#`, shows Home. */
  lemma ParseSlashesOnly(s: string)
    requires forall k :: 0 <= k < |s| ==> s[k] == '/'
    ensures Parse(s) == Home && Parse("#" + s) == Home
  {
    assert StripHash("#" + s) == s;
    assert StripHash(s) == s;
    assert Segments(s) == [] && Segments("#" + s) == [] by {
      SplitSeparatorsOnly(s, '/');
      NoneNonEmpty(Split(s, '/'));
    }
  }

  lemma NoneNonEmpty(pieces: seq<string>)
    requires forall k :: 0 <= k < |pieces| ==> pieces[k] == ""
    ensures Filter(pieces, NonEmpty) == []
  {
  }

  /**
   * Empty segments are ignored: doubling a `/` anywhere after the `#` does not
   * change the page.
   */
  lemma ParseDoubledSlash(a: string, b: string)
    requires a != [] && a[0] == '#'
    ensures Parse(a + "//" + b) == Parse(a + "/" + b)
  {
    SegmentsDoubledSlash(a, b);
  }

  lemma SegmentsDoubledSlash(a: string, b: string)
    requires a != [] && a[0] == '#'
    ensures Segments(a + "//" + b) == Segments(a + "/" + b)
  {
    var x := a[1..];
    var px, pb := Split(x, '/'), Split(b, '/');
    assert StripHash(a + "//" + b) == x + ['/'] + ("/" + b);
    assert StripHash(a + "/" + b) == x + ['/'] + b;
    SplitDoubledSlash(x, b);
    SplitAt(x, b, '/');
    FilterSkipsEmpty(px, pb);
  }

  lemma SplitDoubledSlash(x: string, b: string)
    ensures Split(x + ['/'] + ("/" + b), '/') == Split(x, '/') + ([""] + Split(b, '/'))
  {
    SplitAt(x, "/" + b, '/');
    SplitAt([], b, '/');
    assert [] + ['/'] + b == "/" + b;
  }

  lemma FilterSkipsEmpty(px: seq<string>, pb: seq<string>)
    ensures Filter(px + ([""] + pb), NonEmpty) == Filter(px + pb, NonEmpty)
  {
    FilterConcat(px, [""] + pb, NonEmpty);
    FilterConcat([""], pb, NonEmpty);
    FilterConcat(px, pb, NonEmpty);
    FilterPieces("x");
    assert [] + Filter(pb, NonEmpty) == Filter(pb, NonEmpty);
  }

  /** So `#//article//x` shows the article `x`. */
  lemma ParseSkipsEmptySegments(id: string)
    requires IsRouteId(id)
    ensures Parse("#//article//" + id) == Article(id)
  {
    SpellDoubled(id);
    ParseDoubledSlash("#", "article//" + id);
    ParseDoubledSlash("#/article", id);
    ParseArticlePage(id);
  }

  /** `#//article//<id>` regrouped around its doubled slashes, one step per doubled slash. */
  lemma SpellDoubled(id: string)
    ensures "#//article//" + id == "#" + "//" + ("article//" + id)
    ensures "#" + "/" + ("article//" + id) == "#/article" + "//" + id
    ensures "#/article" + "/" + id == "#/article/" + id
  {
  }

  /** An article fragment shows that article whatever segments follow the id. */
  lemma ParseArticleIgnoresTail(id: string, rest: string)
    requires IsRouteId(id)
    ensures Parse("#/article/" + id + "/" + rest) == Article(id)
  {
    var route := "#/article/" + id + "/" + rest;
    assert route == "#/" + "article" + "/" + (id + "/" + rest) by {
      SpellArticle(id + "/" + rest);
    }
    SegmentsAfterTwo("article", id, rest);
  }

  /** An article fragment without an id falls back to Home. */
  lemma ParseArticleWithoutId()
    ensures Parse("#/article") == Home && Parse("#/article/") == Home
  {
    SpellBare();
    SegmentsOfOne("article");
    SegmentsTrailingSlash("article");
  }

  /** A product fragment without an id falls back to Home. */
  lemma ParseProductWithoutId()
    ensures Parse("#/product") == Home && Parse("#/product/") == Home
  {
    SpellBare();
    SegmentsOfOne("product");
    SegmentsTrailingSlash("product");
  }

  /** A first segment `directory` shows the directory whatever follows it. */
  lemma ParseDirectoryIgnoresTail(rest: string)
    ensures Parse("#/directory/" + rest) == Directory
  {
    SpellDirectory(rest);
    SegmentsAfter("directory", rest);
  }

  /** Any other first segment shows Home. */
  lemma ParseUnknownIsHome(first: string, rest: string)
    requires IsRouteId(first) && first != "article" && first != "directory" && first != "product"
    ensures Parse("#/" + first) == Home && Parse("#/" + first + "/" + rest) == Home
  {
    SegmentsOfOne(first);
    SegmentsAfter(first, rest);
  }

  /**
   * `articles.find(a => a.id === id)`: the first article with exactly that id,
   * or nothing when no article has it.
   */
  function FindArticle(articles: seq<Content.Article>, id: string): Option<Content.Article>
  {
    FindBy(articles, ArticleId, id)
  }

  function ArticleId(a: Content.Article): string
  {
    a.id
  }

  function OtherThan(id: string): Content.Article -> bool
  {
    (a: Content.Article) => a.id != id
  }

  /**
   * `articles.filter(a => a.id !== id).slice(0, 3)`: up to three other
   * articles, the first ones in the list's order.
   */
  function Related(articles: seq<Content.Article>, id: string): (r: seq<Content.Article>)
    ensures |r| == if |Filter(articles, OtherThan(id))| < 3 then |Filter(articles, OtherThan(id))| else 3
    ensures IsSubseq(r, articles)
    ensures forall a :: a in r ==> a in articles && a.id != id
    ensures r <= Filter(articles, OtherThan(id))
    ensures |r| < 3 ==> forall a :: a in articles && a.id != id ==> a in r
  {
    var others := Filter(articles, OtherThan(id));
    FilterIsSubseq(articles, OtherThan(id));
    if |others| <= 3 then others
    else
      SubseqPrefix(others, articles, 3);
      var r := others[..3];
      assert r <= others && |r| == 3;
      assert forall a :: a in r ==> a in others;
      r
  }

  /**
   * The router state of the application shell: the location fragment, the
   * route the shell renders (the fragment, or `#/` when it is empty) and the
   * search query the home page filters by.
   */
  class Router {
    var hash: string
    var route: string
    var query: string

    ghost predicate Valid()
      reads this
    {
      route == (if hash == "" then "#/" else hash)
    }

    /** The page the shell shows. */
    function Page(): Route
      reads this
    {
      Parse(route)
    }

    constructor (initialHash: string)
      ensures Valid() && hash == initialHash && query == ""
    {
      hash := initialHash;
      route := if initialHash == "" then "#/" else initialHash;
      query := "";
    }

    /** `navigate(r)`: set the fragment; the route follows it. */
    method Navigate(r: string)
      requires Valid()
      modifies this
      ensures Valid() && hash == r && query == old(query)
    {
      hash := r;
      route := if r == "" then "#/" else r;
    }

    /**
     * `onSearch(value)`: remember the query and go home unless the fragment
     * already names the home page; the home page is shown afterwards.
     */
    method OnSearch(value: string)
      requires Valid()
      modifies this
      ensures Valid() && query == value
      ensures hash == if old(hash) in {"", "#/", "#"} then old(hash) else "#/"
      ensures Page() == Home
    {
      query := value;
      if hash == "" || hash == "#/" || hash == "#" {
      } else {
        Navigate("#/");
      }
      ParseHome();
    }

    /** Opening an article card navigates to that article's page. */
    method OpenArticle(id: string)
      requires Valid()
      modifies this
      ensures Valid() && hash == "#/article/" + id && query == old(query)
      ensures IsRouteId(id) ==> Page() == Article(id)
    {
      Navigate("#/article/" + id);
      if IsRouteId(id) {
        ParseFormat(Article(id));
      }
    }

    /** Opening a directory card navigates to that item's page. */
    method OpenItem(id: string)
      requires Valid()
      modifies this
      ensures Valid() && hash == "#/product/" + id && query == old(query)
      ensures IsRouteId(id) ==> Page() == Product(id)
    {
      Navigate("#/product/" + id);
      if IsRouteId(id) {
        ParseFormat(Product(id));
      }
    }
  }
}
