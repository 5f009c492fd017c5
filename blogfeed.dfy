/**
 * The article search of the blog feed: the `filtered` memo of `BlogFeed`.
 * An article is kept when the lower-cased text made of its title, excerpt and
 * tags, joined with spaces, contains the lower-cased and trimmed query; a
 * missing or blank query keeps every article.
 */
module BlogFeed {

  import opened Wrappers
  import opened Seqs
  import opened Text
  import Content

  /** `[a.title, a.excerpt, ...(a.tags || [])].join(' ')`. */
  function SearchText(a: Content.Article): string
  {
    Join([a.title, a.excerpt] + a.tags.GetOr([]), " ")
  }

  /** `(query || '').toLowerCase().trim()`. */
  function Needle(query: Option<string>): string
  {
    Trim(Lower(query.GetOr("")))
  }

  /** The test the feed applies to one article for a non-empty needle. */
  predicate Matches(a: Content.Article, needle: string)
  {
    Contains(Lower(SearchText(a)), needle)
  }

  function Matcher(needle: string): Content.Article -> bool
  {
    (a: Content.Article) => Matches(a, needle)
  }

  /**
   * The articles the feed shows for `query`: all of them for a blank query,
   * otherwise exactly the matching ones, always in their original order.
   */
  function Filtered(articles: seq<Content.Article>, query: Option<string>): (r: seq<Content.Article>)
    ensures IsSubseq(r, articles) && |r| <= |articles|
    ensures Needle(query) == [] ==> r == articles
    ensures Needle(query) != [] ==> forall a :: a in r <==> a in articles && Matches(a, Needle(query))
    ensures Needle(query) != [] ==>
      forall a :: multiset(r)[a] == if Matches(a, Needle(query)) then multiset(articles)[a] else 0
  {
    var q := Needle(query);
    if q == [] then
      SubseqRefl(articles);
      articles
    else
      FilterIsSubseq(articles, Matcher(q));
      FilterCounts(articles, Matcher(q));
      Filter(articles, Matcher(q))
  }

  /** A missing, empty or whitespace-only query shows every article, unchanged. */
  lemma BlankQueryKeepsAll(articles: seq<Content.Article>, query: Option<string>)
    requires query.None? || AllWhitespace(query.value)
    ensures Filtered(articles, query) == articles
  {
    var s := query.GetOr("");
    LowerBlank(s);
  }

  /** Conversely, a query with a visible character is applied as a filter. */
  lemma VisibleQueryFilters(articles: seq<Content.Article>, query: string)
    requires !AllWhitespace(query)
    ensures Filtered(articles, Some(query)) == Filter(articles, Matcher(Needle(Some(query))))
  {
    LowerBlank(query);
  }

  /** Filtering the feed's result again with the same query changes nothing. */
  lemma FilteredIdempotent(articles: seq<Content.Article>, query: Option<string>)
    ensures Filtered(Filtered(articles, query), query) == Filtered(articles, query)
  {
    var q := Needle(query);
    if q != [] {
      FilterIdempotent(articles, Matcher(q));
    }
  }

  /** The case of the query does not matter. */
  lemma SearchIgnoresCase(articles: seq<Content.Article>, query: string)
    ensures Filtered(articles, Some(Upper(query))) == Filtered(articles, Some(query))
    ensures Filtered(articles, Some(Lower(query))) == Filtered(articles, Some(query))
  {
    LowerIgnoresCase(query);
  }

  /** Whitespace around the query does not matter. */
  lemma SearchIgnoresPadding(articles: seq<Content.Article>, pre: string, query: string, post: string)
    requires AllWhitespace(pre) && AllWhitespace(post)
    ensures Filtered(articles, Some(pre + query + post)) == Filtered(articles, Some(query))
  {
    assert Needle(Some(pre + query + post)) == Needle(Some(query)) by {
      LowerConcat(pre + query, post);
      LowerConcat(pre, query);
      LowerBlank(pre);
      LowerBlank(post);
      TrimPadded(Lower(pre), Lower(query), Lower(post));
    }
  }

  /** An article without tags is searched by its title and excerpt alone. */
  lemma MissingTagsSearchTitleAndExcerpt(a: Content.Article)
    requires a.tags.None? || a.tags == Some([])
    ensures SearchText(a) == a.title + " " + a.excerpt
  {
    assert [a.title, a.excerpt] + a.tags.GetOr([]) == [a.title, a.excerpt];
    assert [a.title, a.excerpt][1..] == [a.excerpt];
    assert Join([a.excerpt], " ") == a.excerpt;
  }

  /** The search text begins with the title, so a title that contains the needle matches. */
  lemma TitleMatches(a: Content.Article, needle: string)
    requires Contains(Lower(a.title), needle)
    ensures Matches(a, needle)
  {
    var parts := [a.title, a.excerpt] + a.tags.GetOr([]);
    var rest := Join(parts[1..], " ");
    assert SearchText(a) == a.title + (" " + rest) by {
      assert parts[0] == a.title && |parts| >= 2;
    }
    LowerConcat(a.title, " " + rest);
    ContainsInConcat(Lower(a.title), Lower(" " + rest), needle);
  }

  /** Each tag is part of the search text, so a tag that contains the needle matches. */
  lemma TagMatches(a: Content.Article, k: nat, needle: string)
    requires a.tags.Some? && k < |a.tags.value|
    requires Contains(Lower(a.tags.value[k]), needle)
    ensures Matches(a, needle)
  {
    var parts := [a.title, a.excerpt] + a.tags.value;
    assert parts[k + 2] == a.tags.value[k];
    JoinHasPart(parts, " ", k + 2, needle);
  }

  /** A needle inside one part (after lower-casing) is inside the lower-cased join. */
  lemma {:induction false} JoinHasPart(parts: seq<string>, sep: string, k: nat, needle: string)
    requires k < |parts| && Contains(Lower(parts[k]), needle)
    ensures Contains(Lower(Join(parts, sep)), needle)
  {
    if |parts| > 1 {
      var rest := Join(parts[1..], sep);
      assert Join(parts, sep) == parts[0] + (sep + rest);
      LowerConcat(parts[0], sep + rest);
      if k == 0 {
        ContainsInConcat(Lower(parts[0]), Lower(sep + rest), needle);
      } else {
        assert parts[1..][k - 1] == parts[k];
        JoinHasPart(parts[1..], sep, k - 1, needle);
        LowerConcat(sep, rest);
        ContainsInConcat(Lower(sep), Lower(rest), needle);
        ContainsInConcat(Lower(parts[0]), Lower(sep + rest), needle);
      }
    }
  }
}
