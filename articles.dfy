/**
 * The articles page: the article list is split into featured and regular
 * articles, and the regular ones are filtered by a search term (matched
 * case-insensitively against title or excerpt) and a category ('All' or an
 * exact category name).
 */
module Articles {
  import opened Strings

  /** The fields of an article the page's logic reads. */
  datatype Article = Article(id: int, title: string, excerpt: string, category: string, featured: bool)

  /** `articles.filter(article => article.featured)`. */
  function FeaturedArticles(articles: seq<Article>): (r: seq<Article>)
    ensures forall a :: a in r ==> a in articles && a.featured
  {
    if articles == [] then []
    else if articles[0].featured then [articles[0]] + FeaturedArticles(articles[1..])
    else FeaturedArticles(articles[1..])
  }

  /** `articles.filter(article => !article.featured)`. */
  function RegularArticles(articles: seq<Article>): (r: seq<Article>)
    ensures forall a :: a in r ==> a in articles && !a.featured
  {
    if articles == [] then []
    else if !articles[0].featured then [articles[0]] + RegularArticles(articles[1..])
    else RegularArticles(articles[1..])
  }

  /** The featured and regular lists split the articles: together they hold each article exactly once. */
  lemma {:induction false} FeaturedRegularPartition(articles: seq<Article>)
    ensures multiset(FeaturedArticles(articles)) + multiset(RegularArticles(articles)) == multiset(articles)
  {
    if articles != [] {
      FeaturedRegularPartition(articles[1..]);
      assert articles == [articles[0]] + articles[1..];
    }
  }

  /**
   * The search box and category buttons' test of one article: a matching
   * article is in the selected category (or 'All' is selected), and with an
   * empty search the category alone decides.
   */
  predicate Matches(article: Article, searchTerm: string, selectedCategory: string): (m: bool)
    ensures m ==> selectedCategory == "All" || article.category == selectedCategory
    ensures searchTerm == "" ==> (m <==> selectedCategory == "All" || article.category == selectedCategory)
  {
    var term := ToLower(searchTerm);
    ContainsEmpty(ToLower(article.title));
    (Contains(ToLower(article.title), term) || Contains(ToLower(article.excerpt), term))
    && (selectedCategory == "All" || article.category == selectedCategory)
  }

  /** `regularArticles.filter(..)`: the articles shown below the featured ones, each of them matching. */
  function FilteredArticles(regular: seq<Article>, searchTerm: string, selectedCategory: string): (shown: seq<Article>)
    ensures |shown| <= |regular|
    ensures forall i :: 0 <= i < |shown| ==> Matches(shown[i], searchTerm, selectedCategory)
  {
    if regular == [] then []
    else if Matches(regular[0], searchTerm, selectedCategory) then
      [regular[0]] + FilteredArticles(regular[1..], searchTerm, selectedCategory)
    else FilteredArticles(regular[1..], searchTerm, selectedCategory)
  }

  /** x is y with some elements left out, the rest in their order. */
  predicate IsSubsequence(x: seq<Article>, y: seq<Article>) {
    if x == [] then true
    else if y == [] then false
    else if x[0] == y[0] then IsSubsequence(x[1..], y[1..])
    else IsSubsequence(x, y[1..])
  }

  /** An article is shown exactly when it is regular and matches; the shown ones keep their order. */
  lemma {:induction false} FilteredIff(regular: seq<Article>, searchTerm: string, selectedCategory: string, a: Article)
    ensures a in FilteredArticles(regular, searchTerm, selectedCategory) <==> a in regular && Matches(a, searchTerm, selectedCategory)
    ensures IsSubsequence(FilteredArticles(regular, searchTerm, selectedCategory), regular)
  {
    if regular != [] {
      FilteredIff(regular[1..], searchTerm, selectedCategory, a);
      assert a in regular <==> a == regular[0] || a in regular[1..];
      var rest := FilteredArticles(regular[1..], searchTerm, selectedCategory);
      if !Matches(regular[0], searchTerm, selectedCategory) && rest != [] {
        FilteredIff(regular[1..], searchTerm, selectedCategory, rest[0]);
        assert rest[0] != regular[0];
      }
    }
  }

  /** The empty text is part of every text. */
  lemma ContainsEmpty(s: string)
    ensures Contains(s, "")
  {
  }

  /** With no search term and the 'All' category, every regular article is shown. */
  lemma {:induction false} EmptySearchShowsAll(regular: seq<Article>)
    ensures FilteredArticles(regular, "", "All") == regular
  {
    if regular != [] {
      EmptySearchShowsAll(regular[1..]);
    }
  }
}
