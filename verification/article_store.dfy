/** The in-memory article store of the Fastify backend: an ordered list of
    articles with create, lookup, update, delete, a conjunctive search and
    the ASCII slug rule. Ids (`nanoid()`) and timestamps
    (`new Date().toISOString()`) are parameters of the operations. */
module ArticleStore {
  import opened Wrappers
  import opened Text
  import opened SlugText
  import Seqs

  datatype Article = Article(
    id: string,
    title: string,
    content: string,
    category: string,
    slug: string,
    createdAt: string,
    updatedAt: Option<string>)

  datatype CreateArticleRequest = CreateArticleRequest(title: string, content: string, category: string)

  /** A field that is `None` was not given in the request. */
  datatype UpdateArticleRequest = UpdateArticleRequest(
    title: Option<string>,
    content: Option<string>,
    category: Option<string>)

  /** Search filters as strings (dates as `YYYY-MM-DD`). */
  datatype SearchFilters = SearchFilters(
    keyword: Option<string>,
    category: Option<string>,
    dateFrom: Option<string>,
    dateTo: Option<string>)

  // ---------------------------------------------------------------------
  // Slugs

  predicate IsSlugChar(c: char)
  {
    ('a' <= c <= 'z') || ('0' <= c <= '9') || c == '-'
  }

  /** The characters `[^a-z0-9\s-]` does not remove. */
  predicate KeptBySlug(c: char)
  {
    ('a' <= c <= 'z') || ('0' <= c <= '9') || IsSpace(c) || c == '-'
  }

  /** `generateSlug`: lower-case, drop everything but `a-z0-9`, whitespace
      and '-', turn whitespace runs into '-', merge hyphen runs, and drop a
      hyphen at either end. */
  function GenerateSlug(title: string): (slug: string)
    ensures forall i :: 0 <= i < |slug| ==> IsSlugChar(slug[i])
    ensures NoDoubleHyphen(slug)
    ensures slug == [] || (slug[0] != '-' && slug[|slug| - 1] != '-')
  {
    var kept := Seqs.Filter(Lower(title), KeptBySlug);
    var hyphenated := SpacesToHyphen(kept);
    assert forall i :: 0 <= i < |hyphenated| ==> IsSlugChar(hyphenated[i]);
    StripEdgeHyphens(CollapseHyphens(hyphenated))
  }

  /** A letter or digit a slug keeps from the lower-cased title. */
  predicate IsLowerAlnum(c: char)
  {
    ('a' <= c <= 'z') || ('0' <= c <= '9')
  }

  /** Apart from its hyphens, the slug is exactly the a-z and 0-9
      characters of the lower-cased title, in order. */
  lemma GenerateSlugKeepsWords(title: string)
    ensures Seqs.Filter(GenerateSlug(title), NotHyphen) == Seqs.Filter(Lower(title), IsLowerAlnum)
  {
    var kept := Seqs.Filter(Lower(title), KeptBySlug);
    var hyphenated := SpacesToHyphen(kept);
    assert GenerateSlug(title) == StripEdgeHyphens(CollapseHyphens(hyphenated));
    StripEdgeKeepsWords(CollapseHyphens(hyphenated));
    CollapseKeepsWords(hyphenated);
    SpacesToHyphenKeepsWords(kept);
    LowerAlnumIsKeptWord();
    Seqs.FilterFilter(Lower(title), KeptBySlug, IsWordChar, IsLowerAlnum);
  }

  lemma LowerAlnumIsKeptWord()
    ensures forall c :: IsLowerAlnum(c) == (KeptBySlug(c) && IsWordChar(c))
  {
  }

  /** The slug of "New Article". */
  lemma GenerateSlugExample()
    ensures GenerateSlug("New Article") == "new-article"
  {
    ExampleFinished();
    ExampleKept();
    ExampleHyphenated();
  }

  lemma ExampleFinished()
    ensures StripEdgeHyphens(CollapseHyphens("new-article")) == "new-article"
  {
    var slug := "new-article";
    assert NoDoubleHyphen(slug);
    assert slug[0] != '-' && slug[|slug| - 1] != '-';
  }

  lemma ExampleKept()
    ensures Seqs.Filter(Lower("New Article"), KeptBySlug) == "new article"
  {
    assert Lower("New Article") == "new article";
    assert forall i :: 0 <= i < 11 ==> KeptBySlug("new article"[i]);
    Seqs.FilterAll("new article", KeptBySlug);
  }

  lemma ExampleHyphenated()
    ensures SpacesToHyphen("new article") == "new-article"
  {
    ExampleWords();
    SingleSpaceToHyphen("new", "article");
  }

  lemma ExampleWords()
    ensures NoSpace("new") && NoSpace("article")
    ensures "new" + " " + "article" == "new article"
    ensures "new" + "-" + "article" == "new-article"
  {
  }

  // ---------------------------------------------------------------------
  // Lookup by id

  /** `articles.findIndex(a => a.id === id)`. */
  function FindIndex(s: seq<Article>, id: string): (k: int)
    ensures -1 <= k < |s|
    ensures k >= 0 ==> s[k].id == id && forall j :: 0 <= j < k ==> s[j].id != id
    ensures k == -1 ==> forall j :: 0 <= j < |s| ==> s[j].id != id
  {
    if s == [] then -1
    else if s[0].id == id then 0
    else
      var k := FindIndex(s[1..], id);
      if k == -1 then -1 else k + 1
  }

  ghost predicate UniqueIds(s: seq<Article>)
  {
    forall i, j :: 0 <= i < j < |s| ==> s[i].id != s[j].id
  }

  // ---------------------------------------------------------------------
  // Update

  /** `{ ...existing, ...data, slug, updated_at }`. */
  function Merge(existing: Article, data: UpdateArticleRequest, now: string): (u: Article)
    ensures u.id == existing.id && u.createdAt == existing.createdAt
    ensures u.updatedAt == Some(now)
  {
    existing.(
      title := data.title.GetOr(existing.title),
      content := data.content.GetOr(existing.content),
      category := data.category.GetOr(existing.category),
      slug := if data.title.Some? && Truthy(data.title.value) then GenerateSlug(data.title.value) else existing.slug,
      updatedAt := Some(now))
  }

  ghost predicate SlugInSync(a: Article)
  {
    a.slug == GenerateSlug(a.title)
  }

  /** Given fields overwrite, absent ones are kept, and the slug follows a
      new non-empty title; id and creation time never change. */
  lemma MergeFields(existing: Article, data: UpdateArticleRequest, now: string)
    ensures var u := Merge(existing, data, now);
      && (data.title.Some? ==> u.title == data.title.value)
      && (data.title.None? ==> u.title == existing.title)
      && (data.content.Some? ==> u.content == data.content.value)
      && (data.content.None? ==> u.content == existing.content)
      && (data.category.Some? ==> u.category == data.category.value)
      && (data.category.None? ==> u.category == existing.category)
      && (data.title.Some? && data.title.value != "" ==> u.slug == GenerateSlug(data.title.value))
      && (data.title.None? || data.title.value == "" ==> u.slug == existing.slug)
  {
  }

  /** The slug stays derived from the title across an update, unless the
      update sets the title to the empty string (the slug is then kept). */
  lemma MergeKeepsSlugInSync(existing: Article, data: UpdateArticleRequest, now: string)
    requires SlugInSync(existing)
    requires data.title != Some("")
    ensures SlugInSync(Merge(existing, data, now))
  {
  }

  /** An empty title desynchronises the slug: the title becomes "" while the
      old slug is kept. */
  lemma EmptyTitleKeepsOldSlug(existing: Article, now: string)
    requires existing.slug != []
    ensures !SlugInSync(Merge(existing, UpdateArticleRequest(Some(""), None, None), now))
  {
    assert GenerateSlug([]) == [] by {
      assert Lower([]) == [];
    }
  }

  // ---------------------------------------------------------------------
  // Search

  /** `article.created_at` reparsed and cut at 'T': the `YYYY-MM-DD` part
      of an ISO timestamp. */
  function DayOf(createdAt: string): (day: string)
    ensures |day| <= |createdAt| && day == createdAt[..|day|]
    ensures 'T' !in day
    ensures |day| == |createdAt| || createdAt[|day|] == 'T'
  {
    if createdAt == [] || createdAt[0] == 'T' then []
    else [createdAt[0]] + DayOf(createdAt[1..])
  }

  /** JavaScript's `a < b` on strings: lexicographic by character. */
  predicate StrLess(a: string, b: string)
  {
    if b == [] then false
    else if a == [] then true
    else if a[0] != b[0] then a[0] < b[0]
    else StrLess(a[1..], b[1..])
  }

  predicate Given(s: Option<string>)
  {
    s.Some? && Truthy(s.value)
  }

  predicate KeywordOk(f: SearchFilters, a: Article)
  {
    Given(f.keyword) ==>
      Contains(Lower(a.title), Lower(f.keyword.value)) || Contains(Lower(a.content), Lower(f.keyword.value))
  }

  predicate CategoryOk(f: SearchFilters, a: Article)
  {
    Given(f.category) ==> a.category == f.category.value
  }

  predicate DateOk(f: SearchFilters, a: Article)
  {
    && (Given(f.dateFrom) ==> !StrLess(DayOf(a.createdAt), f.dateFrom.value))
    && (Given(f.dateTo) ==> !StrLess(f.dateTo.value, DayOf(a.createdAt)))
  }

  /** An article satisfies every given filter. */
  predicate Matches(f: SearchFilters, a: Article)
  {
    KeywordOk(f, a) && CategoryOk(f, a) && DateOk(f, a)
  }

  function Matcher(f: SearchFilters): Article -> bool
  {
    a => Matches(f, a)
  }

  /** The search result is the articles that match, in store order. */
  lemma SearchIsOrderedSubset(s: seq<Article>, f: SearchFilters)
    ensures Seqs.IsSubsequence(Seqs.Filter(s, Matcher(f)), s)
    ensures forall i :: 0 <= i < |s| && Matches(f, s[i]) ==> s[i] in Seqs.Filter(s, Matcher(f))
    ensures forall a :: a in Seqs.Filter(s, Matcher(f)) ==> a in s && Matches(f, a)
  {
    Seqs.FilterIsSubsequence(s, Matcher(f));
  }

  /** Absent or empty filters exclude nothing. */
  lemma SearchWithoutFilters(s: seq<Article>, f: SearchFilters)
    requires !Given(f.keyword) && !Given(f.category) && !Given(f.dateFrom) && !Given(f.dateTo)
    ensures Seqs.Filter(s, Matcher(f)) == s
  {
    Seqs.FilterAll(s, Matcher(f));
  }

  /** Keyword and category together give the intersection of the two
      single-filter searches. */
  lemma SearchIsConjunctive(s: seq<Article>, kw: string, cat: string, a: Article)
    ensures var both := SearchFilters(Some(kw), Some(cat), None, None);
      var byKeyword := SearchFilters(Some(kw), None, None, None);
      var byCategory := SearchFilters(None, Some(cat), None, None);
      (a in Seqs.Filter(s, Matcher(both)) <==>
        a in Seqs.Filter(s, Matcher(byKeyword)) && a in Seqs.Filter(s, Matcher(byCategory)))
  {
    var both := SearchFilters(Some(kw), Some(cat), None, None);
    var byKeyword := SearchFilters(Some(kw), None, None, None);
    var byCategory := SearchFilters(None, Some(cat), None, None);
    SearchIsOrderedSubset(s, both);
    SearchIsOrderedSubset(s, byKeyword);
    SearchIsOrderedSubset(s, byCategory);
    if a in s {
      var i :| 0 <= i < |s| && s[i] == a;
      assert Matches(both, a) <==> Matches(byKeyword, a) && Matches(byCategory, a);
    }
  }

  // ---------------------------------------------------------------------
  // The repository

  class InMemoryArticleRepository {
    var articles: seq<Article>

    constructor ()
      ensures articles == []
    {
      articles := [];
    }

    /** `[...this.articles]`: every article in creation order (a value, so
        later changes to the store do not reach it). */
    method FindAll() returns (r: seq<Article>)
      ensures r == articles
    {
      r := articles;
    }

    /** The first article with that id, or `null`. */
    method FindById(id: string) returns (r: Option<Article>)
      ensures r.Some? <==> exists i :: 0 <= i < |articles| && articles[i].id == id
      ensures r.Some? ==> r.value.id == id && r.value in articles
      ensures r.Some? ==> r.value == articles[FindIndex(articles, id)]
    {
      var k := FindIndex(articles, id);
      r := if k == -1 then None else Some(articles[k]);
    }

    method Create(data: CreateArticleRequest, id: string, now: string) returns (a: Article)
      modifies this
      ensures a == Article(id, data.title, data.content, data.category, GenerateSlug(data.title), now, None)
      ensures articles == old(articles) + [a]
    {
      a := Article(id, data.title, data.content, data.category, GenerateSlug(data.title), now, None);
      articles := articles + [a];
    }

    method Update(id: string, data: UpdateArticleRequest, now: string) returns (r: Option<Article>)
      modifies this
      ensures FindIndex(old(articles), id) == -1 ==> r == None && articles == old(articles)
      ensures FindIndex(old(articles), id) >= 0 ==>
        var k := FindIndex(old(articles), id);
        && r == Some(Merge(old(articles)[k], data, now))
        && articles == old(articles)[k := r.value]
    {
      var index := FindIndex(articles, id);
      if index == -1 {
        return None;
      }
      var existing := articles[index];
      var updated := Merge(existing, data, now);
      articles := articles[index := updated];
      r := Some(updated);
    }

    method Delete(id: string) returns (deleted: bool)
      modifies this
      ensures deleted <==> FindIndex(old(articles), id) >= 0
      ensures !deleted ==> articles == old(articles)
      ensures deleted ==>
        var k := FindIndex(old(articles), id);
        articles == old(articles)[..k] + old(articles)[k + 1..]
    {
      var index := FindIndex(articles, id);
      if index == -1 {
        return false;
      }
      articles := articles[..index] + articles[index + 1..];
      deleted := true;
    }

    /** Narrows a copy of the store by keyword, then category, then dates. */
    method Search(filters: SearchFilters) returns (results: seq<Article>)
      ensures results == Seqs.Filter(articles, Matcher(filters))
    {
      ghost var p1 := (a: Article) => KeywordOk(filters, a);
      ghost var p2 := (a: Article) => KeywordOk(filters, a) && CategoryOk(filters, a);
      results := articles;
      if Given(filters.keyword) {
        var keyword := Lower(filters.keyword.value);
        var byKeyword := (a: Article) => Contains(Lower(a.title), keyword) || Contains(Lower(a.content), keyword);
        results := Seqs.Filter(results, byKeyword);
        Seqs.FilterExt(articles, byKeyword, p1);
      } else {
        Seqs.FilterAll(articles, p1);
      }
      assert results == Seqs.Filter(articles, p1);

      ghost var before := results;
      if Given(filters.category) {
        var category := filters.category.value;
        var byCategory := (a: Article) => a.category == category;
        results := Seqs.Filter(results, byCategory);
        Seqs.FilterFilter(articles, p1, byCategory, p2);
      } else {
        Seqs.FilterAll(before, (a: Article) => CategoryOk(filters, a));
        Seqs.FilterExt(articles, p1, p2);
      }
      assert results == Seqs.Filter(articles, p2);

      before := results;
      if Given(filters.dateFrom) || Given(filters.dateTo) {
        var byDate := (a: Article) =>
          var day := DayOf(a.createdAt);
          if Given(filters.dateFrom) && StrLess(day, filters.dateFrom.value) then false
          else if Given(filters.dateTo) && StrLess(filters.dateTo.value, day) then false
          else true;
        results := Seqs.Filter(results, byDate);
        Seqs.FilterFilter(articles, p2, byDate, Matcher(filters));
      } else {
        Seqs.FilterAll(before, (a: Article) => DateOk(filters, a));
        Seqs.FilterExt(articles, p2, Matcher(filters));
      }
    }
  }

  // ---------------------------------------------------------------------
  // Facts about the store's updates

  /** A fresh id keeps ids unique, and the new article is then found by it. */
  lemma CreateKeepsIdsUnique(s: seq<Article>, a: Article)
    requires UniqueIds(s)
    requires FindIndex(s, a.id) == -1
    ensures UniqueIds(s + [a])
    ensures FindIndex(s + [a], a.id) == |s|
  {
    var t := s + [a];
    assert forall j :: 0 <= j < |s| ==> t[j] == s[j];
    assert forall j :: 0 <= j < |s| ==> s[j].id != a.id;
    assert t[|s|].id == a.id;
    var k := FindIndex(t, a.id);
    assert k != -1;
  }

  /** The index in the old list of position `j` after the element at `k`
      is removed. */
  function Skip(j: nat, k: nat): nat
  {
    if j < k then j else j + 1
  }

  /** With unique ids, deleting an id leaves no article with it and keeps
      every other article. */
  lemma DeleteRemovesOnlyThatId(s: seq<Article>, id: string)
    requires UniqueIds(s)
    requires FindIndex(s, id) >= 0
    ensures var k := FindIndex(s, id);
      var t := s[..k] + s[k + 1..];
      && FindIndex(t, id) == -1
      && UniqueIds(t)
      && |t| == |s| - 1
      && forall a :: a in s && a.id != id ==> a in t
  {
    var k := FindIndex(s, id);
    var t := s[..k] + s[k + 1..];
    forall j | 0 <= j < |t| ensures t[j] == s[Skip(j, k)] && t[j].id != id {
      if j < k {
        assert t[j] == s[..k][j];
      } else {
        assert t[j] == s[k + 1..][j - k];
        assert s[k].id == id;
      }
    }
    forall i, j | 0 <= i < j < |t| ensures t[i].id != t[j].id {
      assert Skip(i, k) < Skip(j, k);
    }
    forall a | a in s && a.id != id ensures a in t {
      var i :| 0 <= i < |s| && s[i] == a;
      assert i != k;
      if i < k { assert t[i] == a; } else { assert t[i - 1] == a; }
    }
  }

  /** An update at a known id keeps the position and the other articles,
      and the updated article is still found by the same id. */
  lemma UpdateKeepsPositions(s: seq<Article>, id: string, data: UpdateArticleRequest, now: string)
    requires FindIndex(s, id) >= 0
    ensures var k := FindIndex(s, id);
      var t := s[k := Merge(s[k], data, now)];
      && |t| == |s|
      && FindIndex(t, id) == k
      && (forall j :: 0 <= j < |s| && j != k ==> t[j] == s[j])
      && (UniqueIds(s) ==> UniqueIds(t))
  {
    var k := FindIndex(s, id);
    var t := s[k := Merge(s[k], data, now)];
    assert t[k].id == id;
    assert forall j :: 0 <= j < k ==> t[j].id != id;
  }
}
