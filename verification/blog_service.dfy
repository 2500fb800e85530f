/** The backend's article use cases: field checks, the order in which the
    repository is consulted, and the errors thrown. The repository is the
    abstract one of `ArticleRepositoryPort`: a map from id to article plus
    the calls it receives; list answers and the records the store makes
    are given to the operations. */
module BlogService {
  import opened Wrappers
  import opened Text
  import opened Js
  import opened Errors
  import opened ArticleRepositoryPort

  /** What `addArticle` receives: fields may be `null` or `undefined` (`None`). */
  datatype ArticleInput = ArticleInput(title: Option<string>, category: Option<string>, content: Option<string>)

  /** `(x ?? "").trim()`. */
  function TrimOrEmpty(x: Option<string>): string
  {
    Trim(x.GetOr([]))
  }

  /** The checks of `addArticle`: the three trimmed fields must be non-empty,
      and the first failing one, in the order title, category, content, is
      reported. */
  function CheckNewArticle(input: ArticleInput): (r: Result<NewArticle, Failure>)
    ensures r.Success? <==>
      (TrimOrEmpty(input.title) != [] && TrimOrEmpty(input.category) != [] && TrimOrEmpty(input.content) != [])
    ensures r.Success? ==> r.value == NewArticle(TrimOrEmpty(input.title), TrimOrEmpty(input.category), TrimOrEmpty(input.content))
    ensures TrimOrEmpty(input.title) == [] ==> r == Failure(Required(TitleRequired))
    ensures TrimOrEmpty(input.title) != [] && TrimOrEmpty(input.category) == [] ==> r == Failure(Required(CategoryRequired))
    ensures TrimOrEmpty(input.title) != [] && TrimOrEmpty(input.category) != [] && TrimOrEmpty(input.content) == []
            ==> r == Failure(Required(ContentRequired))
  {
    var title := TrimOrEmpty(input.title);
    var category := TrimOrEmpty(input.category);
    var content := TrimOrEmpty(input.content);
    if title == [] then Failure(Required(TitleRequired))
    else if category == [] then Failure(Required(CategoryRequired))
    else if content == [] then Failure(Required(ContentRequired))
    else Success(NewArticle(title, category, content))
  }

  /** What the service saves has no edge whitespace, and checking it again
      gives it back unchanged. */
  lemma CheckedArticleIsStable(input: ArticleInput)
    requires CheckNewArticle(input).Success?
    ensures var a := CheckNewArticle(input).value;
      CheckNewArticle(ArticleInput(Some(a.title), Some(a.category), Some(a.content))) == Success(a)
  {
    TrimIdempotent(input.title.GetOr([]));
    TrimIdempotent(input.category.GetOr([]));
    TrimIdempotent(input.content.GetOr([]));
  }

  // ---------------------------------------------------------------------
  // Update checks

  /** A present field that trims to the empty string. */
  predicate BlankField(x: Option<string>)
  {
    x.Some? && IsBlank(x.value)
  }

  function TrimField(x: Option<string>): Option<string>
  {
    if x.Some? then Some(Trim(x.value)) else None
  }

  /** The checks of `updateArticle`: each present field must be non-blank;
      the checked patch holds the same fields, trimmed. */
  function CheckPatch(p: ArticlePatch): (r: Result<ArticlePatch, Failure>)
    ensures r.Success? <==> !BlankField(p.title) && !BlankField(p.category) && !BlankField(p.content)
    ensures r.Success? ==> r.value == ArticlePatch(TrimField(p.title), TrimField(p.category), TrimField(p.content))
    ensures BlankField(p.title) ==> r == Failure(Required(TitleRequired))
    ensures !BlankField(p.title) && BlankField(p.category) ==> r == Failure(Required(CategoryRequired))
    ensures !BlankField(p.title) && !BlankField(p.category) && BlankField(p.content) ==> r == Failure(Required(ContentRequired))
  {
    if BlankField(p.title) then Failure(Required(TitleRequired))
    else if BlankField(p.category) then Failure(Required(CategoryRequired))
    else if BlankField(p.content) then Failure(Required(ContentRequired))
    else Success(ArticlePatch(TrimField(p.title), TrimField(p.category), TrimField(p.content)))
  }

  /** The caller's patch after the checks have run on it: each field that
      passes is replaced by its trimmed value before the next one is looked
      at, so a failing check leaves the earlier fields trimmed and the later
      ones as they were. */
  function RewrittenByChecks(p: ArticlePatch): (q: ArticlePatch)
    ensures CheckPatch(p).Success? ==> q == CheckPatch(p).value
    ensures CheckPatch(p) == Failure(Required(TitleRequired)) ==> q == p
    ensures CheckPatch(p) == Failure(Required(CategoryRequired)) ==> q == p.(title := TrimField(p.title))
    ensures CheckPatch(p) == Failure(Required(ContentRequired)) ==>
      q == p.(title := TrimField(p.title), category := TrimField(p.category))
  {
    if BlankField(p.title) then p
    else if BlankField(p.category) then p.(title := TrimField(p.title))
    else if BlankField(p.content) then p.(title := TrimField(p.title), category := TrimField(p.category))
    else ArticlePatch(TrimField(p.title), TrimField(p.category), TrimField(p.content))
  }

  /** The caller's `updates` object, which `updateArticle` rewrites in place. */
  class PatchObject {
    var title: Option<string>
    var category: Option<string>
    var content: Option<string>

    constructor (p: ArticlePatch)
      ensures Value() == p
    {
      title, category, content := p.title, p.category, p.content;
    }

    function Value(): ArticlePatch
      reads this
    {
      ArticlePatch(title, category, content)
    }
  }

  /** The field-by-field checks of `updateArticle`, as they run on the
      caller's object. */
  method CheckAndTrim(updates: PatchObject) returns (r: Result<ArticlePatch, Failure>)
    modifies updates
    ensures r == CheckPatch(old(updates.Value()))
    ensures updates.Value() == RewrittenByChecks(old(updates.Value()))
  {
    if updates.title.Some? {
      var title := Trim(updates.title.value);
      if title == [] {
        return Failure(Required(TitleRequired));
      }
      updates.title := Some(title);
    }
    if updates.category.Some? {
      var category := Trim(updates.category.value);
      if category == [] {
        return Failure(Required(CategoryRequired));
      }
      updates.category := Some(category);
    }
    if updates.content.Some? {
      var content := Trim(updates.content.value);
      if content == [] {
        return Failure(Required(ContentRequired));
      }
      updates.content := Some(content);
    }
    r := Success(updates.Value());
  }

  // ---------------------------------------------------------------------
  // Search filters

  /** `searchArticles`' cleaning: keyword and category are kept, trimmed,
      when they are not blank; a date is kept only when it is a `Date`
      object (valid or not). */
  function CleanFilters(f: SearchFilters): (c: SearchFilters)
    ensures c.keyword.Some? <==> f.keyword.Some? && !IsBlank(f.keyword.value)
    ensures c.keyword.Some? ==> c.keyword.value == Trim(f.keyword.value) != []
    ensures c.category.Some? <==> f.category.Some? && !IsBlank(f.category.value)
    ensures c.category.Some? ==> c.category.value == Trim(f.category.value) != []
    ensures c.dateFrom == (if f.dateFrom.DateValue? then f.dateFrom else Undefined)
    ensures c.dateTo == (if f.dateTo.DateValue? then f.dateTo else Undefined)
  {
    SearchFilters(
      if f.keyword.Some? && !IsBlank(f.keyword.value) then Some(Trim(f.keyword.value)) else None,
      if f.category.Some? && !IsBlank(f.category.value) then Some(Trim(f.category.value)) else None,
      if f.dateFrom.DateValue? then f.dateFrom else Undefined,
      if f.dateTo.DateValue? then f.dateTo else Undefined)
  }

  /** Cleaning is idempotent. */
  lemma CleanFiltersIdempotent(f: SearchFilters)
    ensures CleanFilters(CleanFilters(f)) == CleanFilters(f)
  {
    var c := CleanFilters(f);
    var cc := CleanFilters(c);
    if c.keyword.Some? {
      TrimIdempotent(f.keyword.value);
      assert !IsBlank(c.keyword.value);
    }
    assert cc.keyword == c.keyword;
    if c.category.Some? {
      TrimIdempotent(f.category.value);
      assert !IsBlank(c.category.value);
    }
    assert cc.category == c.category;
  }

  /** Filters made only of blanks and non-dates ask the repository for
      everything: they clean to the empty filter. */
  lemma BlankFiltersCleanToEmpty(f: SearchFilters)
    requires f.keyword.None? || IsBlank(f.keyword.value)
    requires f.category.None? || IsBlank(f.category.value)
    requires !f.dateFrom.DateValue? && !f.dateTo.DateValue?
    ensures CleanFilters(f) == SearchFilters(None, None, Undefined, Undefined)
  {
  }

  // ---------------------------------------------------------------------
  // The service

  class Blog {
    const repo: ArticleRepository

    constructor (repo: ArticleRepository)
      ensures this.repo == repo
    {
      this.repo := repo;
    }

    /** `addArticle`: saves the checked article, or throws without touching
        the repository. `id` and `stored` are the id and record the store
        makes, `fault` its rejection of the save, which is thrown on as is. */
    method AddArticle(input: ArticleInput, id: string, stored: Article, fault: Option<Failure>)
      returns (r: Result<Article, Failure>)
      modifies repo
      ensures CheckNewArticle(input).Failure? ==>
        r == Failure(CheckNewArticle(input).error) && repo.calls == old(repo.calls) && repo.rows == old(repo.rows)
      ensures CheckNewArticle(input).Success? ==>
        repo.calls == old(repo.calls) + [RepoCall.Save(CheckNewArticle(input).value)]
      ensures CheckNewArticle(input).Success? && fault.Some? ==>
        r == Failure(fault.value) && repo.rows == old(repo.rows)
      ensures CheckNewArticle(input).Success? && fault.None? ==>
        r == Success(stored) && repo.rows == old(repo.rows)[id := stored]
    {
      var checked := CheckNewArticle(input);
      if checked.Failure? {
        return Failure(checked.error);
      }
      r := repo.Save(checked.value, id, stored, fault);
    }

    /** `getByCategory`: a blank category gives the empty list without a
        query; otherwise the store's answer, or its rejection, as is. */
    method GetByCategory(category: string, answer: Result<seq<Article>, Failure>) returns (r: Result<seq<Article>, Failure>)
      modifies repo
      ensures repo.rows == old(repo.rows)
      ensures IsBlank(category) ==> r == Success([]) && repo.calls == old(repo.calls)
      ensures !IsBlank(category) ==>
        r == answer && repo.calls == old(repo.calls) + [RepoCall.GetByCategory(Trim(category))]
    {
      var target := Trim(category);
      if target == [] {
        return Success([]);
      }
      r := repo.GetByCategory(target, answer);
    }

    /** `getById`: a blank id is rejected; otherwise the id is passed on as
        given (not trimmed) and the stored article, or `null`, is returned;
        a rejected lookup (`fault`) is thrown on. */
    method GetById(id: string, fault: Option<Failure>) returns (r: Result<Option<Article>, Failure>)
      modifies repo
      ensures repo.rows == old(repo.rows)
      ensures IsBlank(id) ==> r == Failure(Required(IdRequired)) && repo.calls == old(repo.calls)
      ensures !IsBlank(id) ==> repo.calls == old(repo.calls) + [RepoCall.GetById(id)]
      ensures !IsBlank(id) && fault.Some? ==> r == Failure(fault.value)
      ensures !IsBlank(id) && fault.None? ==>
        r == Success(if id in repo.rows then Some(repo.rows[id]) else None)
    {
      if Trim(id) == [] {
        return Failure(Required(IdRequired));
      }
      r := repo.GetById(id, fault);
    }

    /** `updateArticle`: the id check, then the field checks (which rewrite
        `updates`), then the existence check, then the update with the
        rewritten fields. `updated` is the record the store makes;
        `lookupFault` and `updateFault` are the store's rejections of the
        lookup and of the update, thrown on as they are. */
    method UpdateArticle(id: string, updates: PatchObject, updated: Article,
                         lookupFault: Option<Failure>, updateFault: Option<Failure>)
      returns (r: Result<Article, Failure>)
      modifies repo, updates
      ensures IsBlank(id) ==>
        r == Failure(Required(IdRequired)) && updates.Value() == old(updates.Value())
        && repo.calls == old(repo.calls) && repo.rows == old(repo.rows)
      ensures !IsBlank(id) && CheckPatch(old(updates.Value())).Failure? ==>
        r == Failure(CheckPatch(old(updates.Value())).error)
        && repo.calls == old(repo.calls) && repo.rows == old(repo.rows)
      ensures !IsBlank(id) ==> updates.Value() == RewrittenByChecks(old(updates.Value()))
      ensures !IsBlank(id) && CheckPatch(old(updates.Value())).Success? && lookupFault.Some? ==>
        r == Failure(lookupFault.value)
        && repo.calls == old(repo.calls) + [RepoCall.GetById(id)] && repo.rows == old(repo.rows)
      ensures !IsBlank(id) && CheckPatch(old(updates.Value())).Success? && lookupFault.None? && id !in old(repo.rows) ==>
        r == Failure(Required(ArticleNotFound))
        && repo.calls == old(repo.calls) + [RepoCall.GetById(id)] && repo.rows == old(repo.rows)
      ensures !IsBlank(id) && CheckPatch(old(updates.Value())).Success? && lookupFault.None? && id in old(repo.rows) ==>
        repo.calls == old(repo.calls) + [RepoCall.GetById(id), RepoCall.Update(id, updates.Value())]
        && (updateFault.Some? ==> r == Failure(updateFault.value) && repo.rows == old(repo.rows))
        && (updateFault.None? ==> r == Success(updated) && repo.rows == old(repo.rows)[id := updated])
    {
      if Trim(id) == [] {
        return Failure(Required(IdRequired));
      }
      ghost var calls0, rows0 := repo.calls, repo.rows;
      var checked := CheckAndTrim(updates);
      assert repo.calls == calls0 && repo.rows == rows0;
      if checked.Failure? {
        return Failure(checked.error);
      }
      var existing := repo.GetById(id, lookupFault);
      if existing.Failure? {
        return Failure(existing.error);
      }
      if existing.value.None? {
        return Failure(Required(ArticleNotFound));
      }
      r := repo.Update(id, updates.Value(), updated, updateFault);
      assert repo.calls == calls0 + [RepoCall.GetById(id), RepoCall.Update(id, updates.Value())];
    }

    /** `searchArticles`: the repository is asked with the cleaned filters. */
    method SearchArticles(filters: SearchFilters, answer: Result<seq<Article>, Failure>) returns (r: Result<seq<Article>, Failure>)
      modifies repo
      ensures r == answer && repo.calls == old(repo.calls) + [RepoCall.Search(CleanFilters(filters))]
      ensures repo.rows == old(repo.rows)
    {
      var clean := SearchFilters(None, None, Undefined, Undefined);
      if filters.keyword.Some? && Trim(filters.keyword.value) != [] {
        clean := clean.(keyword := Some(Trim(filters.keyword.value)));
      }
      if filters.category.Some? && Trim(filters.category.value) != [] {
        clean := clean.(category := Some(Trim(filters.category.value)));
      }
      if filters.dateFrom.DateValue? {
        clean := clean.(dateFrom := filters.dateFrom);
      }
      if filters.dateTo.DateValue? {
        clean := clean.(dateTo := filters.dateTo);
      }
      r := repo.Search(clean, answer);
    }

    method GetAllArticles(answer: Result<seq<Article>, Failure>) returns (r: Result<seq<Article>, Failure>)
      modifies repo
      ensures r == answer && repo.calls == old(repo.calls) + [RepoCall.GetAll] && repo.rows == old(repo.rows)
    {
      r := repo.GetAll(answer);
    }

    /** `deleteArticle`: the id check, then the existence check, then exactly
        one delete; the store's rejections of the lookup and of the delete
        are thrown on as they are. */
    method DeleteArticle(id: string, lookupFault: Option<Failure>, deleteFault: Option<Failure>) returns (r: Result<(), Failure>)
      modifies repo
      ensures IsBlank(id) ==>
        r == Failure(Required(IdRequired)) && repo.calls == old(repo.calls) && repo.rows == old(repo.rows)
      ensures !IsBlank(id) && lookupFault.Some? ==>
        r == Failure(lookupFault.value)
        && repo.calls == old(repo.calls) + [RepoCall.GetById(id)] && repo.rows == old(repo.rows)
      ensures !IsBlank(id) && lookupFault.None? && id !in old(repo.rows) ==>
        r == Failure(Required(ArticleNotFound))
        && repo.calls == old(repo.calls) + [RepoCall.GetById(id)] && repo.rows == old(repo.rows)
      ensures !IsBlank(id) && lookupFault.None? && id in old(repo.rows) ==>
        repo.calls == old(repo.calls) + [RepoCall.GetById(id), RepoCall.Delete(id)]
        && (deleteFault.Some? ==> r == Failure(deleteFault.value) && repo.rows == old(repo.rows))
        && (deleteFault.None? ==> r == Success(()) && repo.rows == old(repo.rows) - {id})
    {
      if Trim(id) == [] {
        return Failure(Required(IdRequired));
      }
      var existing := repo.GetById(id, lookupFault);
      if existing.Failure? {
        return Failure(existing.error);
      }
      if existing.value.None? {
        return Failure(Required(ArticleNotFound));
      }
      r := repo.Delete(id, deleteFault);
    }
  }
}
