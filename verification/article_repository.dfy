/** The asynchronous article repository the backend service talks to, seen
    from the service: the records it exchanges, the articles it holds and
    the calls it receives. The concrete stores are modelled in
    `ArticleStore` and `RemoteArticleRepository`. */
module ArticleRepositoryPort {
  import opened Wrappers
  import opened Errors
  import Js

  /** The backend's `Article`: id, slug and timestamps are set by the store. */
  datatype Article = Article(
    id: Option<string>,
    title: string,
    category: string,
    content: string,
    slug: Option<string>,
    createdAt: Option<Js.Date>,
    updatedAt: Option<Js.Date>)

  /** What `save` receives. */
  datatype NewArticle = NewArticle(title: string, category: string, content: string)

  /** A partial update; `None` means the key is absent. */
  datatype ArticlePatch = ArticlePatch(title: Option<string>, category: Option<string>, content: Option<string>)

  /** Search filters; the date fields hold whatever value the caller put
      there, since the service tests them with `instanceof Date`. */
  datatype SearchFilters = SearchFilters(
    keyword: Option<string>,
    category: Option<string>,
    dateFrom: Js.Value,
    dateTo: Js.Value)

  datatype RepoCall =
    | Save(article: NewArticle)
    | GetAll
    | GetByCategory(category: string)
    | GetById(id: string)
    | Update(id: string, patch: ArticlePatch)
    | Delete(id: string)
    | Search(filters: SearchFilters)

  /** The repository as the service sees it: the stored articles by id, and
      every call received so far, oldest first. What a list query returns
      (its order and which articles a search matches) is the concrete
      store's business, so list answers are given to those operations, as
      are the records the store makes when it saves or updates. Every call
      may be rejected by the store (a database error, a taken slug, a
      missing client): `fault` is that rejection, or `None` when the call
      goes through, and a rejected call leaves the stored articles as they
      were. */
  class ArticleRepository {
    var rows: map<string, Article>
    var calls: seq<RepoCall>

    constructor ()
      ensures rows == map[] && calls == []
    {
      rows := map[];
      calls := [];
    }

    /** Stores the record the store made (`stored`) under its new `id`. */
    method Save(a: NewArticle, id: string, stored: Article, fault: Option<Failure>) returns (r: Result<Article, Failure>)
      modifies this
      ensures calls == old(calls) + [RepoCall.Save(a)]
      ensures fault.Some? ==> r == Failure(fault.value) && rows == old(rows)
      ensures fault.None? ==> r == Success(stored) && rows == old(rows)[id := stored]
    {
      calls := calls + [RepoCall.Save(a)];
      if fault.Some? {
        return Failure(fault.value);
      }
      rows := rows[id := stored];
      r := Success(stored);
    }

    method GetAll(answer: Result<seq<Article>, Failure>) returns (r: Result<seq<Article>, Failure>)
      modifies this
      ensures calls == old(calls) + [RepoCall.GetAll] && rows == old(rows) && r == answer
    {
      calls := calls + [RepoCall.GetAll];
      r := answer;
    }

    method GetByCategory(category: string, answer: Result<seq<Article>, Failure>) returns (r: Result<seq<Article>, Failure>)
      modifies this
      ensures calls == old(calls) + [RepoCall.GetByCategory(category)] && rows == old(rows) && r == answer
    {
      calls := calls + [RepoCall.GetByCategory(category)];
      r := answer;
    }

    /** The article stored under `id`, or `null`. */
    method GetById(id: string, fault: Option<Failure>) returns (r: Result<Option<Article>, Failure>)
      modifies this
      ensures calls == old(calls) + [RepoCall.GetById(id)] && rows == old(rows)
      ensures fault.Some? ==> r == Failure(fault.value)
      ensures fault.None? ==> r == Success(if id in rows then Some(rows[id]) else None)
    {
      calls := calls + [RepoCall.GetById(id)];
      if fault.Some? {
        return Failure(fault.value);
      }
      r := Success(if id in rows then Some(rows[id]) else None);
    }

    /** Replaces the article under `id` by the record the store made (`updated`). */
    method Update(id: string, patch: ArticlePatch, updated: Article, fault: Option<Failure>) returns (r: Result<Article, Failure>)
      modifies this
      ensures calls == old(calls) + [RepoCall.Update(id, patch)]
      ensures fault.Some? ==> r == Failure(fault.value) && rows == old(rows)
      ensures fault.None? ==> r == Success(updated) && rows == old(rows)[id := updated]
    {
      calls := calls + [RepoCall.Update(id, patch)];
      if fault.Some? {
        return Failure(fault.value);
      }
      rows := rows[id := updated];
      r := Success(updated);
    }

    method Delete(id: string, fault: Option<Failure>) returns (r: Result<(), Failure>)
      modifies this
      ensures calls == old(calls) + [RepoCall.Delete(id)]
      ensures fault.Some? ==> r == Failure(fault.value) && rows == old(rows)
      ensures fault.None? ==> r == Success(()) && rows == old(rows) - {id}
    {
      calls := calls + [RepoCall.Delete(id)];
      if fault.Some? {
        return Failure(fault.value);
      }
      rows := rows - {id};
      r := Success(());
    }

    method Search(filters: SearchFilters, answer: Result<seq<Article>, Failure>) returns (r: Result<seq<Article>, Failure>)
      modifies this
      ensures calls == old(calls) + [RepoCall.Search(filters)] && rows == old(rows) && r == answer
    {
      calls := calls + [RepoCall.Search(filters)];
      r := answer;
    }
  }
}
