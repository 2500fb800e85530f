/** The synchronous "clean architecture" variant of the blog: an array
    repository, a smaller service, the create validator and the Express
    error handler. */

/** The array-backed repository. Articles are values, so a list returned by
    `getAll` is a copy that later saves do not change. */
module CleanArchRepository {
  import opened Wrappers

  /** This variant never sets a slug or timestamps; `content` is absent on
      the articles the service saves. */
  datatype Article = Article(id: Option<string>, title: string, category: string, content: Option<string>)

  class InMemoryArticleRepository {
    /** The saved articles in saving order, duplicates included. */
    var store: seq<Article>

    constructor ()
      ensures store == []
    {
      store := [];
    }

    method Save(article: Article)
      modifies this
      ensures store == old(store) + [article]
    {
      store := store + [article];
    }

    method GetAll() returns (r: seq<Article>)
      ensures r == store
    {
      r := store;
    }
  }
}

module CleanArchService {
  import opened Wrappers
  import opened Text
  import opened Errors
  import opened CleanArchRepository
  import Seqs

  datatype ArticleInput = ArticleInput(title: Option<string>, category: Option<string>, content: Option<string>)

  /** `(x ?? "").trim()`. */
  function TrimOrEmpty(x: Option<string>): string
  {
    Trim(x.GetOr([]))
  }

  /** The checks of `addArticle`: title first, then category; the content
      is neither checked nor kept. */
  function CheckArticle(input: ArticleInput): (r: Result<Article, Failure>)
    ensures r.Success? <==> TrimOrEmpty(input.title) != [] && TrimOrEmpty(input.category) != []
    ensures r.Success? ==> r.value == Article(None, TrimOrEmpty(input.title), TrimOrEmpty(input.category), None)
    ensures TrimOrEmpty(input.title) == [] ==> r == Failure(Required(TitleRequired))
    ensures TrimOrEmpty(input.title) != [] && TrimOrEmpty(input.category) == [] ==> r == Failure(Required(CategoryRequired))
  {
    var title := TrimOrEmpty(input.title);
    var category := TrimOrEmpty(input.category);
    if title == [] then Failure(Required(TitleRequired))
    else if category == [] then Failure(Required(CategoryRequired))
    else Success(Article(None, title, category, None))
  }

  function HasCategory(target: string): Article -> bool
  {
    (a: Article) => a.category == target
  }

  class Blog {
    const repo: InMemoryArticleRepository

    constructor (repo: InMemoryArticleRepository)
      ensures this.repo == repo
    {
      this.repo := repo;
    }

    /** `addArticle`: saves `{title, category}`, trimmed, or throws and saves
        nothing. */
    method AddArticle(input: ArticleInput) returns (r: Result<(), Failure>)
      modifies repo
      ensures CheckArticle(input).Failure? ==> r == Failure(CheckArticle(input).error) && repo.store == old(repo.store)
      ensures CheckArticle(input).Success? ==> r == Success(()) && repo.store == old(repo.store) + [CheckArticle(input).value]
    {
      var checked := CheckArticle(input);
      if checked.Failure? {
        return Failure(checked.error);
      }
      repo.Save(checked.value);
      r := Success(());
    }

    /** `getByCategory`: the saved articles whose category is the trimmed
        target, in saving order; none for a blank target. */
    method GetByCategory(category: string) returns (r: seq<Article>)
      ensures IsBlank(category) ==> r == []
      ensures !IsBlank(category) ==> Seqs.IsSubsequence(r, repo.store)
      ensures forall i :: 0 <= i < |r| ==> r[i].category == Trim(category)
      ensures !IsBlank(category) ==>
        forall a :: multiset(r)[a] == if a.category == Trim(category) then multiset(repo.store)[a] else 0
      ensures !IsBlank(category) ==> r == Seqs.Filter(repo.store, HasCategory(Trim(category)))
    {
      var target := Trim(category);
      if target == [] {
        return [];
      }
      var all := repo.GetAll();
      r := Seqs.Filter(all, HasCategory(target));
      Seqs.FilterIsSubsequence(all, HasCategory(target));
      forall a ensures multiset(r)[a] == if a.category == target then multiset(all)[a] else 0 {
        Seqs.FilterCounts(all, HasCategory(target), a);
      }
      forall i | 0 <= i < |r| ensures r[i].category == target {
        assert HasCategory(target)(r[i]);
      }
    }
  }
}

/** The create validator of this variant. */
module CleanArchDto {
  import opened Wrappers
  import opened Text
  import opened Js
  import opened Errors
  import ArticleDto

  datatype CreateArticleRequest = CreateArticleRequest(title: string, category: string, content: string)

  /** `typeof v === "string" ? v.trim() : ""`. */
  function TrimmedOrEmpty(v: Value): string
  {
    if v.Str? then Trim(v.s) else []
  }

  /** `validateCreateArticle(body)`: the three fields trimmed and non-empty,
      reported in the order title, category, content. */
  function ValidateCreateArticle(body: Object): (r: Result<CreateArticleRequest, Failure>)
    ensures r.Success? ==> r.value.title != [] && r.value.category != [] && r.value.content != []
    ensures r.Failure? ==> r.error.ValidationError?
  {
    var title := TrimmedOrEmpty(Get(body, "title"));
    var category := TrimmedOrEmpty(Get(body, "category"));
    var content := TrimmedOrEmpty(Get(body, "content"));
    if title == [] then Failure(Required(TitleRequired))
    else if category == [] then Failure(Required(CategoryRequired))
    else if content == [] then Failure(Required(ContentRequired))
    else Success(CreateArticleRequest(title, category, content))
  }

  /** This validator decides every body exactly as the backend's does, with
      the same errors and the same trimmed fields. */
  lemma SameAsBackend(body: Object)
    ensures var mine := ValidateCreateArticle(body);
      var theirs := ArticleDto.ValidateCreateArticle(body);
      (mine.Success? <==> theirs.Success?)
      && (mine.Failure? ==> mine.error == theirs.error)
      && (mine.Success? ==>
            mine.value.title == theirs.value.title && mine.value.category == theirs.value.category
            && mine.value.content == theirs.value.content)
  {
    ArticleDto.FilledIff(Get(body, "title"));
    ArticleDto.FilledIff(Get(body, "category"));
    ArticleDto.FilledIff(Get(body, "content"));
  }
}

/** The Express error handler as a decision table from what was thrown to
    the status and JSON body sent. */
module CleanArchErrorHandler {
  import opened Errors
  import Js
  import CleanArchDto

  /** A thrown `Error` (a `ValidationError` or a plain one), or any other value. */
  datatype Thrown = Thrown(failure: Failure) | NonError

  datatype ResponseBody =
    | MessageBody(message: string)
    | ErrorBody(error: string)
    | ErrorWithCode(error: string, code: string)

  datatype Response = Response(status: int, body: ResponseBody)

  function HandleError(e: Thrown): (r: Response)
    ensures r.status == 404 <==> e.Thrown? && e.failure.ValidationError? && e.failure.code == ArticleNotFound
    ensures r.status == 500 <==> e.NonError?
    ensures r.status == 404 || r.status == 400 || r.status == 500
    ensures r.status == 404 ==> r.body == MessageBody(e.failure.message)
    ensures e.Thrown? && e.failure.ValidationError? && r.status == 400 ==>
      r.body == ErrorWithCode(e.failure.message, CodeName(e.failure.code))
    ensures e.Thrown? && e.failure.PlainError? ==> r == Response(400, ErrorBody(e.failure.message))
    ensures e.NonError? ==> r.body == ErrorBody("Internal Server Error")
  {
    match e
    case Thrown(ValidationError(code, message)) =>
      if CodeName(code) == "ARTICLE_NOT_FOUND" then Response(404, MessageBody(message))
      else Response(400, ErrorWithCode(message, CodeName(code)))
    case Thrown(PlainError(message)) => Response(400, ErrorBody(message))
    case NonError => Response(500, ErrorBody("Internal Server Error"))
  }

  /** A rejected create request is answered 400 with its code. */
  lemma RejectedCreateIs400(body: Js.Object)
    requires CleanArchDto.ValidateCreateArticle(body).Failure?
    ensures var f := CleanArchDto.ValidateCreateArticle(body).error;
      HandleError(Thrown(f)) == Response(400, ErrorWithCode(f.message, CodeName(f.code)))
  {
  }
}
