/** The backend's Supabase-backed article repository. Each operation sends
    one request to the `articles` table; when the database rejects it with a
    message that mentions `updated_at` (the column is missing), the same
    request is sent once more without that column, and the answer to that
    second request decides the outcome. The database's answers are given to
    each operation (`first`, and `retry` for the second request); the
    requests sent are recorded in `sent`. */
module RemoteArticleRepository {
  import opened Wrappers
  import opened Text
  import opened SlugText
  import opened Errors
  import Js
  import Seqs
  import opened ArticleRepositoryPort

  // ---------------------------------------------------------------------
  // Slug rule

  /** The characters `[^a-z0-9一-龥\s-]` does not remove. */
  predicate KeptBySlug(c: char)
  {
    ('a' <= c <= 'z') || ('0' <= c <= '9') || (0x4E00 <= c as int <= 0x9FA5) || IsSpace(c) || c == '-'
  }

  /** A character a slug may contain. */
  predicate IsSlugChar(c: char)
  {
    ('a' <= c <= 'z') || ('0' <= c <= '9') || (0x4E00 <= c as int <= 0x9FA5) || c == '-'
  }

  /** `slugify(title)`: trim, lower-case, drop everything but ASCII letters,
      digits, CJK ideographs, whitespace and hyphens, turn whitespace runs
      into one hyphen and collapse hyphen runs. Unlike the in-memory rule,
      edge hyphens are not removed. */
  function Slugify(title: string): (slug: string)
    ensures forall i :: 0 <= i < |slug| ==> IsSlugChar(slug[i])
    ensures NoDoubleHyphen(slug)
  {
    var kept := Seqs.Filter(Lower(Trim(title)), KeptBySlug);
    var hyphened := SpacesToHyphen(kept);
    var slug := CollapseHyphens(hyphened);
    assert forall i :: 0 <= i < |hyphened| ==> IsSlugChar(hyphened[i]) by {
      forall i | 0 <= i < |hyphened| ensures IsSlugChar(hyphened[i]) {
        if hyphened[i] != '-' {
          var j :| 0 <= j < |kept| && kept[j] == hyphened[i];
          assert KeptBySlug(kept[j]);
        }
      }
    }
    slug
  }

  /** A letter, digit or ideograph a slug keeps from the trimmed,
      lower-cased title. */
  predicate IsSlugWordChar(c: char)
  {
    ('a' <= c <= 'z') || ('0' <= c <= '9') || (0x4E00 <= c as int <= 0x9FA5)
  }

  lemma SlugWordIsKeptWord()
    ensures forall c :: IsSlugWordChar(c) == (KeptBySlug(c) && IsWordChar(c))
  {
  }

  /** Apart from its hyphens, the slug is exactly the a-z, 0-9 and CJK
      characters of the trimmed, lower-cased title, in order. */
  lemma SlugifyKeepsWords(title: string)
    ensures Seqs.Filter(Slugify(title), NotHyphen) == Seqs.Filter(Lower(Trim(title)), IsSlugWordChar)
  {
    var kept := Seqs.Filter(Lower(Trim(title)), KeptBySlug);
    var hyphened := SpacesToHyphen(kept);
    assert Slugify(title) == CollapseHyphens(hyphened);
    CollapseKeepsWords(hyphened);
    SpacesToHyphenKeepsWords(kept);
    SlugWordIsKeptWord();
    Seqs.FilterFilter(Lower(Trim(title)), KeptBySlug, IsWordChar, IsSlugWordChar);
  }

  /** A slug is its own slug: each stage leaves a slug unchanged. */
  lemma SlugifyIdempotent(title: string)
    ensures Slugify(Slugify(title)) == Slugify(title)
  {
    var s := Slugify(title);
    SlugIsUnchanged(s);
    assert Seqs.Filter(Lower(Trim(s)), KeptBySlug) == s;
    assert SpacesToHyphen(s) == s;
    assert CollapseHyphens(s) == s;
  }

  /** Trimming, lower-casing and filtering leave a string of slug
      characters unchanged. */
  lemma SlugIsUnchanged(s: string)
    requires forall i :: 0 <= i < |s| ==> IsSlugChar(s[i])
    ensures NoSpace(s)
    ensures Seqs.Filter(Lower(Trim(s)), KeptBySlug) == s
  {
    assert NoSpace(s);
    TrimNoSpace(s);
    LowerNoUpper(s);
    Seqs.FilterAll(s, KeptBySlug);
  }

  /** A title that trims to the same string gets the same slug. */
  lemma SlugifyIgnoresEdgeSpace(a: string, b: string)
    requires Trim(a) == Trim(b)
    ensures Slugify(a) == Slugify(b)
  {
  }

  // ---------------------------------------------------------------------
  // Requests and answers

  /** The column list of a `select`: with or without `updated_at`. */
  datatype Columns = WithUpdatedAt | WithoutUpdatedAt

  datatype Condition =
    | TitleOrContentLike(pattern: string)
    | CategoryIs(category: string)
    | IdIs(id: string)
    | CreatedFrom(iso: string)
    | CreatedUntil(iso: string)

  datatype NewRow = NewRow(
    title: string, category: string, content: string, slug: string,
    createdAt: string, updatedAt: Option<string>)

  /** The columns an update sets; `None` leaves a column out. */
  datatype Changes = Changes(
    title: Option<string>, category: Option<string>, content: Option<string>,
    slug: Option<string>, updatedAt: Option<string>)

  datatype Request =
    | Insert(row: NewRow, columns: Columns)
    | Select(columns: Columns, conditions: seq<Condition>, newestFirst: bool)
    | SelectOne(columns: Columns, id: string)
    | UpdateWhere(id: string, changes: Changes, columns: Columns)

  datatype DbError = DbError(code: string, message: string)

  /** A row as the database returns it; timestamps may be null or absent. */
  datatype Row = Row(
    id: string, title: string, category: string, content: string, slug: string,
    createdAt: Option<string>, updatedAt: Option<string>)

  /** The answer to a `.single()` request. */
  datatype SingleReply = OneRow(row: Row) | SingleError(error: DbError)

  /** The answer to a list request; `data` may be null. */
  datatype ListReply = Rows(data: Option<seq<Row>>) | ListError(error: DbError)

  predicate MentionsUpdatedAt(e: DbError)
  {
    Contains(e.message, "updated_at")
  }

  predicate SingleRetries(r: SingleReply)
  {
    r.SingleError? && MentionsUpdatedAt(r.error)
  }

  predicate ListRetries(r: ListReply)
  {
    r.ListError? && MentionsUpdatedAt(r.error)
  }

  /** The requests an operation sends: the first, and the second only when
      the first failed on `updated_at`. */
  function Attempts(first: Request, second: Request, retried: bool): (sent: seq<Request>)
    ensures 1 <= |sent| <= 2 && sent[0] == first
    ensures |sent| == 2 <==> retried
    ensures retried ==> sent[1] == second
  {
    [first] + (if retried then [second] else [])
  }

  // ---------------------------------------------------------------------
  // Results

  /** A string that is there and not empty (truthy). */
  predicate Given(s: Option<string>)
  {
    s.Some? && s.value != []
  }

  /** `mapToArticle(row)`: a falsy timestamp becomes `undefined`, a truthy one
      `new Date(...)` (`parse`). */
  function MapToArticle(row: Row, parse: string -> Js.Date): (a: Article)
    ensures a.id == Some(row.id) && a.slug == Some(row.slug)
    ensures a.title == row.title && a.category == row.category && a.content == row.content
    ensures a.createdAt.Some? <==> Given(row.createdAt)
    ensures a.updatedAt.Some? <==> Given(row.updatedAt)
    ensures Given(row.createdAt) ==> a.createdAt == Some(parse(row.createdAt.value))
    ensures Given(row.updatedAt) ==> a.updatedAt == Some(parse(row.updatedAt.value))
  {
    Article(Some(row.id), row.title, row.category, row.content, Some(row.slug),
      if Given(row.createdAt) then Some(parse(row.createdAt.value)) else None,
      if Given(row.updatedAt) then Some(parse(row.updatedAt.value)) else None)
  }

  function MapAll(rows: seq<Row>, parse: string -> Js.Date): (r: seq<Article>)
    ensures |r| == |rows|
    ensures forall i :: 0 <= i < |rows| ==> r[i] == MapToArticle(rows[i], parse)
  {
    seq(|rows|, i requires 0 <= i < |rows| => MapToArticle(rows[i], parse))
  }

  /** How a failed insert or update is reported: a uniqueness violation is
      `SLUG_TAKEN` with `slugMessage`, anything else a plain error whose
      message is `prefix` followed by the database's message. */
  function WriteFailure(e: DbError, prefix: string, slugMessage: string): (f: Failure)
    ensures f.ValidationError? <==> Contains(e.message, "duplicate") || Contains(e.message, "unique")
    ensures f.ValidationError? ==> f == ValidationError(SlugTaken, slugMessage)
    ensures f.PlainError? ==> f.message == prefix + e.message && StartsWith(f.message, prefix)
  {
    if Contains(e.message, "duplicate") || Contains(e.message, "unique") then ValidationError(SlugTaken, slugMessage)
    else
      assert (prefix + e.message)[..|prefix|] == prefix;
      PlainError(prefix + e.message)
  }

  /** The outcome of an insert or update, from the answer that decides it. */
  function WriteOutcome(reply: SingleReply, prefix: string, slugMessage: string, parse: string -> Js.Date)
    : (r: Result<Article, Failure>)
    ensures reply.SingleError? ==> r == Failure(WriteFailure(reply.error, prefix, slugMessage))
    ensures reply.OneRow? ==> r == Success(MapToArticle(reply.row, parse))
  {
    if reply.SingleError? then Failure(WriteFailure(reply.error, prefix, slugMessage))
    else Success(MapToArticle(reply.row, parse))
  }

  /** The row `save` inserts. */
  function InsertedRow(article: NewArticle, now: string): (row: NewRow)
    ensures row.slug == Slugify(article.title) && row.createdAt == now && row.updatedAt == Some(now)
    ensures row.title == article.title && row.category == article.category && row.content == article.content
  {
    NewRow(article.title, article.category, article.content, Slugify(article.title), now, Some(now))
  }

  const NotInitialized := PlainError("Supabase client not initialized (check env SUPABASE_URL / SUPABASE_ANON_KEY)")
  const InvalidTimeValue := PlainError("Invalid time value")

  /** The outcome of a list query, from the answer that decides it. */
  function ListOutcome(reply: ListReply, prefix: string, parse: string -> Js.Date): (r: Result<seq<Article>, Failure>)
    ensures reply.ListError? ==> r == Failure(PlainError(prefix + reply.error.message))
    ensures reply.Rows? && reply.data.None? ==> r == Success([])
    ensures reply.Rows? && reply.data.Some? ==> r == Success(MapAll(reply.data.value, parse))
  {
    match reply
    case ListError(e) => Failure(PlainError(prefix + e.message))
    case Rows(data) => Success(MapAll(data.GetOr([]), parse))
  }

  // ---------------------------------------------------------------------
  // Search conditions

  /** The `or` filter of a keyword search: title or content contains the
      keyword, ignoring case. */
  function Pattern(keyword: string): string
  {
    "title.ilike.%" + keyword + "%,content.ilike.%" + keyword + "%"
  }

  function KeywordCondition(f: SearchFilters): (c: seq<Condition>)
    ensures forall x :: x in c <==> Given(f.keyword) && x == TitleOrContentLike(Pattern(f.keyword.value))
  {
    if Given(f.keyword) then [TitleOrContentLike(Pattern(f.keyword.value))] else []
  }

  function CategoryCondition(f: SearchFilters): (c: seq<Condition>)
    ensures forall x :: x in c <==> Given(f.category) && x == CategoryIs(f.category.value)
  {
    if Given(f.category) then [CategoryIs(f.category.value)] else []
  }

  /** A bound on the creation time, for a valid `Date` only. */
  function DateCondition(v: Js.Value, lower: bool): (c: seq<Condition>)
    ensures |c| <= 1
    ensures forall x :: x in c ==> (if lower then x.CreatedFrom? else x.CreatedUntil?)
    ensures forall d :: (if lower then CreatedFrom(d) else CreatedUntil(d)) in c <==> v == Js.DateValue(Js.ValidDate(d))
  {
    if v.DateValue? && v.date.ValidDate? then [if lower then CreatedFrom(v.date.iso) else CreatedUntil(v.date.iso)] else []
  }

  /** The conditions a search adds, in the order the query builder adds
      them: keyword, category, lower and upper creation date. A keyword
      matches title or content case-insensitively anywhere. */
  function SearchConditions(f: SearchFilters): (c: seq<Condition>)
    ensures |c| <= 4
    ensures forall k :: TitleOrContentLike(k) in c <==> Given(f.keyword) && k == Pattern(f.keyword.value)
    ensures forall k :: CategoryIs(k) in c <==> Given(f.category) && k == f.category.value
    ensures forall d :: CreatedFrom(d) in c <==> f.dateFrom == Js.DateValue(Js.ValidDate(d))
    ensures forall d :: CreatedUntil(d) in c <==> f.dateTo == Js.DateValue(Js.ValidDate(d))
  {
    var a, b, from, until := KeywordCondition(f), CategoryCondition(f),
      DateCondition(f.dateFrom, true), DateCondition(f.dateTo, false);
    var c := a + b + from + until;
    assert forall x :: x in c <==> x in a || x in b || x in from || x in until;
    c
  }

  /** `toISOString()` throws on an invalid date. */
  predicate HasInvalidDate(f: SearchFilters)
  {
    (f.dateFrom.DateValue? && f.dateFrom.date.InvalidDate?) || (f.dateTo.DateValue? && f.dateTo.date.InvalidDate?)
  }

  // ---------------------------------------------------------------------
  // The repository

  class SupabaseArticleRepository {
    /** Whether a client could be created from the environment. */
    const connected: bool
    /** Every request sent so far, oldest first. */
    var sent: seq<Request>

    constructor (connected: bool)
      ensures this.connected == connected && sent == []
    {
      this.connected := connected;
      sent := [];
    }

    /** Sends `request`; when its answer is an error that mentions
        `updated_at`, sends `fallback` (the same request without that
        column) once and takes its answer instead. */
    method SendOne(request: Request, fallback: Request, first: SingleReply, retry: SingleReply) returns (reply: SingleReply)
      modifies this
      ensures sent == old(sent) + Attempts(request, fallback, SingleRetries(first))
      ensures reply == if SingleRetries(first) then retry else first
    {
      sent := sent + [request];
      reply := first;
      if SingleRetries(reply) {
        sent := sent + [fallback];
        reply := retry;
      }
    }

    /** The same one-shot fallback for a list request. */
    method SendList(request: Request, fallback: Request, first: ListReply, retry: ListReply) returns (reply: ListReply)
      modifies this
      ensures sent == old(sent) + Attempts(request, fallback, ListRetries(first))
      ensures reply == if ListRetries(first) then retry else first
    {
      sent := sent + [request];
      reply := first;
      if ListRetries(reply) {
        sent := sent + [fallback];
        reply := retry;
      }
    }

    /** `save`: inserts the article with its slug and timestamps. */
    method Save(article: NewArticle, now: string, first: SingleReply, retry: SingleReply, parse: string -> Js.Date)
      returns (r: Result<Article, Failure>)
      modifies this
      ensures !connected ==> r == Failure(NotInitialized) && sent == old(sent)
      ensures connected ==>
        sent == old(sent) + Attempts(Insert(InsertedRow(article, now), WithUpdatedAt),
                                     Insert(InsertedRow(article, now).(updatedAt := None), WithoutUpdatedAt),
                                     SingleRetries(first))
      ensures connected ==>
        r == WriteOutcome(if SingleRetries(first) then retry else first, "DB_INSERT_FAILED: ", "文章 slug 已存在", parse)
    {
      if !connected {
        return Failure(NotInitialized);
      }
      var row := InsertedRow(article, now);
      var reply := SendOne(Insert(row, WithUpdatedAt), Insert(row.(updatedAt := None), WithoutUpdatedAt), first, retry);
      r := WriteOutcome(reply, "DB_INSERT_FAILED: ", "文章 slug 已存在", parse);
    }

    /** `getAll`: every article, newest first. */
    method GetAll(first: ListReply, retry: ListReply, parse: string -> Js.Date) returns (r: Result<seq<Article>, Failure>)
      modifies this
      ensures !connected ==> r == Failure(NotInitialized) && sent == old(sent)
      ensures connected ==>
        sent == old(sent) + Attempts(Select(WithUpdatedAt, [], true), Select(WithoutUpdatedAt, [], true), ListRetries(first))
        && r == ListOutcome(if ListRetries(first) then retry else first, "DB_SELECT_FAILED: ", parse)
    {
      if !connected {
        return Failure(NotInitialized);
      }
      var reply := SendList(Select(WithUpdatedAt, [], true), Select(WithoutUpdatedAt, [], true), first, retry);
      r := ListOutcome(reply, "DB_SELECT_FAILED: ", parse);
    }

    /** `getByCategory`: a blank category gives the empty list without a query. */
    method GetByCategory(category: string, first: ListReply, retry: ListReply, parse: string -> Js.Date)
      returns (r: Result<seq<Article>, Failure>)
      modifies this
      ensures !connected ==> r == Failure(NotInitialized) && sent == old(sent)
      ensures connected && IsBlank(category) ==> r == Success([]) && sent == old(sent)
      ensures connected && !IsBlank(category) ==>
        var cond := [CategoryIs(Trim(category))];
        sent == old(sent) + Attempts(Select(WithUpdatedAt, cond, true), Select(WithoutUpdatedAt, cond, true), ListRetries(first))
        && r == ListOutcome(if ListRetries(first) then retry else first, "DB_SELECT_FAILED: ", parse)
    {
      if !connected {
        return Failure(NotInitialized);
      }
      var c := Trim(category);
      if c == [] {
        return Success([]);
      }
      var reply := SendList(Select(WithUpdatedAt, [CategoryIs(c)], true), Select(WithoutUpdatedAt, [CategoryIs(c)], true), first, retry);
      r := ListOutcome(reply, "DB_SELECT_FAILED: ", parse);
    }

    /** `getById`: "no rows" (`PGRST116`) is `null`, any other error is thrown. */
    method GetById(id: string, first: SingleReply, retry: SingleReply, parse: string -> Js.Date)
      returns (r: Result<Option<Article>, Failure>)
      modifies this
      ensures !connected ==> r == Failure(NotInitialized) && sent == old(sent)
      ensures connected ==>
        sent == old(sent) + Attempts(SelectOne(WithUpdatedAt, id), SelectOne(WithoutUpdatedAt, id), SingleRetries(first))
      ensures connected ==>
        var last := if SingleRetries(first) then retry else first;
        r == (if last.OneRow? then Success(Some(MapToArticle(last.row, parse)))
              else if last.error.code == "PGRST116" then Success(None)
              else Failure(PlainError("DB_SELECT_FAILED: " + last.error.message)))
    {
      if !connected {
        return Failure(NotInitialized);
      }
      var reply := SendOne(SelectOne(WithUpdatedAt, id), SelectOne(WithoutUpdatedAt, id), first, retry);
      if reply.SingleError? {
        if reply.error.code == "PGRST116" {
          return Success(None);
        }
        return Failure(PlainError("DB_SELECT_FAILED: " + reply.error.message));
      }
      r := Success(Some(MapToArticle(reply.row, parse)));
    }

    /** `update`: writes the given fields, a new slug when the new title is
        not empty, and (first) the update time. */
    method Update(id: string, updates: ArticlePatch, now: string, first: SingleReply, retry: SingleReply, parse: string -> Js.Date)
      returns (r: Result<Article, Failure>)
      modifies this
      ensures !connected ==> r == Failure(NotInitialized) && sent == old(sent)
      ensures connected ==>
        var changes := Changes(updates.title, updates.category, updates.content,
                               if Given(updates.title) then Some(Slugify(updates.title.value)) else None, None);
        sent == old(sent) + Attempts(UpdateWhere(id, changes.(updatedAt := Some(now)), WithUpdatedAt),
                                     UpdateWhere(id, changes, WithoutUpdatedAt), SingleRetries(first))
      ensures connected ==>
        r == WriteOutcome(if SingleRetries(first) then retry else first, "DB_UPDATE_FAILED: ", "更新後的 slug 已存在", parse)
    {
      if !connected {
        return Failure(NotInitialized);
      }
      var changes := Changes(updates.title, updates.category, updates.content, None, None);
      if updates.title.Some? && updates.title.value != [] {
        changes := changes.(slug := Some(Slugify(updates.title.value)));
      }
      var reply := SendOne(UpdateWhere(id, changes.(updatedAt := Some(now)), WithUpdatedAt), UpdateWhere(id, changes, WithoutUpdatedAt), first, retry);
      r := WriteOutcome(reply, "DB_UPDATE_FAILED: ", "更新後的 slug 已存在", parse);
    }

    /** The conditions of `search`, added one by one as the query is
        built; `toISOString()` on an invalid date throws "Invalid time
        value" before the query is sent. */
    static method BuildConditions(filters: SearchFilters) returns (r: Result<seq<Condition>, Failure>)
      ensures HasInvalidDate(filters) ==> r == Failure(InvalidTimeValue)
      ensures !HasInvalidDate(filters) ==> r == Success(SearchConditions(filters))
    {
      var cond: seq<Condition> := [];
      if filters.keyword.Some? && filters.keyword.value != [] {
        cond := cond + [TitleOrContentLike(Pattern(filters.keyword.value))];
      }
      if filters.category.Some? && filters.category.value != [] {
        cond := cond + [CategoryIs(filters.category.value)];
      }
      assert cond == KeywordCondition(filters) + CategoryCondition(filters);
      if filters.dateFrom.DateValue? {
        if filters.dateFrom.date.InvalidDate? {
          return Failure(InvalidTimeValue);
        }
        cond := cond + [CreatedFrom(filters.dateFrom.date.iso)];
      }
      if filters.dateTo.DateValue? {
        if filters.dateTo.date.InvalidDate? {
          return Failure(InvalidTimeValue);
        }
        cond := cond + [CreatedUntil(filters.dateTo.date.iso)];
      }
      assert cond == KeywordCondition(filters) + CategoryCondition(filters)
        + DateCondition(filters.dateFrom, true) + DateCondition(filters.dateTo, false);
      r := Success(cond);
    }

    /** `search`: the conditions of the given filters, newest first. An
        invalid date fails while the query is built, before anything is sent. */
    method Search(filters: SearchFilters, first: ListReply, retry: ListReply, parse: string -> Js.Date)
      returns (r: Result<seq<Article>, Failure>)
      requires !Js.Truthy(filters.dateFrom) || filters.dateFrom.DateValue?
      requires !Js.Truthy(filters.dateTo) || filters.dateTo.DateValue?
      modifies this
      ensures !connected ==> r == Failure(NotInitialized) && sent == old(sent)
      ensures connected && HasInvalidDate(filters) ==> r == Failure(InvalidTimeValue) && sent == old(sent)
      ensures connected && !HasInvalidDate(filters) ==>
        var cond := SearchConditions(filters);
        sent == old(sent) + Attempts(Select(WithUpdatedAt, cond, true), Select(WithoutUpdatedAt, cond, true), ListRetries(first))
        && r == ListOutcome(if ListRetries(first) then retry else first, "DB_SEARCH_FAILED: ", parse)
    {
      if !connected {
        return Failure(NotInitialized);
      }
      var built := BuildConditions(filters);
      if built.Failure? {
        return Failure(built.error);
      }
      var cond := built.value;
      var reply := SendList(Select(WithUpdatedAt, cond, true), Select(WithoutUpdatedAt, cond, true), first, retry);
      r := ListOutcome(reply, "DB_SEARCH_FAILED: ", parse);
    }
  }
}
