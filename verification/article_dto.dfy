/** Request validation of the backend's HTTP layer: turns a request body or
    query object into the service's input, or throws a `ValidationError`.
    A string field counts only when it is a string; values are trimmed. An
    absent body reads like an empty object. */
module ArticleDto {
  import opened Wrappers
  import opened Text
  import opened Js
  import opened Errors
  import opened ArticleRepositoryPort

  /** `typeof v === "string" ? v.trim() : ""`. */
  function TrimmedOrEmpty(v: Value): string
  {
    if v.Str? then Trim(v.s) else []
  }

  /** The field holds a string that is not blank. */
  predicate Filled(v: Value)
  {
    v.Str? && !IsBlank(v.s)
  }

  lemma FilledIff(v: Value)
    ensures Filled(v) <==> TrimmedOrEmpty(v) != []
  {
  }

  /** `validateCreateArticle(body)`: all three fields are required and the
      first missing one, in the order title, category, content, is reported. */
  function ValidateCreateArticle(body: Object): (r: Result<NewArticle, Failure>)
    ensures r.Success? <==>
      (Filled(Get(body, "title")) && Filled(Get(body, "category")) && Filled(Get(body, "content")))
    ensures r.Success? ==>
      r.value == NewArticle(Trim(Get(body, "title").s), Trim(Get(body, "category").s), Trim(Get(body, "content").s))
    ensures !Filled(Get(body, "title")) ==> r == Failure(Required(TitleRequired))
    ensures Filled(Get(body, "title")) && !Filled(Get(body, "category")) ==> r == Failure(Required(CategoryRequired))
    ensures Filled(Get(body, "title")) && Filled(Get(body, "category")) && !Filled(Get(body, "content"))
            ==> r == Failure(Required(ContentRequired))
  {
    var title := TrimmedOrEmpty(Get(body, "title"));
    var category := TrimmedOrEmpty(Get(body, "category"));
    var content := TrimmedOrEmpty(Get(body, "content"));
    if title == [] then Failure(Required(TitleRequired))
    else if category == [] then Failure(Required(CategoryRequired))
    else if content == [] then Failure(Required(ContentRequired))
    else Success(NewArticle(title, category, content))
  }

  /** The body a validated request would be sent as. */
  function CreateBody(a: NewArticle): Object
  {
    map["title" := Str(a.title), "category" := Str(a.category), "content" := Str(a.content)]
  }

  /** A body of already trimmed, non-empty strings is accepted as it is. */
  lemma AcceptsTrimmed(t: string, c: string, n: string)
    requires t != [] && c != [] && n != []
    requires Trim(t) == t && Trim(c) == c && Trim(n) == n
    ensures ValidateCreateArticle(CreateBody(NewArticle(t, c, n))) == Success(NewArticle(t, c, n))
  {
    var b := CreateBody(NewArticle(t, c, n));
    assert Get(b, "title") == Str(t);
    assert Get(b, "category") == Str(c);
    assert Get(b, "content") == Str(n);
  }

  /** Validation is idempotent: what it accepts, it accepts again unchanged. */
  lemma ValidateCreateIsIdempotent(body: Object)
    requires ValidateCreateArticle(body).Success?
    ensures ValidateCreateArticle(CreateBody(ValidateCreateArticle(body).value)) == ValidateCreateArticle(body)
  {
    var a := ValidateCreateArticle(body).value;
    TrimIdempotent(Get(body, "title").s);
    TrimIdempotent(Get(body, "category").s);
    TrimIdempotent(Get(body, "content").s);
    AcceptsTrimmed(a.title, a.category, a.content);
  }

  /** `undefined` leaves the key out; anything else is validated. */
  predicate Rejected(v: Value)
  {
    v != Undefined && !Filled(v)
  }

  /** `validateUpdateArticle(body)`: each field that is present must be a
      non-blank string; the patch, built field by field, holds exactly the
      present fields, trimmed. There is no "at least one field" rule. */
  method ValidateUpdateArticle(body: Object) returns (r: Result<ArticlePatch, Failure>)
    ensures r.Success? <==>
      !Rejected(Get(body, "title")) && !Rejected(Get(body, "category")) && !Rejected(Get(body, "content"))
    ensures r.Success? ==>
      (r.value.title.Some? <==> Get(body, "title") != Undefined)
      && (r.value.category.Some? <==> Get(body, "category") != Undefined)
      && (r.value.content.Some? <==> Get(body, "content") != Undefined)
    ensures r.Success? && r.value.title.Some? ==> r.value.title.value == Trim(Get(body, "title").s) != []
    ensures r.Success? && r.value.category.Some? ==> r.value.category.value == Trim(Get(body, "category").s) != []
    ensures r.Success? && r.value.content.Some? ==> r.value.content.value == Trim(Get(body, "content").s) != []
    ensures Rejected(Get(body, "title")) ==> r == Failure(Required(TitleRequired))
    ensures !Rejected(Get(body, "title")) && Rejected(Get(body, "category")) ==> r == Failure(Required(CategoryRequired))
    ensures !Rejected(Get(body, "title")) && !Rejected(Get(body, "category")) && Rejected(Get(body, "content"))
            ==> r == Failure(Required(ContentRequired))
    ensures body == map[] ==> r == Success(ArticlePatch(None, None, None))
  {
    var updates := ArticlePatch(None, None, None);
    if Get(body, "title") != Undefined {
      var title := TrimmedOrEmpty(Get(body, "title"));
      if title == [] {
        return Failure(Required(TitleRequired));
      }
      updates := updates.(title := Some(title));
    }
    if Get(body, "category") != Undefined {
      var category := TrimmedOrEmpty(Get(body, "category"));
      if category == [] {
        return Failure(Required(CategoryRequired));
      }
      updates := updates.(category := Some(category));
    }
    if Get(body, "content") != Undefined {
      var content := TrimmedOrEmpty(Get(body, "content"));
      if content == [] {
        return Failure(Required(ContentRequired));
      }
      updates := updates.(content := Some(content));
    }
    r := Success(updates);
  }

  /** A non-empty string, as `v && typeof v === "string"` requires. */
  predicate NonEmptyString(v: Value)
  {
    v.Str? && v.s != []
  }

  /** `validateSearchFilters(query)`, built field by field: keyword and
      category are kept, trimmed, when they are non-empty strings (so a
      string of spaces becomes ""); a date is kept when the string parses
      (`parse` is `new Date(string)`) to a valid date. It never fails. */
  method ValidateSearchFilters(query: Object, parse: string -> Date) returns (f: SearchFilters)
    ensures f.keyword.Some? <==> NonEmptyString(Get(query, "keyword"))
    ensures f.keyword.Some? ==> f.keyword.value == Trim(Get(query, "keyword").s)
    ensures f.category.Some? <==> NonEmptyString(Get(query, "category"))
    ensures f.category.Some? ==> f.category.value == Trim(Get(query, "category").s)
    ensures f.dateFrom != Undefined <==>
      NonEmptyString(Get(query, "dateFrom")) && parse(Get(query, "dateFrom").s).ValidDate?
    ensures f.dateFrom != Undefined ==> f.dateFrom == DateValue(parse(Get(query, "dateFrom").s))
    ensures f.dateTo != Undefined <==>
      NonEmptyString(Get(query, "dateTo")) && parse(Get(query, "dateTo").s).ValidDate?
    ensures f.dateTo != Undefined ==> f.dateTo == DateValue(parse(Get(query, "dateTo").s))
  {
    f := SearchFilters(None, None, Undefined, Undefined);
    var keyword := Get(query, "keyword");
    if keyword.Str? && keyword.s != [] {
      f := f.(keyword := Some(Trim(keyword.s)));
    }
    var category := Get(query, "category");
    if category.Str? && category.s != [] {
      f := f.(category := Some(Trim(category.s)));
    }
    var dateFrom := Get(query, "dateFrom");
    if dateFrom.Str? && dateFrom.s != [] {
      var date := parse(dateFrom.s);
      if date.ValidDate? {
        f := f.(dateFrom := DateValue(date));
      }
    }
    var dateTo := Get(query, "dateTo");
    if dateTo.Str? && dateTo.s != [] {
      var date := parse(dateTo.s);
      if date.ValidDate? {
        f := f.(dateTo := DateValue(date));
      }
    }
  }
}
