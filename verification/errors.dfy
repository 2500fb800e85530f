/** The errors the backends throw: `ValidationError` with a machine-readable
    code and a human message, or a plain `Error` with a message. */
module Errors {

  datatype Code =
    | TitleRequired
    | CategoryRequired
    | ContentRequired
    | IdRequired
    | ArticleNotFound
    | SlugTaken

  /** The code string a `ValidationError` carries. */
  function CodeName(c: Code): string
  {
    match c
    case TitleRequired => "TITLE_REQUIRED"
    case CategoryRequired => "CATEGORY_REQUIRED"
    case ContentRequired => "CONTENT_REQUIRED"
    case IdRequired => "ID_REQUIRED"
    case ArticleNotFound => "ARTICLE_NOT_FOUND"
    case SlugTaken => "SLUG_TAKEN"
  }

  datatype Failure =
    | ValidationError(code: Code, message: string)
    | PlainError(message: string)

  /** The message used with each code by the services and validators (the
      slug messages differ between insert and update and are spelled out
      where they are thrown). */
  function Required(c: Code): (f: Failure)
    ensures f.ValidationError? && f.code == c
  {
    ValidationError(c,
      match c
      case TitleRequired => "標題不可為空白"
      case CategoryRequired => "分類不可為空白"
      case ContentRequired => "內容不可為空白"
      case IdRequired => "文章 ID 不可為空"
      case ArticleNotFound => "找不到指定的文章"
      case SlugTaken => "文章 slug 已存在")
  }
}
