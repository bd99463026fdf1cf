/** The parts of an HTTP request the handlers read: the JSON body's three
    article fields and the `:id` route parameter (kept as the string Express
    hands over). */
module Requests {
  import opened Wrappers
  import opened Sql

  /** JavaScript truthiness of a body field: an absent field and the empty
      string are falsy, every other string is truthy. */
  predicate Truthy(v: Option<string>): (b: bool)
    ensures b <==> v != None && v != Some("")
  {
    v.Some? && v.value != ""
  }

  /** The `title`, `content` and `author` members of a request body; each may be absent. */
  datatype ArticleFields = ArticleFields(title: Option<string>, content: Option<string>, author: Option<string>) {

    function Get(c: Column): Option<string> {
      match c
      case Title => title
      case Content => content
      case Author => author
    }

    /** All three fields are truthy. */
    predicate Complete() {
      Truthy(title) && Truthy(content) && Truthy(author)
    }

    /** No field is truthy. */
    predicate Empty() {
      !Truthy(title) && !Truthy(content) && !Truthy(author)
    }

    /** What a partial update writes: the new value of every column whose
        body field is truthy. */
    function Intended(): map<Column, string> {
      map c | c in Columns && Truthy(Get(c)) :: Get(c).value
    }
  }
}
