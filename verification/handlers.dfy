/** The route handlers of the article service, each a function from the request
    fields and the database's answer to the query it issued, to that query and
    the HTTP response. The database is an input: `QueryOutcome` is what
    `pool.query` resolves to (`Ok`) or rejects with (`Failed`); a handler that
    returns before querying ignores it. */
module Handlers {
  import opened Wrappers
  import opened Sql
  import opened Requests
  import opened PatchBuilder

  /** A row of `articles` as `RETURNING *` or `SELECT *` gives it back. */
  datatype Row = Row(id: int, title: string, content: string, author: string)

  datatype QueryOutcome = Ok(rowCount: nat, rows: seq<Row>) | Failed(error: string)

  /** The handler a storage-error message belongs to. */
  datatype Route = ListRoute | CreateRoute | UpdateRoute | DeleteRoute

  /** The `message` texts, kept opaque; a storage error carries the rejection. */
  datatype Message =
    | FieldsRequired
    | NothingToUpdate
    | ArticleNotFound
    | ArticleDeleted
    | StorageError(route: Route, error: string)

  /** The JSON bodies the handlers send. `article` is `rows[0]`, which is
      `undefined` (None) when no row came back. */
  datatype Json =
    | MessageJson(message: Message)
    | ArticleJson(article: Option<Row>)
    | ArticlesJson(articles: seq<Row>)
    | DeletionJson(message: Message, deletedArticle: Option<Row>)

  datatype Response = Response(status: nat, body: Json)

  /** What one request does: the query it sends, if any, and its response. */
  datatype Exchange = Exchange(query: Option<Query>, response: Response)

  /** `rows[0]` in JavaScript. */
  function FirstRow(rows: seq<Row>): (r: Option<Row>)
    ensures r.Some? <==> |rows| > 0
    ensures r.Some? ==> r.value == rows[0]
  {
    if |rows| > 0 then Some(rows[0]) else None
  }

  /** The shared catch clause: a rejected query becomes 500 with a message that
      names the route and carries the rejection, which is a classified answer
      to whatever query was sent. */
  function StorageFailure(route: Route, error: string): (r: Response)
    ensures forall q: Query :: Classified(Exchange(Some(q), r), Failed(error))
    ensures r.body.MessageJson? && r.body.message == StorageError(route, error)
  {
    Response(500, MessageJson(StorageError(route, error)))
  }

  /** The status discipline every handler keeps: 400 exactly when it sent no
      query, 500 exactly when its query failed (and then a message body), 404
      only for a query that matched no row, 2xx only for a query that
      succeeded, and no other status. */
  predicate Classified(x: Exchange, outcome: QueryOutcome): (b: bool)
    ensures b && x.query.None? ==> x.response.status == 400 && x.response.body.MessageJson?
    ensures b && x.query.Some? && outcome.Failed? ==>
              && x.response.status == 500
              && x.response.body.MessageJson?
              && x.response.body.message.StorageError?
              && x.response.body.message.error == outcome.error
    ensures b && x.query.Some? && outcome.Ok? ==> x.response.status in {200, 201, 404}
  {
    var status := x.response.status;
    && status in {200, 201, 400, 404, 500}
    && (status == 400 <==> x.query.None?)
    && (status == 400 ==> x.response.body.MessageJson?)
    && (status == 500 <==> x.query.Some? && outcome.Failed?)
    && (status == 500 ==> outcome.Failed? && x.response.body.MessageJson?
                          && x.response.body.message.StorageError?
                          && x.response.body.message.error == outcome.error)
    && (status == 404 ==> x.query.Some? && outcome.Ok? && outcome.rowCount == 0
                          && x.response.body == MessageJson(ArticleNotFound))
    && (200 <= status < 300 ==> x.query.Some? && outcome.Ok?)
  }

  /** GET /articles: every row the SELECT returns, or 500. */
  function GetArticles(outcome: QueryOutcome): (x: Exchange)
    ensures Classified(x, outcome)
    ensures x.query == Some(Query(SelectAllArticles, [])) && WellNumbered(x.query.value)
    ensures x.response.status == 200 <==> outcome.Ok?
    ensures outcome.Ok? ==> x.response.body == ArticlesJson(outcome.rows)
  {
    var q := Query(SelectAllArticles, []);
    match outcome
    case Failed(error) => Exchange(Some(q), StorageFailure(ListRoute, error))
    case Ok(_, rows) => Exchange(Some(q), Response(200, ArticlesJson(rows)))
  }

  /** POST /articles: 400 unless all three fields are truthy; otherwise insert
      them as $1, $2, $3 and answer 201 with the new row. */
  function PostArticle(body: ArticleFields, outcome: QueryOutcome): (x: Exchange)
    ensures Classified(x, outcome)
    ensures x.response.status == 400 <==> !body.Complete()
    ensures x.query.Some? ==>
              && x.query.value == Query(InsertArticle, [body.title.value, body.content.value, body.author.value])
              && WellNumbered(x.query.value)
    ensures x.response.status == 201 <==> body.Complete() && outcome.Ok?
    ensures x.response.status == 201 ==> x.response.body == ArticleJson(FirstRow(outcome.rows))
  {
    if !body.Complete() then
      Exchange(None, Response(400, MessageJson(FieldsRequired)))
    else
      var q := Query(InsertArticle, [body.title.value, body.content.value, body.author.value]);
      match outcome
      case Failed(error) => Exchange(Some(q), StorageFailure(CreateRoute, error))
      case Ok(_, rows) => Exchange(Some(q), Response(201, ArticleJson(FirstRow(rows))))
  }

  /** PATCH /articles/:id: 400 when no field is truthy; otherwise the built
      UPDATE, then 404 when it matched no row, else 200 with the updated row. */
  function PatchArticle(id: string, body: ArticleFields, outcome: QueryOutcome): (x: Exchange)
    ensures Classified(x, outcome)
    ensures x.query == UpdateQuery(id, body)
    ensures x.response.status == 400 <==> body.Empty()
    ensures x.response.status == 404 <==> !body.Empty() && outcome.Ok? && outcome.rowCount == 0
    ensures x.response.status == 200 <==> !body.Empty() && outcome.Ok? && outcome.rowCount != 0
    ensures x.response.status == 200 ==> x.response.body == ArticleJson(FirstRow(outcome.rows))
  {
    UpdateQueryIssued(id, body);
    match UpdateQuery(id, body)
    case None => Exchange(None, Response(400, MessageJson(NothingToUpdate)))
    case Some(q) =>
      match outcome
      case Failed(error) => Exchange(Some(q), StorageFailure(UpdateRoute, error))
      case Ok(rowCount, rows) =>
        if rowCount == 0 then Exchange(Some(q), Response(404, MessageJson(ArticleNotFound)))
        else Exchange(Some(q), Response(200, ArticleJson(FirstRow(rows))))
  }

  /** DELETE /articles/:id: delete the row whose id is $1 = the route id; 404
      when none matched, else 200 with a message and the deleted row. */
  function DeleteArticle(id: string, outcome: QueryOutcome): (x: Exchange)
    ensures Classified(x, outcome)
    ensures x.query == Some(Query(DeleteArticleById, [id])) && WellNumbered(x.query.value)
    ensures x.response.status == 404 <==> outcome.Ok? && outcome.rowCount == 0
    ensures x.response.status == 200 <==> outcome.Ok? && outcome.rowCount != 0
    ensures x.response.status == 200 ==> x.response.body == DeletionJson(ArticleDeleted, FirstRow(outcome.rows))
  {
    var q := Query(DeleteArticleById, [id]);
    match outcome
    case Failed(error) => Exchange(Some(q), StorageFailure(DeleteRoute, error))
    case Ok(rowCount, rows) =>
      if rowCount == 0 then Exchange(Some(q), Response(404, MessageJson(ArticleNotFound)))
      else Exchange(Some(q), Response(200, DeletionJson(ArticleDeleted, FirstRow(rows))))
  }

  // ---------------------------------------------------------------------------
  // Properties across calls
  // ---------------------------------------------------------------------------

  /** A request rejected for missing fields never reaches the database: its
      response is the same whatever the database would have answered. */
  lemma RejectedRequestsIgnoreDatabase(id: string, body: ArticleFields, o1: QueryOutcome, o2: QueryOutcome)
    ensures !body.Complete() ==>
              PostArticle(body, o1) == PostArticle(body, o2)
              && PostArticle(body, o1).response == Response(400, MessageJson(FieldsRequired))
    ensures body.Empty() ==>
              PatchArticle(id, body, o1) == PatchArticle(id, body, o2)
              && PatchArticle(id, body, o1).response == Response(400, MessageJson(NothingToUpdate))
  {
  }

  /** Any failed query makes every handler answer 500 with its own storage-error
      message carrying the failure, never 2xx and never 404. */
  lemma FailedQueryGives500(id: string, body: ArticleFields, error: string)
    ensures GetArticles(Failed(error)).response == StorageFailure(ListRoute, error)
    ensures body.Complete() ==> PostArticle(body, Failed(error)).response == StorageFailure(CreateRoute, error)
    ensures !body.Empty() ==> PatchArticle(id, body, Failed(error)).response == StorageFailure(UpdateRoute, error)
    ensures DeleteArticle(id, Failed(error)).response == StorageFailure(DeleteRoute, error)
  {
  }

  /** Every query a handler sends binds consistently: $1 .. $k for k values. */
  lemma IssuedQueriesWellNumbered(id: string, body: ArticleFields, outcome: QueryOutcome)
    ensures forall x :: (x in [GetArticles(outcome), PostArticle(body, outcome),
                              PatchArticle(id, body, outcome), DeleteArticle(id, outcome)]
                         && x.query.Some?) ==> WellNumbered(x.query.value)
  {
  }
}
