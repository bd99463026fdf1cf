# Article API: request-to-SQL mapping, modelled in Dafny

The service is a small Express application over one PostgreSQL table,
`articles(id, title, content, author)`. It has five routes; four of them work
on the `articles` table. `GET /articles`
lists the rows. `POST /articles` inserts one. `PATCH /articles/:id` updates the
fields a request supplies. `DELETE /articles/:id` removes a row. This project
models the logic between the HTTP request and the database:

- **`PatchBuilder`** models the partial-update statement builder of the PATCH
  route as imperative code. `CollectAssignments` grows `updates` and `values`
  for each truthy field, in the order title, content, author, and
  post-increments the placeholder counter. `BuildUpdate` returns no query when
  nothing was collected. Otherwise it binds the route id last and names it
  `WHERE id=$index`. Both methods are proved against the specification
  function `UpdateQuery`. The binding properties are proved about that
  function:
  - the placeholders are `$1 .. $k` with no gap;
  - the i-th fragment binds the body value of its column;
  - the WHERE placeholder is the last one and binds the id;
  - the statement writes exactly the truthy fields.
- **`Handlers`** models the four article route handlers as functions. Each takes the
  request fields and the database's answer (`QueryOutcome = Ok(rowCount, rows)
  | Failed(error)`) and returns an `Exchange`: the query the handler sends, if
  any, and its `Response(status, body)`. The database is an input, not
  behaviour. Every handler keeps the status discipline `Classified`:
  - 400 exactly when no query was sent;
  - 500 with a storage-error message exactly when the query failed;
  - 404 only for `rowCount == 0`;
  - 2xx only after a successful query.
- **`Sql`** models the four statements, their text, the `$n` numerals, and
  PostgreSQL's reading of `$n` as the n-th bound value. Each SET fragment
  `column=$n` and the `WHERE id=$n` tail read back to the column and number
  they were built from. The `", "`-joined SET list splits back into its
  fragments, so an UPDATE text reads back as its assignments and its id
  placeholder.
- **`Requests`** models the request body. Each of `title`, `content` and
  `author` is an `Option<string>`. A field is truthy, in the JavaScript sense
  the handlers test, iff it is `Some(s)` with `s != ""`. The route `:id` stays
  the string Express gives, as in the source.

The PATCH handler function is written over `UpdateQuery`, because functions
cannot call methods. `BuildUpdate` is proved to return exactly that query.

Three behaviours of the code are worth stating plainly, because the model
keeps them:

- The handlers test fields for truthiness, not presence. An empty-string
  field therefore counts as missing for POST and as not supplied for PATCH.
- A PATCH with no truthy field is answered 400 before any query is sent. This
  happens whatever the id, so a PATCH with an empty payload gets 400 even for
  an id that names no row.
- An id that PostgreSQL cannot read as an integer makes the query fail. The
  handler then answers 500, not 404.

## Model

| member | source | states |
|---|---|---|
| `Requests.Truthy` | index.js:50-86 | the definition of JavaScript truthiness for an absent-or-string field, as the `if (x)` / `!x` tests use it: truthy iff present and not the empty string |
| `Sql.Decimal` | index.js:76-95 | the numeral interpolated for `${index}` is a non-empty string of digits with no leading zero |
| `Sql.DecimalRoundTrip` | index.js:76-84 | the numeral written for a placeholder counter reads back as that number |
| `Sql.FragmentText` | index.js:76-84 | a `column=$n` fragment holds no comma and parses, under its own column, to that column and n |
| `Sql.ParseFragmentAsOtherColumn` | index.js:76-84 | a fragment never parses as a fragment of a different column |
| `Sql.FragmentRoundTrip` | index.js:76-84 | each SET fragment text names exactly its column and its placeholder number |
| `Sql.Join` | index.js:95 | `join(", ")` of comma-free items splits back into exactly those items |
| `Sql.SetList` | index.js:95 | the joined SET list splits into one item per assignment, and the i-th item parses back to the i-th assignment |
| `Sql.WhereTail` | index.js:95 | the `WHERE id=$n RETURNING *` tail names exactly the id placeholder n |
| `Sql.Text` | index.js:38-114 | an UPDATE text is `UPDATE articles SET `, then its SET list, then a tail that reads back as its id placeholder |
| `PatchBuilder.KeepTruthy` | index.js:75-86 | the kept columns are among those looked at, each with a truthy body field, and at most as many as were looked at |
| `PatchBuilder.KeepTruthyMembers` | index.js:75-86 | a column is kept iff it is looked at and its body field is truthy |
| `PatchBuilder.KeepTruthyOrdered` | index.js:75-86 | keeping preserves strict column order |
| `PatchBuilder.SuppliedExactly` | index.js:75-86 | PATCH puts a column in the SET list iff its body field is truthy, strictly in the order title, content, author |
| `PatchBuilder.SuppliedUnfolded` | index.js:75-86 | the supplied columns are the three checks written out in order |
| `PatchBuilder.UpdateQuery` | index.js:71-97 | the PATCH query is an UPDATE whose placeholders are exactly `$1 .. $k` for the k bound values, whose WHERE placeholder is `$k`, and which binds the id there |
| `PatchBuilder.UpdateQueryIssued` | index.js:88-90 | PATCH issues a query iff at least one field is truthy |
| `PatchBuilder.UpdateBinding` | index.js:71-86 | the i-th fragment uses `$i`, which binds `values[i-1]`, the body value of that fragment's column |
| `PatchBuilder.AssignedNumberedPrefix` | index.js:71-86 | the first k numbered fragments write the body values of the first k supplied columns |
| `PatchBuilder.UpdateWritesIntended` | index.js:71-97 | the UPDATE writes exactly the truthy fields with their body values to the row whose id is the route id |
| `PatchBuilder.CollectAssignments` | index.js:71-86 | after the three checks, `updates.length == values.length == index - 1` and the i-th fragment is `$i` bound to the body value of its column, in column order |
| `PatchBuilder.BuildUpdate` | index.js:71-97 | no query iff no truthy field; otherwise a consistently numbered query whose WHERE placeholder binds the id, pushed last; equal to the specification `UpdateQuery` |
| `PatchBuilder.TitleOnlyExample` | index.js:71-97 | any body whose only truthy field is the title yields `SET title=$1 WHERE id=$2` bound to [title, id] |
| `PatchBuilder.FirstFragmentText` | index.js:76 | the first title fragment is the text `title=$1` |
| `PatchBuilder.AllFieldsExample` | index.js:71-97 | with all three fields: `title=$1, content=$2, author=$3`, id bound as `$4` |
| `Handlers.FirstRow` | index.js:103 | the definition of JavaScript `rows[0]`: the first row, or undefined when no row came back |
| `Handlers.StorageFailure` | index.js:40-122 | the catch clause answers 500 with the route's storage-error message carrying the rejection, a classified answer to any query that failed |
| `Handlers.Classified` | index.js:36-124 | the status discipline: no query means 400 with a message; a failed query means 500 with the error; a successful query means 200, 201 or 404 |
| `Handlers.GetArticles` | index.js:36-43 | one parameterless SELECT; 200 with all rows iff it succeeds, otherwise 500 with a message |
| `Handlers.PostArticle` | index.js:46-63 | 400 iff some field is falsy; otherwise binds exactly `[title, content, author]` as `$1, $2, $3`; 201 with `rows[0]` iff the insert succeeds; 500 on failure |
| `Handlers.PatchArticle` | index.js:66-107 | sends the built UPDATE; 400 iff no field is truthy; 404 iff the query succeeds with `rowCount == 0`; 200 with `rows[0]` iff it succeeds otherwise; 500 on failure |
| `Handlers.DeleteArticle` | index.js:110-124 | binds the route id as `$1`; 404 iff `rowCount == 0`; otherwise 200 with a message and `deletedArticle = rows[0]`; 500 on failure |
| `Handlers.RejectedRequestsIgnoreDatabase` | index.js:50-90 | a POST with a falsy field and a PATCH with no truthy field answer 400 whatever the database would have said |
| `Handlers.FailedQueryGives500` | index.js:40-122 | a failed query makes every handler answer 500 with its storage-error message, never 2xx or 404 |
| `Handlers.IssuedQueriesWellNumbered` | index.js:38-114 | every query any handler sends numbers its placeholders `$1 .. $k` for its k bound values |

## Left out

- Process setup is not modelled: dotenv, the `Pool` built from environment variables, `express.json()`, `app.listen` and the `PORT` default. These are configuration and framework plumbing.
- The startup `CREATE TABLE IF NOT EXISTS` and its log-and-continue error handling are not modelled. They are I/O against the database at start-up.
- The `GET /` welcome route is not modelled. It returns a constant text and has no logic.
- SQL semantics are not modelled: row order, id assignment, NOT NULL enforcement, and how an id string converts to an integer. PostgreSQL does these, so the handlers receive their result as the `QueryOutcome` input. Nothing ties `rowCount` to the length of `rows`.
- async/await scheduling and concurrent requests are not modelled. Each handler makes one request-response exchange.
- Message texts are opaque `Message` values. A storage error carries the error text, but the French wording and the interpolation of `err` are not modelled.
- Body fields are modelled as absent or a string. Non-string JSON values are out of scope: a numeric `0` is falsy and a non-zero number is truthy and bound as a number. The model assumes the request body is an object. Under Express 4, `express.json()` (body-parser 1.x) sets `req.body` to `{}` when the request is not JSON, so this holds there.
- Under Express 5, `req.body` stays `undefined` for a request without a JSON content type. The destructuring at index.js lines 48 and 69 then throws, and the catch answers 500, where the model answers 400. This Express 5 case is not captured.
- `Sql.Text`'s UPDATE text is read back through its parts (the `UPDATE articles SET ` head, the SET list items and the WHERE tail), not by one parser over the whole statement. The literal texts of SELECT, INSERT and DELETE are not parsed.
