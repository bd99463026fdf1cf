/** The partial-update statement builder of `PATCH /articles/:id`. It looks at
    title, content and author in that order; for each truthy one it appends a
    `column=$n` fragment and binds the value, numbering placeholders with a
    running counter; then it binds the route id last and names it in the
    WHERE clause. */
module PatchBuilder {
  import opened Wrappers
  import opened Sql
  import opened Requests

  // ---------------------------------------------------------------------------
  // Specification
  // ---------------------------------------------------------------------------

  /** The columns of `cs` whose body field is truthy, in the order of `cs`. */
  function KeepTruthy(cs: seq<Column>, body: ArticleFields): (r: seq<Column>)
    ensures |r| <= |cs|
    ensures forall i :: 0 <= i < |r| ==> r[i] in cs && Truthy(body.Get(r[i]))
  {
    if cs == [] then []
    else (if Truthy(body.Get(cs[0])) then [cs[0]] else []) + KeepTruthy(cs[1..], body)
  }

  /** The columns a PATCH body supplies, in column order. */
  function Supplied(body: ArticleFields): seq<Column> {
    KeepTruthy(Columns, body)
  }

  /** The SET fragments for `cs`, numbered $1, $2, ... */
  function Numbered(cs: seq<Column>): (r: seq<Assignment>)
    ensures |r| == |cs|
  {
    seq(|cs|, i requires 0 <= i < |cs| => Assignment(cs[i], i + 1))
  }

  /** The body values of `cs`, in the same order. */
  function ValuesOf(cs: seq<Column>, body: ArticleFields): (r: seq<string>)
    requires forall i :: 0 <= i < |cs| ==> Truthy(body.Get(cs[i]))
    ensures |r| == |cs|
  {
    seq(|cs|, i requires 0 <= i < |cs| && Truthy(body.Get(cs[i])) => body.Get(cs[i]).value)
  }

  /** The query a PATCH issues for `body` on row `id`, or None when it issues
      none. Its placeholders are numbered $1 .. $k with no gap, the WHERE
      placeholder is the last one, and it binds the id. */
  function UpdateQuery(id: string, body: ArticleFields): (r: Option<Query>)
    ensures r.Some? ==>
              && r.value.statement.UpdateArticleById?
              && WellNumbered(r.value)
              && r.value.statement.idPlaceholder == |r.value.params|
              && Bind(r.value.params, r.value.statement.idPlaceholder) == Some(id)
  {
    var cs := Supplied(body);
    if cs == [] then None
    else Some(Query(UpdateArticleById(Numbered(cs), |cs| + 1), ValuesOf(cs, body) + [id]))
  }

  // ---------------------------------------------------------------------------
  // Properties of the specification
  // ---------------------------------------------------------------------------

  lemma {:induction false} KeepTruthyMembers(cs: seq<Column>, body: ArticleFields, c: Column)
    ensures c in KeepTruthy(cs, body) <==> c in cs && Truthy(body.Get(c))
  {
    if cs != [] {
      KeepTruthyMembers(cs[1..], body, c);
      assert c in cs <==> c == cs[0] || c in cs[1..];
    }
  }

  lemma AscendingCons(x: Column, r: seq<Column>)
    requires Ascending(r)
    requires forall k :: 0 <= k < |r| ==> Rank(x) < Rank(r[k])
    ensures Ascending([x] + r)
  {
  }

  lemma {:induction false} KeepTruthyOrdered(cs: seq<Column>, body: ArticleFields)
    requires Ascending(cs)
    ensures Ascending(KeepTruthy(cs, body))
  {
    if cs != [] {
      KeepTruthyOrdered(cs[1..], body);
      var rest := KeepTruthy(cs[1..], body);
      if Truthy(body.Get(cs[0])) {
        forall k | 0 <= k < |rest| ensures Rank(cs[0]) < Rank(rest[k]) {
          var j :| 0 <= j < |cs[1..]| && cs[1..][j] == rest[k];
          assert cs[j + 1] == rest[k];
        }
        AscendingCons(cs[0], rest);
      }
    }
  }

  /** A PATCH touches a column iff its body field is truthy, strictly in the
      order title, content, author (so no column twice). */
  lemma SuppliedExactly(body: ArticleFields)
    ensures forall c :: c in Supplied(body) <==> Truthy(body.Get(c))
    ensures Ascending(Supplied(body))
  {
    forall c ensures c in Supplied(body) <==> Truthy(body.Get(c)) {
      KeepTruthyMembers(Columns, body, c);
      assert c == Columns[Rank(c)];
    }
    assert Rank(Columns[0]) == 0 && Rank(Columns[1]) == 1 && Rank(Columns[2]) == 2;
    KeepTruthyOrdered(Columns, body);
    assert Supplied(body) == KeepTruthy(Columns, body);
  }

  /** PATCH issues a query iff at least one field is truthy. */
  lemma UpdateQueryIssued(id: string, body: ArticleFields)
    ensures UpdateQuery(id, body).None? <==> body.Empty()
  {
    SuppliedExactly(body);
    var cs := Supplied(body);
    assert Truthy(body.title) <==> Title in cs by { assert body.Get(Title) == body.title; }
    assert Truthy(body.content) <==> Content in cs by { assert body.Get(Content) == body.content; }
    assert Truthy(body.author) <==> Author in cs by { assert body.Get(Author) == body.author; }
    if cs != [] {
      assert cs[0] in cs;
    }
  }

  /** `Supplied` written out for the three columns. */
  lemma SuppliedUnfolded(body: ArticleFields)
    ensures Supplied(body) ==
              (if Truthy(body.title) then [Title] else [])
              + (if Truthy(body.content) then [Content] else [])
              + (if Truthy(body.author) then [Author] else [])
  {
    var t := if Truthy(body.title) then [Title] else [];
    var c := if Truthy(body.content) then [Content] else [];
    var a := if Truthy(body.author) then [Author] else [];
    assert Columns[1..] == [Content, Author];
    assert [Content, Author][1..] == [Author];
    assert KeepTruthy([Author], body) == a + KeepTruthy([], body) == a;
    assert KeepTruthy([Content, Author], body) == c + a;
    assert KeepTruthy(Columns, body) == t + (c + a);
  }

  /** The i-th SET fragment's placeholder binds the body value of the column it names. */
  lemma UpdateBinding(id: string, body: ArticleFields)
    ensures var q := UpdateQuery(id, body);
            q.Some? ==>
              var assignments := q.value.statement.assignments;
              forall i :: 0 <= i < |assignments| ==>
                && assignments[i].placeholder == i + 1
                && Truthy(body.Get(assignments[i].column))
                && Bind(q.value.params, assignments[i].placeholder) == body.Get(assignments[i].column)
  {
  }

  lemma {:induction false} AssignedNumberedPrefix(cs: seq<Column>, body: ArticleFields, params: seq<string>, k: nat)
    requires k <= |cs| <= |params|
    requires forall i :: 0 <= i < |cs| ==> Truthy(body.Get(cs[i])) && body.Get(cs[i]).value == params[i]
    ensures Assigned(Numbered(cs)[..k], params) == Some(map c | c in cs[..k] && Truthy(body.Get(c)) :: body.Get(c).value)
    decreases k
  {
    var target := map c | c in cs[..k] && Truthy(body.Get(c)) :: body.Get(c).value;
    if k == 0 {
      assert Numbered(cs)[..k] == [];
      assert target == map[];
    } else {
      var s := Numbered(cs)[..k];
      assert s[..k - 1] == Numbered(cs)[..k - 1];
      AssignedNumberedPrefix(cs, body, params, k - 1);
      var before := map c | c in cs[..k - 1] && Truthy(body.Get(c)) :: body.Get(c).value;
      assert s[k - 1] == Assignment(cs[k - 1], k);
      assert cs[..k] == cs[..k - 1] + [cs[k - 1]];
      assert target == before[cs[k - 1] := params[k - 1]];
    }
  }

  /** The meaning of the UPDATE a PATCH issues: it writes exactly the body's
      truthy fields, each with its body value, into the row whose id is the
      route id. */
  lemma UpdateWritesIntended(id: string, body: ArticleFields)
    ensures var q := UpdateQuery(id, body);
            q.Some? ==>
              && Assigned(q.value.statement.assignments, q.value.params) == Some(body.Intended())
              && Bind(q.value.params, q.value.statement.idPlaceholder) == Some(id)
  {
    var cs := Supplied(body);
    if cs != [] {
      var params := ValuesOf(cs, body) + [id];
      AssignedNumberedPrefix(cs, body, params, |cs|);
      assert Numbered(cs)[..|cs|] == Numbered(cs);
      assert cs[..|cs|] == cs;
      SuppliedExactly(body);
      var m := map c | c in cs && Truthy(body.Get(c)) :: body.Get(c).value;
      forall c ensures c in m <==> c in body.Intended() {
        assert c == Columns[Rank(c)];
      }
      assert m == body.Intended();
    }
  }

  // ---------------------------------------------------------------------------
  // The builder, as the handler runs it
  // ---------------------------------------------------------------------------

  /** The three checks: grow `updates` and `values` and post-increment the
      placeholder counter for each truthy field, in column order. */
  method CollectAssignments(body: ArticleFields) returns (updates: seq<Assignment>, values: seq<string>, index: nat)
    ensures |updates| == |values| == index - 1
    ensures forall i :: 0 <= i < |updates| ==>
              && updates[i].placeholder == i + 1
              && body.Get(updates[i].column) == Some(values[i])
    ensures updates == Numbered(Supplied(body))
    ensures values == ValuesOf(Supplied(body), body)
  {
    SuppliedUnfolded(body);
    updates, values, index := [], [], 1;
    if Truthy(body.title) {
      updates := updates + [Assignment(Title, index)];
      index := index + 1;
      values := values + [body.title.value];
    }
    if Truthy(body.content) {
      updates := updates + [Assignment(Content, index)];
      index := index + 1;
      values := values + [body.content.value];
    }
    if Truthy(body.author) {
      updates := updates + [Assignment(Author, index)];
      index := index + 1;
      values := values + [body.author.value];
    }
  }

  /** The whole builder: no query when no field is truthy; otherwise bind the
      id last and name it as `WHERE id=$index`. */
  method BuildUpdate(id: string, body: ArticleFields) returns (q: Option<Query>)
    ensures q == UpdateQuery(id, body)
    ensures q.None? <==> body.Empty()
    ensures q.Some? ==>
              && WellNumbered(q.value)
              && q.value.statement.UpdateArticleById?
              && Bind(q.value.params, q.value.statement.idPlaceholder) == Some(id)
              && q.value.params[|q.value.params| - 1] == id
  {
    var updates, values, index := CollectAssignments(body);
    UpdateQueryIssued(id, body);
    if |updates| == 0 {
      return None;
    }
    values := values + [id];
    q := Some(Query(UpdateArticleById(updates, index), values));
  }

  // ---------------------------------------------------------------------------
  // Worked examples
  // ---------------------------------------------------------------------------

  /** A body whose only truthy field is the title, such as `PATCH /articles/7`
      with `{title: "Draft", author: ""}`, issues `UPDATE articles SET
      title=$1 WHERE id=$2` bound to [title, id]. */
  lemma TitleOnlyExample(id: string, body: ArticleFields)
    requires Truthy(body.title) && !Truthy(body.content) && !Truthy(body.author)
    ensures UpdateQuery(id, body)
            == Some(Query(UpdateArticleById([Assignment(Title, 1)], 2), [body.title.value, id]))
  {
    var t := body.title.value;
    var cs := [Title];
    SuppliedUnfolded(body);
    assert Supplied(body) == cs;
    assert UpdateQuery(id, body) == Some(Query(UpdateArticleById(Numbered(cs), 2), ValuesOf(cs, body) + [id]));
    assert Numbered(cs) == [Assignment(Title, 1)];
    assert ValuesOf(cs, body) + [id] == [t, id];
  }

  /** The text of the first fragment above. */
  lemma FirstFragmentText()
    ensures FragmentText(Assignment(Title, 1)) == "title=$1"
  {
  }

  /** With all three fields the fragments are numbered $1, $2, $3 in column
      order and the id is bound fourth, as $4. */
  lemma AllFieldsExample(id: string, t: string, c: string, a: string)
    requires t != "" && c != "" && a != ""
    ensures UpdateQuery(id, ArticleFields(Some(t), Some(c), Some(a)))
            == Some(Query(UpdateArticleById([Assignment(Title, 1), Assignment(Content, 2), Assignment(Author, 3)], 4),
                          [t, c, a, id]))
  {
    var body := ArticleFields(Some(t), Some(c), Some(a));
    var cs := [Title, Content, Author];
    SuppliedUnfolded(body);
    assert Supplied(body) == cs;
    assert UpdateQuery(id, body) == Some(Query(UpdateArticleById(Numbered(cs), 4), ValuesOf(cs, body) + [id]));
    assert Numbered(cs) == [Assignment(Title, 1), Assignment(Content, 2), Assignment(Author, 3)];
    assert ValuesOf(cs, body) == [t, c, a];
    assert ValuesOf(cs, body) + [id] == [t, c, a, id];
  }
}
