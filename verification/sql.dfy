/** The SQL side of the article service: the four parameterized statements the
    handlers send to PostgreSQL over the `articles` table, their text, and what
    their `$n` placeholders bind. PostgreSQL numbers placeholders from 1, so
    `$n` stands for the n-th element of the bound parameter list. */
module Sql {
  import opened Wrappers

  /** The three text columns of `articles` a request body can supply. */
  datatype Column = Title | Content | Author

  /** The columns in the order the handlers look at them. */
  const Columns: seq<Column> := [Title, Content, Author]

  /** Position of a column in `Columns`. */
  function Rank(c: Column): (r: nat)
    ensures r < |Columns| && Columns[r] == c
  {
    match c
    case Title => 0
    case Content => 1
    case Author => 2
  }

  /** `cs` lists columns strictly in column order, hence none twice. */
  predicate Ascending(cs: seq<Column>) {
    forall i, j :: 0 <= i < j < |cs| ==> Rank(cs[i]) < Rank(cs[j])
  }

  function ColumnName(c: Column): string {
    match c
    case Title => "title"
    case Content => "content"
    case Author => "author"
  }

  /** One `column=$n` fragment of an UPDATE's SET list. */
  datatype Assignment = Assignment(column: Column, placeholder: nat)

  datatype Statement =
    | SelectAllArticles                                               // SELECT ... ORDER BY id ASC
    | InsertArticle                                                   // INSERT ... VALUES ($1, $2, $3)
    | UpdateArticleById(assignments: seq<Assignment>, idPlaceholder: nat)  // UPDATE ... SET ... WHERE id=$n
    | DeleteArticleById                                               // DELETE ... WHERE id=$1

  /** A statement together with the values bound to its placeholders. */
  datatype Query = Query(statement: Statement, params: seq<string>)

  // ---------------------------------------------------------------------------
  // Placeholder text
  // ---------------------------------------------------------------------------

  predicate IsDigit(c: char) {
    '0' <= c <= '9'
  }

  predicate AllDigits(s: string) {
    forall i :: 0 <= i < |s| ==> IsDigit(s[i])
  }

  function Digit(d: nat): (c: char)
    requires d < 10
    ensures IsDigit(c) && c as int - '0' as int == d
  {
    (d + '0' as int) as char
  }

  /** The decimal numeral JavaScript's template literal writes for `n`. */
  function Decimal(n: nat): (s: string)
    ensures |s| > 0 && AllDigits(s)
    ensures n > 0 ==> s[0] != '0'
    decreases n
  {
    if n < 10 then [Digit(n)] else Decimal(n / 10) + [Digit(n % 10)]
  }

  /** The number a string of decimal digits denotes, as PostgreSQL reads `$n`. */
  function DigitsValue(s: string): nat
    requires AllDigits(s)
  {
    if s == [] then 0 else DigitsValue(s[..|s| - 1]) * 10 + (s[|s| - 1] as int - '0' as int)
  }

  lemma {:induction false} DecimalRoundTrip(n: nat)
    ensures DigitsValue(Decimal(n)) == n
    decreases n
  {
    if n >= 10 {
      var s := Decimal(n);
      assert s[..|s| - 1] == Decimal(n / 10);
      DecimalRoundTrip(n / 10);
    }
  }

  /** Reads `s` as a `column=$n` fragment for column `c`, if it is one. */
  function ParseFragmentAs(c: Column, s: string): Option<Assignment> {
    var prefix := ColumnName(c) + "=$";
    if |prefix| < |s| && s[..|prefix|] == prefix && AllDigits(s[|prefix|..])
    then Some(Assignment(c, DigitsValue(s[|prefix|..])))
    else None
  }

  /** The text of one SET fragment, `column=$n`: it holds no comma, and read
      back under its own column it gives that column and n. */
  function FragmentText(a: Assignment): (r: string)
    ensures ',' !in r
    ensures ParseFragmentAs(a.column, r) == Some(a)
  {
    var prefix := ColumnName(a.column) + "=$";
    var digits := Decimal(a.placeholder);
    DecimalRoundTrip(a.placeholder);
    assert (prefix + digits)[..|prefix|] == prefix;
    assert (prefix + digits)[|prefix|..] == digits;
    assert forall k :: 0 <= k < |digits| ==> digits[k] != ',';
    prefix + digits
  }

  /** Reads a SET fragment back into the column it names and its placeholder number. */
  function ParseFragment(s: string): Option<Assignment> {
    match ParseFragmentAs(Title, s)
    case Some(a) => Some(a)
    case None =>
      match ParseFragmentAs(Content, s)
      case Some(a) => Some(a)
      case None => ParseFragmentAs(Author, s)
  }

  lemma ParseFragmentAsOtherColumn(c: Column, a: Assignment)
    requires c != a.column
    ensures ParseFragmentAs(c, FragmentText(a)) == None
  {
    var s := FragmentText(a);
    var prefix := ColumnName(c) + "=$";
    assert s[0] == ColumnName(a.column)[0] != prefix[0];
    assert |prefix| <= |s| ==> s[..|prefix|][0] == s[0];
  }

  /** The fragment text names exactly its column and its placeholder number:
      `$n` in the text is read back as n. */
  lemma FragmentRoundTrip(a: Assignment)
    ensures ParseFragment(FragmentText(a)) == Some(a)
  {
    match a.column
    case Title =>
    case Content =>
      ParseFragmentAsOtherColumn(Title, a);
    case Author =>
      ParseFragmentAsOtherColumn(Title, a);
      ParseFragmentAsOtherColumn(Content, a);
  }

  // ---------------------------------------------------------------------------
  // Statement text
  // ---------------------------------------------------------------------------

  /** Index of the first comma in `s`, or `|s|` when there is none. */
  function FirstComma(s: string): (i: nat)
    ensures i <= |s|
    ensures i < |s| ==> s[i] == ','
    ensures ',' !in s[..i]
  {
    if s == [] || s[0] == ',' then 0
    else
      var j := FirstComma(s[1..]);
      assert s[..1 + j] == [s[0]] + s[1..][..j];
      1 + j
  }

  function DropSpace(t: string): (r: string)
    ensures |r| <= |t|
  {
    if |t| > 0 && t[0] == ' ' then t[1..] else t
  }

  /** Reads a `", "`-separated list back into its items. */
  function SplitList(s: string): seq<string>
    decreases |s|
  {
    var i := FirstComma(s);
    if i == |s| then [s] else [s[..i]] + SplitList(DropSpace(s[i + 1..]))
  }

  lemma SplitSingle(p: string)
    ensures ',' !in p ==> SplitList(p) == [p]
  {
    if ',' !in p {
      var i := FirstComma(p);
      assert forall k :: 0 <= k < |p| ==> p[k] in p;
    }
  }

  lemma SplitAfterFirst(p: string, t: string)
    ensures ',' !in p ==> SplitList(p + ", " + t) == [p] + SplitList(t)
  {
    if ',' !in p {
      var s := p + ", " + t;
      var i := FirstComma(s);
      assert forall k :: 0 <= k < |p| ==> s[k] == p[k] && p[k] in p;
      assert s[|p|] == ',';
      assert forall k :: 0 <= k < i ==> s[..i][k] in s[..i];
      assert s[..i] == p;
      assert s[i + 1..] == " " + t;
      assert DropSpace(" " + t) == t;
    }
  }

  /** `Array.prototype.join`. Joined with `", "`, items without a comma read
      back as exactly the items joined. */
  function Join(parts: seq<string>, separator: string): (r: string)
    ensures separator == ", " && parts != [] && (forall i :: 0 <= i < |parts| ==> ',' !in parts[i])
            ==> SplitList(r) == parts
  {
    if parts == [] then ""
    else if |parts| == 1 then
      SplitSingle(parts[0]);
      parts[0]
    else
      var rest := Join(parts[1..], separator);
      SplitAfterFirst(parts[0], rest);
      assert parts == [parts[0]] + parts[1..];
      assert forall i :: 0 <= i < |parts| - 1 ==> parts[1..][i] == parts[i + 1];
      parts[0] + separator + rest
  }

  /** `updates.join(", ")`: the SET list reads back, item by item, as the
      assignments it was built from. */
  function SetList(assignments: seq<Assignment>): (r: string)
    ensures assignments != [] ==>
              && |SplitList(r)| == |assignments|
              && forall i :: 0 <= i < |assignments| ==> ParseFragment(SplitList(r)[i]) == Some(assignments[i])
  {
    var fragments := seq(|assignments|, i requires 0 <= i < |assignments| => FragmentText(assignments[i]));
    FragmentsRoundTrip(assignments);
    Join(fragments, ", ")
  }

  lemma FragmentsRoundTrip(assignments: seq<Assignment>)
    ensures forall i :: 0 <= i < |assignments| ==> ParseFragment(FragmentText(assignments[i])) == Some(assignments[i])
  {
    forall i | 0 <= i < |assignments| ensures ParseFragment(FragmentText(assignments[i])) == Some(assignments[i]) {
      FragmentRoundTrip(assignments[i]);
    }
  }

  /** Reads the tail of an UPDATE back into the number of its id placeholder. */
  function ParseWhereTail(s: string): Option<nat> {
    var head := " WHERE id=$";
    var tail := " RETURNING *";
    if |head| + |tail| < |s| && s[..|head|] == head && s[|s| - |tail|..] == tail
       && AllDigits(s[|head|..|s| - |tail|])
    then Some(DigitsValue(s[|head|..|s| - |tail|]))
    else None
  }

  /** The WHERE clause of an UPDATE: it names exactly its id placeholder. */
  function WhereTail(idPlaceholder: nat): (r: string)
    ensures ParseWhereTail(r) == Some(idPlaceholder)
  {
    var head := " WHERE id=$";
    var tail := " RETURNING *";
    var digits := Decimal(idPlaceholder);
    var s := head + digits + tail;
    assert s[..|head|] == head;
    assert s[|s| - |tail|..] == tail;
    assert s[|head|..|s| - |tail|] == digits;
    DecimalRoundTrip(idPlaceholder);
    s
  }

  const UpdateHead: string := "UPDATE articles SET "

  /** The SQL text sent to PostgreSQL for each statement. An UPDATE's text is
      its SET list, which reads back as its assignments, followed by a WHERE
      tail, which reads back as its id placeholder. */
  function Text(s: Statement): (r: string)
    ensures s.UpdateArticleById? ==>
              var setList := SetList(s.assignments);
              && |UpdateHead| + |setList| <= |r|
              && r[..|UpdateHead|] == UpdateHead
              && r[|UpdateHead|..|UpdateHead| + |setList|] == setList
              && ParseWhereTail(r[|UpdateHead| + |setList|..]) == Some(s.idPlaceholder)
  {
    match s
    case SelectAllArticles => "SELECT * FROM articles ORDER BY id ASC"
    case InsertArticle => "INSERT INTO articles (title, content, author) VALUES ($1, $2, $3) RETURNING *"
    case UpdateArticleById(assignments, w) =>
      var setList := SetList(assignments);
      var tail := WhereTail(w);
      assert (UpdateHead + setList + tail)[..|UpdateHead|] == UpdateHead;
      assert (UpdateHead + setList + tail)[|UpdateHead|..|UpdateHead| + |setList|] == setList;
      assert (UpdateHead + setList + tail)[|UpdateHead| + |setList|..] == tail;
      UpdateHead + setList + tail
    case DeleteArticleById => "DELETE FROM articles WHERE id=$1 RETURNING *"
  }

  // ---------------------------------------------------------------------------
  // Placeholder binding
  // ---------------------------------------------------------------------------

  /** The placeholder numbers a statement uses, in the order they occur in its text. */
  function Placeholders(s: Statement): seq<nat> {
    match s
    case SelectAllArticles => []
    case InsertArticle => [1, 2, 3]
    case UpdateArticleById(assignments, w) =>
      seq(|assignments|, i requires 0 <= i < |assignments| => assignments[i].placeholder) + [w]
    case DeleteArticleById => [1]
  }

  /** The numbers 1, 2, ..., k. */
  function Ordinals(k: nat): (r: seq<nat>)
    ensures |r| == k && forall i :: 0 <= i < k ==> r[i] == i + 1
  {
    seq(k, i => i + 1)
  }

  /** Binding is consistent: the placeholders are $1 .. $k in order, with no
      gap and no repeat, for exactly k bound values. */
  predicate WellNumbered(q: Query) {
    Placeholders(q.statement) == Ordinals(|q.params|)
  }

  /** The value `$n` stands for, or None when no n-th value is bound. */
  function Bind(params: seq<string>, n: nat): (v: Option<string>)
    ensures v.Some? <==> 1 <= n <= |params|
    ensures v.Some? ==> v.value == params[n - 1]
  {
    if 1 <= n <= |params| then Some(params[n - 1]) else None
  }

  /** The column values an UPDATE's SET list writes, or None when one of its
      placeholders has no bound value. */
  function Assigned(assignments: seq<Assignment>, params: seq<string>): Option<map<Column, string>> {
    if assignments == [] then Some(map[])
    else
      var last := assignments[|assignments| - 1];
      match (Assigned(assignments[..|assignments| - 1], params), Bind(params, last.placeholder))
      case (Some(m), Some(v)) => Some(m[last.column := v])
      case _ => None
  }
}
