/** The columns a join selects and the properties a row of it is decoded into
    (persist/JoinMapping.h:140-219, persist/ObjectMapping.h:224-289 and 460-471): two loops in two
    classes that have to agree column by column.
 */
module JoinMapping {
  import opened Sequences

  datatype Result<T> = Ok(value: T) | Err(id: string)

  datatype Property = Property(property: string, field: string, pk: bool, fk: bool)

  datatype Mapping = Mapping(id: string, table: string, props: seq<Property>)

  /** A column of the result: the property at hand, and the mapping it comes from, 0 being the
      main one. */
  datatype Column = Column(source: nat, prop: Property)

  datatype Assignment = Assignment(source: nat, property: string, value: string)

  // Which columns.

  predicate Matches(p: Property, property: string) { (p.pk || p.fk) && p.property == property }

  /** The first primary or foreign key of that name. */
  function FirstKey(props: seq<Property>, property: string): (n: nat)
    ensures n <= |props|
    ensures forall j :: 0 <= j < n ==> !Matches(props[j], property)
    ensures n < |props| ==> Matches(props[n], property)
  {
    if props == [] || Matches(props[0], property) then 0 else 1 + FirstKey(props[1..], property)
  }

  predicate IsKey(main: Mapping, property: string) {
    FirstKey(main.props, property) < |main.props|
  }

  /** A key of the main mapping, primary or foreign. */
  lemma IsKeyIff(main: Mapping, property: string)
    ensures IsKey(main, property) <==> exists p :: p in main.props && p.property == property && (p.pk || p.fk)
  {
    var n := FirstKey(main.props, property);
    if n < |main.props| {
      assert main.props[n] in main.props;
    }
  }

  /** find_property for a primary or foreign key; the end of the list when there is none. */
  method FindKey(main: Mapping, property: string) returns (at: nat)
    ensures at == FirstKey(main.props, property)
  {
    at := 0;
    while at < |main.props|
      invariant 0 <= at <= |main.props|
      invariant forall j :: 0 <= j < at ==> !Matches(main.props[j], property)
    {
      if Matches(main.props[at], property) {
        break;
      }
      at := at + 1;
    }
  }

  /** The columns of a joined mapping: a key of the main mapping is there already. */
  function Kept(main: Mapping, source: nat, props: seq<Property>): seq<Column> {
    if props == [] then []
    else
      var n := |props| - 1;
      Kept(main, source, props[..n]) + if IsKey(main, props[n].property) then [] else [Column(source, props[n])]
  }

  function MainColumns(props: seq<Property>): (r: seq<Column>)
    ensures |r| == |props| && forall i :: 0 <= i < |props| ==> r[i] == Column(0, props[i])
  {
    seq(|props|, i requires 0 <= i < |props| => Column(0, props[i]))
  }

  function Columns(main: Mapping, joins: seq<Mapping>): seq<Column> {
    if joins == [] then MainColumns(main.props)
    else Columns(main, joins[..|joins| - 1]) + Kept(main, |joins|, joins[|joins| - 1].props)
  }

  lemma {:induction false} KeptMember(main: Mapping, source: nat, props: seq<Property>, c: Column)
    ensures c in Kept(main, source, props)
      <==> c.source == source && c.prop in props && !IsKey(main, c.prop.property)
  {
    if props != [] {
      var n := |props| - 1;
      KeptMember(main, source, props[..n], c);
      assert props == props[..n] + [props[n]];
    }
  }

  ghost predicate Selected(main: Mapping, joins: seq<Mapping>, c: Column) {
    if c.source == 0 then c.prop in main.props
    else c.source <= |joins| && c.prop in joins[c.source - 1].props && !IsKey(main, c.prop.property)
  }

  /** Exactly which columns there are. */
  lemma {:induction false} ColumnMember(main: Mapping, joins: seq<Mapping>, c: Column)
    ensures c in Columns(main, joins) <==> Selected(main, joins, c)
  {
    if joins == [] {
      if c.source == 0 && c.prop in main.props {
        var i :| 0 <= i < |main.props| && main.props[i] == c.prop;
        assert MainColumns(main.props)[i] == c;
      }
    } else {
      var n := |joins| - 1;
      ColumnMember(main, joins[..n], c);
      KeptMember(main, n + 1, joins[n].props, c);
    }
  }

  // The statement.

  /** get_table_alias, a char. */
  function Alias(i: nat): char { ((65 + i) % 256) as char }

  function ColumnText(c: Column): string {
    (if Alias(c.source) != '\0' then [Alias(c.source), '.'] else []) + c.prop.field
  }

  /** Every column followed by a comma. */
  function Listed(columns: seq<Column>): string {
    if columns == [] then []
    else Listed(columns[..|columns| - 1]) + (ColumnText(columns[|columns| - 1]) + [','])
  }

  lemma ListedPush(columns: seq<Column>, c: Column)
    ensures Listed(columns + [c]) == Listed(columns) + (ColumnText(c) + [','])
  {
    assert (columns + [c])[..|columns|] == columns;
  }

  lemma {:induction false} ListedAppend(a: seq<Column>, b: seq<Column>)
    ensures Listed(a + b) == Listed(a) + Listed(b)
  {
    if b == [] {
      assert a + b == a;
    } else {
      var n := |b| - 1;
      var text := ColumnText(b[n]) + [','];
      ListedAppend(a, b[..n]);
      ListedPush(a + b[..n], b[n]);
      assert a + b == a + b[..n] + [b[n]];
      Regroup(Listed(a), Listed(b[..n]), text);
    }
  }

  /** The columns apart. */
  function SplitAtCommas(s: string): seq<string> {
    if s == [] then []
    else
      var n := CommaAt(s);
      [s[..n]] + if n == |s| then [] else SplitAtCommas(s[n + 1..])
  }

  function CommaAt(s: string): (n: nat)
    ensures n <= |s| && ',' !in s[..n] && (n < |s| ==> s[n] == ',')
  {
    if s == [] || s[0] == ',' then 0 else 1 + CommaAt(s[1..])
  }

  lemma {:induction false} CommaAfter(text: string, rest: string)
    requires ',' !in text
    ensures CommaAt(text + [','] + rest) == |text|
  {
    if text != [] {
      CommaAfter(text[1..], rest);
      assert (text + [','] + rest)[1..] == text[1..] + [','] + rest;
    }
  }

  lemma {:induction false} ListedFirst(columns: seq<Column>)
    requires columns != []
    ensures Listed(columns) == ColumnText(columns[0]) + [','] + Listed(columns[1..])
  {
    assert columns == [columns[0]] + columns[1..];
    ListedAppend([columns[0]], columns[1..]);
    assert [columns[0]] == [] + [columns[0]];
    ListedPush([], columns[0]);
  }

  function Texts(columns: seq<Column>): (r: seq<string>)
    ensures |r| == |columns| && forall k :: 0 <= k < |columns| ==> r[k] == ColumnText(columns[k])
  {
    seq(|columns|, k requires 0 <= k < |columns| => ColumnText(columns[k]))
  }

  /** A list of columns as it stands in the statement, its last comma removed. */
  function Trimmed(columns: seq<Column>): string
    requires columns != []
  {
    var s := Listed(columns);
    s[..|s| - 1]
  }

  lemma TrimmedFirst(columns: seq<Column>)
    requires columns != []
    ensures var text := ColumnText(columns[0]);
      Trimmed(columns) == if |columns| == 1 then text else text + [','] + Trimmed(columns[1..])
  {
    ListedFirst(columns);
    if |columns| == 1 {
      assert Listed(columns) == ColumnText(columns[0]) + [','];
    }
  }

  lemma {:induction false} NoComma(text: string)
    requires ',' !in text
    ensures CommaAt(text) == |text|
  {
    if text != [] {
      NoComma(text[1..]);
    }
  }

  lemma SplitFirst(text: string, rest: string)
    requires ',' !in text
    ensures SplitAtCommas(text + [','] + rest) == [text] + SplitAtCommas(rest)
  {
    var s := text + [','] + rest;
    CommaAfter(text, rest);
    assert s[|text| + 1..] == rest;
    assert s[..|text|] == text;
  }

  lemma SplitLast(text: string)
    requires ',' !in text && text != []
    ensures SplitAtCommas(text) == [text]
  {
    NoComma(text);
    assert text[..|text|] == text;
  }

  lemma TextsFirst(columns: seq<Column>)
    requires columns != []
    ensures Texts(columns) == [ColumnText(columns[0])] + Texts(columns[1..])
  {
  }

  /** Read at its commas, the list of columns is the columns in order: the k-th column of the
      result is the field of the k-th property. */
  lemma {:induction false} SplitTrimmed(columns: seq<Column>)
    requires columns != []
    requires forall c :: c in columns ==> ',' !in ColumnText(c) && ColumnText(c) != []
    ensures SplitAtCommas(Trimmed(columns)) == Texts(columns)
  {
    var text := ColumnText(columns[0]);
    assert columns[0] in columns;
    TrimmedFirst(columns);
    TextsFirst(columns);
    if |columns| == 1 {
      SplitLast(text);
    } else {
      SplitFirst(text, Trimmed(columns[1..]));
      SplitTrimmed(columns[1..]);
    }
  }

  /** get_field_sql for the main mapping. */
  method GetMainFieldSql(sql: string, main: Mapping) returns (r: Result<string>)
    ensures r == if main.props == [] then Err(main.id) else Ok(sql + Listed(MainColumns(main.props)))
  {
    if main.props == [] {
      return Err(main.id);
    }
    var s := sql;
    var i := 0;
    while i < |main.props|
      invariant 0 <= i <= |main.props| && s == sql + Listed(MainColumns(main.props[..i]))
    {
      var p := main.props[i];
      ListedPush(MainColumns(main.props[..i]), Column(0, p));
      Regroup(sql, Listed(MainColumns(main.props[..i])), ColumnText(Column(0, p)) + [',']);
      assert MainColumns(main.props[..i + 1]) == MainColumns(main.props[..i]) + [Column(0, p)];
      s := AppendColumn(s, Column(0, p));
      i := i + 1;
    }
    assert main.props[..i] == main.props;
    return Ok(s);
  }

  method AppendColumn(sql: string, c: Column) returns (r: string)
    ensures r == sql + (ColumnText(c) + [','])
  {
    r := sql;
    if Alias(c.source) != '\0' {
      r := r + [Alias(c.source)];
      r := r + ['.'];
    }
    r := r + c.prop.field;
    r := r + [','];
  }

  /** get_field_sql for a joined mapping. */
  method GetFieldSql(sql: string, main: Mapping, source: nat, mapping: Mapping) returns (r: Result<string>)
    ensures r == if mapping.props == [] then Err(mapping.id) else Ok(sql + Listed(Kept(main, source, mapping.props)))
  {
    if mapping.props == [] {
      return Err(mapping.id);
    }
    var s := sql;
    var i := 0;
    while i < |mapping.props|
      invariant 0 <= i <= |mapping.props| && s == sql + Listed(Kept(main, source, mapping.props[..i]))
    {
      var p := mapping.props[i];
      KeptStep(main, source, mapping.props, i);
      var at := FindKey(main, p.property);
      if at == |main.props| {
        ListedPush(Kept(main, source, mapping.props[..i]), Column(source, p));
        Regroup(sql, Listed(Kept(main, source, mapping.props[..i])), ColumnText(Column(source, p)) + [',']);
        s := AppendColumn(s, Column(source, p));
      }
      i := i + 1;
    }
    assert mapping.props[..i] == mapping.props;
    return Ok(s);
  }

  lemma KeptStep(main: Mapping, source: nat, props: seq<Property>, i: nat)
    requires i < |props|
    ensures var kept := Kept(main, source, props[..i]);
      Kept(main, source, props[..i + 1])
        == if IsKey(main, props[i].property) then kept else kept + [Column(source, props[i])]
  {
    assert props[..i + 1][..i] == props[..i];
    assert Kept(main, source, props[..i]) + [] == Kept(main, source, props[..i]);
  }

  /** The condition of a join: each property that is a key of the main mapping. */
  function Condition(main: Mapping, source: nat, props: seq<Property>): string {
    if props == [] then []
    else
      var n := |props| - 1;
      var before := Condition(main, source, props[..n]);
      var key := FirstKey(main.props, props[n].property);
      if key == |main.props| then before
      else
        (if before == [] then [] else before + " and ")
        + ([Alias(source), '.'] + props[n].field + "=A." + main.props[key].field)
  }

  function JoinClause(main: Mapping, source: nat, mapping: Mapping): string {
    var condition := Condition(main, source, mapping.props);
    if condition == [] then []
    else "inner join " + mapping.table + " as " + [Alias(source)] + " on " + condition
  }

  function JoinClauses(main: Mapping, joins: seq<Mapping>): string {
    if joins == [] then []
    else
      var n := |joins| - 1;
      JoinClauses(main, joins[..n]) + JoinClause(main, n + 1, joins[n])
  }

  /** The table of a mapping is joined exactly when the mapping shares a key with the main one;
      its columns are selected either way. */
  lemma {:induction false} JoinedIffShares(main: Mapping, source: nat, mapping: Mapping)
    ensures JoinClause(main, source, mapping) != [] <==> Shares(main, mapping)
  {
    ConditionIffShares(main, source, mapping.props);
  }

  lemma {:induction false} ConditionIffShares(main: Mapping, source: nat, props: seq<Property>)
    ensures Condition(main, source, props) != []
      <==> exists i :: 0 <= i < |props| && IsKey(main, props[i].property)
  {
    if props != [] {
      var n := |props| - 1;
      ConditionIffShares(main, source, props[..n]);
      assert forall i :: 0 <= i < n ==> props[..n][i] == props[i];
    }
  }

  // Whether the clauses can be told apart.

  /** A statement read at its spaces. */
  function Words(s: string): seq<string> {
    if s == [] then []
    else
      var n := |s| - 1;
      var before := Words(s[..n]);
      if s[n] == ' ' then before
      else if n == 0 || s[n - 1] == ' ' then before + [[s[n]]]
      else if before == [] then [[s[n]]]
      else before[..|before| - 1] + [before[|before| - 1] + [s[n]]]
  }

  /** The clauses as they are meant: one after another, a space between. */
  function SpacedClauses(main: Mapping, joins: seq<Mapping>): string {
    if joins == [] then []
    else
      var n := |joins| - 1;
      var before, clause := SpacedClauses(main, joins[..n]), JoinClause(main, n + 1, joins[n]);
      if before == [] then clause else if clause == [] then before else before + [' '] + clause
  }

  ghost predicate Shares(main: Mapping, mapping: Mapping) {
    exists i :: 0 <= i < |mapping.props| && IsKey(main, mapping.props[i].property)
  }

  /** How many of the joined mappings share a key with the main one. */
  ghost function Sharing(main: Mapping, joins: seq<Mapping>): nat {
    if joins == [] then 0
    else Sharing(main, joins[..|joins| - 1]) + if Shares(main, joins[|joins| - 1]) then 1 else 0
  }

  ghost predicate Ends(s: string) { s != [] && s[|s| - 1] != ' ' }

  ghost predicate Begins(s: string) { s != [] && s[0] != ' ' }

  lemma WordsPush(s: string, c: char)
    ensures Words(s + [c]) ==
      if c == ' ' then Words(s)
      else if !Ends(s) || Words(s) == [] then Words(s) + [[c]]
      else Words(s)[..|Words(s)| - 1] + [Words(s)[|Words(s)| - 1] + [c]]
  {
    var t := s + [c];
    assert t[..|s|] == s && t[|s|] == c && |t| - 1 == |s|;
    assert s != [] ==> t[|s| - 1] == s[|s| - 1];
    assert s == [] ==> Words(s) == [];
    assert [] + [[c]] == [[c]];
  }

  lemma {:induction false} WordsOfWord(s: string)
    requires Ends(s)
    ensures Words(s) != []
  {
  }

  /** Two texts with nothing between run into one word where they meet. */
  lemma {:induction false} WordsGlued(a: string, b: string)
    requires Ends(a) && Begins(b)
    ensures |Words(a + b)| == |Words(a)| + |Words(b)| - 1
  {
    var n := |b| - 1;
    var c, init := b[n], b[..n];
    assert b == init + [c];
    Regroup(a, init, [c]);
    WordsOfWord(a);
    WordsPush(a + init, c);
    WordsPush(init, c);
    if n == 0 {
      assert a + init == a;
    } else {
      WordsGlued(a, init);
      assert Ends(a + init) <==> Ends(init);
      if Ends(init) {
        WordsOfWord(init);
      }
    }
  }

  lemma {:induction false} WordsSpaced(a: string, b: string)
    ensures Words(a + [' '] + b) == Words(a) + Words(b)
  {
    if b == [] {
      assert a + [' '] + b == a + [' '];
      WordsPush(a, ' ');
    } else {
      var n := |b| - 1;
      assert b == b[..n] + [b[n]];
      WordsSpaced(a, b[..n]);
      WordsSpacedPush(a + [' '], Words(a), b[..n], b[n]);
    }
  }

  lemma WordsSpacedPush(front: string, before: seq<string>, b: string, c: char)
    requires front != [] && front[|front| - 1] == ' ' && Words(front + b) == before + Words(b)
    ensures Words(front + (b + [c])) == before + Words(b + [c])
  {
    Regroup(front, b, [c]);
    WordsPush(front + b, c);
    WordsPush(b, c);
    assert Ends(front + b) <==> Ends(b);
    if Ends(b) {
      WordsOfWord(b);
      LastOfBoth(before, Words(b), c);
    } else {
      Regroup(before, Words(b), [[c]]);
    }
  }

  lemma LastOfBoth(before: seq<string>, words: seq<string>, c: char)
    requires words != []
    ensures var both, n, m := before + words, |before + words| - 1, |words| - 1;
      both[..n] + [both[n] + [c]] == before + (words[..m] + [words[m] + [c]])
  {
  }

  lemma ClauseEnds(main: Mapping, source: nat, mapping: Mapping)
    requires forall p :: p in main.props ==> ' ' !in p.field
    ensures var clause := JoinClause(main, source, mapping); clause != [] ==> Begins(clause) && Ends(clause)
  {
    ConditionEnds(main, source, mapping.props);
    var condition := Condition(main, source, mapping.props);
    if condition != [] {
      var clause := JoinClause(main, source, mapping);
      assert clause[0] == 'i';
      assert clause[|clause| - 1] == condition[|condition| - 1];
    }
  }

  lemma {:induction false} ConditionEnds(main: Mapping, source: nat, props: seq<Property>)
    requires forall p :: p in main.props ==> ' ' !in p.field
    ensures Condition(main, source, props) != [] ==> Ends(Condition(main, source, props))
  {
    if props != [] {
      var n := |props| - 1;
      ConditionEnds(main, source, props[..n]);
      var key := FirstKey(main.props, props[n].property);
      if key < |main.props| {
        var field := main.props[key].field;
        var left := [Alias(source), '.'] + props[n].field + "=A.";
        var condition := Condition(main, source, props);
        assert condition[|condition| - 1] == (left + field)[|left + field| - 1];
        assert main.props[key] in main.props;
        assert field != [] ==> field[|field| - 1] in field;
      }
    }
  }

  /** Each clause after the first runs into the one before it, and costs a word. */
  lemma {:induction false} WordsOfClauses(main: Mapping, joins: seq<Mapping>)
    requires forall p :: p in main.props ==> ' ' !in p.field
    ensures WordsLost(JoinClauses(main, joins), SpacedClauses(main, joins), Sharing(main, joins))
  {
    if joins != [] {
      var n := |joins| - 1;
      var before, clause := joins[..n], JoinClause(main, n + 1, joins[n]);
      WordsOfClauses(main, before);
      JoinedIffShares(main, n + 1, joins[n]);
      ClauseEnds(main, n + 1, joins[n]);
      var glued, meant := JoinClauses(main, before), SpacedClauses(main, before);
      if clause != [] {
        WordsStep(glued, meant, clause, Sharing(main, before));
      } else {
        assert glued + [] == glued;
      }
    }
  }

  ghost predicate WordsLost(glued: string, meant: string, k: nat) {
    && (k == 0 ==> glued == [] && meant == [])
    && (k == 1 ==> glued == meant)
    && (k > 0 ==> Ends(glued) && Ends(meant) && |Words(glued)| + k == |Words(meant)| + 1)
  }

  lemma WordsStep(glued: string, meant: string, clause: string, k: nat)
    requires WordsLost(glued, meant, k) && Begins(clause) && Ends(clause)
    ensures WordsLost(glued + clause, if meant == [] then clause else meant + [' '] + clause, k + 1)
  {
    if k == 0 {
      assert [] + clause == clause;
    } else {
      EndsAfter(glued, clause);
      EndsAfter(meant + [' '], clause);
      WordsGlued(glued, clause);
      WordsSpaced(meant, clause);
    }
  }

  lemma EndsAfter(a: string, b: string)
    requires Ends(b)
    ensures Ends(a + b)
  {
    assert (a + b)[|a + b| - 1] == b[|b| - 1];
  }

  /** The clauses come out as they are meant if and only if at most one joined mapping shares a
      key with the main one: there is no space between two clauses. */
  lemma ClausesApartIff(main: Mapping, joins: seq<Mapping>)
    requires forall p :: p in main.props ==> ' ' !in p.field
    ensures Words(JoinClauses(main, joins)) == Words(SpacedClauses(main, joins)) <==> Sharing(main, joins) <= 1
  {
    WordsOfClauses(main, joins);
  }

  /** For instance, tables b and c that both refer to the key of a. */
  lemma TwoClausesRunTogether(main: Mapping, joins: seq<Mapping>)
    requires main == Mapping("a", "a", [Property("id", "x", true, false)])
    requires joins == [Mapping("b", "b", [Property("id", "x", false, true)]), Mapping("c", "c", [Property("id", "x", false, true)])]
    ensures JoinClauses(main, joins) == "inner join b as B on B.x=A.x" + "inner join c as C on C.x=A.x"
    ensures Words(JoinClauses(main, joins)) != Words(SpacedClauses(main, joins))
  {
    var b, c := JoinClause(main, 1, joins[0]), JoinClause(main, 2, joins[1]);
    OneClause(main, 1, "b", joins[0], 'B');
    assert b == "inner join b as B on B.x=A.x";
    OneClause(main, 2, "c", joins[1], 'C');
    assert c == "inner join c as C on C.x=A.x";
    TwoClauses(main, joins);
    assert [] + b == b;
    BothShare(main, joins);
    ClausesApartIff(main, joins);
  }

  lemma TwoClauses(main: Mapping, joins: seq<Mapping>)
    requires |joins| == 2
    ensures JoinClauses(main, joins) == [] + JoinClause(main, 1, joins[0]) + JoinClause(main, 2, joins[1])
  {
    JoinStep(main, joins, 0);
    JoinStep(main, joins, 1);
    assert joins[..2] == joins && joins[..0] == [];
  }

  lemma TwoShare(main: Mapping, joins: seq<Mapping>)
    requires |joins| == 2
    ensures Sharing(main, joins) == (if Shares(main, joins[0]) then 1 else 0) + (if Shares(main, joins[1]) then 1 else 0)
  {
    assert joins[..1][..0] == [] && joins[..1] == [joins[0]];
    assert Sharing(main, joins[..1]) == if Shares(main, joins[0]) then 1 else 0;
  }

  lemma BothShare(main: Mapping, joins: seq<Mapping>)
    requires main.props == [Property("id", "x", true, false)] && |joins| == 2
    requires joins[0].props == joins[1].props == [Property("id", "x", false, true)]
    ensures Sharing(main, joins) == 2
  {
    assert IsKey(main, joins[0].props[0].property) && IsKey(main, joins[1].props[0].property);
    TwoShare(main, joins);
  }

  lemma OneClause(main: Mapping, source: nat, table: string, mapping: Mapping, alias: char)
    requires main.props == [Property("id", "x", true, false)] && Alias(source) == alias
    requires mapping == Mapping(table, table, [Property("id", "x", false, true)])
    ensures JoinClause(main, source, mapping) == "inner join " + table + " as " + [alias] + " on " + ([alias] + ".x=A.x")
  {
    var props := mapping.props;
    assert props[..0] == [] && FirstKey(main.props, "id") == 0;
    assert Condition(main, source, props) == [] + ([alias, '.'] + "x" + "=A." + "x");
  }

  /** get_join_sql. */
  method GetJoinSql(sql: string, main: Mapping, source: nat, mapping: Mapping) returns (r: string)
    ensures r == sql + JoinClause(main, source, mapping)
  {
    var condition: string := [];
    var i := 0;
    while i < |mapping.props|
      invariant 0 <= i <= |mapping.props| && condition == Condition(main, source, mapping.props[..i])
    {
      var p := mapping.props[i];
      assert mapping.props[..i + 1][..i] == mapping.props[..i];
      var key := FindKey(main, p.property);
      if key < |main.props| {
        if condition != [] {
          condition := condition + " and ";
        }
        condition := condition + ([Alias(source), '.'] + p.field + "=A." + main.props[key].field);
      }
      i := i + 1;
    }
    assert mapping.props[..i] == mapping.props;
    r := sql;
    if condition != [] {
      r := r + ("inner join " + mapping.table + " as " + [Alias(source)] + " on " + condition);
    }
  }

  /** A mapping without properties, the first there is. */
  function FirstEmpty(main: Mapping, joins: seq<Mapping>): Result<()> {
    if joins == [] then (if main.props == [] then Err(main.id) else Ok(()))
    else
      var n := |joins| - 1;
      match FirstEmpty(main, joins[..n])
      case Err(id) => Err(id)
      case Ok(_) => if joins[n].props == [] then Err(joins[n].id) else Ok(())
  }

  /** Mapping k of the statement, 0 being the main one. */
  function MappingAt(main: Mapping, joins: seq<Mapping>, k: nat): Mapping
    requires k <= |joins|
  {
    if k == 0 then main else joins[k - 1]
  }

  ghost predicate FirstWithout(main: Mapping, joins: seq<Mapping>, k: nat) {
    && k <= |joins| && MappingAt(main, joins, k).props == []
    && forall j :: 0 <= j < k ==> MappingAt(main, joins, j).props != []
  }

  /** There is a statement exactly if every mapping has properties; the error names the first that has none. */
  lemma {:induction false} ErrorIff(main: Mapping, joins: seq<Mapping>)
    ensures FirstEmpty(main, joins).Ok? <==> forall k :: 0 <= k <= |joins| ==> MappingAt(main, joins, k).props != []
    ensures forall k: nat :: FirstWithout(main, joins, k) ==> FirstEmpty(main, joins) == Err(MappingAt(main, joins, k).id)
  {
    if joins == [] {
      assert MappingAt(main, joins, 0) == main;
    } else {
      var n := |joins| - 1;
      ErrorIff(main, joins[..n]);
      assert forall k :: 0 <= k <= n ==> MappingAt(main, joins[..n], k) == MappingAt(main, joins, k);
      assert MappingAt(main, joins, n + 1) == joins[n];
      forall k: nat | FirstWithout(main, joins, k)
        ensures FirstEmpty(main, joins) == Err(MappingAt(main, joins, k).id)
      {
        assert k <= n ==> FirstWithout(main, joins[..n], k);
      }
    }
  }

  /** The select list, with its last comma. */
  method GetSelectList(main: Mapping, joins: seq<Mapping>) returns (r: Result<string>)
    ensures match FirstEmpty(main, joins)
      case Err(id) => r == Err(id)
      case Ok(_) => r == Ok("select " + Listed(Columns(main, joins)))
  {
    r := GetMainFieldSql("select ", main);
    if r.Err? {
      SameError(main, joins, 0);
      return;
    }
    var sql := r.value;
    var i := 0;
    while i < |joins|
      invariant 0 <= i <= |joins| && FirstEmpty(main, joins[..i]).Ok?
      invariant sql == "select " + Listed(Columns(main, joins[..i]))
    {
      JoinStep(main, joins, i);
      ListedAppend(Columns(main, joins[..i]), Kept(main, i + 1, joins[i].props));
      Regroup("select ", Listed(Columns(main, joins[..i])), Listed(Kept(main, i + 1, joins[i].props)));
      r := GetFieldSql(sql, main, i + 1, joins[i]);
      if r.Err? {
        SameError(main, joins, i + 1);
        return;
      }
      sql := r.value;
      i := i + 1;
    }
    assert joins[..i] == joins;
    r := Ok(sql);
  }

  lemma JoinStep(main: Mapping, joins: seq<Mapping>, i: nat)
    requires i < |joins|
    ensures Columns(main, joins[..i + 1]) == Columns(main, joins[..i]) + Kept(main, i + 1, joins[i].props)
    ensures JoinClauses(main, joins[..i + 1]) == JoinClauses(main, joins[..i]) + JoinClause(main, i + 1, joins[i])
    ensures FirstEmpty(main, joins[..i]).Ok? ==>
      FirstEmpty(main, joins[..i + 1]) == if joins[i].props == [] then Err(joins[i].id) else Ok(())
  {
    assert joins[..i + 1][..i] == joins[..i];
  }

  lemma {:induction false} SameError(main: Mapping, joins: seq<Mapping>, n: nat)
    requires n <= |joins| && FirstEmpty(main, joins[..n]).Err?
    ensures FirstEmpty(main, joins) == FirstEmpty(main, joins[..n])
    decreases |joins| - n
  {
    if n < |joins| {
      assert joins[..n + 1][..n] == joins[..n];
      SameError(main, joins, n + 1);
    } else {
      assert joins[..n] == joins;
    }
  }

  lemma {:induction false} SomeColumn(main: Mapping, joins: seq<Mapping>)
    requires FirstEmpty(main, joins).Ok?
    ensures Columns(main, joins) != []
  {
    if joins != [] {
      SomeColumn(main, joins[..|joins| - 1]);
    }
  }

  function Clause(condition: string): string {
    if condition == [] then [] else [' '] + condition
  }

  function Statement(main: Mapping, joins: seq<Mapping>, condition: string): string
    requires Columns(main, joins) != []
  {
    "select " + Trimmed(Columns(main, joins)) + (" from " + main.table + " as A ") + JoinClauses(main, joins) + Clause(condition)
  }

  /** get_select_join_sql. */
  method GetSelectJoinSql(main: Mapping, joins: seq<Mapping>, condition: string) returns (r: Result<string>)
    ensures match FirstEmpty(main, joins)
      case Err(id) => r == Err(id)
      case Ok(_) =>
        Columns(main, joins) != [] && r == Ok(Statement(main, joins, condition))
  {
    r := GetSelectList(main, joins);
    if r.Err? {
      return;
    }
    SomeColumn(main, joins);
    TrimSelect(Columns(main, joins));
    var sql := AppendClauses(r.value[..|r.value| - 1] + (" from " + main.table + " as A "), main, joins);
    if condition != [] {
      sql := sql + ([' '] + condition);
    } else {
      assert sql + [] == sql;
    }
    r := Ok(sql);
  }

  lemma TrimSelect(columns: seq<Column>)
    requires columns != []
    ensures var s := "select " + Listed(columns); s[..|s| - 1] == "select " + Trimmed(columns)
  {
    var n := |columns| - 1;
    assert |Listed(columns)| == |Listed(columns[..n])| + |ColumnText(columns[n])| + 1;
  }

  method AppendClauses(sql: string, main: Mapping, joins: seq<Mapping>) returns (r: string)
    ensures r == sql + JoinClauses(main, joins)
  {
    r := sql;
    var i := 0;
    while i < |joins|
      invariant 0 <= i <= |joins| && r == sql + JoinClauses(main, joins[..i])
    {
      JoinStep(main, joins, i);
      Regroup(sql, JoinClauses(main, joins[..i]), JoinClause(main, i + 1, joins[i]));
      r := GetJoinSql(r, main, i + 1, joins[i]);
      i := i + 1;
    }
    assert joins[..i] == joins;
  }

  // Decoding.

  /** Column k of a record goes to the k-th column's own property. */
  function Assigned(columns: seq<Column>, row: seq<string>): (r: seq<Assignment>)
    requires |row| >= |columns|
    ensures |r| == |columns|
    ensures forall k :: 0 <= k < |columns| ==> r[k] == Assignment(columns[k].source, columns[k].prop.property, row[k])
  {
    seq(|columns|, k requires 0 <= k < |columns| => Assignment(columns[k].source, columns[k].prop.property, row[k]))
  }

  lemma AssignedPush(columns: seq<Column>, c: Column, row: seq<string>)
    requires |row| > |columns|
    ensures Assigned(columns + [c], row)
         == Assigned(columns, row) + [Assignment(c.source, c.prop.property, row[|columns|])]
  {
  }

  lemma {:induction false} KeptPrefix(main: Mapping, source: nat, props: seq<Property>, i: nat)
    requires i <= |props|
    ensures |Kept(main, source, props[..i])| <= |Kept(main, source, props)|
    decreases |props| - i
  {
    if i < |props| {
      KeptStep(main, source, props, i);
      KeptPrefix(main, source, props, i + 1);
    } else {
      assert props[..i] == props;
    }
  }

  lemma {:induction false} ColumnsPrefix(main: Mapping, joins: seq<Mapping>, i: nat)
    requires i <= |joins|
    ensures |Columns(main, joins[..i])| <= |Columns(main, joins)|
    decreases |joins| - i
  {
    if i < |joins| {
      assert joins[..i + 1][..i] == joins[..i];
      ColumnsPrefix(main, joins, i + 1);
    } else {
      assert joins[..i] == joins;
    }
  }

  method DecodeMain(main: Mapping, row: seq<string>) returns (a: seq<Assignment>)
    requires |row| >= |main.props|
    ensures a == Assigned(MainColumns(main.props), row)
  {
    a := [];
    var field := 0;
    while field < |main.props|
      invariant 0 <= field <= |main.props| && a == Assigned(MainColumns(main.props[..field]), row)
    {
      AssignedPush(MainColumns(main.props[..field]), Column(0, main.props[field]), row);
      assert MainColumns(main.props[..field + 1]) == MainColumns(main.props[..field]) + [Column(0, main.props[field])];
      a := a + [Assignment(0, main.props[field].property, row[field])];
      field := field + 1;
    }
    assert main.props[..field] == main.props;
  }

  method DecodeJoined(main: Mapping, source: nat, mapping: Mapping, row: seq<string>, ghost before: seq<Column>, done: seq<Assignment>)
    returns (a: seq<Assignment>)
    requires |row| >= |before + Kept(main, source, mapping.props)| && done == Assigned(before, row)
    ensures a == Assigned(before + Kept(main, source, mapping.props), row)
  {
    a := done;
    var field := |done|;
    var i := 0;
    ghost var kept: seq<Column> := [];
    assert before + kept == before;
    while i < |mapping.props|
      invariant 0 <= i <= |mapping.props| && kept == Kept(main, source, mapping.props[..i])
      invariant field == |before| + |kept| && |kept| <= |Kept(main, source, mapping.props)|
      invariant a == Assigned(before + kept, row)
    {
      var p := mapping.props[i];
      KeptStep(main, source, mapping.props, i);
      KeptPrefix(main, source, mapping.props, i + 1);
      var at := FindKey(main, p.property);
      if at == |main.props| {
        AssignedNext(before, kept, Column(source, p), row);
        a := a + [Assignment(source, p.property, row[field])];
        kept := kept + [Column(source, p)];
        field := field + 1;
      }
      i := i + 1;
    }
    assert mapping.props[..i] == mapping.props;
  }

  lemma AssignedNext(before: seq<Column>, kept: seq<Column>, c: Column, row: seq<string>)
    requires |row| > |before + kept|
    ensures Assigned(before + (kept + [c]), row)
         == Assigned(before + kept, row) + [Assignment(c.source, c.prop.property, row[|before + kept|])]
  {
    AssignedPush(before + kept, c, row);
    Regroup(before, kept, [c]);
  }

  /** decode_join for one record: each value of the record is assigned once, to the property of
      the column it was selected for. */
  method DecodeRow(main: Mapping, joins: seq<Mapping>, row: seq<string>) returns (a: seq<Assignment>)
    requires |row| >= |Columns(main, joins)|
    ensures a == Assigned(Columns(main, joins), row)
  {
    ColumnsPrefix(main, joins, 0);
    a := DecodeMain(main, row);
    var i := 0;
    while i < |joins|
      invariant 0 <= i <= |joins|
      invariant |Columns(main, joins[..i])| <= |row| && a == Assigned(Columns(main, joins[..i]), row)
    {
      JoinStep(main, joins, i);
      ColumnsPrefix(main, joins, i + 1);
      a := DecodeJoined(main, i + 1, joins[i], row, Columns(main, joins[..i]), a);
      i := i + 1;
    }
    assert joins[..i] == joins;
  }

  /** decode_join: one object for each record. */
  method DecodeJoin(main: Mapping, joins: seq<Mapping>, rows: seq<seq<string>>) returns (objects: seq<seq<Assignment>>)
    requires forall r :: 0 <= r < |rows| ==> |rows[r]| >= |Columns(main, joins)|
    ensures |objects| == |rows|
    ensures forall r :: 0 <= r < |rows| ==> objects[r] == Assigned(Columns(main, joins), rows[r])
  {
    objects := [];
    for r := 0 to |rows|
      invariant |objects| == r
      invariant forall q :: 0 <= q < r ==> objects[q] == Assigned(Columns(main, joins), rows[q])
    {
      var a := DecodeRow(main, joins, rows[r]);
      objects := objects + [a];
    }
  }

  // Both together.

  type Tuple = (nat, string) -> string  // what the database has: table and field to value

  function Projected(columns: seq<Column>, t: Tuple): (r: seq<string>)
    ensures |r| == |columns| && forall k :: 0 <= k < |columns| ==> r[k] == t(columns[k].source, columns[k].prop.field)
  {
    seq(|columns|, k requires 0 <= k < |columns| => t(columns[k].source, columns[k].prop.field))
  }

  // What a database makes of the statement.

  /** A field of a table: 'A' names the main one, and the letters after it the joined ones. */
  datatype Ref = Ref(source: nat, field: string)

  function ReadRef(text: string): Option<Ref> {
    if |text| >= 2 && text[0] >= 'A' && text[1] == '.' then Some(Ref(text[0] as int - 'A' as int, text[2..])) else None
  }

  function Fetched(text: string, t: Tuple): Option<string> {
    match ReadRef(text)
    case None => None
    case Some(ref) => Some(t(ref.source, ref.field))
  }

  /** So many tables have a name of their own. */
  const NAMED: nat := 191

  lemma AliasesApartIff(n: nat)
    ensures (forall i :: 0 <= i < n ==> Alias(i) >= 'A') && (forall i, j :: 0 <= i < j < n ==> Alias(i) != Alias(j))
      <==> n <= NAMED
  {
    assert n > NAMED ==> Alias(NAMED) < 'A';
  }

  lemma AliasRead(source: nat, field: string)
    requires source < NAMED
    ensures ReadRef([Alias(source), '.'] + field) == Some(Ref(source, field))
    ensures Alias(source) != ',' && Alias(source) != ' ' && Alias(source) != '='
  {
    assert ([Alias(source), '.'] + field)[2..] == field;
  }

  /** Each text of a select list fetches what the decoder takes for that column's value. */
  ghost predicate FetchesAll(list: string, columns: seq<Column>, t: Tuple) {
    var texts := SplitAtCommas(list);
    |texts| == |columns| && forall k :: 0 <= k < |texts| ==> Fetched(texts[k], t) == Some(Projected(columns, t)[k])
  }

  lemma ColumnsFetched(columns: seq<Column>, t: Tuple)
    requires columns != [] && forall c :: c in columns ==> c.source < NAMED && Plain(c.prop.field)
    ensures FetchesAll(Trimmed(columns), columns, t)
  {
    forall c | c in columns
      ensures ',' !in ColumnText(c) && ColumnText(c) != [] && Fetched(ColumnText(c), t) == Some(t(c.source, c.prop.field))
    {
      AliasRead(c.source, c.prop.field);
    }
    SplitTrimmed(columns);
  }

  ghost predicate Plain(s: string) {
    ' ' !in s && ',' !in s && '=' !in s
  }

  ghost predicate PlainNames(mapping: Mapping) {
    mapping.table != [] && Plain(mapping.table) && forall p :: p in mapping.props ==> Plain(p.field)
  }

  lemma {:induction false} OneWord(s: string)
    requires s != [] && ' ' !in s
    ensures Words(s) == [s]
  {
    var n := |s| - 1;
    assert s == s[..n] + [s[n]];
    if n > 0 {
      OneWord(s[..n]);
      assert Ends(s[..n]);
      WordsPush(s[..n], s[n]);
      assert [s[..n]][..0] == [];
    }
  }

  lemma WordFirst(word: string, rest: string)
    requires word != [] && ' ' !in word
    ensures Words(word + [' '] + rest) == [word] + Words(rest)
  {
    OneWord(word);
    WordsSpaced(word, rest);
  }

  /** Some words, a space behind each, and then the rest. */
  function Spaced(words: seq<string>, rest: string): string {
    if words == [] then rest else words[0] + [' '] + Spaced(words[1..], rest)
  }

  lemma {:induction false} SpacedRead(words: seq<string>, rest: string)
    requires forall w :: w in words ==> w != [] && ' ' !in w
    ensures Words(Spaced(words, rest)) == words + Words(rest)
  {
    if words == [] {
      assert words + Words(rest) == Words(rest);
    } else {
      assert words[0] in words && forall w :: w in words[1..] ==> w in words;
      SpacedRead(words[1..], rest);
      WordFirst(words[0], Spaced(words[1..], rest));
      FirstAndRest(words);
      Regroup([words[0]], words[1..], Words(rest));
    }
  }

  lemma SpacedSix(a: string, b: string, c: string, d: string, e: string, f: string, rest: string)
    ensures Spaced([a, b, c, d, e, f], rest) ==
      a + [' '] + (b + [' '] + (c + [' '] + (d + [' '] + (e + [' '] + (f + [' '] + rest)))))
  {
    SpacedFirst(f, [], rest);
    SpacedFirst(e, [f], rest);
    SpacedFirst(d, [e, f], rest);
    SpacedFirst(c, [d, e, f], rest);
    SpacedFirst(b, [c, d, e, f], rest);
    SpacedFirst(a, [b, c, d, e, f], rest);
    assert [a] + [b, c, d, e, f] == [a, b, c, d, e, f] && [b] + [c, d, e, f] == [b, c, d, e, f];
    assert [c] + [d, e, f] == [c, d, e, f] && [d] + [e, f] == [d, e, f] && [e] + [f] == [e, f] && [f] + [] == [f];
  }

  lemma SpacedFirst(word: string, words: seq<string>, rest: string)
    ensures Spaced([word] + words, rest) == word + [' '] + Spaced(words, rest)
  {
    FirstOf(word, words);
  }

  lemma {:induction false} NoSpaceInList(columns: seq<Column>)
    requires forall c :: c in columns ==> c.source < NAMED && Plain(c.prop.field)
    ensures ' ' !in Listed(columns)
  {
    if columns != [] {
      var n := |columns| - 1;
      NoSpaceInList(columns[..n]);
      AliasRead(columns[n].source, columns[n].prop.field);
    }
  }

  /** The whole statement, read at its spaces: what is selected, and that 'A' is the main table; each
      text selected fetches what the decoder takes for that column's value. */
  lemma StatementFetches(main: Mapping, joins: seq<Mapping>, condition: string, t: Tuple)
    requires FirstEmpty(main, joins).Ok? && |joins| < NAMED
    requires PlainNames(main) && forall j :: j in joins ==> PlainNames(j)
    ensures Columns(main, joins) != []
    ensures var words := Words(Statement(main, joins, condition));
      && |words| >= 6 && words[0] == "select" && words[2..6] == ["from", main.table, "as", "A"]
      && FetchesAll(words[1], Columns(main, joins), t)
      && words[6..] == Words(JoinClauses(main, joins)) + Words(condition)
  {
    SomeColumn(main, joins);
    var columns := Columns(main, joins);
    PlainColumns(main, joins);
    ColumnsFetched(columns, t);
    StatementWords(main, joins, condition);
    var six := ["select", Trimmed(columns), "from", main.table, "as", "A"];
    SixFirst(six, Words(JoinClauses(main, joins) + Clause(condition)));
    ConditionApart(JoinClauses(main, joins), condition);
  }

  lemma ConditionApart(clauses: string, condition: string)
    ensures Words(clauses + Clause(condition)) == Words(clauses) + Words(condition)
  {
    if condition == [] {
      assert clauses + Clause(condition) == clauses;
    } else {
      WordsSpaced(clauses, condition);
      assert clauses + Clause(condition) == clauses + [' '] + condition;
    }
  }

  lemma SixFirst(six: seq<string>, rest: seq<string>)
    requires |six| == 6
    ensures (six + rest)[0] == six[0] && (six + rest)[1] == six[1] && (six + rest)[2..6] == six[2..6]
    ensures (six + rest)[..6] == six && (six + rest)[6..] == rest
  {
  }

  lemma PlainColumns(main: Mapping, joins: seq<Mapping>)
    requires |joins| < NAMED && PlainNames(main) && forall j :: j in joins ==> PlainNames(j)
    ensures forall c :: c in Columns(main, joins) ==> c.source < NAMED && Plain(c.prop.field)
  {
    forall c | c in Columns(main, joins)
      ensures c.source < NAMED && Plain(c.prop.field)
    {
      ColumnMember(main, joins, c);
      assert c.source > 0 ==> joins[c.source - 1] in joins;
    }
  }

  lemma StatementWords(main: Mapping, joins: seq<Mapping>, condition: string)
    requires Columns(main, joins) != [] && main.table != [] && Plain(main.table)
    requires forall c :: c in Columns(main, joins) ==> c.source < NAMED && Plain(c.prop.field)
    ensures Words(Statement(main, joins, condition)) ==
      ["select", Trimmed(Columns(main, joins)), "from", main.table, "as", "A"] + Words(JoinClauses(main, joins) + Clause(condition))
  {
    var list, rest := Trimmed(Columns(main, joins)), JoinClauses(main, joins) + Clause(condition);
    ListIsWord(Columns(main, joins));
    StatementIsSpaced(main, joins, condition);
    HeadRead(list, main.table, rest);
  }

  lemma HeadRead(list: string, table: string, rest: string)
    requires list != [] && ' ' !in list && table != [] && ' ' !in table
    ensures Words(Spaced(["select", list, "from", table, "as", "A"], rest)) == ["select", list, "from", table, "as", "A"] + Words(rest)
  {
    SpacedRead(["select", list, "from", table, "as", "A"], rest);
  }

  lemma StatementIsSpaced(main: Mapping, joins: seq<Mapping>, condition: string)
    requires Columns(main, joins) != []
    ensures Statement(main, joins, condition) ==
      Spaced(["select", Trimmed(Columns(main, joins)), "from", main.table, "as", "A"], JoinClauses(main, joins) + Clause(condition))
  {
    var list, clauses, clause := Trimmed(Columns(main, joins)), JoinClauses(main, joins), Clause(condition);
    SpacedSix("select", list, "from", main.table, "as", "A", clauses + clause);
    StatementSpaced(list, main.table, clauses, clause);
  }

  lemma ListIsWord(columns: seq<Column>)
    requires columns != [] && forall c :: c in columns ==> c.source < NAMED && Plain(c.prop.field)
    ensures Trimmed(columns) != [] && ' ' !in Trimmed(columns)
  {
    NoSpaceInList(columns);
    TrimmedFirst(columns);
    AliasRead(columns[0].source, columns[0].prop.field);
  }

  lemma StatementSpaced(list: string, table: string, clauses: string, clause: string)
    ensures "select " + list + (" from " + table + " as A ") + clauses + clause ==
      "select" + [' '] + (list + [' '] + ("from" + [' '] + (table + [' '] + ("as" + [' '] + ("A" + [' '] + (clauses + clause))))))
  {
  }

  // The condition of a join, read back.

  function EqualsAt(s: string): (n: nat)
    ensures n <= |s| && '=' !in s[..n] && (n < |s| ==> s[n] == '=')
  {
    if s == [] || s[0] == '=' then 0 else 1 + EqualsAt(s[1..])
  }

  /** The two fields an equation compares. */
  function ReadEquation(text: string): Option<(Ref, Ref)> {
    var n := EqualsAt(text);
    if n == |text| then None
    else
      match (ReadRef(text[..n]), ReadRef(text[n + 1..]))
      case (Some(left), Some(right)) => Some((left, right))
      case _ => None
  }

  /** The equations of a condition, with "and" between. */
  function ReadCondition(words: seq<string>): seq<Option<(Ref, Ref)>> {
    if words == [] then []
    else
      var n := |words| - 1;
      (if n >= 1 && words[n - 1] == "and" then ReadCondition(words[..n - 1]) else []) + [ReadEquation(words[n])]
  }

  /** For each property of the joined mapping that is a key of the main one: its field, and the field
      of that key. */
  function SharedKeys(main: Mapping, source: nat, props: seq<Property>): seq<Option<(Ref, Ref)>> {
    if props == [] then []
    else
      var n := |props| - 1;
      var key := FirstKey(main.props, props[n].property);
      SharedKeys(main, source, props[..n]) +
        if key == |main.props| then [] else [Some((Ref(source, props[n].field), Ref(0, main.props[key].field)))]
  }

  lemma {:induction false} EqualsAfter(left: string, right: string)
    requires '=' !in left
    ensures EqualsAt(left + ['='] + right) == |left|
  {
    if left != [] {
      EqualsAfter(left[1..], right);
      assert (left + ['='] + right)[1..] == left[1..] + ['='] + right;
    }
  }

  lemma EquationRead(source: nat, field: string, mainField: string)
    requires source < NAMED && Plain(field) && Plain(mainField)
    ensures var text := [Alias(source), '.'] + field + "=A." + mainField;
      && text != [] && ' ' !in text
      && ReadEquation(text) == Some((Ref(source, field), Ref(0, mainField)))
  {
    var left, right := [Alias(source), '.'] + field, "A." + mainField;
    var text := left + "=A." + mainField;
    AliasRead(source, field);
    assert text == left + ['='] + right;
    EqualsAfter(left, right);
    assert text[..|left|] == left && text[|left| + 1..] == right;
    assert right[2..] == mainField;
  }

  lemma {:induction false} ConditionRead(main: Mapping, source: nat, props: seq<Property>)
    requires source < NAMED && PlainNames(main) && forall p :: p in props ==> Plain(p.field)
    ensures ReadCondition(Words(Condition(main, source, props))) == SharedKeys(main, source, props)
    ensures Condition(main, source, props) == [] <==> Words(Condition(main, source, props)) == []
  {
    if props != [] {
      var n := |props| - 1;
      ConditionRead(main, source, props[..n]);
      var key := FirstKey(main.props, props[n].property);
      if key < |main.props| {
        assert main.props[key] in main.props && props[n] in props;
        EquationRead(source, props[n].field, main.props[key].field);
        NextEquation(Condition(main, source, props[..n]), [Alias(source), '.'] + props[n].field + "=A." + main.props[key].field);
      }
    }
  }

  lemma NextEquation(before: string, text: string)
    requires text != [] && ' ' !in text && (before == [] <==> Words(before) == [])
    ensures var condition := (if before == [] then [] else before + " and ") + text;
      && Words(condition) != []
      && ReadCondition(Words(condition)) == ReadCondition(Words(before)) + [ReadEquation(text)]
  {
    OneWord(text);
    if before == [] {
      assert [] + text == text;
    } else {
      WordFirst("and", text);
      WordsSpaced(before, "and" + [' '] + text);
      assert before + " and " + text == before + [' '] + ("and" + [' '] + text);
      var words := Words(before) + (["and"] + [text]);
      assert words[|words| - 2] == "and" && words[..|words| - 2] == Words(before);
    }
  }

  ghost predicate Holds(e: Option<(Ref, Ref)>, t: Tuple) {
    e.Some? && t(e.value.0.source, e.value.0.field) == t(e.value.1.source, e.value.1.field)
  }

  ghost predicate AllHold(equations: seq<Option<(Ref, Ref)>>, t: Tuple) {
    forall i :: 0 <= i < |equations| ==> Holds(equations[i], t)
  }

  /** A tuple satisfies a join clause. */
  ghost predicate Satisfies(clause: seq<string>, t: Tuple)
    requires |clause| >= 6
  {
    AllHold(ReadCondition(clause[6..]), t)
  }

  lemma {:induction false} SharedKeysHold(main: Mapping, source: nat, props: seq<Property>, t: Tuple)
    ensures AllHold(SharedKeys(main, source, props), t) <==> forall i :: 0 <= i < |props| ==> KeyHolds(main, source, props[i], t)
  {
    if props != [] {
      var n := |props| - 1;
      var before := SharedKeys(main, source, props[..n]);
      SharedKeysHold(main, source, props[..n], t);
      assert forall i :: 0 <= i < n ==> props[..n][i] == props[i];
      KeyHoldsIff(main, source, props[n], t);
      var key := FirstKey(main.props, props[n].property);
      if key < |main.props| {
        AllHoldPush(before, Some((Ref(source, props[n].field), Ref(0, main.props[key].field))), t);
      } else {
        assert before + [] == before;
      }
    }
  }

  lemma AllHoldPush(equations: seq<Option<(Ref, Ref)>>, e: Option<(Ref, Ref)>, t: Tuple)
    ensures AllHold(equations + [e], t) <==> AllHold(equations, t) && Holds(e, t)
  {
    assert (equations + [e])[|equations|] == e;
    assert forall i :: 0 <= i < |equations| ==> (equations + [e])[i] == equations[i];
  }

  lemma KeyHoldsIff(main: Mapping, source: nat, p: Property, t: Tuple)
    ensures var key := FirstKey(main.props, p.property);
      KeyHolds(main, source, p, t) <==> (key < |main.props| ==> t(source, p.field) == t(0, main.props[key].field))
  {
    var key := FirstKey(main.props, p.property);
    assert key < |main.props| ==> FirstAt(main.props, p.property, key);
    assert forall k: nat :: FirstAt(main.props, p.property, k) ==> k == key;
  }

  ghost predicate FirstAt(props: seq<Property>, property: string, k: nat) {
    k < |props| && Matches(props[k], property) && forall j :: 0 <= j < k ==> !Matches(props[j], property)
  }

  /** If the property is a key of the main mapping, the two fields have the same value. */
  ghost predicate KeyHolds(main: Mapping, source: nat, p: Property, t: Tuple) {
    forall k: nat :: FirstAt(main.props, p.property, k) ==> t(source, p.field) == t(0, main.props[k].field)
  }

  /** The clause of a joined table names it, and a tuple satisfies it exactly if every property that is a
      key of the main mapping has the value of that key. */
  lemma ClauseReadIff(main: Mapping, source: nat, mapping: Mapping, t: Tuple)
    requires source < NAMED && PlainNames(main) && PlainNames(mapping) && Shares(main, mapping)
    ensures var words := Words(JoinClause(main, source, mapping));
      && |words| > 6 && words[..6] == ["inner", "join", mapping.table, "as", [Alias(source)], "on"]
      && (Satisfies(words, t) <==> forall i :: 0 <= i < |mapping.props| ==> KeyHolds(main, source, mapping.props[i], t))
  {
    ConditionIffShares(main, source, mapping.props);
    ConditionRead(main, source, mapping.props);
    SharedKeysHold(main, source, mapping.props, t);
    var condition := Condition(main, source, mapping.props);
    AliasRead(source, []);
    ClauseWords(mapping.table, Alias(source), condition);
    SixFirst(["inner", "join", mapping.table, "as", [Alias(source)], "on"], Words(condition));
  }

  lemma ClauseWords(table: string, alias: char, condition: string)
    requires table != [] && ' ' !in table && alias != ' '
    ensures Words("inner join " + table + " as " + [alias] + " on " + condition) ==
      ["inner", "join", table, "as", [alias], "on"] + Words(condition)
  {
    SpacedRead(["inner", "join", table, "as", [alias], "on"], condition);
    SpacedSix("inner", "join", table, "as", [alias], "on", condition);
    ClauseSpaced(table, alias, condition);
  }

  lemma ClauseSpaced(table: string, alias: char, condition: string)
    ensures "inner join " + table + " as " + [alias] + " on " + condition ==
      "inner" + [' '] + ("join" + [' '] + (table + [' '] + ("as" + [' '] + ([alias] + [' '] + ("on" + [' '] + condition)))))
  {
  }

  /** The object after the assignments.  Every mapping's meta is attached to the same object, so a
      later assignment to a property of that name wins. */
  function Object(a: seq<Assignment>): map<string, string> {
    if a == [] then map[]
    else
      var last := a[|a| - 1];
      Object(a[..|a| - 1])[last.property := last.value]
  }

  lemma {:induction false} ObjectKeys(a: seq<Assignment>, property: string)
    ensures property in Object(a) <==> exists k :: 0 <= k < |a| && a[k].property == property
  {
    if a != [] {
      var n := |a| - 1;
      ObjectKeys(a[..n], property);
      assert forall k :: 0 <= k < n ==> a[..n][k] == a[k];
    }
  }

  /** The last assignment to a property is what stays. */
  lemma {:induction false} LastWins(a: seq<Assignment>, k: nat)
    requires k < |a| && forall l :: k < l < |a| ==> a[l].property != a[k].property
    ensures a[k].property in Object(a) && Object(a)[a[k].property] == a[k].value
  {
    var n := |a| - 1;
    if k < n {
      assert forall l :: k < l < n ==> a[..n][l] == a[l];
      LastWins(a[..n], k);
    }
  }

  ghost predicate Distinct(props: seq<Property>) {
    forall i, j :: 0 <= i < j < |props| ==> props[i].property != props[j].property
  }

  /** A joined mapping after "source" that has a property of that name which is no key of the main
      one, and so is assigned again. */
  ghost predicate AssignedAgain(main: Mapping, joins: seq<Mapping>, source: nat, property: string) {
    exists later, q :: Again(main, joins, source, property, later, q)
  }

  ghost predicate Again(main: Mapping, joins: seq<Mapping>, source: nat, property: string, later: nat, q: Property) {
    && source < later <= |joins| && q in joins[later - 1].props
    && q.property == property && !IsKey(main, q.property)
  }

  // Columns come mapping after mapping, and within a mapping in its order.

  ghost predicate Before(c: Column, d: Column) {
    c.source < d.source || (c.source == d.source && c.prop.property != d.prop.property)
  }

  ghost predicate InOrder(columns: seq<Column>) {
    forall k, l :: 0 <= k < l < |columns| ==> Before(columns[k], columns[l])
  }

  ghost predicate AllDistinct(main: Mapping, joins: seq<Mapping>) {
    Distinct(main.props) && forall j :: j in joins ==> Distinct(j.props)
  }

  lemma {:induction false} KeptInOrder(main: Mapping, source: nat, props: seq<Property>)
    requires Distinct(props)
    ensures InOrder(Kept(main, source, props))
  {
    if props != [] {
      var n := |props| - 1;
      KeptInOrder(main, source, props[..n]);
      var kept := Kept(main, source, props[..n]);
      forall k | 0 <= k < |kept|
        ensures Before(kept[k], Column(source, props[n]))
      {
        KeptMember(main, source, props[..n], kept[k]);
      }
    }
  }

  lemma {:induction false} ColumnsInOrder(main: Mapping, joins: seq<Mapping>)
    requires AllDistinct(main, joins)
    ensures InOrder(Columns(main, joins))
  {
    if joins != [] {
      var n := |joins| - 1;
      ColumnsInOrder(main, joins[..n]);
      KeptInOrder(main, n + 1, joins[n].props);
      var before, kept := Columns(main, joins[..n]), Kept(main, n + 1, joins[n].props);
      forall k, l | 0 <= k < |before| && 0 <= l < |kept|
        ensures Before(before[k], kept[l])
      {
        ColumnMember(main, joins[..n], before[k]);
        KeptMember(main, n + 1, joins[n].props, kept[l]);
      }
    }
  }

  ghost predicate Decodes(columns: seq<Column>, t: Tuple, source: nat, p: Property) {
    var o := Object(Assigned(columns, Projected(columns, t)));
    p.property in o && o[p.property] == t(source, p.field)
  }

  /** Whatever the database holds. */
  ghost predicate AlwaysDecodes(columns: seq<Column>, source: nat, p: Property) {
    forall t: Tuple :: Decodes(columns, t, source, p)
  }

  ghost predicate LastNamed(columns: seq<Column>, k: nat, property: string) {
    && k < |columns| && columns[k].prop.property == property
    && forall l :: k < l < |columns| ==> columns[l].prop.property != property
  }

  /** The last column of a property's name is the one its value comes from. */
  lemma LastColumn(columns: seq<Column>, t: Tuple, k: nat)
    requires k < |columns| && LastNamed(columns, k, columns[k].prop.property)
    ensures Decodes(columns, t, columns[k].source, columns[k].prop)
  {
    LastWins(Assigned(columns, Projected(columns, t)), k);
  }

  lemma {:induction false} FindLast(columns: seq<Column>, property: string) returns (k: nat)
    requires exists l :: 0 <= l < |columns| && columns[l].prop.property == property
    ensures LastNamed(columns, k, property)
  {
    k := |columns| - 1;
    if columns[k].prop.property != property {
      k := FindLast(columns[..k], property);
    }
  }

  /** Decoding a projected record gives a property the value of some field of some mapping, whatever
      the database holds, if and only if the last column of that name selects that field. */
  lemma DecodeProjectedIff(main: Mapping, joins: seq<Mapping>, source: nat, p: Property)
    ensures var columns := Columns(main, joins);
      AlwaysDecodes(columns, source, p) <==>
        (exists k: nat :: LastNamed(columns, k, p.property) && columns[k].source == source && columns[k].prop.field == p.field)
  {
    var columns := Columns(main, joins);
    if exists l :: 0 <= l < |columns| && columns[l].prop.property == p.property {
      var k := FindLast(columns, p.property);
      DecodesIffOwn(columns, k, source, p);
      assert forall l: nat :: LastNamed(columns, l, p.property) ==> l == k;
    } else {
      var t: Tuple := (s, f) => "";
      ObjectKeys(Assigned(columns, Projected(columns, t)), p.property);
      assert !Decodes(columns, t, source, p);
    }
  }

  lemma DecodesIffOwn(columns: seq<Column>, k: nat, source: nat, p: Property)
    requires LastNamed(columns, k, p.property)
    ensures AlwaysDecodes(columns, source, p) <==>
      columns[k].source == source && columns[k].prop.field == p.field
  {
    var t: Tuple := (s, f) => if s == source && f == p.field then "own" else "other";
    assert "own"[1] != "other"[1];
    forall u: Tuple
      ensures Decodes(columns, u, source, p) <==> u(columns[k].source, columns[k].prop.field) == u(source, p.field)
    {
      LastColumn(columns, u, k);
    }
    assert t(source, p.field) == "own";
    assert Decodes(columns, t, source, p) ==> columns[k].source == source && columns[k].prop.field == p.field;
  }

  lemma OwnColumnLast(main: Mapping, joins: seq<Mapping>, source: nat, p: Property) returns (k: nat)
    requires AllDistinct(main, joins) && Selected(main, joins, Column(source, p))
    requires !AssignedAgain(main, joins, source, p.property)
    ensures var columns := Columns(main, joins);
      LastNamed(columns, k, p.property) && columns[k] == Column(source, p)
  {
    var columns := Columns(main, joins);
    ColumnMember(main, joins, Column(source, p));
    k :| 0 <= k < |columns| && columns[k] == Column(source, p);
    ColumnsInOrder(main, joins);
    forall l | k < l < |columns|
      ensures columns[l].prop.property != p.property
    {
      ColumnMember(main, joins, columns[l]);
      assert Before(columns[k], columns[l]);
      assert columns[l].prop.property == p.property ==>
        columns[l].source > source && !Again(main, joins, source, p.property, columns[l].source, columns[l].prop);
    }
  }

  /** The value of a property assigned again comes from a later mapping. */
  lemma LaterColumn(main: Mapping, joins: seq<Mapping>, source: nat, property: string) returns (k: nat)
    requires AllDistinct(main, joins) && AssignedAgain(main, joins, source, property)
    ensures var columns := Columns(main, joins);
      LastNamed(columns, k, property) && columns[k].source > source
  {
    var columns := Columns(main, joins);
    var later, q :| Again(main, joins, source, property, later, q);
    ColumnMember(main, joins, Column(later, q));
    var first :| 0 <= first < |columns| && columns[first] == Column(later, q);
    ColumnsInOrder(main, joins);
    k := first;
    var l := first + 1;
    while l < |columns|
      invariant first <= k < l <= |columns|
      invariant columns[k].source >= later && columns[k].prop.property == property
      invariant forall m :: k < m < l ==> columns[m].prop.property != property
    {
      if columns[l].prop.property == property {
        assert Before(columns[k], columns[l]);
        k := l;
      }
      l := l + 1;
    }
  }

  /** If no mapping names a property twice: a selected property gets the value of its own field if and
      only if no later mapping has a property of that name that is no key of the main one. */
  lemma DecodeDistinctIff(main: Mapping, joins: seq<Mapping>, source: nat, p: Property)
    requires AllDistinct(main, joins) && Selected(main, joins, Column(source, p))
    ensures AlwaysDecodes(Columns(main, joins), source, p) <==> !AssignedAgain(main, joins, source, p.property)
  {
    var columns := Columns(main, joins);
    if AssignedAgain(main, joins, source, p.property) {
      var k := LaterColumn(main, joins, source, p.property);
      var t: Tuple := (s, f) => if s == source then "own" else "other";
      LastColumn(columns, t, k);
      assert t(source, p.field) == "own" && t(columns[k].source, columns[k].prop.field) == "other";
      assert "own"[1] != "other"[1];
      assert !Decodes(columns, t, source, p);
    } else {
      var k := OwnColumnLast(main, joins, source, p);
      forall t: Tuple
        ensures Decodes(columns, t, source, p)
      {
        LastColumn(columns, t, k);
      }
    }
  }

  /** A property is set on the object exactly if some mapping has a column for it: a key repeated
      in a joined mapping is set from the main one. */
  lemma DecodedIffSelected(main: Mapping, joins: seq<Mapping>, t: Tuple, property: string)
    ensures property in Object(Assigned(Columns(main, joins), Projected(Columns(main, joins), t)))
      <==> (exists c :: Selected(main, joins, c) && c.prop.property == property)
  {
    var columns := Columns(main, joins);
    var a := Assigned(columns, Projected(columns, t));
    ObjectKeys(a, property);
    if c :| Selected(main, joins, c) && c.prop.property == property {
      ColumnMember(main, joins, c);
      var k :| 0 <= k < |columns| && columns[k] == c;
      assert a[k].property == property;
    }
    forall k | 0 <= k < |a| && a[k].property == property
      ensures Selected(main, joins, columns[k])
    {
      ColumnMember(main, joins, columns[k]);
    }
  }
}
