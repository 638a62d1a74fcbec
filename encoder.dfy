/** The feature encoder: one-hot expansion of the four categorical answers, zero-fill
    of every schema column the expansion did not produce, and selection of exactly
    the schema's columns in the schema's order. */
module Encoder {
  import opened Frames

  /** The fields the encoder one-hot expands, in the order it names them. */
  const Categorical: seq<string> := ["Gender", "Grade Level", "Part-Time Job", "Mental Health Issues"]

  /** The label pandas gives the indicator column of `level` in `field`. */
  function DummyName(field: string, level: string): string
  {
    field + "_" + level
  }

  /** Field labels without an underscore can be read back off their indicator labels. */
  predicate Plain(field: string)
  {
    forall k | 0 <= k < |field| :: field[k] != '_'
  }

  lemma CategoricalPlain()
    ensures Distinct(Categorical)
    ensures forall c | c in Categorical :: Plain(c)
  {
  }

  /** In the indicator label of a plain field, the first underscore ends the field. */
  lemma FirstUnderscore(field: string, level: string)
    requires Plain(field)
    ensures |field| < |DummyName(field, level)| && DummyName(field, level)[|field|] == '_'
    ensures forall k | 0 <= k < |field| :: DummyName(field, level)[k] != '_'
  {
    var s := DummyName(field, level);
    forall k | 0 <= k < |field|
      ensures s[k] != '_'
    {
      assert s[k] == field[k];
    }
  }

  /** An indicator label names its field and its level, when fields have no underscore. */
  lemma DummyNameInjective(a: string, x: string, b: string, y: string)
    requires Plain(a) && Plain(b) && DummyName(a, x) == DummyName(b, y)
    ensures a == b && x == y
  {
    var s := DummyName(a, x);
    FirstUnderscore(a, x);
    FirstUnderscore(b, y);
    assert |a| == |b|;
    assert a == s[..|a|] == b;
    assert x == s[|a| + 1..] == y;
  }

  lemma DummyNameNotPlain(a: string, x: string)
    ensures !Plain(DummyName(a, x))
  {
    assert DummyName(a, x)[|a|] == '_';
  }

  /** The frame without the columns called `fields`, other columns in their order. */
  function Drop(row: Row, fields: seq<string>): (r: Row)
    ensures forall k | 0 <= k < |r| :: r[k] in row && r[k].name !in fields
    ensures forall k | 0 <= k < |row| && row[k].name !in fields :: row[k] in r
  {
    if row == [] then []
    else
      assert forall k | 1 <= k < |row| :: row[k] == row[1..][k - 1];
      (if row[0].name in fields then [] else [row[0]]) + Drop(row[1..], fields)
  }

  lemma DistinctTail(row: Row)
    requires row != [] && Distinct(Names(row))
    ensures Distinct(Names(row[1..])) && row[0].name !in Names(row[1..])
  {
    forall i, j | 0 <= i < j < |row| - 1
      ensures Names(row[1..])[i] != Names(row[1..])[j]
    {
      assert Names(row[1..])[i] == Names(row)[i + 1];
      assert Names(row[1..])[j] == Names(row)[j + 1];
    }
    forall k | 0 <= k < |row| - 1
      ensures Names(row[1..])[k] != row[0].name
    {
      assert Names(row[1..])[k] == Names(row)[k + 1];
      assert Names(row)[0] == row[0].name;
    }
  }

  lemma DistinctCons(c: Column, rest: Row)
    requires Distinct(Names(rest)) && c.name !in Names(rest)
    ensures Distinct(Names([c] + rest))
  {
    var r := [c] + rest;
    forall i, j | 0 <= i < j < |r|
      ensures Names(r)[i] != Names(r)[j]
    {
      assert Names(r)[j] == Names(rest)[j - 1];
      if i > 0 {
        assert Names(r)[i] == Names(rest)[i - 1];
      }
    }
  }

  /** Dropping columns keeps the remaining labels unique. */
  lemma {:induction false} DropDistinct(row: Row, fields: seq<string>)
    requires Distinct(Names(row))
    ensures Distinct(Names(Drop(row, fields)))
  {
    if row != [] {
      DistinctTail(row);
      DropDistinct(row[1..], fields);
      var rest := Drop(row[1..], fields);
      if row[0].name !in fields {
        forall k | 0 <= k < |rest|
          ensures Names(rest)[k] != row[0].name
        {
          var m :| 0 <= m < |row[1..]| && row[1..][m] == rest[k];
          assert Names(row[1..])[m] == rest[k].name;
        }
        DistinctCons(row[0], rest);
        assert Drop(row, fields) == [row[0]] + rest;
      } else {
        assert Drop(row, fields) == rest;
      }
    }
  }

  /** The answer a frame gives to a categorical field. */
  function Level(row: Row, field: string): string
    requires field in Names(row) && Lookup(row, field).Text?
  {
    Lookup(row, field).s
  }

  /** Every categorical field the frame holds holds text. */
  predicate TextLevels(row: Row)
  {
    forall c | c in Categorical && c in Names(row) :: Lookup(row, c).Text?
  }

  /** One indicator column per field, set to 1 for the level the single row holds. */
  function Indicators(row: Row, fields: seq<string>): Row
    requires forall c | c in fields :: c in Names(row) && Lookup(row, c).Text?
  {
    seq(|fields|, k requires 0 <= k < |fields| => Column(DummyName(fields[k], Level(row, fields[k])), Int(1)))
  }

  /** `pd.get_dummies(row, columns=fields, drop_first=False)` on a one-row frame: the other
      columns first, then for each field in turn the indicator of its one level. A field
      that is not a column raises KeyError. */
  function GetDummies(row: Row, fields: seq<string>): (r: Result<Row>)
    requires forall c | c in fields && c in Names(row) :: Lookup(row, c).Text?
    ensures r.Err? <==> exists c :: c in fields && c !in Names(row)
    ensures r.Ok? ==> |r.value| == |Drop(row, fields)| + |fields|
  {
    var missing := MissingNames(fields, row);
    if missing != [] then
      assert missing[0] in fields && missing[0] !in Names(row);
      Err(KeyError(missing))
    else
      Ok(Drop(row, fields) + Indicators(row, fields))
  }

  /** What the encoder needs of the frame it is given: unique labels (a frame built from a
      dict), text in the categorical fields, and no column already labelled like one of the
      indicator columns the expansion adds. */
  predicate Encodable(row: Row)
  {
    && Distinct(Names(row))
    && TextLevels(row)
    && forall c | c in Categorical && c in Names(row) && Lookup(row, c).Text? ::
         DummyName(c, Level(row, c)) !in Names(row)
  }

  /** The expanded frame has unique labels. */
  lemma DummiesDistinct(row: Row)
    requires Encodable(row) && GetDummies(row, Categorical).Ok?
    ensures Distinct(Names(GetDummies(row, Categorical).value))
  {
    CategoricalPlain();
    DropDistinct(row, Categorical);
    var kept := Drop(row, Categorical);
    var added := Indicators(row, Categorical);
    var d := kept + added;
    assert GetDummies(row, Categorical).value == d;
    forall i, j | 0 <= i < j < |d|
      ensures Names(d)[i] != Names(d)[j]
    {
      if j < |kept| {
        assert Names(kept)[i] == Names(d)[i] && Names(kept)[j] == Names(d)[j];
      } else if i < |kept| {
        var m :| 0 <= m < |row| && row[m] == kept[i];
        assert Names(row)[m] == d[i].name;
        var c := Categorical[j - |kept|];
        assert d[j].name == DummyName(c, Level(row, c));
      } else {
        var a, b := Categorical[i - |kept|], Categorical[j - |kept|];
        if d[i].name == d[j].name {
          DummyNameInjective(a, Level(row, a), b, Level(row, b));
          assert false;
        }
      }
    }
  }

  /** A non-categorical column survives the expansion with its own cell. */
  lemma DummiesKeep(row: Row, name: string)
    requires Encodable(row) && GetDummies(row, Categorical).Ok?
    requires name in Names(row) && name !in Categorical
    ensures var d := GetDummies(row, Categorical).value;
      name in Names(d) && Lookup(d, name) == Lookup(row, name)
  {
    DummiesDistinct(row);
    var kept := Drop(row, Categorical);
    var d := GetDummies(row, Categorical).value;
    assert d == kept + Indicators(row, Categorical);
    var k := IndexOf(row, name);
    var m :| 0 <= m < |kept| && kept[m] == row[k];
    assert d[m] == row[k];
    LookupColumn(d, m);
  }

  /** The indicator of the level a field holds is a column of the expansion, set to 1. */
  lemma DummiesIndicate(row: Row, field: string)
    requires Encodable(row) && GetDummies(row, Categorical).Ok? && field in Categorical
    ensures var d := GetDummies(row, Categorical).value;
      var name := DummyName(field, Level(row, field));
      name in Names(d) && Lookup(d, name) == Int(1)
  {
    DummiesDistinct(row);
    var kept := Drop(row, Categorical);
    var d := GetDummies(row, Categorical).value;
    assert d == kept + Indicators(row, Categorical);
    var q :| 0 <= q < |Categorical| && Categorical[q] == field;
    assert d[|kept| + q] == Column(DummyName(field, Level(row, field)), Int(1));
    LookupColumn(d, |kept| + q);
  }

  /** The expansion has no other columns. */
  lemma DummiesOnly(row: Row, name: string)
    requires Encodable(row) && GetDummies(row, Categorical).Ok?
    requires name in Names(GetDummies(row, Categorical).value)
    ensures (name in Names(row) && name !in Categorical) ||
            exists c | c in Categorical :: name == DummyName(c, Level(row, c))
  {
    var kept := Drop(row, Categorical);
    var d := GetDummies(row, Categorical).value;
    assert d == kept + Indicators(row, Categorical);
    var m := IndexOf(d, name);
    if m < |kept| {
      var j :| 0 <= j < |row| && row[j] == kept[m];
      assert Names(row)[j] == name;
    } else {
      var c := Categorical[m - |kept|];
      assert name == DummyName(c, Level(row, c));
    }
  }

  /** The frame after `for col in schema: if col not in frame.columns: frame[col] = 0`
      has run over all of `schema`. */
  function Filled(frame: Row, schema: seq<string>): Row
    decreases |schema|
  {
    if schema == [] then frame
    else
      var prev := Filled(frame, schema[..|schema| - 1]);
      var col := schema[|schema| - 1];
      if col in Names(prev) then prev else Assign(prev, col, Int(0))
  }

  /** The fill loop keeps the frame's columns first and in place, appends each missing
      schema column once with value 0, and leaves every schema column present. */
  lemma {:induction false} FilledFacts(frame: Row, schema: seq<string>)
    requires Distinct(Names(frame))
    ensures var f := Filled(frame, schema);
      && Distinct(Names(f))
      && |frame| <= |f| && f[..|frame|] == frame
      && (forall c | c in schema :: c in Names(f))
      && (forall j | |frame| <= j < |f| :: f[j].name !in Names(frame) && f[j].value == Int(0))
    decreases |schema|
  {
    if schema != [] {
      var init := schema[..|schema| - 1];
      var col := schema[|schema| - 1];
      FilledFacts(frame, init);
      var prev := Filled(frame, init);
      var f := Filled(frame, schema);
      if col !in Names(prev) {
        AssignFacts(prev, col, Int(0));
        assert f == prev + [Column(col, Int(0))];
        forall k | 0 <= k < |frame|
          ensures frame[k].name != col
        {
          assert prev[k] == frame[k] && Names(prev)[k] == prev[k].name;
        }
        forall c | c in schema
          ensures c in Names(f)
        {
          if c != col {
            assert c in init;
            var k := IndexOf(prev, c);
            assert Names(f)[k] == c;
          }
        }
      } else {
        forall c | c in schema
          ensures c in Names(f)
        {
          if c != col {
            assert c in init;
          }
        }
      }
    }
  }

  /** After the fill loop a label's cell is the expanded frame's, or 0 if it had none. */
  lemma LookupFilled(frame: Row, schema: seq<string>, name: string)
    requires Distinct(Names(frame)) && name in Names(Filled(frame, schema))
    ensures Lookup(Filled(frame, schema), name) == if name in Names(frame) then Lookup(frame, name) else Int(0)
  {
    FilledFacts(frame, schema);
    var f := Filled(frame, schema);
    var k := IndexOf(f, name);
    if k < |frame| {
      assert f[k] == frame[k];
      LookupColumn(frame, k);
    }
  }

  /** The specification of `preprocess_input(row, schema)`. It fails only with the KeyError
      of a categorical field that is not a column; otherwise its columns are the schema's,
      in the schema's order. */
  function Encode(row: Row, schema: seq<string>): (r: Result<Row>)
    requires Encodable(row)
    ensures r.Ok? <==> forall c | c in Categorical :: c in Names(row)
    ensures r.Ok? ==> |r.value| == |schema| && Names(r.value) == schema
  {
    match GetDummies(row, Categorical)
    case Err(e) => Err(e)
    case Ok(d) =>
      DummiesDistinct(row);
      FilledFacts(d, schema);
      SelectColumns(Filled(d, schema), schema)
  }

  /** `preprocess_input`: expand, then add each missing schema column to the frame in
      place, then select the schema's columns. */
  method PreprocessInput(data: Row, trainedColumns: seq<string>) returns (encoded: Result<Row>)
    requires Encodable(data)
    ensures encoded == Encode(data, trainedColumns)
  {
    var dummies := GetDummies(data, Categorical);
    if dummies.Err? {
      return Err(dummies.error);
    }
    DummiesDistinct(data);
    var frame := new Frame(dummies.value);
    for i := 0 to |trainedColumns|
      invariant frame.Valid()
      invariant frame.columns == Filled(dummies.value, trainedColumns[..i])
    {
      var col := trainedColumns[i];
      assert trainedColumns[..i + 1][..i] == trainedColumns[..i];
      if !frame.Has(col) {
        frame.Set(col, Int(0));
      }
    }
    assert trainedColumns[..|trainedColumns|] == trainedColumns;
    encoded := SelectColumns(frame.columns, trainedColumns);
  }

  /** An independent statement of what each encoded column should hold, read as a static
      table from label to source field: a non-categorical column passes its value through,
      the indicator of the level the row holds is 1, and every other label is 0. */
  function ExpectedValue(row: Row, name: string): Value
    requires Encodable(row) && forall c | c in Categorical :: c in Names(row)
  {
    if name in Names(row) && name !in Categorical then Lookup(row, name)
    else if exists c | c in Categorical :: name == DummyName(c, Level(row, c)) then Int(1)
    else Int(0)
  }

  /** Every encoded column holds the value the table gives its label. */
  lemma EncodeMatchesTable(row: Row, schema: seq<string>)
    requires Encodable(row) && forall c | c in Categorical :: c in Names(row)
    ensures Encode(row, schema).Ok?
    ensures forall i | 0 <= i < |schema| ::
      Encode(row, schema).value[i] == Column(schema[i], ExpectedValue(row, schema[i]))
  {
    var d := GetDummies(row, Categorical).value;
    DummiesDistinct(row);
    FilledFacts(d, schema);
    var out := Encode(row, schema).value;
    forall i | 0 <= i < |schema|
      ensures out[i] == Column(schema[i], ExpectedValue(row, schema[i]))
    {
      var name := schema[i];
      LookupFilled(d, schema, name);
      assert out[i] == Column(name, Lookup(Filled(d, schema), name));
      if name in Names(row) && name !in Categorical {
        DummiesKeep(row, name);
      } else if exists c | c in Categorical :: name == DummyName(c, Level(row, c)) {
        var c :| c in Categorical && name == DummyName(c, Level(row, c));
        DummiesIndicate(row, c);
      } else if name in Names(d) {
        DummiesOnly(row, name);
      }
    }
  }

  /** A schema column that the one-hot expansion did not produce is 0 in the output. */
  lemma EncodeFillsMissing(row: Row, schema: seq<string>, i: int)
    requires Encodable(row) && Encode(row, schema).Ok? && 0 <= i < |schema|
    requires schema[i] !in Names(GetDummies(row, Categorical).value)
    ensures Encode(row, schema).value[i] == Column(schema[i], Int(0))
  {
    var d := GetDummies(row, Categorical).value;
    DummiesDistinct(row);
    FilledFacts(d, schema);
    LookupFilled(d, schema, schema[i]);
  }

  /** A non-categorical column of the row that the schema names keeps its value. */
  lemma EncodePassesThrough(row: Row, schema: seq<string>, i: int)
    requires Encodable(row) && Encode(row, schema).Ok? && 0 <= i < |schema|
    requires schema[i] in Names(row) && schema[i] !in Categorical
    ensures Encode(row, schema).value[i] == Column(schema[i], Lookup(row, schema[i]))
  {
    EncodeMatchesTable(row, schema);
  }

  /** The indicator of the level a categorical field holds is 1 when the schema names it. */
  lemma EncodeSetsIndicator(row: Row, schema: seq<string>, i: int, field: string)
    requires Encodable(row) && Encode(row, schema).Ok? && 0 <= i < |schema|
    requires field in Categorical && schema[i] == DummyName(field, Level(row, field))
    ensures Encode(row, schema).value[i].value == Int(1)
  {
    EncodeMatchesTable(row, schema);
    CategoricalPlain();
    DummyNameNotPlain(field, Level(row, field));
    assert schema[i] !in Categorical;
  }

  /** The indicator of any other level of that field is 0, unless the row itself has a
      column of that label. */
  lemma EncodeClearsOtherLevels(row: Row, schema: seq<string>, i: int, field: string, level: string)
    requires Encodable(row) && (forall c | c in Categorical :: c in Names(row)) && 0 <= i < |schema|
    requires field in Categorical && level != Level(row, field)
    requires schema[i] == DummyName(field, level) && schema[i] !in Names(row)
    ensures Encode(row, schema).value[i].value == Int(0)
  {
    EncodeMatchesTable(row, schema);
    CategoricalPlain();
    forall c | c in Categorical
      ensures schema[i] != DummyName(c, Level(row, c))
    {
      if schema[i] == DummyName(c, Level(row, c)) {
        DummyNameInjective(field, level, c, Level(row, c));
      }
    }
  }

  /** At most one indicator of a field is 1: two indicator columns of the same field that
      are both 1 are the same column. */
  lemma EncodeAtMostOneLevel(row: Row, schema: seq<string>, i: int, j: int, field: string, a: string, b: string)
    requires Encodable(row) && Encode(row, schema).Ok? && 0 <= i < |schema| && 0 <= j < |schema|
    requires field in Categorical
    requires schema[i] == DummyName(field, a) && schema[i] !in Names(row)
    requires schema[j] == DummyName(field, b) && schema[j] !in Names(row)
    requires Encode(row, schema).value[i].value == Int(1) && Encode(row, schema).value[j].value == Int(1)
    ensures a == b && schema[i] == schema[j]
  {
    if a != Level(row, field) {
      EncodeClearsOtherLevels(row, schema, i, field, a);
    }
    if b != Level(row, field) {
      EncodeClearsOtherLevels(row, schema, j, field, b);
    }
  }

  /** A level with no schema column raises nothing: the output still has every schema
      column, and every indicator of that field in it is 0. */
  lemma EncodeUnseenLevel(row: Row, schema: seq<string>, field: string)
    requires Encodable(row) && forall c | c in Categorical :: c in Names(row)
    requires field in Categorical && DummyName(field, Level(row, field)) !in schema
    ensures Encode(row, schema).Ok? && Names(Encode(row, schema).value) == schema
    ensures forall i, level | 0 <= i < |schema| && schema[i] == DummyName(field, level) && schema[i] !in Names(row) ::
      Encode(row, schema).value[i].value == Int(0)
  {
    forall i, level | 0 <= i < |schema| && schema[i] == DummyName(field, level) && schema[i] !in Names(row)
      ensures Encode(row, schema).value[i].value == Int(0)
    {
      EncodeClearsOtherLevels(row, schema, i, field, level);
    }
  }

  /** The categorical columns themselves do not survive the expansion: a schema that named
      one would get 0 there, never the answer. */
  lemma EncodeDropsCategorical(row: Row, schema: seq<string>, i: int)
    requires Encodable(row) && Encode(row, schema).Ok? && 0 <= i < |schema|
    requires schema[i] in Categorical
    ensures Encode(row, schema).value[i] == Column(schema[i], Int(0))
  {
    EncodeMatchesTable(row, schema);
    CategoricalPlain();
    forall c | c in Categorical
      ensures schema[i] != DummyName(c, Level(row, c))
    {
      DummyNameNotPlain(c, Level(row, c));
    }
  }
}
