/** A one-row pandas DataFrame: an ordered list of labelled columns, each holding
    the single cell of the row. The encoder reads such frames and grows one in place. */
module Frames {

  /** A cell: pandas holds integers, floats and strings in the frames of this program. */
  datatype Value = Int(i: int) | Real(r: real) | Text(s: string)

  datatype Column = Column(name: string, value: Value)

  /** The columns of a one-row frame, in frame order. */
  type Row = seq<Column>

  /** The KeyError pandas raises when labels that were asked for are not columns of the frame. */
  datatype KeyError = KeyError(missing: seq<string>)

  datatype Result<T> = Ok(value: T) | Err(error: KeyError)

  /** The column labels of a frame, in order. */
  function Names(row: Row): seq<string>
  {
    seq(|row|, k requires 0 <= k < |row| => row[k].name)
  }

  predicate Distinct(names: seq<string>)
  {
    forall i, j | 0 <= i < j < |names| :: names[i] != names[j]
  }

  /** The position of the first column labelled `name`. */
  function IndexOf(row: Row, name: string): (k: nat)
    requires name in Names(row)
    ensures k < |row| && row[k].name == name
    ensures forall j | 0 <= j < k :: row[j].name != name
  {
    if row[0].name == name then 0
    else
      assert name in Names(row[1..]) by {
        var m :| 0 <= m < |row| && Names(row)[m] == name;
        assert Names(row[1..])[m - 1] == name;
      }
      IndexOf(row[1..], name) + 1
  }

  /** `frame[name]` for a frame whose labels are unique. */
  function Lookup(row: Row, name: string): Value
    requires name in Names(row)
  {
    row[IndexOf(row, name)].value
  }

  /** In a frame with unique labels, looking up a column's label gives that column's cell. */
  lemma LookupColumn(row: Row, k: int)
    requires Distinct(Names(row)) && 0 <= k < |row|
    ensures row[k].name in Names(row) && Lookup(row, row[k].name) == row[k].value
  {
    assert Names(row)[k] == row[k].name;
    var j := IndexOf(row, row[k].name);
    assert Names(row)[j] == Names(row)[k];
  }

  /** The frame after `frame[name] = v`: an existing column is overwritten where it
      stands, a new one is appended after the last column. */
  function Assign(row: Row, name: string, v: Value): Row
  {
    if name in Names(row) then row[IndexOf(row, name) := Column(name, v)]
    else row + [Column(name, v)]
  }

  lemma AssignFacts(row: Row, name: string, v: Value)
    requires Distinct(Names(row))
    ensures var r := Assign(row, name, v);
      && Distinct(Names(r))
      && name in Names(r) && Lookup(r, name) == v
      && (forall c :: c in Names(r) <==> c in Names(row) || c == name)
      && (forall c | c in Names(row) && c != name :: Lookup(r, c) == Lookup(row, c))
  {
    var r := Assign(row, name, v);
    if name in Names(row) {
      var k := IndexOf(row, name);
      assert Names(r) == Names(row);
      LookupColumn(r, k);
      forall c | c in Names(row) && c != name
        ensures Lookup(r, c) == Lookup(row, c)
      {
        var j := IndexOf(row, c);
        LookupColumn(row, j);
        LookupColumn(r, j);
      }
    } else {
      assert Names(r) == Names(row) + [name];
      LookupColumn(r, |row|);
      forall c | c in Names(row)
        ensures Lookup(r, c) == Lookup(row, c)
      {
        var j := IndexOf(row, c);
        LookupColumn(row, j);
        LookupColumn(r, j);
      }
    }
  }

  /** The labels of `names` that are not columns of the frame, in the order asked. */
  function MissingNames(names: seq<string>, row: Row): (missing: seq<string>)
    ensures forall c :: c in missing <==> c in names && c !in Names(row)
  {
    if names == [] then []
    else
      assert forall c :: c in names <==> c == names[0] || c in names[1..];
      (if names[0] in Names(row) then [] else [names[0]]) + MissingNames(names[1..], row)
  }

  /** `frame[names]`: the columns called `names`, in that order, or the KeyError that
      lists every label that is not a column. */
  function SelectColumns(row: Row, names: seq<string>): (r: Result<Row>)
    ensures r.Err? <==> exists c :: c in names && c !in Names(row)
    ensures r.Err? ==> r.error.missing != [] && forall c :: c in r.error.missing <==> c in names && c !in Names(row)
    ensures r.Ok? ==> Names(r.value) == names
    ensures r.Ok? ==> forall k | 0 <= k < |names| :: r.value[k] == Column(names[k], Lookup(row, names[k]))
  {
    var missing := MissingNames(names, row);
    if missing != [] then
      assert missing[0] in names && missing[0] !in Names(row);
      Err(KeyError(missing))
    else
      var selected := seq(|names|, k requires 0 <= k < |names| => Column(names[k], Lookup(row, names[k])));
      assert Names(selected) == names;
      Ok(selected)
  }

  /** A DataFrame whose columns are changed in place by `frame[name] = value`. */
  class Frame {
    var columns: Row

    /** pandas keeps the labels of the frames built here unique. */
    ghost predicate Valid()
      reads this
    {
      Distinct(Names(columns))
    }

    constructor (columns: Row)
      requires Distinct(Names(columns))
      ensures Valid() && this.columns == columns
    {
      this.columns := columns;
    }

    /** `name in frame.columns` */
    function Has(name: string): bool
      reads this
    {
      name in Names(columns)
    }

    /** `frame[name] = v` */
    method Set(name: string, v: Value)
      requires Valid()
      modifies this
      ensures Valid()
      ensures columns == Assign(old(columns), name, v)
      ensures Has(name) && Lookup(columns, name) == v
      ensures forall c | c != name :: Has(c) == old(Has(c))
    {
      AssignFacts(columns, name, v);
      columns := Assign(columns, name, v);
    }
  }
}
