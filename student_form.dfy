/** The form's answers, the bounds its widgets enforce, and the one-row frame the page
    builds from them before encoding. */
module StudentForm {
  import opened Frames
  import opened Encoder

  /** One submission of the form. */
  datatype Answers = Answers(
    age: int,
    gender: string,
    gradeLevel: string,
    studyHours: int,
    sleepHours: int,
    exerciseFrequency: int,
    socialMediaHours: int,
    gpa: real,
    familySupport: int,
    socialSupport: int,
    partTimeJob: string,
    financialStress: int,
    mentalHealthIssues: string)

  const GenderOptions: seq<string> := ["Male", "Female"]
  const GradeLevelOptions: seq<string> := ["Freshman", "Sophomore", "Junior", "Senior"]
  const YesNoOptions: seq<string> := ["Yes", "No"]

  /** The choices the form offers for a categorical field. */
  function Options(field: string): seq<string>
  {
    if field == "Gender" then GenderOptions
    else if field == "Grade Level" then GradeLevelOptions
    else if field == "Part-Time Job" || field == "Mental Health Issues" then YesNoOptions
    else []
  }

  /** The answer given to a categorical field. */
  function Answer(a: Answers, field: string): string
  {
    if field == "Gender" then a.gender
    else if field == "Grade Level" then a.gradeLevel
    else if field == "Part-Time Job" then a.partTimeJob
    else a.mentalHealthIssues
  }

  /** The answers the widgets can produce: every number inside its widget's bounds and
      every choice one of its options. */
  predicate Valid(a: Answers)
  {
    && 18 <= a.age <= 100
    && 1 <= a.studyHours <= 168
    && 4 <= a.sleepHours <= 12
    && 0 <= a.exerciseFrequency <= 7
    && 0 <= a.socialMediaHours <= 10
    && 0.0 <= a.gpa <= 4.0
    && 1 <= a.familySupport <= 5
    && 1 <= a.socialSupport <= 5
    && 1 <= a.financialStress <= 5
    && a.gender in GenderOptions
    && a.gradeLevel in GradeLevelOptions
    && a.partTimeJob in YesNoOptions
    && a.mentalHealthIssues in YesNoOptions
  }

  /** The form as first shown: each number widget's initial value and each choice
      widget's first option. */
  function DefaultAnswers(): (a: Answers)
    ensures Valid(a)
    ensures forall c | c in Categorical :: Answer(a, c) == Options(c)[0]
  {
    Answers(20, "Male", "Freshman", 10, 7, 3, 2, 3.0, 4, 3, "Yes", 3, "Yes")
  }

  /** The labels of the frame built from the answers, in order. */
  const FrameColumns: seq<string> := [
    "Age", "Gender", "Grade Level", "Study Hours per Week", "Sleep Hours per Night",
    "Exercise Frequency", "Social Media Use (hrs/day)", "Academic Performance (GPA)",
    "Family Support", "Social Support", "Part-Time Job", "Financial Stress",
    "Mental Health Issues"]

  lemma FrameColumnsDistinct()
    ensures Distinct(FrameColumns)
  {
  }

  lemma FrameColumnsPlain()
    ensures forall n | n in FrameColumns :: Plain(n)
  {
    assert Plain(FrameColumns[0]) && Plain(FrameColumns[1]) && Plain(FrameColumns[2]);
    assert Plain(FrameColumns[3]) && Plain(FrameColumns[4]) && Plain(FrameColumns[5]);
    assert Plain(FrameColumns[6]) && Plain(FrameColumns[7]) && Plain(FrameColumns[8]);
    assert Plain(FrameColumns[9]) && Plain(FrameColumns[10]) && Plain(FrameColumns[11]);
    assert Plain(FrameColumns[12]);
  }

  /** The one-row frame the page builds from the answers, its labels those of
      `FrameColumns`, in that order. */
  function ToFrame(a: Answers): (row: Row)
    ensures Names(row) == FrameColumns
  {
    [ Column("Age", Int(a.age)),
      Column("Gender", Text(a.gender)),
      Column("Grade Level", Text(a.gradeLevel)),
      Column("Study Hours per Week", Int(a.studyHours)),
      Column("Sleep Hours per Night", Int(a.sleepHours)),
      Column("Exercise Frequency", Int(a.exerciseFrequency)),
      Column("Social Media Use (hrs/day)", Int(a.socialMediaHours)),
      Column("Academic Performance (GPA)", Real(a.gpa)),
      Column("Family Support", Int(a.familySupport)),
      Column("Social Support", Int(a.socialSupport)),
      Column("Part-Time Job", Text(a.partTimeJob)),
      Column("Financial Stress", Int(a.financialStress)),
      Column("Mental Health Issues", Text(a.mentalHealthIssues)) ]
  }

  /** Each categorical field of the frame holds the text of the answer to it. */
  lemma ToFrameAnswers(a: Answers)
    ensures forall c | c in Categorical :: c in Names(ToFrame(a)) && Lookup(ToFrame(a), c) == Text(Answer(a, c))
  {
    var row := ToFrame(a);
    FrameColumnsDistinct();
    LookupColumn(row, 1);
    LookupColumn(row, 2);
    LookupColumn(row, 10);
    LookupColumn(row, 12);
    assert Categorical == [row[1].name, row[2].name, row[10].name, row[12].name];
  }

  /** The frame has unique labels, all four categorical fields as text, and no label the
      expansion could collide with, so the encoder accepts it whatever the answers are
      and never raises on it. */
  lemma ToFrameEncodable(a: Answers)
    ensures Encodable(ToFrame(a))
  {
    var row := ToFrame(a);
    FrameColumnsDistinct();
    FrameColumnsPlain();
    ToFrameAnswers(a);
    forall c | c in Categorical && c in Names(row) && Lookup(row, c).Text?
      ensures DummyName(c, Level(row, c)) !in Names(row)
    {
      DummyNameNotPlain(c, Level(row, c));
    }
  }

  /** The page's call `preprocess_input(user_input, trained_columns)`: for every answer
      and every schema it succeeds, with exactly the schema's columns in order. */
  function EncodeAnswers(a: Answers, schema: seq<string>): (r: Result<Row>)
    ensures r.Ok? && |r.value| == |schema| && Names(r.value) == schema
  {
    ToFrameEncodable(a);
    ToFrameAnswers(a);
    Encode(ToFrame(a), schema)
  }

  /** For answers the form can produce and a schema that names every level of a field,
      exactly the indicator of the chosen level is 1 and the field's other indicators are 0. */
  lemma ValidAnswersOneHot(a: Answers, schema: seq<string>, field: string)
    requires Valid(a) && field in Categorical
    requires forall level | level in Options(field) :: DummyName(field, level) in schema
    ensures exists i | 0 <= i < |schema| ::
      schema[i] == DummyName(field, Answer(a, field)) && EncodeAnswers(a, schema).value[i].value == Int(1)
    ensures forall i, level | 0 <= i < |schema| && level in Options(field) && schema[i] == DummyName(field, level) ::
      EncodeAnswers(a, schema).value[i].value == Int(if level == Answer(a, field) then 1 else 0)
  {
    var row := ToFrame(a);
    ToFrameEncodable(a);
    ToFrameAnswers(a);
    assert Answer(a, field) in Options(field);
    var i :| 0 <= i < |schema| && schema[i] == DummyName(field, Answer(a, field));
    EncodeSetsIndicator(row, schema, i, field);
    forall j, level | 0 <= j < |schema| && level in Options(field) && schema[j] == DummyName(field, level)
      ensures EncodeAnswers(a, schema).value[j].value == Int(if level == Answer(a, field) then 1 else 0)
    {
      if level == Answer(a, field) {
        EncodeSetsIndicator(row, schema, j, field);
      } else {
        NotAFrameColumn(a, field, level);
        EncodeClearsOtherLevels(row, schema, j, field, level);
      }
    }
  }

  /** No indicator label is one of the frame's own labels. */
  lemma NotAFrameColumn(a: Answers, field: string, level: string)
    ensures DummyName(field, level) !in Names(ToFrame(a))
  {
    FrameColumnsPlain();
    DummyNameNotPlain(field, level);
  }

  /** Every non-categorical answer reaches the model unchanged, under its own label. */
  lemma AnswersPassThrough(a: Answers, schema: seq<string>, i: int, k: int)
    requires 0 <= i < |schema| && 0 <= k < |FrameColumns|
    requires FrameColumns[k] !in Categorical && schema[i] == FrameColumns[k]
    ensures EncodeAnswers(a, schema).value[i] == ToFrame(a)[k]
  {
    var row := ToFrame(a);
    ToFrameEncodable(a);
    ToFrameAnswers(a);
    FrameColumnsDistinct();
    assert Names(row)[k] == schema[i];
    EncodePassesThrough(row, schema, i);
    LookupColumn(row, k);
  }
}
