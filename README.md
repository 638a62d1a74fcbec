# Student stress predictor: feature encoder and tier classifier

The Student Stress Predictor is a single Streamlit page. A form collects thirteen answers about a
student: age, gender, grade level, weekly study hours, nightly sleep, exercise, social media
use, GPA, family support, social support, part-time job, financial stress and mental health
issues. The page turns these answers into a one-row frame. `preprocess_input` encodes that frame
into the feature vector the trained regression model expects. The model's score is then mapped
to one of four ordered tiers, each with a colour, a headline and a list of tips.

This project models the two parts of the page that are logic rather than presentation:

- **The feature encoder** (`encoder.dfy`, on the frame model in `frames.dfy`).
  - `pd.get_dummies` one-hot expands `Gender`, `Grade Level`, `Part-Time Job` and
    `Mental Health Issues` into `<field>_<level>` columns. It keeps every level and drops the
    original categorical columns (`GetDummies`).
  - A loop then adds each schema column that is still missing, with value 0. The loop changes
    the frame in place: a `Frame` object whose `Set` method is `frame[name] = value`
    (`PreprocessInput`). It is proved equal to the pure specification `Encode`.
  - Finally the schema's columns are selected, in the schema's order (`SelectColumns`).
  - The trained feature schema is a parameter. `ExpectedValue` is an independent table-style
    reading of what every output column must hold. `EncodeMatchesTable` proves the encoder
    agrees with it.
- **The form** (`student_form.dfy`). It holds the answers and the bounds and choice lists the
  widgets enforce (`Valid`). It builds the frame with its exact column labels (`ToFrame`) and
  makes the page's call of the encoder on it (`EncodeAnswers`).
- **The tier classifier** (`stress_tier.dfy`). `Classify` is the page's if/elif chain over the
  score, kept as written. It is proved equal to "the number of cut points 3, 6, 8 that the score
  has reached", and proved total, monotone and closed-left/open-right. Each tier has a fixed
  colour, headline and tips.

Two facts about app.py shape the model:

- The encoder call at app.py:89 runs before the button and outside the `try`. `EncodeAnswers`
  shows that it cannot fail on any frame the form builds.
- The study-hours widget is labelled "1-40" but accepts 1 to 168 (app.py:65). `Valid` uses 1 to
  168.

## Model

| member | source | states |
|---|---|---|
| `Frames.SelectColumns` | app.py:52 | `frame[columns]` fails with a KeyError exactly when some requested label is not a column, and the error lists every such label and no other; otherwise the result has exactly the requested labels, in the requested order, and each column holds the frame's cell of that label |
| `Frames.Assign` | app.py:51 | no ensures; the frame after `frame[col] = v`, specified by `AssignFacts` and by `Frame.Set` |
| `Frames.Frame.Set` | app.py:51 | `frame[col] = v` overwrites an existing column where it stands or appends a new one; labels stay unique, `col` then reads `v`, and no other label appears or disappears |
| `Frames.AssignFacts` | app.py:51 | assigning a column keeps labels unique, makes the label read the assigned value, adds no label but that one, and leaves every other column's value unchanged |
| `Encoder.GetDummies` | app.py:47-48 | the one-hot expansion raises a KeyError exactly when a categorical field is not a column of the frame; otherwise it has one column per kept column plus one indicator per categorical field |
| `Encoder.DummyName` | app.py:48 | no ensures; the `<field>_<level>` label of an indicator column, specified by `DummyNameInjective` |
| `Encoder.DummyNameInjective` | app.py:48 | an indicator label `<field>_<level>` determines both its field and its level when field names have no underscore, which is true of all four categorical fields |
| `Encoder.DropDistinct` | app.py:48 | removing the categorical columns keeps the remaining labels unique |
| `Encoder.DummiesDistinct` | app.py:48 | the expanded frame has unique labels: no indicator collides with a kept column or with another indicator |
| `Encoder.DummiesKeep` | app.py:48 | every non-categorical column survives the expansion with its own value |
| `Encoder.DummiesIndicate` | app.py:47-48 | the indicator of the level each categorical field holds is a column of the expansion, with value 1 |
| `Encoder.DummiesOnly` | app.py:47-48 | the expansion has no other columns: each of its labels is a kept non-categorical column or the indicator of a held level |
| `Encoder.Filled` | app.py:49-51 | no ensures; the frame after the fill loop has run over a schema prefix, specified by `FilledFacts` and `LookupFilled`, and the loop of `PreprocessInput` is proved to compute it |
| `Encoder.FilledFacts` | app.py:49-51 | after the fill loop the expanded columns are still first and unchanged, every schema label is present, every added column was missing before and holds 0, and labels stay unique |
| `Encoder.LookupFilled` | app.py:49-51 | after the fill loop a label reads the expanded frame's value if it had one, and 0 otherwise |
| `Encoder.Encode` | app.py:46-52 | the encoder fails only when a categorical field is missing from the frame; otherwise its output has exactly the schema's labels, in the schema's order, and the schema's length |
| `Encoder.PreprocessInput` | app.py:46-52 | the imperative encoder returns exactly what `Encode` specifies: expansion, the in-place fill loop over a `Frame`, then the final selection |
| `Encoder.EncodeMatchesTable` | app.py:46-52 | when all four categorical fields are present, every output column holds what `ExpectedValue` gives its label: a non-categorical input column passes through, the indicator of a held level is 1, and anything else is 0 |
| `Encoder.EncodeFillsMissing` | app.py:49-51 | a schema column the one-hot expansion did not produce is 0 in the output |
| `Encoder.EncodePassesThrough` | app.py:48-52 | a non-categorical input column named by the schema keeps its input value |
| `Encoder.EncodeSetsIndicator` | app.py:47-51 | the indicator of the level a categorical field holds is 1 when the schema names it |
| `Encoder.EncodeClearsOtherLevels` | app.py:47-51 | the indicator of any other level of that field is 0, unless the input frame already had a column of that label |
| `Encoder.EncodeAtMostOneLevel` | app.py:47-51 | two indicators of the same field that are both 1 are the same column, so at most one indicator per field is 1 |
| `Encoder.EncodeUnseenLevel` | app.py:48-52 | a level with no schema column raises nothing; the output is full-width and every indicator of that field in it is 0 |
| `Encoder.EncodeDropsCategorical` | app.py:47-52 | the original categorical columns are removed by the expansion, so a schema that named one would get 0 there and never the answer |
| `StudentForm.Valid` | app.py:62-76 | no ensures; the answers the widgets allow (each number within its widget's bounds, each choice one of its options), used by `DefaultAnswers` and `ValidAnswersOneHot` |
| `StudentForm.DefaultAnswers` | app.py:62-76 | the form's initial values, with each choice widget on its first option, satisfy the widget bounds |
| `StudentForm.ToFrame` | app.py:79-86 | the frame built from the answers has the thirteen labels of `FrameColumns`, in order, with `Social Media Use (hrs/day)` and `Academic Performance (GPA)` spelled as the page spells them |
| `StudentForm.ToFrameAnswers` | app.py:79-86 | each categorical column of the frame holds the text of the answer to it |
| `StudentForm.ToFrameEncodable` | app.py:79-86 | the built frame has unique labels, text categorical fields and no label an indicator could collide with, so the encoder accepts it for any answers |
| `StudentForm.EncodeAnswers` | app.py:79-89 | the page's call of `preprocess_input` on the built frame always succeeds, with exactly the schema's columns in order |
| `StudentForm.ValidAnswersOneHot` | app.py:62-89 | for answers the widgets allow and a schema naming every level of a field, exactly one indicator of that field is 1 (the chosen level's) and the others are 0 |
| `StudentForm.AnswersPassThrough` | app.py:79-89 | every non-categorical answer reaches the encoded vector unchanged, under its own label |
| `StressTier.Classify` | app.py:102-135 | no ensures; the if/elif chain with its conditions as written, specified by `ClassifyBands`, `ClassifyCountsCuts`, `ClassifyMonotone` and `ClassifyBoundaries` |
| `StressTier.ClassifyCountsCuts` | app.py:102-135 | the chain's tier, as a rank, equals the number of cut points 3, 6 and 8 the score has reached, for every real score |
| `StressTier.CutsReachedMonotone` | app.py:102-135 | a higher score never reaches fewer cut points |
| `StressTier.ClassifyMonotone` | app.py:102-135 | if s1 <= s2 then tier(s1) <= tier(s2) in the order Low < Moderate < High < Very High, negative and above-10 scores included |
| `StressTier.ClassifyBands` | app.py:102-135 | score < 3 is Low, 3 <= score < 6 Moderate, 6 <= score < 8 High, and every other score Very High, each as an if-and-only-if |
| `StressTier.ClassifyBoundaries` | app.py:102-135 | a score exactly on 3, 6 or 8 belongs to the higher tier |
| `StressTier.Color` | app.py:104-137 | no ensures; the colour each branch of the chain sets, specified by `ColorBands` and `ColorIdentifiesTier` |
| `StressTier.Headline` | app.py:103-136 | no ensures; the sentence each branch of the chain shows, word for word |
| `StressTier.Tips` | app.py:105-146 | no ensures; the tip items each branch of the chain lists, word for word and in order, without the heading line and bullets |
| `StressTier.ColorBands` | app.py:102-137 | green marks exactly the scores below 3, orange [3, 6), red [6, 8), and dark red 8 and above |
| `StressTier.Interpret` | app.py:102-146 | the tier shown for a score is the number of cut points 3, 6 and 8 the score has reached (Low 0 … Very High 3), and the colour, headline and tips shown with it are that tier's own fixed ones |
| `StressTier.ColorIdentifiesTier` | app.py:104-137 | the four colours are distinct, so the colour alone tells the tier |

## Left out

- Page configuration, CSS, the widgets themselves, the button, the spinner and all rendering are
  user interface. `Valid` records the bounds and choices the widgets enforce.
- Loading the model file and reading its `feature_names_in_` are file I/O on a foreign
  artifact. The trained feature schema is a parameter of the encoder instead.
- `model.predict` is an opaque regression model with float arithmetic. The score is an input
  `real` to `Classify`.
- The `try`/`except` that reports prediction errors on the page is user interface.
- Floating point: scores and GPA are exact reals. A NaN score would fail every comparison in the
  chain and land in the last branch (Very High); `real` has no NaN, so this is not modelled.
  The GPA widget's step of 0.1 is not modelled either.
- pandas dtypes: `get_dummies` may emit booleans. The model uses the integers 1 and 0.
- `Encoder.GetDummies`: categorical columns are required to hold text. For a numeric category,
  pandas would build the indicator label from the number's string form; this is not modelled.
  The form always supplies text.
- `Encoder.Encode`: a frame that already has a column labelled like one of the indicator columns
  is outside the precondition. pandas would then hold two columns of that label; frames with
  duplicate labels are not modelled. No frame the form builds has one.
- `StressTier.Tips`: each branch's tips text opens with a heading line ("Tips to maintain low
  stress:" and so on) and puts "- " before each tip; `Tips` keeps only the tips themselves, as
  that layout carries nothing a caller could use.
