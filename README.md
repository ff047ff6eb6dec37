# Churn dashboard feature reconciliation, modelled in Dafny

The churn dashboard scores customers with a pre-trained classifier. Before a
table of customers reaches the classifier, `prepare_features` turns it into
exactly the columns the classifier was trained on:

1. It one-hot encodes the categorical attributes with `get_dummies(drop_first=True)`.
   - Numeric columns come first, in their original order.
   - Each categorical column `a` is then replaced by one column `a_<v>` per
     value `v` present in the table. The values are sorted in Python's
     string order and the smallest is dropped.
2. It appends every schema column (`model_features`) that the encoding did
   not produce, filled with 0.
3. It projects the table onto the schema, in the schema's order. When every
   schema label names at most one column, the result has exactly the schema's
   columns.

Two small decisions sit beside it:
- the traffic-light risk band of a single prediction;
- the feature-importance table, sorted by importance.

The model has these modules:

- `Frames` holds the raw table and the encoded table:
  - a raw table has column names, a kind per column and rows of
    `Num(real)` or `Cat(string)` cells;
  - an encoded table has names and rows of reals;
  - it also holds label lookup and the concatenation of column blocks.
- `LexOrder` holds Python's code-point order on strings and the sorted
  distinct values of a column.
- `Dummies` holds `GetDummies`, the one-hot encoding, with its layout
  lemmas. They say where each numeric and dummy column lands, what its cells
  hold, and which level is dropped.
- `Prepare` holds `PrepareFeatures`:
  - it is a method;
  - its zero-fill loop is `FillMissing`, proved to append exactly the
    `Missing` schema labels and to leave a `Filled` table;
  - the projection is `Project`, which returns `None` where pandas raises
    a `KeyError`;
  - the lemmas about the result are proved on the function `Prepared`, which
    the method is shown to compute.
- `Risk` holds the risk band.
- `Importance` holds the importance table. A model without importances and
  columns of unequal length are both error results.
- `SchemaEncoding` is a schema-driven encoder. It fixes the two defects
  listed under Findings.
- `Scenarios` holds the two inputs the dashboard builds:
  - the one-row form record;
  - small batches exhibiting the per-batch reference category.

The system's design description treats a missing numeric attribute as a
validation error. `app.py` zero-fills every missing schema column, numeric
or not. The model follows `app.py` (`Prepare.UnproducedColumnIsZero`).

## Model

| member | source | states |
|---|---|---|
| Prepare.PrepareFeatures | app.py:18-27 | for any input table and schema, the result has exactly the schema's columns in the schema's order, one row per input row, and equals encode-then-zero-fill-then-project (`Prepared`) |
| Prepare.FillMissing | app.py:22-24 | the loop appends exactly the schema labels missing from the encoded table, each once, in schema order (`Missing`); the encoded columns are unchanged as a prefix and each added column is 0 in every row |
| Prepare.Missing | app.py:22-24 | the labels appended are exactly the schema labels not already columns, with no repeats |
| Prepare.FilledProjection | app.py:25 | projecting the filled table onto the schema never fails (no KeyError) and gives the reconciled table: encoded cell where the label exists, 0 otherwise |
| Prepare.Project | app.py:25 | projection succeeds if and only if every requested label is a column; the result has exactly the requested columns, one row per row, and each cell is taken from the label's first occurrence |
| Prepare.Reconciled | app.py:22-25 | the zero-filled projection has the schema as its column list and one row per encoded row |
| Prepare.Prepared | app.py:18-27 | the column list equals the schema and there is one row per input row, whatever categories the input holds |
| Prepare.UnproducedColumnIsZero | app.py:22-24 | a schema column that is neither a numeric input column nor the dummy of a kept level is 0 in every row, including a missing numeric attribute |
| Prepare.NumericPassThrough | app.py:19-25 | with distinct raw labels, a numeric column named in the schema is copied through unchanged, row by row |
| Prepare.NumericFirstIndex | app.py:19 | a numeric column's label first occurs among the encoded labels at that column's own offset |
| Prepare.DummyIndicator | app.py:19-25 | when no other encoded column carries the label `a_<v>`, the schema column `a_<v>` for a kept level `v` is 1 in the rows whose `a` equals `v` and 0 in all others |
| Prepare.AtMostOneDummySet | app.py:19-25 | in each output row at most one dummy column of a categorical attribute is 1 |
| Prepare.SingleRowLosesDummies | app.py:19-25 | for a one-row input every schema column other than the numeric input columns is 0 |
| Prepare.OutputRowFollowsInputRow | app.py:19-25 | row order is kept: given the batch's levels, output row i depends on input row i alone, so write-back by position matches rows |
| Dummies.GetDummies | app.py:19 | the encoding is a well-formed table with one row per input row |
| Dummies.NumericColumn | app.py:19 | each numeric column keeps its own label at its offset among the encoded columns |
| Dummies.NumericCell | app.py:19 | each numeric column's cells are passed through unchanged |
| Dummies.DummyColumn | app.py:19 | dummy p of categorical column `a` is named `a_` followed by the kept level p |
| Dummies.DummyCell | app.py:19 | that dummy is 1 exactly when the row's cell is that level, else 0 |
| Dummies.EncodedNames | app.py:19 | a label is an encoded column if and only if it is a numeric column's name or `a_<v>` for a kept level `v` of a categorical column `a` |
| Dummies.ReferenceDropped | app.py:19 | the smallest value present in a categorical column gets no dummy; every other value present gets one |
| Dummies.AtMostOneHot | app.py:19 | in each row at most one dummy of a categorical column is 1 |
| Dummies.SmallTableHasNoDummies | app.py:19 | with at most one row only the numeric columns are produced |
| Dummies.EncodedRowIsLocal | app.py:19 | tables with the same levels encode equal rows alike and have the same encoded labels |
| Dummies.DummyNameInjective | app.py:19 | two levels of one column give the same dummy label only if they are equal |
| LexOrder.Levels | app.py:19 | the levels of a column are strictly sorted in Python string order and are exactly its values |
| LexOrder.SortedUnique | app.py:19 | two strictly sorted sequences with the same elements are equal, so the levels are determined by the set of values |
| LexOrder.LevelsBySet | app.py:19 | columns holding the same set of values have the same levels |
| LexOrder.LevelsFirstIsSmallest | app.py:19 | the first level is a value of the column and is smaller than every other value |
| LexOrder.LevelsOfSmallColumn | app.py:19 | a column with at most one row has as many levels as rows |
| LexOrder.LessIrreflexive | app.py:19 | no string is smaller than itself |
| LexOrder.LessTransitive | app.py:19 | the string order is transitive |
| LexOrder.LessTotal | app.py:19 | of two distinct strings one is smaller |
| LexOrder.Insert | app.py:19 | inserting into a strictly sorted sequence keeps it strictly sorted and adds exactly the new value |
| Frames.FirstIndex | app.py:25 | the index found holds the label and no earlier index does |
| Frames.FirstIndexInPrefix | app.py:22-25 | appending columns does not move the first occurrence of a label already present; a new label's first occurrence is after the old columns |
| Risk.RiskBand | app.py:115-135 | low if and only if below 30, medium if and only if from 30 up to but not including 70, high if and only if 70 or more |
| Risk.RiskBandBoundaries | app.py:115-135 | 29.99 is low, 30 medium, 69.99 medium, 70 high |
| Risk.RiskBandMonotone | app.py:115-135 | a higher probability never gets a milder band |
| Importance.SortByImportance | app.py:178 | the result is sorted ascending by importance and is a permutation of the input |
| Importance.InsertByImportance | app.py:178 | inserting into an ascending table keeps it ascending and adds exactly that entry |
| Importance.ImportanceTable | app.py:171-178 | no importances or columns of unequal length are errors, each in exactly its own case; otherwise the table is ascending and a permutation of the zipped pairs |
| Importance.EntriesKeepTheirWeights | app.py:175-178 | the table has one row per feature and every row is some feature paired with its own importance |
| SchemaEncoding.SchemaEncode | app.py:19-25 | the schema-driven encoding has exactly the schema's columns and one row per input row |
| SchemaEncoding.SchemaEncodeSplit | app.py:19-25 | encoding a batch equals encoding its two parts and stacking the results |
| SchemaEncoding.ObservedLevelIsSet | app.py:19-25 | a row whose category spells a schema column gets 1 there, in any batch, including a one-row batch |
| SchemaEncoding.UnmatchedColumnIsZero | app.py:22-24 | a schema column no cell of the row accounts for is 0 |
| SchemaEncoding.NumericCopied | app.py:19-25 | the first numeric column carrying a schema name is copied through |
| SchemaEncoding.FirstNumeric | app.py:25 | the column found is the first numeric column with that name, or the end when there is none |
| Scenarios.FormRecord | app.py:98-107 | the form builds a well-formed one-row table with distinct labels |
| Scenarios.FormChoicesHaveNoEffect | app.py:98-111 | two form customers with the same numbers get identical features whatever they select |
| Scenarios.FormFiberOpticIsZero | app.py:98-111 | a fiber-optic form customer gets `InternetService_Fiber optic` = 0 |
| Scenarios.SchemaEncodedFormFiberOptic | app.py:98-111 | with the schema-driven encoder that customer gets `InternetService_Fiber optic` = 1 |
| Scenarios.TwoContractsKept | app.py:19 | in a batch of "One year" and "Two year" only "Two year" keeps a dummy |
| Scenarios.TwoContractsEncodedNames | app.py:19 | that batch encodes to the single column `Contract_Two year` |
| Scenarios.TwoContractsInOneBatch | app.py:145-151 | encoded together, the two customers get 0 and 1 in `Contract_Two year` |
| Scenarios.OneContractAlone | app.py:19-25 | any single customer alone gets 0 in `Contract_Two year` |
| Scenarios.SplitChangesEncoding | app.py:19-25 | encoding the batch differs from encoding its rows one by one |
| Scenarios.CryptoBatchKept | app.py:19 | in a batch of "Electronic check" and "Cryptocurrency", "Cryptocurrency" is the reference and "Electronic check" keeps its dummy |
| Scenarios.CryptoBatchEncodedNames | app.py:19 | that batch encodes to the single column `PaymentMethod_Electronic check` |
| Scenarios.CryptoBatchRow | app.py:22-25 | the electronic-check row is (0, 1, 0) over the three payment columns and the cryptocurrency row is all 0 |
| Scenarios.UnseenCategoryAddsNoColumn | app.py:22-25 | the unseen category adds no column and raises nothing: the output has exactly the schema's payment columns |

## Left out

- The Streamlit page, its styling, tabs, inputs, buttons and messages (app.py:32-107, 196-211): presentation only.
- Loading the model and `model_features` with `joblib` (app.py:12-13): file I/O. The schema is a parameter.
- `predict_proba` (app.py:111, 151): an opaque classifier. The risk band takes the already scaled percentage as a parameter.
- Probability scaling, `.round(2)` and `:.2f` formatting (app.py:111, 151-152): floating point. Values are modelled as `real`.
- Writing the probabilities back into the uploaded table (app.py:151): it relies on row order, which `Prepare.OutputRowFollowsInputRow` and `Prepare.PrepareFeatures` state; the assignment itself is not modelled.
- CSV upload, parsing and download (app.py:142-163) and the Plotly chart (app.py:180-189): I/O and rendering.
- The `hasattr(model, "feature_importances_")` probe (app.py:171): runtime reflection. It is modelled as an optional sequence of importances.
- pandas dtype inference: each column's kind is fixed up front. Missing (NaN) cells are not modelled; pandas gives them no dummy.
- The training script: `src/Modell vorbereiten.py` is not part of this model.
- Prepare.Project: takes the first occurrence of a duplicated label, where pandas would return every duplicate. The same holds for `Frames.FirstIndex` and `Prepare.Cell`. So when a schema label occurs twice among the encoded labels (a numeric column named like a dummy), `df_enc[model_features]` returns more columns than the schema has. `Prepare.PrepareFeatures`' promise of exactly the schema's columns holds for `app.py` only when no schema label occurs twice among the encoded labels.
- Prepare.NumericPassThrough: requires distinct raw labels. `Prepare.DummyIndicator` and `Prepare.AtMostOneDummySet` require that no other encoded column carries the dummy's label. A numeric column literally named like a dummy would otherwise collide.
- Dummies.Hot: cells are `real` 1.0 and 0.0 throughout. In pandas the dummy columns have bool type and the zero-filled columns have int type. The column types are not modelled.
- Importance.SortByImportance: promises sortedness and a permutation, but not the order of equal importances. pandas' default quicksort is not stable.
- Risk.RiskBand: classifies an exact `real`, so values that floating point cannot represent exactly are not distinguished from their neighbours.

## Findings

| source | as written | input that shows it | evidently intended | confidence | as-written member | corrected member |
|---|---|---|---|---|---|---|
| app.py:19 (with app.py:98-111) | `get_dummies(drop_first=True)` drops the smallest value present in the call's own input, so a one-row form table loses every dummy column | the form with InternetService "Fiber optic": `InternetService_Fiber optic` comes out 0, and any two sets of selections give the same features | dummies relative to the training-time reference, so a fiber-optic customer gets `InternetService_Fiber optic` = 1 | not executed | Scenarios.FormFiberOpticIsZero | Scenarios.SchemaEncodedFormFiberOptic |
| app.py:19-25 | the reference category depends on the other rows of the batch, so a row's encoding changes with its companions | Contract column ["One year", "Two year"]: together the second row gets `Contract_Two year` = 1, alone it gets 0 | a row's features depend on that row only, so encoding a batch equals encoding its parts | not executed | Scenarios.SplitChangesEncoding | SchemaEncoding.SchemaEncodeSplit |
