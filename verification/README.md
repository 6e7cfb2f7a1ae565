# Neighbourhood-average baseline: a Dafny model

This project models the estimator code of a house-price experiment template
(`model.py`). Its core is the baseline estimator. It groups training houses by
their `Neighborhood` and remembers the mean sale price of each neighbourhood
(`means_`) and the mean price of all houses (`global_mean_`). It then prices a
house by its neighbourhood's mean, and falls back to the global mean for a
neighbourhood it never saw or a missing one.

The same fit appears twice in the source, once in
`AveragePricePerNeighborhoodRegressor` (`fit`/`predict`) and once in
`AveragePricePerNeighborhoodExtractor` (`fit`/`transform`). The code at lines
142-147 and 163-167 is identical, so it is modelled once, as
`NeighborhoodAverage.Fit`. The project also models the age features of
`AgeExtractor.transform` and the assembly of pipeline steps from a configuration
in `build_estimator` and `get_estimator_mapping`.

Modules:

- `Wrappers`: `Option` and `Result`. The exceptions the Python code raises become `Failure` values.
- `Frames`: a pandas DataFrame reduced to what the code uses. It has named columns of cells (missing, number or text), read with `Column` (`X[name]`, a KeyError when absent) and written with `Assign` (`X[name] = col`).
- `Stats`: reference definitions for the proofs. `Sum` and `Mean` are the sum and mean of a list. `Groups` is the set of non-null keys in a column. `GroupTargets` is the list of targets of the rows with a given key.
- `NeighborhoodAverage`: the shared fit (a one-pass group-by tally), the regressor's `Predict` and the extractor's `Transform`. It also holds the lemmas that connect them to the reference definitions.
- `AgeFeatures`: `HouseAge`, `RemodAddAge` and `GarageAge` as column differences from `YrSold`.
- `Pipelines`: the estimator mapping, with each estimator as a tag, and `BuildEstimator`.

Design decisions:

- Prices are Dafny `real`s, and averages are exact.
- A null `Neighborhood` forms no group, as in a pandas group-by. Such a row still counts towards the global mean, and at predict time it gets the global mean.
- Errors arise in Python's evaluation order. A missing `Neighborhood` column (KeyError) comes before a length mismatch between the column and the targets (ValueError). In `predict`, the column is read before the fitted state.
- `predict` and `transform` on an unfitted estimator raise only when the input has at least one row. `Series.apply` on an empty column never calls `get_average`, so it never reads the missing `means_`. An unfitted estimator therefore returns an empty result for an empty frame instead of raising.
- The docstrings of `fit` and `predict` speak of a "mode". The code computes the arithmetic mean, and so does the model.
- A year column holding text has object dtype. Pandas subtracts object columns only on the rows where both operands are present, so a text cell raises a TypeError only when it faces a present cell. A text cell facing a missing one gives a missing age.
- `AgeExtractor.transform` assigns each age before it reads the operands of the next age. No age column is an operand, so the model reads all operands from the input first. The result and the order of errors are the same.

## Model

| member | source | states |
|---|---|---|
| NeighborhoodAverage.Tally | model.py:145 | the group-by pass has one entry per distinct non-null neighbourhood; each entry's count and sum are the number and sum of the prices of that neighbourhood's rows |
| NeighborhoodAverage.Fit | model.py:142-147 | fails with a missing-column error without `Neighborhood`, and with a length mismatch when targets and rows differ in number; otherwise the keys of `means_` are exactly the distinct non-null neighbourhoods, each value is the mean price of that neighbourhood's rows, and `global_mean_` is the mean of all prices, null rows included |
| NeighborhoodAverage.Average | model.py:152-156 | a neighbourhood that is a key of `means_` gets its stored mean, any other value the global mean; the result is always one of these |
| NeighborhoodAverage.Predict | model.py:149-159 | one prediction per row in row order; a missing column fails first; an unfitted estimator fails only when there are rows; a row whose neighbourhood is a key of `means_` gets exactly that mean; any other row gets `global_mean_` |
| NeighborhoodAverage.FitThenPredict | model.py:142-159 | after fitting, a row whose neighbourhood occurred in training is predicted the mean training price of that neighbourhood; every other row, unseen or null, is predicted the mean of all training prices |
| NeighborhoodAverage.NullRowGetsGlobalMean | model.py:144-156 | a row with a null neighbourhood is always predicted the global mean |
| NeighborhoodAverage.PredictionsWithinTargetRange | model.py:142-159 | every prediction of a fitted model lies between any lower and upper bound of the training prices |
| NeighborhoodAverage.PredictReadsOnlyNeighborhood | model.py:158 | two frames with the same `Neighborhood` column get the same predictions (or the same error) |
| NeighborhoodAverage.Transform | model.py:169-177 | succeeds exactly when predict would; the result has the same rows, the `AveragePriceInNeihborhood` column replaced in place or appended last, and every other column unchanged |
| NeighborhoodAverage.ExtractorAgreesWithRegressor | model.py:162-177 | with the same fitted state, the extractor fails exactly when the regressor fails, with the same error; on success its new column holds the regressor's predictions row by row and every other column is unchanged |
| NeighborhoodAverage.ThreeRowExample | model.py:141-159 | fitting (A, 100), (A, 200), (B, 300) and predicting A, B and an unseen C gives 150, 300 and 200 |
| Frames.Column | model.py:144 | reading a column succeeds exactly when the frame has it, and returns one cell per row; otherwise it fails with that column's name |
| Frames.Assign | model.py:176 | assigning a column keeps the rows and every other column; an existing column keeps its position, and a new one is appended after the others |
| AgeFeatures.Difference | model.py:87-89 | subtracting two columns fails on a missing operand column, left operand first; it fails with a type error exactly when some row has two present cells that are not both numbers; otherwise each row holds the difference of two numbers, or a missing value when either operand is missing |
| AgeFeatures.NumericColumnsSubtract | model.py:87-89 | two present columns without text always subtract |
| AgeFeatures.TextFailsOnlyAgainstPresentCell | model.py:87-89 | given both columns, the subtraction fails exactly when some row pairs a text cell with a present cell; on success a text cell's row has a missing difference |
| AgeFeatures.TextFacingMissingExample | model.py:87 | a sale year [2008, missing] against a build year [missing, text] subtracts to [missing, missing] |
| AgeFeatures.Transform | model.py:85-90 | succeeds exactly when the four year columns exist and `YrSold` can be subtracted from each of the other three, row by row as above; then `HouseAge = YrSold - YearBuilt`, `RemodAddAge = YrSold - YearRemodAdd` and `GarageAge = YrSold - GarageYrBlt` row by row, and every other column is unchanged and keeps its position; a missing `YrSold`, then a missing `YearBuilt`, is the reported error |
| Pipelines.BuildEstimator | model.py:23-32 | succeeds exactly when every entry has a name and parameters and names a known estimator; the steps then follow the configuration order, each paired with its entry's name and that name's estimator; otherwise the error is the one of the first entry that fails |
| Pipelines.EstimatorMapping | model.py:35-46 | each of the nine estimators is offered under its own configuration name, and every name offered names the estimator that name stands for |
| Pipelines.MappingIsOneToOne | model.py:35-46 | two configuration names never offer the same estimator, and every estimator is offered |

## Left out

- `CategoricalEncoder`: its categories and column lists come from the `data` module, which is not part of this model. Its behaviour is that of sklearn's one-hot and ordinal encoders.
- `_get_discretizer` and `_get_crosser`: they only configure sklearn transformers inside a column transformer, and have no logic of their own. Here they appear only as tags.
- The internals of the random forest, linear regression, standard scaler and `Pipeline` are foreign library code. A built step carries a tag and its parameters. Constructor failures from bad parameters (`**params`) are not modelled, and neither is `Pipeline`'s own validation of step names.
- NeighborhoodAverage.Fit: does not model fitting on a frame with no rows and no targets. There pandas builds an empty group table and a NaN global mean, and NaN is not modelled. Empty targets with a non-empty frame, or with no `Neighborhood` column, are modelled as the length-mismatch and missing-column errors.
- NaN targets are not modelled, so neither is pandas skipping them in `mean()`. Every target is a real number.
- Floating-point rounding in `mean()` and in subtraction is not modelled. All arithmetic is exact over `real`.
- Index alignment when `X["Neighborhood"]` and `y` are combined is not modelled. Rows and targets are paired by position, and a length mismatch fails, as it does for array targets.
- Neighbourhood columns of pandas categorical dtype, where the group-by would also list unobserved categories, are not modelled.
- The extractor's `transform` writes the new column into the caller's frame, because it does not copy. The model returns a new frame and does not model this aliasing.
- `AgeExtractor.fit` and the `fit` methods' `return self` carry no logic, and are not modelled separately.
- AgeFeatures.Transform: on failure it names the error kind and, for a missing column, one of the absent year columns. It pins the exact error down only for a missing `YrSold` or `YearBuilt`, not for the later columns.
- Integer years are modelled as reals. Pandas integer subtraction cannot overflow for realistic years.
- The notebook that loads saved models and compares their errors is not part of this model.
