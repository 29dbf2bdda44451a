# Football Talent Scout: the recommendation step, in Dafny

Football Talent Scout helps a user find players who resemble a chosen player.
The user picks a name, a maximum age and a maximum price. The app then:

1. looks the name up in the player table;
2. asks a pre-trained nearest-neighbour model for the 20 rows nearest to the
   first matching row's 35 skill values;
3. drops every neighbour that has the selected name;
4. keeps the neighbours whose age and market value are within the limits;
5. shows the first five survivors, each with a radar chart comparing six
   headline skills with the target's.

This project models that step and proves the properties it promises. The
step lives in `src/app.py`. There are four modules:

- `Seqs` (`seqs.dfy`) holds the pandas idioms the step is built from. `Keep`
  is a boolean-mask selection and `Take` is `head(n)`. `Subseq` is the
  "order-preserving selection" relation. `FirstQualifying` is an independent
  scan-and-stop definition of "the first n that pass".
- `Players` (`players.dfy`) holds the player row and the 35-column skill
  schema `feature_cols`. `Project` is column selection `row[cols]`.
- `Scout` (`scout.dfy`) holds the whole step (`Recommend`), its post-filter
  (`PostFilter`) and what the page shows (`Display`).
- `Radar` (`radar.dfy`) holds the series behind the radar chart: projecting
  rows onto the six categories, and closing each polygon.

The scaler and the neighbour model are opaque pre-trained objects. `Recommend`
takes them together as one parameter, `knn`. It maps a raw feature vector to
row indices, nearest first. The only thing assumed about it is what the
neighbour query can return: at most 20 indices, each a row of the table. The
step uses only the first query row's neighbour list (`indices[0]`), so `knn`
is applied to the first matching row's vector.

Self-exclusion is modelled as the code does it, by display name. Every row
whose `short_name` equals the selected name is dropped, including a
different player who happens to share it (`NamesakeNeverRecommended`). A
design that excludes the target by row identity would behave differently
here; the model follows the code.

## Model

| member | source | states |
|---|---|---|
| Seqs.Keep | src/app.py:160-165 | a boolean mask keeps exactly the elements that satisfy it, never more than it started with, in their original order (a subsequence) |
| Seqs.Take | src/app.py:166 | `head(n)` is a prefix of length min(n, length) |
| Seqs.TakeKeepIsFirstQualifying | src/app.py:163-166 | `head(n)` after a mask equals the scan that stops at the n-th element passing the mask |
| Seqs.TakeKeepKeepsEarly | src/app.py:163-166 | an element that passes the mask and has fewer than n passing elements before it is kept, at the position given by that count |
| Players.Project | src/app.py:68-69 | `row[cols]` has one value per column, the row's value for that column, in the order of `cols` |
| Players.FeatureVector | src/app.py:147 | the query vector has 35 entries, entry k being the row's value in the k-th column of `feature_cols` |
| Players.FeatureColsDistinct | src/app.py:45-58 | `feature_cols` has 35 names and no name occurs twice |
| Scout.RowsNamed | src/app.py:122-124 | the target frame holds exactly the table rows with the selected name; it is empty exactly when no row has that name |
| Scout.Rows | src/app.py:157 | `df.iloc[indices]` has one row per index, the row at that index, in index order |
| Scout.PostFilter | src/app.py:159-166 | at most 5 recommendations and no more than the neighbours; none has the selected name; every one has age <= max_age and value <= max_price (both inclusive); they are a subsequence of the neighbour rows, so neighbour order is kept |
| Scout.Recommend | src/app.py:122-166 | not found exactly when no row has the name; otherwise the target frame is the name lookup (every row with the name, in table order), the query is the first target row's 35 skill values in schema order, the candidates are the neighbour rows (at most 20), and the recommendations are the post-filter of those candidates |
| Scout.FiltersAreConjunctive | src/app.py:160-165 | the name mask followed by the limit mask selects what the conjunction of all three conditions selects |
| Scout.PostFilterIsFirstFive | src/app.py:163-166 | the recommendations are the first five qualifying neighbours, found by a scan in neighbour order, with no re-sorting |
| Scout.QualifierAmongFirstFiveIsRecommended | src/app.py:163-166 | a qualifying neighbour with fewer than five qualifying neighbours before it is recommended, at the position equal to that count |
| Scout.RecommendationsQualify | src/app.py:157-166 | every recommendation is one of the neighbour rows and passes all three conditions |
| Scout.EmptyExactlyWhenNoneQualifies | src/app.py:163-168 | the filtered list is empty exactly when no neighbour passes all conditions |
| Scout.WarningExactlyWhenNoneQualifies | src/app.py:122-169 | the page shows the not-found error exactly when no row has the name, and shows the "no match" warning (not an error) exactly when the name is found and no neighbour qualifies |
| Scout.TargetIsFirstNamesake | src/app.py:122-147 | the first target row, whose skills form the query, is the first table row with the selected name |
| Scout.NamesakesFillTarget | src/app.py:122 | two table rows carrying the selected name give a target frame of at least two rows |
| Scout.NamesakeNeverRecommended | src/app.py:160 | a row carrying the selected name is in the target frame and is never recommended, even when it is a different player |
| Radar.Close | src/app.py:72-74 | closing appends the first element: one longer, same prefix, last equals first; an empty list stays empty |
| Radar.Flatten | src/app.py:68-69 | flattening a frame gives six values per row, the first row's six values first |
| Radar.FlattenAt | src/app.py:68-69 | flattening is row-major: value 6i+j is row i's value in category j, for every row, not only the first |
| Radar.RadarChart | src/app.py:63-88 | as written: both series use the closed category list; each series is the closed flattening of its whole frame, so a frame of n rows gives 6n+1 values that end where they start, starting with the first row's six values; legend names come from the first rows |
| Radar.NamesakeTargetMisalignsRadar | src/app.py:68-74 | when two table rows carry the selected name, the name lookup gives a target frame of at least two rows, whose series has 6 values per row plus one (13 or more) against 7 category labels, and value 6, drawn at the closing "pace" label, is the second namesake's pace |
| Radar.RadarChartFirstRow | src/app.py:63-88 | charting only the first target row gives two series of 7 values, each matching its 7 labels |
| Radar.RadarCategoriesLeadSchema | src/app.py:45-65 | the six radar categories are the first six columns of `feature_cols` |
| Radar.ClosedSeriesShape | src/app.py:65-74 | a closed series has 7 points, ends where it starts, and its first six are the row's pace, shooting, passing, dribbling, defending and physic values, which are also the first six entries of its feature vector |
| Radar.FirstRowChartIsClosed | src/app.py:63-88 | both series of the first-row chart are the closed projections of their rows, each ending where it starts and starting with its feature vector's first six entries |

## Findings

| source | as written | input that shows it | evidently intended | confidence | as-written member | corrected member |
|---|---|---|---|---|---|---|
| src/app.py:68 | `player1[categories].values.flatten()` flattens every row of the target frame, and the target frame holds all rows with the selected name (line 122, passed at line 192) | a table with two rows whose `short_name` is the selected name: the target series gets 13 values against 7 category labels | one 7-point series for the first target row, the row whose skills form the neighbour query | medium, not executed | Radar.NamesakeTargetMisalignsRadar | Radar.RadarChartFirstRow |

## Left out

- Page setup, sidebar widgets, the sorted name list for the drop-down, the button, columns, images, captions and the "Rank #idx" caption are user interface (src/app.py:10-18, 101-115, 127-143, 171-198).
- Loading the CSV and the pickled models, with their cache decorators, is file I/O (src/app.py:23-42).
- `scaler.transform` and `knn_model.kneighbors` are pre-trained, floating-point objects. They are the parameter `knn` of `Recommend`, constrained only to return at most 20 in-range row indices. The distances they return are never used, so no similarity score exists in this step.
- Plotly trace styling (fill, colours) and the layout (axis range, legend, height) are foreign library calls; only the values, labels and names given to each trace are modelled (src/app.py:76-96).
- Scout.Recommend: requires every row to have all 35 skill columns. The source raises KeyError at src/app.py:147 when a skill column is missing; that error path is not modelled.
- Scout.Recommend: `knn` may return any list of at most 20 in-range indices. The source's `kneighbors(..., n_neighbors=20)` at src/app.py:154 returns exactly 20, and raises when the table has fewer than 20 rows; neither the exact count nor that error is modelled.
- Radar.RadarChart: requires both frames to have the six category columns. The source raises KeyError at src/app.py:68-69 when one is missing; that error path is not modelled.
- Ages, market values and skill values are integers. Missing values (NaN) and fractional euro values are not modelled.
- Display-only columns (club, nationality, overall rating, face image URL) are not part of the player row in this model.
- `Scout.Display` carries no contract of its own; what it shows is stated by `Scout.WarningExactlyWhenNoneQualifies`.
