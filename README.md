# Data Science salary dashboard — a Dafny model

The dashboard (`main.py`) loads a table of Data Science salaries. It adds Portuguese display
labels for the experience level and the country of residence. It then filters the table with
the sidebar's three choices: the years, the experience labels and the remote-work option. From
the filtered view it shows three indicators and three aggregate charts:

- the mean salary, the median salary and the number of records;
- the mean salary per country label, highest first, at most fifteen countries;
- the mean salary per year, in year order;
- the mean salary per company-size label (Grande, Média, Pequena).

The model is pure functions over sequences of rows. The script has no loops; it is a sequence
of pandas expressions. It changes state in three places: lines 23, 43 and 105 add a column in
place to `df` or `filtro_df`. The model turns each of these into a function that returns new
rows (`Labels.AddLabelColumns`, `Labels.AddSizeColumn`). Nothing is lost by this, because the
script reads no other reference to those frames afterwards. The modules are:

- `Wrappers` holds `Option`, which stands for pandas' NaN.
- `Records` holds the row types: a loaded row, a row with the two label columns, and a view row
  with the company-size label.
- `Selection` models a boolean-mask selection `df[mask]` and proves it keeps rows unchanged, in
  order, and exactly those that pass the mask.
- `Labels` holds the three lookup tables and the columns built from them.
- `Filters` holds the three filtering steps, their conjunction, and the proofs that the steps
  commute, are idempotent, and that the remote options split the table.
- `Sorting` is the sort behind `sort_values`, `median` and the ordered keys of `groupby`.
- `Stats` holds the mean and the median.
- `Grouping` models `groupby(key)["salary_in_usd"].mean()` and `head(n)`.
- `Aggregates` builds the indicators, the three charts and the whole dashboard, with the
  properties of each chart.
- `Scenarios` works the pipeline through on a three-row table.

Points where the code behaves in a way that is easy to overlook, and how the model follows it:

- The experience mapping is not total. An unknown code gives NaN, and pandas' `isin` matches a
  selected NaN. The default level selection is `unique()`, which includes NaN when it occurs.
  So the level selection is a set of `Option<string>`, and a row with a missing label can be
  selected.
- The size mapping gives NaN for any code other than S, M or L, and `groupby` drops such rows
  from the size chart. The model drops them too.
- `sort_values` on the country means names no sort algorithm, so the order of equal means is
  not fixed. The model fixes one order (its insertion sort) and proves only what holds for
  every order.
- An empty view gives NaN indicators. The model gives `None`.
- The remote option is the select box's string, run through the code's if/elif chain. A string
  outside the four options leaves the view unchanged, as the chain does.

## Model

| member | source | states |
|---|---|---|
| Labels.ExperienceLabel | main.py:17-23 | EN, MI, SE and EX get Júnior, Pleno, Sênior and Executivo, each label for exactly one code; every other code gives a missing label |
| Labels.ResidenceLabel | main.py:26-43 | a listed country code gets its Portuguese name, which differs from the code; an unlisted code is its own label |
| Labels.ResidenceLabelInjective | main.py:26-43 | on two-letter codes, different countries never share a label, so grouping by label is grouping by country |
| Labels.SizeLabel | main.py:104-105 | S, M and L get Pequena, Média and Grande, each label for exactly one code; every other code gives a missing label |
| Labels.AddLabelColumns | main.py:23-43 | the labelled table has the same rows in the same order, each with its experience label and residence label |
| Labels.AddSizeColumn | main.py:104-105 | the view keeps its rows and order, and each row gets the size label of its own company-size code |
| Selection.SelectKeepsOrder | main.py:54-64 | a mask selection is the subsequence of the table at strictly increasing positions, and a position is kept exactly when its row passes the mask |
| Selection.SelectOfSelect | main.py:54-64 | selecting with one mask and then another equals selecting once with their conjunction |
| Selection.SelectPartition | main.py:58-64 | three masks of which every row passes exactly one split the table: the three selections together hold every row exactly once |
| Filters.FilterYears | main.py:54 | the rows kept are exactly the table rows whose year is selected; order is stated by `Filters.FilterViewKeepsRows` |
| Filters.FilterLevels | main.py:55 | the rows kept are exactly the rows whose experience label (possibly missing) is selected |
| Filters.FilterRemote | main.py:58-64 | the rows kept are exactly the rows whose remote ratio the option admits (see `Filters.FilterRemoteAdmits`) |
| Filters.FilterView | main.py:54-64 | the view holds exactly the table rows that meet all three criteria; order and multiplicity are stated by `Filters.FilterViewKeepsRows` |
| Filters.FilterRemoteAdmits | main.py:58-64 | the remote step keeps exactly the rows whose ratio the option admits: 100 for '100% Remoto', strictly between 0 and 100 for 'Híbrido', 0 for 'Presencial', any ratio for 'Todos' or any other string |
| Filters.FilterViewIsConjunction | main.py:54-64 | the three steps in the script's order select exactly the rows that meet all three criteria |
| Filters.FilterViewKeepsRows | main.py:54-64 | every view row is a table row, unchanged and in table order; a table row is in the view exactly when it meets all three criteria |
| Filters.NoYearsNoRows | main.py:54 | an empty year selection gives an empty view, whatever the other choices |
| Filters.FilterViewIdempotent | main.py:54-64 | filtering the view again with the same choices gives the same view |
| Filters.ApplyStepsSelects | main.py:54-64 | any sequence of filtering steps selects exactly the rows that pass every step in it |
| Filters.AnyStepOrderGivesView | main.py:54-64 | any order of the three steps, with repeats allowed, gives the script's view: the steps commute |
| Filters.RemoteOptionsExclusive | main.py:58-64 | a ratio in 0..100 is admitted by 'Todos' and by exactly one of the three specific options |
| Filters.RemoteOptionsPartition | main.py:58-64 | with ratios in 0..100, the views of the three specific options share no row, and together they hold each row of the 'Todos' view exactly once |
| Stats.Mean | main.py:68 | the mean is missing exactly for no salaries; otherwise, counted once per salary, it gives the total |
| Stats.MeanWithin | main.py:68 | the mean lies between any lower and upper bound of the salaries |
| Stats.Median | main.py:69 | the median is missing exactly for no salaries |
| Stats.Middle | main.py:69 | pandas' median rule on the sorted salaries; its meaning is stated by `Stats.MedianOfOrderStatistics` |
| Stats.SortedOrderStatistic | main.py:69 | in a sorted list, a value is the order statistic at position j exactly when it is the value at j |
| Stats.OrderStatisticPermutation | main.py:69 | reordering the salaries changes no order statistic |
| Stats.OrderStatisticExistsUnique | main.py:69 | every position of a non-empty salary list has exactly one order statistic |
| Stats.OrderStatisticInSortedOrder | main.py:69 | the order statistic at position k is the k-th salary in sorted order |
| Stats.MedianOfOrderStatistics | main.py:69 | the median is the midpoint of the order statistics at positions (n - 1) / 2 and n / 2: the middle salary for odd n, the mean of the two middle salaries for even n |
| Stats.MedianSplitsInHalves | main.py:69 | at least half of the salaries are at most the median, and at least half are at least the median |
| Stats.MedianWithin | main.py:69 | the median lies between any lower and upper bound of the salaries |
| Sorting.SortBy | main.py:86 | the result is sorted by the rank and is a permutation of the input |
| Grouping.Pairs | main.py:86 | one (key, salary) pair per row with a key, so never more pairs than rows; groups are stated by `Grouping.PairsGroup` |
| Grouping.GroupMeans | main.py:86 | one row per distinct key; `Grouping.GroupMeansRows` states that each holds its group's mean |
| Grouping.KeysOf | main.py:86 | the group keys have no repeats |
| Grouping.KeyMembership | main.py:86 | a key is a group exactly when some row has it, and exactly when its salary list is non-empty |
| Grouping.GroupMeansRows | main.py:86 | the grouped mean has one row per group, no key twice, each holding its group's mean |
| Grouping.Head | main.py:86 | `head(n)` is the first n rows of the list, or the whole list when it is shorter |
| Grouping.PairsGroup | main.py:86 | a group's salaries are the salaries of the rows with that key, in row order; rows with a missing key belong to no group |
| Grouping.PairsKeys | main.py:86 | the groups are exactly the keys some row has |
| Grouping.PairsMean | main.py:86 | a group's mean is the mean salary of the rows with that key |
| Grouping.SortedGroupRows | main.py:86 | reordering the grouped means by any rank keeps one row per group with its mean, over the same keys |
| Aggregates.MeanSalary | main.py:68 | the mean salary of the view is missing exactly for an empty view; otherwise, counted once per row, it gives the total salary |
| Aggregates.MedianSalary | main.py:69 | the median salary of the view is missing exactly for an empty view; its value is stated by `Stats.MedianOfOrderStatistics` |
| Aggregates.CountryMeans | main.py:86 | the country chart has at most 15 rows; ranking, labels and values are stated by the `CountryMeans…` lemmas below |
| Aggregates.YearMeans | main.py:95 | the yearly chart is ordered by year; `Aggregates.YearMeansAscending` makes this strict |
| Aggregates.SizeMeans | main.py:106 | the size chart is ordered Grande, Média, Pequena; `Aggregates.SizeMeansOrdered` makes this strict |
| Aggregates.BuildDashboard | main.py:54-70 | the record count is the number of table rows that meet all criteria; the mean and median are missing exactly when that count is 0, and otherwise are the mean and the median of those rows' salaries |
| Aggregates.CountryMeansRanked | main.py:86 | the country chart is a prefix of all country groups ranked by mean, and that ranking covers every group |
| Aggregates.CountryMeansOrdered | main.py:86 | the country chart has at most 15 rows with distinct labels, and its means never increase down the list |
| Aggregates.CountryMeansRows | main.py:86 | each chart label is the residence label of some view row, and its value is the mean salary of the view rows with that label |
| Aggregates.ShownOrRanksLower | main.py:86 | an entry of the ranking is either on the chart, or the chart is full and every shown mean is at least that entry's |
| Aggregates.CountryMeansTopFifteen | main.py:86 | a residence label of the view that is left off the chart means the chart has 15 rows, none with a mean below that label's |
| Aggregates.YearMeansAscending | main.py:95 | the yearly chart's years strictly increase |
| Aggregates.YearMeansYears | main.py:95 | the yearly chart has a row for a year exactly when the year occurs in the view |
| Aggregates.YearMeansValues | main.py:95 | each yearly row holds the mean salary of that year's view rows |
| Aggregates.SizeMeansLabels | main.py:104-106 | the size chart has a row for a label exactly when some view row's size code maps to it; rows without a label are dropped |
| Aggregates.SizeMeansKnownLabels | main.py:104-106 | the size chart's labels are only Grande, Média and Pequena |
| Aggregates.SizeMeansOrdered | main.py:106 | the size chart's labels come in the strictly increasing order Grande, Média, Pequena, the order `groupby` sorts them in |
| Aggregates.SizeMeansValues | main.py:106 | each size row holds the mean salary of the view rows with that size label |
| Scenarios.SampleAllRemoteOptions | main.py:54-70 | on the sample table, 2023 with Sênior and Júnior and 'Todos' gives 2 records, mean 95000 and median 95000 |
| Scenarios.SampleFullyRemote | main.py:58-70 | on the sample table, adding '100% Remoto' keeps 1 record with mean and median 150000 |
| Scenarios.SampleYear2022 | main.py:54-86 | on the sample table, 2022 keeps 1 record with mean 120000, and the country chart is the single row (Estados Unidos, 120000) |

## Left out

- The Streamlit page: titles, layout, the sidebar widgets and their defaults. The most recent year and every level label are defaults of the widgets, so the choices are parameters of `BuildDashboard`.
- Reading `dataset/salaries.csv`. The table is a parameter, and only the columns the dashboard reads are modelled.
- The plotly figures. This includes the box plot of salary per job title (lines 78-81), whose quartiles plotly computes, so it has no model. The charts are modelled as the data handed to plotly.
- Floating point: means and medians are exact reals. The `,.0f` formatting of the indicators is not modelled.
- NaN in the salary, year, ratio and code columns: the model takes salary, year and ratio as integers, and the experience, residence and company-size codes as strings. In pandas a NaN residence code gives a NaN label, and `groupby` would drop that row from the country chart. In the model every row has a residence label, so it is never dropped. NaN is modelled only where the lookup tables create it: an experience or size code without a table entry.
- The order of countries with equal means: `sort_values` does not fix it. The model uses one fixed order, and no lemma depends on it.
- pandas' copy-versus-view behaviour when `company_size_pt` is assigned on the filtered frame (line 105). The model adds the column to a new sequence.
- Stats.Median: its contract only says when the median is missing. Its value is stated by `Stats.MedianOfOrderStatistics` and `Stats.OrderStatisticExistsUnique`: the midpoint of the two middle order statistics, which is the middle salary for an odd count and the mean of the two middle salaries for an even count.
