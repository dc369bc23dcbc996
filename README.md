# CSV filtering, sorting and file service — a Dafny model

This project models the core of a small Flask service. Users register and log in. They upload CSV files into a per-user directory and list the columns of each uploaded file. The data part of the service filters and sorts a pandas DataFrame. The model has two parts:

- **Data core (`utils.py`).** `filter_data` applies a list of `(column, operator, value)` conditions to a frame. `sort_data` sorts a frame in place by a list of columns, each with its own direction.
- **Controllers (`controllers.py`).** The decision logic of `register_user`, `login_user`, `upload_file` and `get_user_files`. The HTTP framework, the ORM, bcrypt, JWT and the file system are outside it.

Modules:

- `Common`: `Option`, `Result`, a suffix test, the subsequence relation and a first-match lookup.
- `Decimal`: the conversion `numpy.int64(str)` performs on a decimal string with an optional sign. Also a printer for natural numbers, used for directory names.
- `Frames`: cells, column kinds and the table value. Also the `DataFrame` class, whose rows `sort_data` replaces in place.
- `Filtering`: `filter_data`, written three ways, with theorems connecting them.
  - `ApplyCondition` and `Filter` follow the source step by step, including the text-column branch that applies `eq`/`ne` twice.
  - `FilterData` is the loop over the conditions.
  - `Resolve` and `Select` are the reference meaning: resolve every condition to a test, then keep the rows that pass all the tests.
- `Sorting`: a lexicographic multi-key row order, with its total-order laws proved. Also `SortRows`, an order `sort_values` may put rows in, and the `SortData` method.
- `Controllers`: users, file records and replies. It has the pure decision functions and the `Store` class, which holds the users table, the files table and the upload directory.
- `Scenarios`: the table `a,b / 1,x / 2,y / 3,z` filtered and sorted.

Outside effects are parameters:

- `hashpw(password, salt)` and `checkpw(password, hash)` stand for bcrypt.
- `secureFilename` stands for `werkzeug.utils.secure_filename`.
- `readCsv(path)` stands for `pandas.read_csv` followed by taking the column list. It returns the names, a `ParserError`, or another exception.
- An exception that Flask turns into a 500 is modelled as `Err(message)`.

The model follows the code where it differs from what a user of the service might assume:

- **Zero-byte files.** Listing a zero-byte upload does not give an empty column list: `pandas.read_csv` raises `EmptyDataError`, which is not a `ParserError`, so `get_user_files` does not catch it and the request fails. The model represents this as `OtherError`.
- **Sort stability.** A stable sort is sometimes assumed. The code calls `sort_values` with its default algorithm, which is not stable for a single key. The model therefore does not claim stability: `SortData` promises the `SortRows` order, a permutation and sortedness.
- **Unknown sort column.** This is not a dedicated unknown-column error. The code raises pandas' `KeyError` for the first missing column, and checks before that whether `ascending` and `columns` have the same length. The model has both errors, in that order.
- **Out-of-range values.** A value outside the int64 range, written with at most Python's integer-string limit of digits, raises `OverflowError` from numpy. That is not a `ValueError`, so it escapes the `except` at utils.py:67. The model keeps it as the separate error `ValueOutOfRange`.

## Model

| member | source | states |
|---|---|---|
| Filtering.FilterData | utils.py:48-96 | The loop over the conditions returns exactly `Filter`. Empty conditions return the frame unchanged. The result is Ok iff every condition resolves. On Ok: the schema is kept, the rows are a subsequence of the input rows, and a row is kept iff it is an input row that satisfies every condition. |
| Filtering.Filter | utils.py:59-96 | Folding the conditions in order keeps the columns and the kinds. |
| Filtering.ApplyCondition | utils.py:59-94 | One iteration of the loop keeps the columns and the kinds. |
| Filtering.Message | utils.py:61-94 | The exception texts at utils.py:61, 69, 77 and 94: an unknown column's text names the column, an invalid value's text names the value and ends with the quoted column, and an unsupported operator's text ends with the operator. |
| Filtering.Dispatch | utils.py:81-94 | The operator chain: the result is `Unsupported operator` iff the name is none of the six, and it succeeds iff the name is one of them; then the schema is kept and a row is kept iff it is an input row passing that operator's comparison. |
| Filtering.ParseOperator | utils.py:81-94 | Recognises exactly the six operator names, and returns the operator whose name is the input. |
| Filtering.Resolve | utils.py:60-94 | A condition resolves iff its column exists and either the column is int64, the value is an integer in the int64 range and the operator is one of the six, or the column has another dtype and the operator is eq/ne. Which error it raises otherwise: an unknown column first. On an int64 column, a value that is not an integer is `Invalid value`, one outside the int64 range is `ValueOutOfRange` (the escaping `OverflowError`), and then an unknown operator is `Unsupported operator`. On any other column, an operator other than eq/ne is `Unsupported operator`. On success it gives the column's index, the operator named, and the operand (the parsed integer, or the string itself with eq/ne). |
| Filtering.ResolveAll | utils.py:59-94 | Ok iff every condition resolves. On Ok it gives one test per condition, in order. |
| Filtering.Select | utils.py:73-92 | Boolean-mask selection never adds rows, and a row is in the result iff it is an input row passing every test. |
| Filtering.Compare | utils.py:73-92 | The element-wise comparison: an ordering operator holds only between two numbers. |
| Filtering.CompareLaws | utils.py:73-92 | `ne` is the negation of `eq`; `lt`/`le` are `gt`/`ge` with the operands swapped; on numbers `ge` is `gt` or `eq`, and exactly one of `lt`, `eq`, `gt` holds. |
| Filtering.ApplyConditionIsSelection | utils.py:71-94 | A successful step equals a selection of the rows by the resolved test. Applying eq/ne twice on a text column changes nothing. |
| Filtering.FilterIsSelection | utils.py:59-96 | Executing the conditions in order gives the same result as resolving all of them and selecting the rows that pass every test. |
| Filtering.FilterSemantics | utils.py:59-96 | Filter is Ok iff every condition resolves. On Ok: same columns and kinds, rows a subsequence of the input, multiplicities never grow, and a row is kept iff it satisfies every condition. |
| Filtering.ResolveAllFirstError | utils.py:59-61 | The error reported is the error of the first condition that fails to resolve. |
| Filtering.FilterReportsFirstFailure | utils.py:59-94 | `filter_data`'s error is the first failing condition's error; later conditions are not consulted. |
| Filtering.UnknownColumnRejects | utils.py:60-61 | A condition on a column the frame does not have makes the whole filter fail; the error names that column when every earlier condition resolves. |
| Filtering.SelectIdempotent | utils.py:73-92 | Selecting twice with the same tests is selecting once. |
| Filtering.SelectComposes | utils.py:59-96 | Selecting by `t1` and then by `t2` is selecting by `t1 + t2`. |
| Filtering.SelectIsSubsequence | utils.py:73-92 | A mask keeps the surviving rows in their original order. |
| Filtering.SelectCount | utils.py:73-92 | A row's multiplicity in the selection is its multiplicity in the input if it passes, and zero otherwise. |
| Filtering.SelectNothing | utils.py:73-92 | With no tests, selection keeps every row. |
| Filtering.PassesAllAppend | utils.py:59-96 | Passing `t1 + t2` is passing `t1` and passing `t2`. |
| Filtering.PassesResolved | utils.py:59-94 | A row passes the resolved tests iff it satisfies every condition. |
| Decimal.ParseInt | utils.py:64-70 | Accepts exactly an optional `+` or `-` followed by decimal digits. The digits give their value, negated after `-`. |
| Decimal.FractionIsNotInteger | utils.py:64-70 | `"3.5"` is not an integer value, so on an int64 column it is `Invalid value`. |
| Decimal.NatToString | controllers.py:102 | The decimal form of an id is a digit string of that value, with no leading zero. |
| Decimal.ParsePrinted | controllers.py:102 | Printing an id and parsing it back gives the id. |
| Decimal.PrintingIsInjective | controllers.py:102 | Different ids print differently. |
| Sorting.SortData | utils.py:29-45 | An empty column list leaves the frame alone. A length mismatch or an unknown column raises before anything changes. Otherwise the same frame is returned, its rows are a permutation of the old rows, sorted by the keys, and equal to `SortRows` of the old rows. |
| Sorting.SortRows | utils.py:43-44 | The result is a permutation of the rows and is sorted under the lexicographic multi-key order. |
| Sorting.KeysFor | utils.py:44 | Ok iff every sort column is in the frame. It gives one key per column with that column's index and direction. Otherwise a KeyError names the first requested column the frame lacks. |
| Sorting.SortKeys | utils.py:44 | Ok iff the lengths of `ascending` and `columns` agree and every column is in the frame, with one key per column. A length mismatch is reported whenever the lengths differ, and a KeyError only when they agree; it names the first missing column. |
| Sorting.Insert | utils.py:43-44 | Inserting a row adds exactly that row to the multiset and places it at the front or behind the old first row. |
| Sorting.InsertSorted | utils.py:43-44 | Inserting into a sorted list keeps it sorted. |
| Sorting.SortSortedIsIdentity | utils.py:43-44 | Already sorted rows are left as they are. |
| Sorting.SortIdempotent | utils.py:29-45 | Sorting twice by the same keys is sorting once. |
| Sorting.SortedIsOrdered | utils.py:43-44 | In sorted rows, every earlier row is not greater than every later one. |
| Sorting.SortedPair | utils.py:43-44 | Sortedness of adjacent pairs extends to any two positions. |
| Sorting.CompareRows | utils.py:43-44 | With no keys every pair ties; a difference on the first key decides, in that key's direction. |
| Sorting.CompareCells | utils.py:43-44 | Numbers compare by value, `False` before `True`, strings by the string order. |
| Sorting.CompareStrings | utils.py:43-44 | A proper prefix comes first; otherwise the first differing character decides. |
| Sorting.CompareRowsFlip | utils.py:43-44 | The row order is antisymmetric: swapping the rows flips the outcome. |
| Sorting.CompareRowsTransitive | utils.py:43-44 | Not-greater is transitive, and strictly less if either step is strict. |
| Sorting.CompareRowsEqual | utils.py:43-44 | Two rows compare equal iff they agree on every sort column. |
| Sorting.FirstDifferenceDecides | utils.py:43-44 | The first key on which two rows differ decides their order, in that key's direction. |
| Sorting.CompareStringsFlip | utils.py:43-44 | The string order is antisymmetric. |
| Sorting.CompareStringsEqual | utils.py:43-44 | Strings compare equal only when they are equal. |
| Sorting.CompareStringsTransitive | utils.py:43-44 | The string order is transitive. |
| Sorting.CompareCellsFlip | utils.py:43-44 | The cell order is antisymmetric. |
| Sorting.CompareCellsEqual | utils.py:43-44 | Cells compare equal only when they are equal. |
| Sorting.CompareCellsTransitive | utils.py:43-44 | The cell order is transitive. |
| Sorting.CompareKeyValuesFlip | utils.py:43-44 | The key-value order is antisymmetric. |
| Sorting.CompareKeyValuesEqual | utils.py:43-44 | Key values compare equal only when they are equal. |
| Sorting.CompareKeyValuesTransitive | utils.py:43-44 | The key-value order is transitive. |
| Sorting.CompareOnKeyFlip | utils.py:43-44 | Comparison on one key, in either direction, is antisymmetric. |
| Sorting.CompareOnKeyEqual | utils.py:43-44 | Comparison on one key is Equal only for equal values. |
| Sorting.CompareOnKeyTransitive | utils.py:43-44 | Comparison on one key is transitive. |
| Sorting.SortedTail | utils.py:43-44 | The tail of a sorted list is sorted. |
| Frames.IndexOf | utils.py:60-63 | `df[column]` finds the first column with that name. |
| Controllers.Store.RegisterUser | controllers.py:16-41 | A taken username gives 409 and nothing changes. Otherwise the reply is 200 and exactly one user is appended, with the next id and the hash of the password. The files and the disk are untouched, and the store invariant is kept. |
| Common.FirstWhere | controllers.py:28 | A query's `.first()`: None iff nothing matches; otherwise a matching element with no match before it. |
| Controllers.FindUser | controllers.py:28 | Finds a user with that username, or None iff there is none. |
| Controllers.FindUserById | controllers.py:81 | Finds the user with that id, or None iff there is none. |
| Controllers.FindUserFindsTheUser | controllers.py:28 | With unique usernames, the lookup returns the one user of that name. |
| Controllers.Login | controllers.py:44-75 | Either the one 401 reply, the same for an unknown name and a wrong password, or a 200. The reply is 200 iff the user exists and the password checks against the stored hash; the token then names that user's id for 60 minutes. |
| Controllers.LoginSucceedsIffCredentialsMatch | controllers.py:57-75 | With unique usernames, login succeeds iff some user of that name has a hash the password checks against, and the token names that user. |
| Controllers.RegisteredUserCanLogIn | controllers.py:33-75 | After registering, the same username and password log in as the new user, given that bcrypt accepts its own hash. |
| Controllers.FindNewUser | controllers.py:28-38 | A newly appended user with a fresh name is the one the lookup finds. |
| Controllers.CheckUpload | controllers.py:83-97 | Passes iff a `file` part exists, its name is non-empty and ends in `.csv`. The three failures are 400s with their own messages, in that order. |
| Controllers.StoragePath | controllers.py:99-105 | A file is stored at `uploads/<user id>/<sanitised name>`. |
| Common.EndsWithIffConcatenation | controllers.py:93 | `str.endswith`: true iff the suffix is no longer than the string and the string is some prefix followed by the suffix. |
| Controllers.JoinPath | controllers.py:105 | `os.path.join`: an absolute name replaces the directory; otherwise the path is the directory followed by the name, with one `/` between them exactly when the directory is non-empty and does not already end in `/`. |
| Controllers.JoinPathEndsWithName | controllers.py:105 | The joined path always ends with the file name. |
| Controllers.UsersDoNotSharePaths | controllers.py:102-105 | Two different users' uploads never land on the same path. |
| Controllers.Store.UploadFile | controllers.py:78-114 | A failed check returns its 400 and changes nothing. A token whose user is gone fails before anything is written. Otherwise the bytes are saved at the storage path and one record is appended with the next file id. The users are untouched and the store invariant is kept. |
| Controllers.FilesOf | controllers.py:124 | The user's files are exactly the file records with that owner, in table order. |
| Controllers.GetFileColumns | utils.py:19-26 | Columns are returned iff the read gives columns, and another exception escapes iff the read raises one, both unchanged. A ParserError's message is the read's message after the prefix `Error reading file: `. |
| Controllers.ColumnsErrorText | controllers.py:139-142 | The error entry's text contains the file's name right after the fixed prefix. |
| Controllers.Describes | controllers.py:131-148 | An entry describes a file only when the read did not raise some other exception; it carries an error iff no columns were read. |
| Controllers.Entry | controllers.py:128-149 | One file's entry exists iff its read raised no other exception, and it then describes the file. |
| Controllers.ListFiles | controllers.py:126-149 | The loop fails iff some file's read raises another exception; otherwise one entry per file, in order, each describing its file. |
| Controllers.Store.GetUserFiles | controllers.py:117-152 | A token whose user is gone fails. Otherwise the request fails iff some owned file's read raises something other than a ParserError. Else it is a 200 listing one entry per owned file, in order: its id, its name, and either its columns or no columns with the error text. |
| Scenarios.GreaterThanOne | utils.py:83-84 | On `a,b / 1,x / 2,y / 3,z`, `a gt 1` keeps the rows `2,y` and `3,z`. |
| Scenarios.TextEquality | utils.py:71-82 | On the same table, `b eq y` keeps only `2,y`. |
| Scenarios.OrderingOnTextRejected | utils.py:71-77 | `b gt 1` on the text column fails with `UnsupportedOperator`, whose message is `Unsupported operator: gt`. |
| Scenarios.FractionOnIntegerColumnRejected | utils.py:64-70 | `a <op> 3.5` fails with `InvalidValue`, whose message is `Invalid value '3.5' for column 'a'`, whatever the operator. |
| Scenarios.DescendingByA | utils.py:43-44 | Sorting the table by `a` descending gives `3,z / 2,y / 1,x`. |
| Scenarios.FilterThenSort | utils.py:43-96 | `a gt 1` and then `a` descending gives `3,z / 2,y`. |
| Scenarios.ParsesOne | utils.py:66 | `"1"` converts to the integer 1. |

## Left out

- `float64` columns: float parsing, rounding and NaN comparison are not modelled. The kinds are int64, boolean and text. Boolean and Text stand for every dtype other than int64/float64, all of which take the eq/ne-only branch.
- Missing values (NaN/None cells) in a frame, and how pandas orders NaN while sorting (`na_position`).
- CSV parsing and dtype inference: the frame is given with its kinds, and `get_file_columns`' call to `read_csv` is the `readCsv` parameter.
- Decimal.ParseInt: does not accept the surrounding whitespace, `_` digit separators or non-ASCII digits that Python's `int()` also accepts.
- Decimal.ParseInt: does not model Python's limit on integer strings (4300 digits by default since Python 3.11). A longer digit string makes `int()` raise `ValueError`, which the source reports as `Invalid value`; the model parses it instead, giving its value or `ValueOutOfRange`. The limit is a setting of the Python runtime, not of the code.
- Sorting.SortData: makes no stability claim for rows with equal keys, because pandas' default single-key sort is not stable. The tie order of `SortRows` (insertion order) is one of the orders pandas may produce.
- The cross-kind fallback order that `CompareCells` uses (by kind rank): a well-formed frame never compares cells of different kinds within a column.
- Frames.DataFrame: duplicate column names are excluded, because `df[column]` then yields a frame rather than a column.
- Controllers: a request body without `username` or `password` (None reaching bcrypt) is not modelled.
- Controllers: bcrypt, JWT signing and expiry checking, `secure_filename`, and the SQLAlchemy session are abstract parameters or state; the token is its identity and lifetime.
- Controllers.Store.UploadFile: `os.makedirs` is not modelled; the directory is part of the path stored in `disk`.
- Controllers.Store.GetUserFiles: the order of `current_user.files` is taken to be insertion order; SQLAlchemy promises no order.
- Controllers.Store.UploadFile: the length limits of `String(255)` and `String(128)` in models.py are not checked.
- The route table and application setup in app.py, and the parsing of the query string into conditions, are not part of this model.
