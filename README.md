# Trivia API request handlers, modelled in Dafny

This project models the decision-making of the trivia API backend: the Flask
request handlers that list categories, list questions page by page, delete a
question, and search for or create questions. The database is replaced by an
abstract in-memory store: a sequence of question rows
`{id, question, answer, category_id, difficulty}` and a map of categories
`id -> type`, with the primary key and the non-null foreign key of the two
tables as an invariant (`Models.ValidStore`). Each handler returns
`Ok(payload)` or `Err(status)` with status 400, 404, 422 or 500.

Modules, leaves first:

- `Wrappers` (`wrappers.dfy`): `Option`.
- `PyInt` (`pyint.dfy`): Python's `int()` on a `str` (space and `\t \n \v \f \r` stripped,
  optional sign, digits with PEP 515 underscores) and `str()` on an `int`, with the round trip `int(str(i)) == i`.
- `Json` (`json.dfy`): the values of a decoded request body, and `int(x)` with its three
  outcomes: a value, `TypeError` (caught, becomes 400) and `ValueError` (not caught, becomes 500).
- `Models` (`models.dfy`): the rows, the store invariant, row lookup and removal, `format()`,
  the category map `{str(id): type}`, the statuses.
- `Pagination` (`pagination.dfy`): `questions[(page-1)*10 : (page-1)*10+10]` with Python's
  slice normalisation, including negative page numbers.
- `QuestionSearch` (`search.dfy`): the search filter, `question ILIKE '%term%'`.
- `Handlers` (`handlers.dfy`): the handlers. `all_categories`, `all_questions` and the
  create-branch validation are functions over the store's values; `delete_question` and
  `post_question` are methods of the class `Database`, whose fields are the two tables
  and the questions' key sequence, because those handlers change the store in place.

Page numbers are modelled with Python's slice semantics rather than a `page >= 1`
precondition. The page argument is read as `request.args.get('page', 1, type=int)`
reads it: absent or not an integer, it is 1.

Two behaviours of `GET /questions` differ from what its documentation and tests suggest;
the model follows the code:

- A successful `GET /questions` returns the whole question list, not the requested
  page, although the docstring (backend/flaskr/__init__.py:59) says "paginated"; the
  page slice only decides whether the answer is 404 (see Findings).
- Not every out-of-range page is not found (the test at backend/test_flaskr.py:83-88
  checks only page 999): Python slicing counts negative pages from the end, so page `-k`
  succeeds when the store holds more than `10 * k` questions; page 0 is always not found
  (`Handlers.NonPositivePageNotFound`).

## Model

| member | source | states |
|---|---|---|
| `PyInt.ParseInt` | backend/flaskr/__init__.py:132 | `int(s)` on a string succeeds only when the string holds a digit; failure stands for `ValueError` |
| `PyInt.SpacesStripped` | backend/flaskr/__init__.py:132 | `int(" 7\n") == 7`: white space around the digits is skipped |
| `PyInt.SeparatorNotStripped` | backend/flaskr/__init__.py:132 | `int("\x1c1")` raises `ValueError`: control characters outside `\t`-`\r` are not white space |
| `PyInt.Decimal` | backend/flaskr/__init__.py:41 | canonical `str(i)`: a minus sign exactly for negative `i`, then only digits, with no leading zero unless `i == 0` |
| `PyInt.ParseDecimal` | backend/flaskr/__init__.py:41 | round trip: `int(str(i)) == i` for every integer |
| `PyInt.DecimalInjective` | backend/flaskr/__init__.py:41 | distinct ids have distinct decimal keys |
| `Json.ToInt` | backend/flaskr/__init__.py:132-145 | `int(x)` raises `TypeError` exactly for null, lists and dicts, and `ValueError` exactly for strings that do not spell an integer; otherwise a bool gives 0 or 1, an int itself, a string the integer it spells |
| `Json.Str` | backend/flaskr/__init__.py:122 | `str(x)` in the f-string: a string as is, `True`/`False` for booleans, `None` for null, an int as its canonical decimal text (which reads back as that int) |
| `Json.ToIntOfStr` | backend/flaskr/__init__.py:138 | an integer sent as its decimal text converts to that integer |
| `Models.FindIndex` | backend/flaskr/__init__.py:90-92 | `Question.query.get(id)`: finds the row holding `id`, and finds nothing exactly when no row has that id |
| `Models.RemoveAtById` | backend/flaskr/__init__.py:96-97 | removing the row of a unique id leaves no question with that id and keeps every other question |
| `Models.RemoveAtValid` | backend/models.py:30-35 | removing a row keeps unique ids, the foreign key and the key-sequence bound |
| `Models.AppendValid` | backend/flaskr/__init__.py:140-141 | adding a row with the next key and an existing category keeps the store invariant |
| `Models.CategoryMap` | backend/flaskr/__init__.py:41 | one entry per category keyed by the decimal text of its id with its type as value; every key reads back as an existing id; no two categories share a key |
| `Models.Format` | backend/models.py:57-65 | `format()` keeps every field of the row and adds its category's type |
| `Models.FormatAll` | backend/flaskr/__init__.py:70 | one formatted entry per question, in the same order |
| `Models.ColumnText` | backend/flaskr/__init__.py:134-141 | what the question and answer columns receive: a string as is, null as NULL, a list or dict refused |
| `Pagination.PySlice` | backend/flaskr/__init__.py:64 | `s[start:stop]` is the plain subsequence for ordinary bounds and counts negative bounds from the end; never longer than `s`, and holds only items of `s` |
| `Pagination.PageSlice` | backend/flaskr/__init__.py:62-64 | a page holds at most 10 items; for `page >= 1` it is `s[min((page-1)*10, n) .. min(page*10, n)]` |
| `Pagination.PageSliceEmpty` | backend/flaskr/__init__.py:62-66 | exactly when a page is empty, for positive, zero and negative page numbers |
| `Pagination.PagesPrefix` | backend/flaskr/__init__.py:62-64 | pages 1..k concatenated are the first `10k` items in store order: no overlap, no gap |
| `Pagination.PagesCover` | backend/flaskr/__init__.py:62-64 | enough pages together are the whole list |
| `Pagination.PageOfIndex` | backend/flaskr/__init__.py:62-64 | item `i` is item `i % 10` of page `i / 10 + 1` |
| `QuestionSearch.ContainsIff` | backend/flaskr/__init__.py:121-123 | the substring scan succeeds exactly when the term occurs at some position of the text |
| `QuestionSearch.Search` | backend/flaskr/__init__.py:121-124 | the result holds exactly the stored questions whose text contains the term ignoring case |
| `QuestionSearch.SearchAppend` | backend/flaskr/__init__.py:121-124 | search distributes over concatenation, so results keep store order |
| `QuestionSearch.SearchOne` | backend/flaskr/__init__.py:121-124 | a single question is returned exactly when it matches |
| `QuestionSearch.EmptyTermMatches` | backend/flaskr/__init__.py:118-123 | the empty term matches a question exactly when its text is not NULL |
| `QuestionSearch.SearchEmptyTerm` | backend/flaskr/__init__.py:118-123 | the empty term finds exactly the stored questions whose text is not NULL |
| `QuestionSearch.SearchEmptyTermNoNulls` | backend/flaskr/__init__.py:118-123 | on a store without NULL texts, the empty term returns the whole list in store order |
| `QuestionSearch.SearchCaseInsensitive` | backend/flaskr/__init__.py:121-123 | terms equal up to ASCII case return the same questions |
| `QuestionSearch.SearchEverIgnoresCase` | backend/test_flaskr.py:127-135 | searching `EVER` and `ever` gives the same result |
| `Handlers.AllCategories` | backend/flaskr/__init__.py:37-42 | always succeeds, with the category map |
| `Handlers.RequestedPage` | backend/flaskr/__init__.py:61 | a missing page argument or one that is not an integer gives page 1; an integer argument gives that integer |
| `Handlers.RequestedPageDecimal` | backend/flaskr/__init__.py:61 | `?page=N` asks for page N; no argument asks for page 1 |
| `Handlers.AllQuestions` | backend/flaskr/__init__.py:57-78 | 404 exactly when the page is not 1 and its slice is empty; otherwise every question in store order, the total equal to the list's length, and the category map |
| `Handlers.FirstPageSucceeds` | backend/flaskr/__init__.py:66-68 | page 1 never fails, even on an empty store |
| `Handlers.PositivePageNotFound` | backend/flaskr/__init__.py:61-68 | for page `N >= 1`: 404 exactly when `N > 1` and `len(questions) <= (N-1)*10` |
| `Handlers.NonPositivePageNotFound` | backend/flaskr/__init__.py:61-68 | page 0 is always 404; page `-k` is 404 exactly when there are at most `10k` questions |
| `Handlers.AllQuestionsNotPaginated` | backend/flaskr/__init__.py:70-77 | with 11 questions, page 1 returns all 11, more than one page |
| `Handlers.AllQuestionsPaginated` | backend/flaskr/__init__.py:57-64 | the corrected handler: same 404 rule, payload is the formatted page, at most 10 questions |
| `Handlers.SearchTerm` | backend/flaskr/__init__.py:117-122 | the search branch runs exactly when `searchTerm` is present and not null; the term searched for is `str()` of the value, so a string is used as given and a number as its canonical decimal text |
| `Handlers.ValidateCreate` | backend/flaskr/__init__.py:131-145 | 400 for a missing key, a null, list or dict category, an unknown category, or a null, list or dict difficulty; 500 for a non-numeric category or difficulty, an out-of-range difficulty, or a list or dict question or answer; only 400 or 500 on failure; accepted exactly when all keys are present, category converts to a known id, difficulty converts and fits the column, and both texts can be stored; accepted fields are the converted inputs |
| `Handlers.Database.DeleteQuestion` | backend/flaskr/__init__.py:88-102 | 404 exactly for an unknown id, 422 exactly when the commit fails; errors leave the store unchanged; success removes exactly that question, keeps every other question in order and all categories |
| `Handlers.Database.PostQuestion` | backend/flaskr/__init__.py:115-145 | search leaves the store unchanged and returns the matching questions; a rejected create returns the validation status and leaves the store unchanged; a successful create appends one question with a fresh id and the given fields, advances the key sequence by one and returns that id |
| `Handlers.DeleteIsPermanent` | backend/test_flaskr.py:106-114 | deleting an existing question succeeds, and deleting the same id again is not found |
| `Handlers.CreatedQuestionIsFound` | backend/test_flaskr.py:90-96 | after an accepted create, a lookup by the returned id finds the question |

## Findings

| source | as written | input that shows it | evidently intended | confidence | as-written member | corrected member |
|---|---|---|---|---|---|---|
| backend/flaskr/__init__.py:70-77 | the payload formats `questions`, the whole table; `sliced_questions` only feeds the 404 test | a store of 11 questions and no page argument: 11 questions come back | the payload holds the page, as the docstring at line 59 ("paginated by 10") says | medium; not executed | `Handlers.AllQuestionsNotPaginated` | `Handlers.AllQuestionsPaginated` |

## Left out

- Flask application wiring, CORS and the `after_request` headers: framework glue.
- The error handlers' JSON bodies: constant texts; only the status codes are modelled.
- `setup_db` and SQLAlchemy session mechanics: the store is an abstract collaborator.
- The quiz endpoint: the source holds only a to-do note, no code.
- `/categories/<id>/questions`: bound to a stub that always succeeds; nothing to decide.
- `ILIKE` specifics: `%`, `_` and `\` in the term act as wildcards and escape, and case folding follows the database collation; the model matches plain substrings under ASCII lower-casing.
- Store order: the queries have no `ORDER BY`; the model takes the sequence order as the order rows come back, and a created question is appended at the end.
- JSON numbers with a fraction or exponent: floats are not modelled (`int()` would truncate them).
- `PyInt.ParseInt`: non-ASCII digits and white space, which Python accepts, and the digit-count limit of recent Python versions are not modelled.
- A request body that is not a JSON object: the body is modelled as a map from key to value.
- `Handlers.Database.DeleteQuestion`: the route's `<int:id>` converter passes only non-negative ids, so the id is a `nat`; a storage failure on commit is the parameter `commitOk`.
- `Handlers.Database.PostQuestion`: storage failures other than a refused text column and an out-of-range difficulty (a lost connection, say) are not modelled.
- `Models.ColumnText`: numbers and booleans sent as question or answer are stored as their text (`"42"`, `"true"`), as the database layer is assumed to cast them; this is not visible in the handler.
- The key sequence: the new id is `nextId`, and the sequence's own 32-bit overflow is not modelled.
- Category types are taken as non-NULL; the handlers never write categories.
- Formatting a question looks up its category's type, which relies on the foreign key (`Models.ForeignKeys` is a precondition of the listing handlers).
