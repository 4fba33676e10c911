/**
 * The request handlers of the trivia API: list categories, list questions
 * by page, delete a question, and search or create questions.
 */
module Handlers {
  import opened Wrappers
  import PyInt
  import opened Json
  import opened Models
  import opened Pagination
  import opened QuestionSearch

  datatype CategoryList = CategoryList(categories: map<string, string>)
  datatype QuestionList = QuestionList(questions: seq<Formatted>, totalQuestions: int, categories: map<string, string>)
  datatype Deleted = Deleted
  datatype PostPayload = Found(questions: seq<Formatted>) | Created(questionId: int)

  /** GET /categories: always succeeds with the id-to-type map. */
  function AllCategories(cats: Categories): (r: Response<CategoryList>)
    ensures r.Ok? && r.payload.categories == CategoryMap(cats)
  {
    Ok(CategoryList(CategoryMap(cats)))
  }

  /**
   * The page query argument read as request.args.get('page', 1, type=int):
   * absent or not an integer, it is 1.
   */
  function RequestedPage(arg: Option<string>): (page: int)
    ensures arg.None? ==> page == 1
    ensures arg.Some? && PyInt.ParseInt(arg.value).None? ==> page == 1
    ensures arg.Some? && PyInt.ParseInt(arg.value).Some? ==> page == PyInt.ParseInt(arg.value).value
  {
    match arg
    case None => 1
    case Some(text) => (match PyInt.ParseInt(text) case Some(p) => p case None => 1)
  }

  /** ?page=N with N written in decimal asks for page N; no argument asks for page 1. */
  lemma RequestedPageDecimal(p: int)
    ensures RequestedPage(Some(PyInt.Decimal(p))) == p
    ensures RequestedPage(None) == 1
  {
    PyInt.ParseDecimal(p);
  }

  /**
   * GET /questions?page=N: not found exactly when the page is not 1 and its
   * slice is empty; otherwise the WHOLE question list in store order (not
   * the page), its length and the category map.
   */
  function AllQuestions(pageArg: Option<string>, qs: seq<Question>, cats: Categories): (r: Response<QuestionList>)
    requires ForeignKeys(qs, cats)
    ensures r.Err? <==> RequestedPage(pageArg) != 1 && PageSlice(qs, RequestedPage(pageArg)) == []
    ensures r.Err? ==> r.status == NotFound
    ensures r.Ok? ==> && |r.payload.questions| == r.payload.totalQuestions == |qs|
                      && (forall i :: 0 <= i < |qs| ==> r.payload.questions[i] == Format(qs[i], cats))
                      && r.payload.categories == CategoryMap(cats)
  {
    var page := RequestedPage(pageArg);
    var sliced := PageSlice(qs, page);
    if page != 1 && sliced == [] then Err(NotFound)
    else Ok(QuestionList(FormatAll(qs, cats), |qs|, CategoryMap(cats)))
  }

  /** Page 1 always succeeds, even on an empty store. */
  lemma FirstPageSucceeds(qs: seq<Question>, cats: Categories)
    requires ForeignKeys(qs, cats)
    ensures AllQuestions(None, qs, cats).Ok?
    ensures AllQuestions(Some("1"), qs, cats).Ok?
  {
  }

  /** For a positive page N: 404 exactly when N > 1 and the first N - 1 pages already hold every question. */
  lemma PositivePageNotFound(n: int, qs: seq<Question>, cats: Categories)
    requires n >= 1 && ForeignKeys(qs, cats)
    ensures AllQuestions(Some(PyInt.Decimal(n)), qs, cats) == Err(NotFound) <==> n > 1 && |qs| <= (n - 1) * 10
  {
    RequestedPageDecimal(n);
    PageSliceEmpty(qs, n);
  }

  /** Page 0 is never found; page -k is found exactly when there are more than 10 * k questions. */
  lemma NonPositivePageNotFound(n: int, qs: seq<Question>, cats: Categories)
    requires n <= 0 && ForeignKeys(qs, cats)
    ensures AllQuestions(Some(PyInt.Decimal(n)), qs, cats) == Err(NotFound) <==> n == 0 || |qs| <= -n * 10
  {
    RequestedPageDecimal(n);
    PageSliceEmpty(qs, n);
  }

  /** As written, page 1 of a store with 11 questions returns all 11, more than a page. */
  lemma AllQuestionsNotPaginated(qs: seq<Question>, cats: Categories)
    requires |qs| == 11 && ForeignKeys(qs, cats)
    ensures AllQuestions(None, qs, cats).Ok?
    ensures |AllQuestions(None, qs, cats).payload.questions| == 11 > QuestionsPerPage
  {
  }

  /**
   * GET /questions?page=N as its documentation describes it: the same
   * not-found rule, but the payload is the page, at most 10 questions.
   */
  function AllQuestionsPaginated(pageArg: Option<string>, qs: seq<Question>, cats: Categories): (r: Response<QuestionList>)
    requires ForeignKeys(qs, cats)
    ensures r.Err? <==> AllQuestions(pageArg, qs, cats).Err?
    ensures r.Ok? ==> && |r.payload.questions| <= QuestionsPerPage
                      && r.payload.questions == FormatAll(PageSlice(qs, RequestedPage(pageArg)), cats)
                      && r.payload.totalQuestions == |qs|
                      && r.payload.categories == CategoryMap(cats)
  {
    var page := RequestedPage(pageArg);
    var sliced := PageSlice(qs, page);
    if page != 1 && sliced == [] then Err(NotFound)
    else Ok(QuestionList(FormatAll(sliced, cats), |qs|, CategoryMap(cats)))
  }

  /**
   * The search branch runs when the body has a searchTerm that is not null;
   * the term is str() of the value, as the f-string renders it.
   */
  function SearchTerm(data: Body): (t: Option<string>)
    ensures t.Some? <==> "searchTerm" in data && data["searchTerm"] != JNull
    ensures "searchTerm" in data && data["searchTerm"].JString? ==> t == Some(data["searchTerm"].s)
    ensures t.Some? ==> t.value == Str(data["searchTerm"])
  {
    if "searchTerm" in data && data["searchTerm"] != JNull then Some(Str(data["searchTerm"])) else None
  }

  /** The fields of a question the create branch accepted. */
  datatype NewQuestion = NewQuestion(question: Text, answer: Text, categoryId: int, difficulty: int)

  datatype Validation = Accepted(fields: NewQuestion) | Rejected(status: Status)

  /**
   * The create branch up to the commit, in the order the handler evaluates
   * it: int(data['category']), the category lookup, data['question'],
   * data['answer'], int(data['difficulty']), then what the database refuses
   * on commit. KeyError and TypeError become 400, an unknown category 400,
   * ValueError and a refused commit 500.
   */
  function ValidateCreate(data: Body, cats: Categories): (r: Validation)
    ensures "category" !in data ==> r == Rejected(BadRequest)
    ensures "category" in data && data["category"] == JNull ==> r == Rejected(BadRequest)
    ensures "category" in data && ToInt(data["category"]).TypeError? ==> r == Rejected(BadRequest)
    ensures "category" in data && ToInt(data["category"]).ValueError? ==> r == Rejected(InternalError)
    ensures "category" in data && ToInt(data["category"]).IntValue? && ToInt(data["category"]).value !in cats
            ==> r == Rejected(BadRequest)
    ensures "category" in data && ToInt(data["category"]).IntValue? && ToInt(data["category"]).value in cats
            && ("question" !in data || "answer" !in data || "difficulty" !in data)
            ==> r == Rejected(BadRequest)
    ensures && "category" in data && ToInt(data["category"]).IntValue? && ToInt(data["category"]).value in cats
            && "question" in data && "answer" in data && "difficulty" in data
            ==> && (ToInt(data["difficulty"]).TypeError? ==> r == Rejected(BadRequest))
                && (ToInt(data["difficulty"]).ValueError? ==> r == Rejected(InternalError))
                && (ToInt(data["difficulty"]).IntValue? &&
                    (!IsInteger(ToInt(data["difficulty"]).value)
                     || ColumnText(data["question"]).None? || ColumnText(data["answer"]).None?)
                    ==> r == Rejected(InternalError))
    ensures r.Rejected? ==> r.status == BadRequest || r.status == InternalError
    ensures r.Accepted? <==>
      && "category" in data && "question" in data && "answer" in data && "difficulty" in data
      && ToInt(data["category"]).IntValue? && ToInt(data["category"]).value in cats
      && ToInt(data["difficulty"]).IntValue? && IsInteger(ToInt(data["difficulty"]).value)
      && ColumnText(data["question"]).Some? && ColumnText(data["answer"]).Some?
    ensures r.Accepted? ==>
      && ToInt(data["category"]) == IntValue(r.fields.categoryId)
      && ToInt(data["difficulty"]) == IntValue(r.fields.difficulty)
      && ColumnText(data["question"]) == Some(r.fields.question)
      && ColumnText(data["answer"]) == Some(r.fields.answer)
  {
    if "category" !in data then Rejected(BadRequest)
    else match ToInt(data["category"])
      case TypeError => Rejected(BadRequest)
      case ValueError => Rejected(InternalError)
      case IntValue(c) =>
        if c !in cats then Rejected(BadRequest)
        else if "question" !in data || "answer" !in data || "difficulty" !in data then Rejected(BadRequest)
        else match ToInt(data["difficulty"])
          case TypeError => Rejected(BadRequest)
          case ValueError => Rejected(InternalError)
          case IntValue(d) =>
            var question, answer := ColumnText(data["question"]), ColumnText(data["answer"]);
            if question.None? || answer.None? || !IsInteger(d) then Rejected(InternalError)
            else Accepted(NewQuestion(question.value, answer.value, c, d))
  }

  /** The store behind the handlers: the two tables and the questions' key sequence. */
  class Database {
    var questions: seq<Question>
    var categories: Categories
    /** The next value the questions table's key sequence hands out. */
    var nextId: int

    ghost predicate Valid()
      reads this
    {
      ValidStore(questions, categories, nextId)
    }

    /**
     * DELETE /questions/<id>: 404 for an unknown id, 422 when the commit
     * fails (commitOk false), otherwise exactly that question is removed.
     * Errors leave the store as it was; categories never change.
     */
    method DeleteQuestion(id: nat, commitOk: bool) returns (r: Response<Deleted>)
      requires Valid()
      modifies this
      ensures Valid()
      ensures categories == old(categories) && nextId == old(nextId)
      ensures r == Err(NotFound) <==> !HasId(old(questions), id)
      ensures r == Err(Unprocessable) <==> HasId(old(questions), id) && !commitOk
      ensures r.Err? ==> r.status in {NotFound, Unprocessable} && questions == old(questions)
      ensures r.Ok? ==> exists k :: 0 <= k < |old(questions)| && old(questions)[k].id == id
                                    && questions == RemoveAt(old(questions), k)
      ensures r.Ok? ==> !HasId(questions, id)
                        && forall q :: q in questions <==> q in old(questions) && q.id != id
    {
      var found := FindIndex(questions, id);
      if found.None? {
        return Err(NotFound);
      }
      if !commitOk {
        return Err(Unprocessable);
      }
      var k := found.value;
      RemoveAtById(questions, k);
      RemoveAtValid(questions, categories, nextId, k);
      questions := RemoveAt(questions, k);
      r := Ok(Deleted);
    }

    /**
     * POST /questions. With a non-null searchTerm: the matching questions,
     * store unchanged. Otherwise the create branch: on rejection the store
     * is unchanged; on acceptance one question with a fresh id is appended,
     * and that id is returned.
     */
    method PostQuestion(data: Body) returns (r: Response<PostPayload>)
      requires Valid()
      modifies this
      ensures Valid()
      ensures categories == old(categories)
      ensures SearchTerm(data).Some? ==>
        && questions == old(questions) && nextId == old(nextId)
        && r == Ok(Found(FormatAll(Search(old(questions), SearchTerm(data).value), categories)))
      ensures SearchTerm(data).None? ==>
        (r.Err? <==> ValidateCreate(data, old(categories)).Rejected?)
      ensures r.Err? ==> && SearchTerm(data).None?
                         && r.status == ValidateCreate(data, old(categories)).status
                         && questions == old(questions) && nextId == old(nextId)
      ensures r.Ok? && SearchTerm(data).None? ==>
        var fields := ValidateCreate(data, old(categories)).fields;
        && r.payload.Created?
        && nextId == old(nextId) + 1
        && !HasId(old(questions), r.payload.questionId)
        && questions == old(questions) + [Question(r.payload.questionId, fields.question, fields.answer,
                                                   fields.categoryId, fields.difficulty)]
    {
      var term := SearchTerm(data);
      if term.Some? {
        var found := Search(questions, term.value);
        return Ok(Found(FormatAll(found, categories)));
      }
      match ValidateCreate(data, categories)
      case Rejected(status) =>
        r := Err(status);
      case Accepted(fields) =>
        var q := Question(nextId, fields.question, fields.answer, fields.categoryId, fields.difficulty);
        AppendValid(questions, categories, nextId, q);
        questions := questions + [q];
        nextId := nextId + 1;
        r := Ok(Created(q.id));
    }
  }

  /** Deleting an existing question succeeds once; a second delete of the same id is not found. */
  method DeleteIsPermanent(db: Database, id: nat) returns (first: Response<Deleted>, second: Response<Deleted>)
    requires db.Valid() && HasId(db.questions, id)
    modifies db
    ensures db.Valid() && !HasId(db.questions, id)
    ensures first == Ok(Deleted) && second == Err(NotFound)
  {
    first := db.DeleteQuestion(id, true);
    assert first.Ok? && first.payload.Deleted?;
    second := db.DeleteQuestion(id, true);
  }

  /** A created question can be found afterwards under the returned id. */
  method CreatedQuestionIsFound(db: Database, data: Body) returns (r: Response<PostPayload>)
    requires db.Valid() && SearchTerm(data).None? && ValidateCreate(data, db.categories).Accepted?
    modifies db
    ensures db.Valid()
    ensures r.Ok? && r.payload.Created? && FindIndex(db.questions, r.payload.questionId).Some?
  {
    r := db.PostQuestion(data);
    assert db.questions[|db.questions| - 1].id == r.payload.questionId;
  }
}
