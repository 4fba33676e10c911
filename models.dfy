/**
 * The store the handlers work on: the questions and categories tables,
 * their integrity constraints, and the JSON shape of a question.
 */
module Models {
  import opened Wrappers
  import PyInt
  import opened Json

  /** A nullable String column: None is SQL NULL. */
  type Text = Option<string>

  /** A row of the questions table. */
  datatype Question = Question(id: int, question: Text, answer: Text, categoryId: int, difficulty: int)

  /** The categories table: id to type. */
  type Categories = map<int, string>

  /** Bounds of an SQL Integer column (32-bit). */
  const IntegerMin: int := -0x8000_0000
  const IntegerMax: int := 0x7FFF_FFFF

  predicate IsInteger(v: int) { IntegerMin <= v <= IntegerMax }

  /** The primary key: no two questions share an id. */
  predicate UniqueIds(qs: seq<Question>) {
    forall i, j :: 0 <= i < j < |qs| ==> qs[i].id != qs[j].id
  }

  /** The non-null foreign key: every question names an existing category. */
  predicate ForeignKeys(qs: seq<Question>, cats: Categories) {
    forall q :: q in qs ==> q.categoryId in cats
  }

  /** Every id was drawn from the key sequence before it reached `next`. */
  predicate IdsBelow(qs: seq<Question>, next: int) {
    forall i :: 0 <= i < |qs| ==> qs[i].id < next
  }

  predicate ValidStore(qs: seq<Question>, cats: Categories, next: int) {
    UniqueIds(qs) && ForeignKeys(qs, cats) && IdsBelow(qs, next)
  }

  predicate HasId(qs: seq<Question>, id: int) {
    exists i :: 0 <= i < |qs| && qs[i].id == id
  }

  /** Question.query.get(id): the position of the row with that id, if any. */
  function FindIndex(qs: seq<Question>, id: int): (r: Option<nat>)
    ensures r.Some? ==> r.value < |qs| && qs[r.value].id == id
    ensures r.None? <==> !HasId(qs, id)
  {
    if qs == [] then None
    else if qs[0].id == id then Some(0)
    else
      match FindIndex(qs[1..], id)
      case None =>
        assert forall i :: 1 <= i < |qs| ==> qs[i] == qs[1..][i - 1];
        None
      case Some(k) => Some(k + 1)
  }

  /** The sequence without its element at position k. */
  function RemoveAt<T>(s: seq<T>, k: nat): (r: seq<T>)
    requires k < |s|
    ensures |r| == |s| - 1
    ensures forall i :: 0 <= i < |r| ==> r[i] == if i < k then s[i] else s[i + 1]
  {
    s[..k] + s[k + 1..]
  }

  /**
   * Removing the row at k removes exactly the questions with that row's id:
   * afterwards no question has the id, and every other question remains.
   */
  lemma RemoveAtById(qs: seq<Question>, k: nat)
    requires UniqueIds(qs) && k < |qs|
    ensures forall q :: q in RemoveAt(qs, k) <==> q in qs && q.id != qs[k].id
    ensures !HasId(RemoveAt(qs, k), qs[k].id)
  {
  }

  /** Removing a row keeps the store's constraints. */
  lemma RemoveAtValid(qs: seq<Question>, cats: Categories, next: int, k: nat)
    requires ValidStore(qs, cats, next) && k < |qs|
    ensures ValidStore(RemoveAt(qs, k), cats, next)
  {
  }

  /** Appending a row with an id from the key sequence and a known category keeps the constraints. */
  lemma AppendValid(qs: seq<Question>, cats: Categories, next: int, q: Question)
    requires ValidStore(qs, cats, next)
    requires q.id == next && q.categoryId in cats
    ensures ValidStore(qs + [q], cats, next + 1)
  {
  }

  /** q.format(): a question with its category's type looked up. */
  datatype Formatted = Formatted(id: int, question: Text, answer: Text, category: string, categoryId: int, difficulty: int)

  function Format(q: Question, cats: Categories): (f: Formatted)
    requires q.categoryId in cats
    ensures Question(f.id, f.question, f.answer, f.categoryId, f.difficulty) == q
    ensures f.category == cats[q.categoryId]
  {
    Formatted(q.id, q.question, q.answer, cats[q.categoryId], q.categoryId, q.difficulty)
  }

  /** [q.format() for q in qs] */
  function FormatAll(qs: seq<Question>, cats: Categories): (r: seq<Formatted>)
    requires ForeignKeys(qs, cats)
    ensures |r| == |qs|
    ensures forall i :: 0 <= i < |qs| ==> r[i] == Format(qs[i], cats)
  {
    seq(|qs|, i requires 0 <= i < |qs| => Format(qs[i], cats))
  }

  /**
   * {str(c.id): c.type for c in categories}: one entry per category, keyed
   * by the decimal text of its id; each key reads back as that id, and no
   * two categories share a key.
   */
  function CategoryMap(cats: Categories): (r: map<string, string>)
    ensures forall id :: id in cats ==> PyInt.Decimal(id) in r && r[PyInt.Decimal(id)] == cats[id]
    ensures forall k :: k in r ==>
      PyInt.ParseInt(k).Some? && PyInt.ParseInt(k).value in cats && PyInt.Decimal(PyInt.ParseInt(k).value) == k
    ensures forall a, b :: a in cats && b in cats && a != b ==> PyInt.Decimal(a) != PyInt.Decimal(b)
  {
    DecimalKeysInjective();
    var r := map id | id in cats :: PyInt.Decimal(id) := cats[id];
    forall k | k in r
      ensures PyInt.ParseInt(k).Some? && PyInt.ParseInt(k).value in cats && PyInt.Decimal(PyInt.ParseInt(k).value) == k
    {
      var id :| id in cats && PyInt.Decimal(id) == k;
      PyInt.ParseDecimal(id);
    }
    r
  }

  lemma DecimalKeysInjective()
    ensures forall a, b :: PyInt.Decimal(a) == PyInt.Decimal(b) ==> a == b
  {
    forall a, b ensures PyInt.Decimal(a) == PyInt.Decimal(b) ==> a == b {
      PyInt.DecimalInjective(a, b);
    }
  }

  /**
   * The text a nullable String column receives for a JSON value: None is
   * NULL, numbers and booleans are cast to their text, and a list or dict
   * cannot be stored (None: the commit fails).
   */
  function ColumnText(j: Json): (r: Option<Text>)
    ensures r.None? <==> j.JContainer?
    ensures r == Some(None) <==> j.JNull?
    ensures j.JString? ==> r == Some(Some(j.s))
  {
    match j
    case JNull => Some(None)
    case JBool(b) => Some(Some(if b then "true" else "false"))
    case JInt(i) => Some(Some(PyInt.Decimal(i)))
    case JString(s) => Some(Some(s))
    case JContainer(_) => None
  }

  /** The HTTP error statuses the handlers produce. */
  datatype Status = BadRequest | NotFound | Unprocessable | InternalError {
    function Code(): int {
      match this
      case BadRequest => 400
      case NotFound => 404
      case Unprocessable => 422
      case InternalError => 500
    }
  }

  /** A handler's outcome: a success payload, or an error status. */
  datatype Response<+T> = Ok(payload: T) | Err(status: Status)
}
