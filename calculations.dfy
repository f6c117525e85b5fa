/** The calculator: the arithmetic dispatch `perform_operation` and the five
    BREAD handlers over the calculations table, each scoped to the user the
    request resolved to (app/routers/calculations.py). */
module Calculations {
  import opened Common
  import opened Text

  /** The four supported operations, as a closed variant. */
  datatype Op = Add | Subtract | Multiply | Divide

  /** The lower-case name under which each operation is accepted. */
  function Name(op: Op): string {
    match op
    case Add => "add"
    case Subtract => "subtract"
    case Multiply => "multiply"
    case Divide => "divide"
  }

  /** `operation.lower()` followed by the `if`/`elif` chain on the four names. */
  function ParseOp(operation: string): (r: Option<Op>)
    ensures forall op :: r == Some(op) <==> Lower(operation) == Name(op)
  {
    var name := Lower(operation);
    if name == "add" then Some(Add)
    else if name == "subtract" then Some(Subtract)
    else if name == "multiply" then Some(Multiply)
    else if name == "divide" then Some(Divide)
    else None
  }

  const DivideByZeroDetail := "Cannot divide by zero"

  function UnsupportedDetail(operation: string): string {
    "Unsupported operation '" + operation + "'"
  }

  /** One operation on two operands; division by zero is a defined failure,
      never an infinity or NaN. */
  function Eval(op: Op, a: real, b: real): (r: Result<real, Error>)
    ensures r.Err? <==> op == Divide && b == 0.0
    ensures r.Err? ==> r.error == BadRequest(DivideByZeroDetail)
    ensures r.Ok? && op == Add ==> r.value == a + b
    ensures r.Ok? && op == Subtract ==> r.value == a - b
    ensures r.Ok? && op == Multiply ==> r.value == a * b
    ensures r.Ok? && op == Divide ==> r.value * b == a
  {
    match op
    case Add => Ok(a + b)
    case Subtract => Ok(a - b)
    case Multiply => Ok(a * b)
    case Divide => if b == 0.0 then Err(BadRequest(DivideByZeroDetail)) else Ok(a / b)
  }

  /** `perform_operation(operation, operand1, operand2)`: a value, or the
      `HTTPException(400)` it raises. */
  function PerformOperation(operation: string, operand1: real, operand2: real): (r: Result<real, Error>)
    ensures r.Err? ==> r.error.BadRequest?
    ensures ParseOp(operation).None? ==> r == Err(BadRequest(UnsupportedDetail(operation)))
    ensures r.Ok? <==> ParseOp(operation).Some? && (ParseOp(operation) == Some(Divide) ==> operand2 != 0.0)
  {
    match ParseOp(operation)
    case None => Err(BadRequest(UnsupportedDetail(operation)))
    case Some(op) => Eval(op, operand1, operand2)
  }

  /** add, subtract and multiply are total, whatever the case of their name:
      "ADD", "Add" and "add" all give `a + b`. */
  lemma ArithmeticNeverFails(operation: string, a: real, b: real)
    requires Lower(operation) in {"add", "subtract", "multiply"}
    ensures Lower(operation) == "add" ==> PerformOperation(operation, a, b) == Ok(a + b)
    ensures Lower(operation) == "subtract" ==> PerformOperation(operation, a, b) == Ok(a - b)
    ensures Lower(operation) == "multiply" ==> PerformOperation(operation, a, b) == Ok(a * b)
  {
  }

  /** Dividing by zero fails with 400 for every dividend; any other divisor
      gives the quotient. */
  lemma DivideGuard(operation: string, a: real, b: real)
    requires Lower(operation) == "divide"
    ensures b == 0.0 ==> PerformOperation(operation, a, b) == Err(BadRequest(DivideByZeroDetail))
    ensures b != 0.0 ==> PerformOperation(operation, a, b) == Ok(a / b)
  {
  }

  /** A name that is none of the four after lower-casing fails with 400 and
      echoes the name as given. */
  lemma UnsupportedFails(operation: string, a: real, b: real)
    requires Lower(operation) !in {"add", "subtract", "multiply", "divide"}
    ensures PerformOperation(operation, a, b) == Err(BadRequest(UnsupportedDetail(operation)))
  {
  }

  /** Matching is case-insensitive: an operation name and its lower-cased form
      are evaluated alike (only the echoed name in the unsupported message
      differs). */
  lemma CaseInsensitive(operation: string, a: real, b: real)
    ensures ParseOp(Lower(operation)) == ParseOp(operation)
    ensures PerformOperation(operation, a, b).Ok? <==> PerformOperation(Lower(operation), a, b).Ok?
    ensures ParseOp(operation).Some? ==> PerformOperation(operation, a, b) == PerformOperation(Lower(operation), a, b)
  {
  }

  /** Names that differ only in the case of ASCII letters ("ADD", "Add",
      "add") select the same operation and succeed or fail together, with the
      same value on success. */
  lemma CaseVariantsAgree(s: string, t: string, a: real, b: real)
    requires |s| == |t|
    requires forall i :: 0 <= i < |s| ==> LowerChar(s[i]) == LowerChar(t[i])
    ensures ParseOp(s) == ParseOp(t)
    ensures PerformOperation(s, a, b).Ok? <==> PerformOperation(t, a, b).Ok?
    ensures PerformOperation(s, a, b).Ok? ==> PerformOperation(s, a, b) == PerformOperation(t, a, b)
  {
  }

  /** An opaque `datetime.utcnow()` value. */
  type Timestamp = int

  /** One row of the calculations table, without its id. */
  datatype Calc = Calc(
    userId: int,
    operation: string,
    operand1: real,
    operand2: real,
    result: real,
    createdAt: Timestamp)

  /** A row together with its id, as the handlers return it. */
  datatype Row = Row(id: int, record: Calc)

  /** The stored result is the evaluation of the stored operation. */
  predicate Consistent(c: Calc) {
    PerformOperation(c.operation, c.operand1, c.operand2) == Ok(c.result)
  }

  /** The one rule every by-id handler applies: the row exists and belongs to
      the requesting user. */
  predicate Visible(table: map<int, Calc>, uid: int, id: int) {
    id in table && table[id].userId == uid
  }

  const NotFoundDetail := "Calculation not found"

  /** The calculations table: rows by id, and the id the next insert receives. */
  class CalcTable {
    var table: map<int, Calc>
    var nextId: int

    /** Every id handed out so far is below `nextId`. */
    ghost predicate IdsIssued()
      reads this
    {
      1 <= nextId && forall id :: id in table ==> 1 <= id < nextId
    }

    ghost predicate Valid()
      reads this
    {
      IdsIssued() && forall id :: id in table ==> Consistent(table[id])
    }

    constructor ()
      ensures Valid() && table == map[] && nextId == 1
    {
      table := map[];
      nextId := 1;
    }

    /** Browse: the rows owned by `uid`, all of them and only them, by
        ascending id. */
    method Browse(uid: int) returns (rows: seq<Row>)
      requires IdsIssued()
      ensures forall k :: 0 <= k < |rows| ==>
        Visible(table, uid, rows[k].id) && rows[k].record == table[rows[k].id]
      ensures forall k, l :: 0 <= k < l < |rows| ==> rows[k].id < rows[l].id
      ensures forall id :: Visible(table, uid, id) ==> exists k :: 0 <= k < |rows| && rows[k].id == id
    {
      rows := [];
      var id := 1;
      while id < nextId
        invariant 1 <= id <= nextId
        invariant forall k :: 0 <= k < |rows| ==>
          Visible(table, uid, rows[k].id) && rows[k].record == table[rows[k].id] && rows[k].id < id
        invariant forall k, l :: 0 <= k < l < |rows| ==> rows[k].id < rows[l].id
        invariant forall j :: Visible(table, uid, j) && j < id ==> exists k :: 0 <= k < |rows| && rows[k].id == j
      {
        if id in table && table[id].userId == uid {
          var grown := rows + [Row(id, table[id])];
          assert forall k :: 0 <= k < |rows| ==> grown[k] == rows[k];
          assert grown[|rows|].id == id;
          rows := grown;
        }
        id := id + 1;
      }
    }

    /** Add: evaluate first; on failure nothing is stored; on success exactly
        one new row, owned by `uid`, holding the operation name as given and
        its result. */
    method Add(uid: int, operation: string, operand1: real, operand2: real, now: Timestamp)
      returns (r: Result<Row, Error>)
      requires Valid()
      modifies this
      ensures Valid()
      ensures PerformOperation(operation, operand1, operand2).Err? ==>
        && r == Err(PerformOperation(operation, operand1, operand2).error)
        && table == old(table) && nextId == old(nextId)
      ensures PerformOperation(operation, operand1, operand2).Ok? ==>
        && old(nextId) !in old(table)
        && r == Ok(Row(old(nextId), Calc(uid, operation, operand1, operand2,
                                         PerformOperation(operation, operand1, operand2).value, now)))
        && table == old(table)[old(nextId) := r.value.record]
        && nextId == old(nextId) + 1
    {
      var value := PerformOperation(operation, operand1, operand2);
      if value.Err? {
        return Err(value.error);
      }
      var record := Calc(uid, operation, operand1, operand2, value.value, now);
      var id := nextId;
      table := table[id := record];
      nextId := nextId + 1;
      r := Ok(Row(id, record));
    }

    /** Read: the row itself, or NotFound when it is absent or owned by
        someone else. */
    method Read(uid: int, id: int) returns (r: Result<Row, Error>)
      requires Valid()
      ensures r.Ok? <==> Visible(table, uid, id)
      ensures r.Ok? ==> r.value == Row(id, table[id])
      ensures r.Err? ==> r.error == NotFound(NotFoundDetail)
    {
      if !(id in table && table[id].userId == uid) {
        return Err(NotFound(NotFoundDetail));
      }
      r := Ok(Row(id, table[id]));
    }

    /** Edit: NotFound unless visible; then the operation, operands and a
        recomputed result replace the old ones, keeping owner and creation
        time. A failed evaluation persists nothing. */
    method Edit(uid: int, id: int, operation: string, operand1: real, operand2: real)
      returns (r: Result<Row, Error>)
      requires Valid()
      modifies this
      ensures Valid()
      ensures nextId == old(nextId)
      ensures !Visible(old(table), uid, id) ==> r == Err(NotFound(NotFoundDetail)) && table == old(table)
      ensures Visible(old(table), uid, id) && PerformOperation(operation, operand1, operand2).Err? ==>
        r == Err(PerformOperation(operation, operand1, operand2).error) && table == old(table)
      ensures Visible(old(table), uid, id) && PerformOperation(operation, operand1, operand2).Ok? ==>
        && r == Ok(Row(id, Calc(uid, operation, operand1, operand2,
                                PerformOperation(operation, operand1, operand2).value,
                                old(table)[id].createdAt)))
        && table == old(table)[id := r.value.record]
    {
      if !(id in table && table[id].userId == uid) {
        return Err(NotFound(NotFoundDetail));
      }
      var value := PerformOperation(operation, operand1, operand2);
      if value.Err? {
        return Err(value.error);
      }
      var record := table[id].(operation := operation, operand1 := operand1,
                             operand2 := operand2, result := value.value);
      table := table[id := record];
      r := Ok(Row(id, record));
    }

    /** Delete: NotFound unless visible; otherwise exactly that row goes. */
    method Delete(uid: int, id: int) returns (r: Result<(), Error>)
      requires Valid()
      modifies this
      ensures Valid()
      ensures nextId == old(nextId)
      ensures r.Ok? <==> Visible(old(table), uid, id)
      ensures r.Err? ==> r.error == NotFound(NotFoundDetail) && table == old(table)
      ensures r.Ok? ==> table == old(table) - {id}
    {
      if !(id in table && table[id].userId == uid) {
        return Err(NotFound(NotFoundDetail));
      }
      table := table - {id};
      r := Ok(());
    }
  }
}
