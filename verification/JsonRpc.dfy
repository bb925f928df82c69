/** JSON-RPC messages, as far as either client looks at them.

    Keys are compared the way Python compares them: the integer 1, the float 1.0 and `true` are one
    and the same dictionary key, a list or an object is no key at all. */
module JsonRpc {
  import opened Wrappers

  datatype Id =
    | IntId(n: int)
    | FloatId(n: int)   // a float whose value is the integer n
    | BoolId(b: bool)
    | Scalar            // null, a string, a fractional number: hashable, equal to no integer
    | Nested            // a list or an object: unhashable

  datatype Json =
    | Object(id: Option<Id>, event: bool,
             error: Option<int>,  // None when it is missing, null, 0, empty or false
             result: int)
    | NonObject

  datatype Line = Malformed | Parsed(msg: Json)

  /** What `call` makes of the reply it was given. */
  datatype Result = Returned(value: int) | Raised(error: int)

  /** The integer a message's id is equal to, if there is one. */
  function Key(m: Json): Option<int> {
    if m.NonObject? || m.id.None? then None
    else match m.id.value
         case IntId(n) => Some(n)
         case FloatId(n) => Some(n)
         case BoolId(b) => Some(if b then 1 else 0)
         case Scalar => None
         case Nested => None
  }

  /** The ids that are equal to the integer k, in so many words. */
  predicate Equals(id: Option<Id>, k: int) {
    || id == Some(IntId(k)) || id == Some(FloatId(k))
    || (k == 1 && id == Some(BoolId(true))) || (k == 0 && id == Some(BoolId(false)))
  }

  lemma AnswersByEqualId(m: Json, k: int)
    ensures Answers(m, k) <==> m.Object? && Equals(m.id, k)
  {
  }

  predicate Answers(m: Json, k: int) {
    Key(m) == Some(k)
  }

  predicate LineAnswers(l: Line, k: int) {
    l.Parsed? && Answers(l.msg, k)
  }

  function Meaning(m: Json): Result
    requires m.Object?
  {
    if m.error.Some? then Raised(m.error.value) else Returned(m.result)
  }
}
