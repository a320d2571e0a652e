/** JSON request bodies as the body parser hands them to the routes, and
    what Mongoose makes of one of their values: the text a validator sees,
    the condition it becomes inside a `findOne` filter, and the value a
    `Boolean` schema path stores. */
module Json {
  import opened Common
  import opened Text

  /** A JSON value as a request body carries it: `Num(None)` is `null`
      (which is also what `NaN` becomes on the wire); a `Group` is an
      object. */
  datatype Value = Text(s: string) | Num(n: Option<int>) | Flag(b: bool) | Group(fields: map<string, Value>)

  type Body = map<string, Value>

  function Field(b: Body, key: string): (v: Option<Value>)
    ensures v.Some? <==> key in b
  {
    if key in b then Some(b[key]) else None
  }

  /** A path that holds text, the only kind the hash functions accept. */
  function TextField(b: Body, key: string): (t: Option<string>)
    ensures t.Some? <==> key in b && b[key].Text?
    ensures t.Some? ==> b[key] == Text(t.value)
  {
    if key in b && b[key].Text? then Some(b[key].s) else None
  }

  /** The text the validators see: a missing value or `null` is empty, a
      number is written in decimal, and an object is `[object Object]`. */
  function ToStr(v: Option<Value>): string {
    match v
    case None => ""
    case Some(Text(s)) => s
    case Some(Num(None)) => ""
    case Some(Num(Some(n))) => IntToString(n)
    case Some(Flag(b)) => if b then "true" else "false"
    case Some(Group(_)) => "[object Object]"
  }

  /** A key that Mongoose reads as a query operator. */
  predicate IsOperator(key: string) {
    |key| > 0 && key[0] == '$'
  }

  predicate HasOperator(fields: map<string, Value>) {
    exists key :: key in fields && IsOperator(key)
  }

  /** The condition `{path: v}` puts on a text path of the filter:
      - a scalar is cast to text and compared for equality;
      - a missing value or `null` matches no stored document (every stored
        document has the path);
      - an object with a `$` key is a set of query operators, handed to the
        database as they are;
      - any other object makes the cast throw. */
  datatype Condition = Equals(text: string) | Nothing | Operators(ops: map<string, Value>) | Refused

  function ConditionOf(v: Option<Value>): (c: Condition)
    ensures c.Equals? <==> v.Some? && (v.value.Text? || v.value.Flag? || (v.value.Num? && v.value.n.Some?))
    ensures c.Equals? ==> c.text == ToStr(v)
    ensures c.Operators? <==> v.Some? && v.value.Group? && HasOperator(v.value.fields)
    ensures c.Operators? ==> c.ops == v.value.fields
    ensures c.Refused? <==> v.Some? && v.value.Group? && !HasOperator(v.value.fields)
  {
    match v
    case None => Nothing
    case Some(Num(None)) => Nothing
    case Some(Group(fields)) => if HasOperator(fields) then Operators(fields) else Refused
    case Some(_) => Equals(ToStr(v))
  }

  /** Whether a stored text satisfies the condition. `holds` is the
      database's own evaluation of an operator object against a stored
      value. */
  predicate Satisfies(c: Condition, stored: string, holds: (map<string, Value>, string) -> bool) {
    match c
    case Equals(text) => stored == text
    case Nothing => false
    case Operators(ops) => holds(ops, stored)
    case Refused => false
  }

  /** A `String` or `Date` schema path refuses an object when the document
      is saved; scalars are cast to text. */
  predicate TextCastRefused(v: Option<Value>) {
    v.Some? && v.value.Group?
  }

  /** What a `Boolean` schema path with `default: false` stores for a sent
      value: `Cast(b)`, `null`, or a cast error that makes the save fail. */
  datatype BoolCast = Cast(value: bool) | CastNull | CastRefused

  /** Mongoose's Boolean cast: `true`, `'true'`, `1`, `'1'` and `'yes'`
      are true; `false`, `'false'`, `0`, `'0'` and `'no'` are false; a
      missing value takes the default; `null` stays `null`; anything else is
      refused. */
  function BooleanCast(v: Option<Value>): (c: BoolCast)
    ensures c == Cast(true) <==> v in {Some(Flag(true)), Some(Text("true")), Some(Text("1")), Some(Text("yes")), Some(Num(Some(1)))}
    ensures c == Cast(false) <==>
      v in {None, Some(Flag(false)), Some(Text("false")), Some(Text("0")), Some(Text("no")), Some(Num(Some(0)))}
    ensures c == CastNull <==> v == Some(Num(None))
  {
    match v
    case None => Cast(false)
    case Some(Flag(b)) => Cast(b)
    case Some(Num(None)) => CastNull
    case Some(Num(Some(n))) => if n == 1 then Cast(true) else if n == 0 then Cast(false) else CastRefused
    case Some(Text(s)) =>
      if s == "true" || s == "1" || s == "yes" then Cast(true)
      else if s == "false" || s == "0" || s == "no" then Cast(false)
      else CastRefused
    case Some(Group(_)) => CastRefused
  }
}
