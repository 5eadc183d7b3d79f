/** Query expressions: evaluation on raw record bytes, and what they mean on the record itself. */
module Query {
  import opened Bytes
  import opened Wrappers
  import opened Wire
  import opened Descriptor
  import opened HeapWalk

  datatype Ordering = Less | Equal | Greater

  /** A query constant, at the width it was written with. */
  datatype QValue =
    | QU(w: Width, i: int) | QI(w: Width, i: int) | QF(w: Width, bits: int)
    | QStr(text: seq<Byte>) | QBool(b: bool) | QBytes(bytes: seq<Byte>)

  datatype Expr =
    | All
    | Eq(field: Text, value: QValue)
    | Ne(field: Text, value: QValue)
    | Gt(field: Text, value: QValue)
    | Gte(field: Text, value: QValue)
    | Lt(field: Text, value: QValue)
    | Lte(field: Text, value: QValue)
    | And(left: Expr, right: Expr)
    | Or(left: Expr, right: Expr)
    | Not(inner: Expr)

  const I128_LIMIT: int := 0x8000_0000_0000_0000_0000_0000_0000_0000

  /** The common domain of numeric comparison; `BigUint` holds what exceeds `i128`. */
  datatype Numeric = Int(i: int) | BigUint(u: int) | Float(w: Width, bits: int)

  /** Comparison of floats, and of integers with floats, is left to the machine. */
  type FloatOrder = (Numeric, Numeric) -> Option<Ordering>

  function CmpInt(a: int, b: int): Ordering {
    if a < b then Less else if a == b then Equal else Greater
  }

  /** Slice comparison: the first difference decides, then the length. */
  function CmpBytes(a: seq<Byte>, b: seq<Byte>): Ordering {
    if a == [] then (if b == [] then Equal else Less)
    else if b == [] then Greater
    else if a[0] != b[0] then CmpInt(a[0], b[0])
    else CmpBytes(a[1..], b[1..])
  }

  function Unsigned(x: int): Numeric {
    if x < I128_LIMIT then Int(x) else BigUint(x)
  }

  function NumericOf(v: QValue): Option<Numeric> {
    match v
    case QU(w, i) => Some(if w == 16 then Unsigned(i) else Int(i))
    case QI(_, i) => Some(Int(i))
    case QF(w, bits) => Some(Float(w, bits))
    case _ => None
  }

  function PartialCmp(order: FloatOrder, a: Numeric, b: Numeric): Option<Ordering> {
    if a.Float? || b.Float? then order(a, b)
    else if a.Int? && b.Int? then Some(CmpInt(a.i, b.i))
    else if a.BigUint? && b.BigUint? then Some(CmpInt(a.u, b.u))
    else if a.BigUint? then Some(Greater)
    else Some(Less)
  }

  /** `read_numeric`: a slot of exactly the kind's width. */
  function ReadNumeric(kind: FieldKind, slot: seq<Byte>): Option<Numeric> {
    match kind
    case KU(w) => if |slot| == w then Some(if w == 16 then Unsigned(FromLE(slot)) else Int(FromLE(slot))) else None
    case KI(w) => if |slot| == w then Some(Int(LeafOfNat(I(w), FromLE(slot)))) else None
    case KF(w) => if |slot| == w then Some(Float(w, FromLE(slot))) else None
    case _ => None
  }

  /** `ObjectDescriptor::field`: the first field of that name. */
  function FindField(fields: seq<FieldDesc>, name: Text, i: nat): (r: Option<nat>)
    requires i <= |fields|
    ensures r.Some? ==> r.value < |fields|
    decreases |fields| - i
  {
    if i == |fields| then None else if fields[i].name == name then Some(i) else FindField(fields, name, i + 1)
  }

  function Compare(order: FloatOrder, desc: ObjectDesc, body: seq<Byte>, field: Text, value: QValue): Option<Ordering> {
    var found := FindField(desc.fields, field, 0);
    if found.None? || |body| < desc.stackSize then None
    else
      var fd := desc.fields[found.value];
      var slot := Get(body, fd.stackOffset, fd.stackOffset + fd.stackSize);
      if slot.None? then None
      else CompareField(order, desc, body, found.value, slot.value, value)
  }

  function CompareField(order: FloatOrder, desc: ObjectDesc, body: seq<Byte>, t: nat, slot: seq<Byte>, value: QValue): Option<Ordering>
    requires t < |desc.fields|
  {
    var kind := desc.fields[t].kind;
    match kind
    case KStr =>
      var bytes := HeapBytes(desc, body, t);
      if bytes.None? || !ValidUtf8(bytes.value) || !value.QStr? then None else Some(CmpBytes(bytes.value, value.text))
    case KBytes =>
      var bytes := HeapBytes(desc, body, t);
      if bytes.None? || !value.QBytes? then None else Some(CmpBytes(bytes.value, value.bytes))
    case KBool =>
      if slot == [] || !value.QBool? then None
      else Some(CmpInt(if slot[0] != 0 then 1 else 0, if value.b then 1 else 0))
    case _ =>
      var a, b := ReadNumeric(kind, slot), NumericOf(value);
      if a.None? || b.None? then None else PartialCmp(order, a.value, b.value)
  }

  /** `eval`: on the wire bytes of a record, by its descriptor. */
  function Eval(order: FloatOrder, desc: ObjectDesc, body: seq<Byte>, expr: Expr): bool {
    match expr
    case All => true
    case And(l, r) => Eval(order, desc, body, l) && Eval(order, desc, body, r)
    case Or(l, r) => Eval(order, desc, body, l) || Eval(order, desc, body, r)
    case Not(e) => !Eval(order, desc, body, e)
    case Eq(f, v) => Compare(order, desc, body, f, v) == Some(Equal)
    case Ne(f, v) => var o := Compare(order, desc, body, f, v); o.Some? && o != Some(Equal)
    case Gt(f, v) => Compare(order, desc, body, f, v) == Some(Greater)
    case Gte(f, v) => var o := Compare(order, desc, body, f, v); o == Some(Greater) || o == Some(Equal)
    case Lt(f, v) => Compare(order, desc, body, f, v) == Some(Less)
    case Lte(f, v) => var o := Compare(order, desc, body, f, v); o == Some(Less) || o == Some(Equal)
  }

  // ----- Meaning on the record -----

  /** What a field or a constant is, for comparison: a number, a text, raw bytes, a truth value, a float. */
  datatype Key = KeyInt(i: int) | KeyText(text: seq<Byte>) | KeyBytes(bytes: seq<Byte>) | KeyBool(b: bool) | KeyFloat(w: Width, bits: int)

  function KeyOfConstant(v: QValue): Key {
    match v
    case QU(_, i) => KeyInt(i)
    case QI(_, i) => KeyInt(i)
    case QF(w, bits) => KeyFloat(w, bits)
    case QStr(t) => KeyText(t)
    case QBool(b) => KeyBool(b)
    case QBytes(bs) => KeyBytes(bs)
  }

  /** The bytes of a `Vec<u8>` value. */
  function ListBytes(vs: List<Value>): seq<Byte> {
    if vs.Nil? then [] else [if vs.head.VInt? && 0 <= vs.head.i < 256 then vs.head.i else 0] + ListBytes(vs.tail)
  }

  /** The name of a field as declared; the first declaration counts. */
  function Lookup(decls: seq<FieldDecl>, name: Text): (r: Option<nat>)
    ensures r.Some? ==> r.value < |decls|
  {
    if decls == [] then None
    else if decls[0].name == name then Some(0)
    else match Lookup(decls[1..], name) case None => None case Some(i) => Some(i + 1)
  }

  /**
   The value of field `t` as a query can see it: numbers, truth values, texts and byte vectors, if the field's type is
   written by its standard name. Texts and byte vectors are visible only if some side of them has no opaque heap field.
   */
  function KeyOfField(decls: seq<FieldDecl>, vals: List<Value>, t: nat): Option<Key>
    requires t < |decls| && Len(vals) == |decls|
  {
    var v, s := Nth(vals, t), decls[t].schema;
    var visible := NoOpaque(decls, 0, t) || NoOpaque(decls, t + 1, |decls|);
    if !Spells(decls[t].ty, s) then None
    else if s.Str? then if v.VStr? && visible then Some(KeyText(v.bytes)) else None
    else if s.Vec? then if v.VList? && visible then Some(KeyBytes(ListBytes(v.vs))) else None
    else if !s.Leaf? || !v.VInt? then None
    else
      match s.leaf
      case U(_) => Some(KeyInt(v.i))
      case I(_) => Some(KeyInt(v.i))
      case F(w) => Some(KeyFloat(w, v.i))
      case Bool => Some(KeyBool(v.i == 1))
      case _ => None
  }

  predicate Numerical(k: Key) { k.KeyInt? || k.KeyFloat? }

  predicate Comparable(a: Key, b: Key) {
    (Numerical(a) && Numerical(b)) || (a.KeyText? && b.KeyText?) || (a.KeyBytes? && b.KeyBytes?) || (a.KeyBool? && b.KeyBool?)
  }

  /** Dictionary order: a proper prefix, or smaller at the first difference. */
  predicate LexLess(a: seq<Byte>, b: seq<Byte>) {
    exists k :: 0 <= k <= |a| && k <= |b| && a[..k] == b[..k] && ((k == |a| && k < |b|) || (k < |a| && k < |b| && a[k] < b[k]))
  }

  predicate Below(a: Key, b: Key)
    requires Comparable(a, b) && !a.KeyFloat? && !b.KeyFloat?
  {
    match a
    case KeyInt(i) => i < b.i
    case KeyText(t) => LexLess(t, b.text)
    case KeyBytes(bs) => LexLess(bs, b.bytes)
    case KeyBool(x) => !x && b.b
  }

  /** A float or integer as a member of the numeric domain. */
  function NumericKey(k: Key): Numeric
    requires Numerical(k)
  {
    if k.KeyInt? then Unsigned(k.i) else Float(k.w, k.bits)
  }

  predicate IsComparison(expr: Expr) {
    expr.Eq? || expr.Ne? || expr.Gt? || expr.Gte? || expr.Lt? || expr.Lte?
  }

  /** The relation a comparison operator stands for: less, equal, greater are the only three ways to be comparable. */
  predicate Holds(order: FloatOrder, expr: Expr, a: Key, b: Key)
    requires IsComparison(expr) && Comparable(a, b)
  {
    if a.KeyFloat? || b.KeyFloat? then
      var o := order(NumericKey(a), NumericKey(b));
      match expr
      case Eq(_, _) => o == Some(Equal)
      case Ne(_, _) => o == Some(Less) || o == Some(Greater)
      case Gt(_, _) => o == Some(Greater)
      case Gte(_, _) => o == Some(Equal) || o == Some(Greater)
      case Lt(_, _) => o == Some(Less)
      case Lte(_, _) => o == Some(Equal) || o == Some(Less)
    else
      match expr
      case Eq(_, _) => a == b
      case Ne(_, _) => a != b
      case Gt(_, _) => Below(b, a)
      case Gte(_, _) => !Below(a, b)
      case Lt(_, _) => Below(a, b)
      case Lte(_, _) => !Below(b, a)
  }

  /** The meaning of an expression on a decoded record. An unknowable comparison does not match. */
  predicate Satisfies(order: FloatOrder, decls: seq<FieldDecl>, vals: List<Value>, expr: Expr)
    requires Len(vals) == |decls|
  {
    match expr
    case All => true
    case And(l, r) => Satisfies(order, decls, vals, l) && Satisfies(order, decls, vals, r)
    case Or(l, r) => Satisfies(order, decls, vals, l) || Satisfies(order, decls, vals, r)
    case Not(e) => !Satisfies(order, decls, vals, e)
    case _ =>
      var t := Lookup(decls, expr.field);
      t.Some? &&
      var a, b := KeyOfField(decls, vals, t.value), KeyOfConstant(expr.value);
      a.Some? && Comparable(a.value, b) && Holds(order, expr, a.value, b)
  }
}
