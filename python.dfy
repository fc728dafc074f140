/** The parts of the Python runtime the modelled code relies on: the values it
    inspects, isinstance(), len() and comparison with an int, the built-in
    exception classes it raises, and the Outcome of a call that either returns
    or raises. */
module Python {

  datatype Option<+T> = None | Some(value: T)

  /** The value a call with no result returns (Python's None). */
  datatype Unit = Unit

  /** A Python value as far as the modelled code inspects it. bool is a
      subclass of int; float values are kept as reals and are only compared. */
  datatype Value =
    | NoneV
    | BoolV(b: bool)
    | IntV(i: int)
    | FloatV(r: real)
    | StrV(s: string)

  /** The type objects the modelled code tests with isinstance(). */
  datatype PyType = NoneType | BoolType | IntType | FloatType | StrType

  /** type(v): the class a value is created as. */
  function TypeOf(v: Value): PyType
  {
    match v
    case NoneV => NoneType
    case BoolV(_) => BoolType
    case IntV(_) => IntType
    case FloatV(_) => FloatType
    case StrV(_) => StrType
  }

  /** The base class of a type other than object: bool derives from int. */
  function TypeBase(t: PyType): Option<PyType>
  {
    if t == BoolType then Some(IntType) else None
  }

  /** isinstance(v, t): t is the value's own class or its base class, so True
      and False are instances of int. */
  predicate IsInstance(v: Value, t: PyType)
    ensures IsInstance(v, t) <==> TypeOf(v) == t || TypeBase(TypeOf(v)) == Some(t)
  {
    match t
    case NoneType => v.NoneV?
    case BoolType => v.BoolV?
    case IntType => v.IntV? || v.BoolV?
    case FloatType => v.FloatV?
    case StrType => v.StrV?
  }

  /** Values that take part in numeric comparison (bool, int, float). */
  predicate IsNumber(v: Value)
  {
    v.BoolV? || v.IntV? || v.FloatV?
  }

  /** The numeric value of a bool, int or float. */
  function Numeric(v: Value): real
    requires IsNumber(v)
  {
    match v
    case BoolV(b) => if b then 1.0 else 0.0
    case IntV(i) => i as real
    case FloatV(r) => r
  }

  /** a == b: numbers compare by numeric value, so 1 == 1.0 == True; other
      values are equal only to a value of the same type and content. */
  predicate Equal(a: Value, b: Value)
  {
    if IsNumber(a) && IsNumber(b) then Numeric(a) == Numeric(b) else a == b
  }

  /** The key under which a dict files a value: a dict identifies keys that
      are equal (equal numbers hash alike), so True and 1.0 are filed under
      the int 1, and a float with a fraction under itself. */
  function KeyOf(v: Value): (k: Value)
    ensures IsNumber(v) ==> IsNumber(k) && Numeric(k) == Numeric(v)
    ensures IsNumber(v) ==> k.IntV? || (k.FloatV? && k.r != k.r.Floor as real)
    ensures !IsNumber(v) ==> k == v
  {
    match v
    case BoolV(b) => IntV(if b then 1 else 0)
    case FloatV(r) => if r == r.Floor as real then IntV(r.Floor) else v
    case _ => v
  }

  /** Two values are filed under the same dict key exactly when they are
      equal. */
  lemma KeyOfMatchesEqual(a: Value, b: Value)
    ensures KeyOf(a) == KeyOf(b) <==> Equal(a, b)
  {
  }

  /** Exception classes that the modelled code raises or catches. */
  datatype ExcClass =
    | Exception
    | RuntimeError
    | LookupError
    | KeyError
    | TypeError
    | ValueError
    | AttributeError
    | InvalidAttribute   // user-defined in Py_nut1.py, a subclass of AttributeError

  /** The direct base class; None for Exception, the root of this fragment. */
  function Base(c: ExcClass): Option<ExcClass>
  {
    match c
    case Exception => None
    case RuntimeError => Some(Exception)
    case LookupError => Some(Exception)
    case KeyError => Some(LookupError)
    case TypeError => Some(Exception)
    case ValueError => Some(Exception)
    case AttributeError => Some(Exception)
    case InvalidAttribute => Some(AttributeError)
  }

  /** Number of inheritance steps from c up to Exception. */
  function Depth(c: ExcClass): nat
  {
    match c
    case Exception => 0
    case RuntimeError | LookupError | TypeError | ValueError | AttributeError => 1
    case KeyError | InvalidAttribute => 2
  }

  /** issubclass(c, d): d is c or one of its ancestors, so an `except d:`
      clause catches an exception of class c. */
  predicate IsSubclass(c: ExcClass, d: ExcClass)
    ensures IsSubclass(c, d) ==> Depth(d) <= Depth(c) && (Depth(d) == Depth(c) ==> c == d)
    ensures d == Exception ==> IsSubclass(c, d)
    decreases Depth(c)
  {
    c == d || (Base(c).Some? && Depth(Base(c).value) < Depth(c) && IsSubclass(Base(c).value, d))
  }

  /** The text an exception carries. Where the Python code builds the text
      with str() of a runtime value, the value is kept instead of its text. */
  datatype Msg =
    | Text(s: string)
    | AlreadySet(key: Value)       // str(key) + ' already set'
    | MissingKey(key: Value)       // the key a dict lookup did not find
    | Expected(t: PyType)          // 'expected ' + str(expected_type)
    | SizeBound(size: Value)       // 'size must be < ' + str(size)
    | NoAttribute(attr: string)    // the interpreter's text for a missing attribute
    | Unsupported                  // the interpreter's own text for an unsupported operand

  datatype Exc = Exc(cls: ExcClass, msg: Msg)

  /** Either the value a call returns or the exception it raises. */
  datatype Outcome<+T> = Ok(value: T) | Raised(exc: Exc)

  /** `v < 0` for an arbitrary v: numbers compare, every other operand type
      makes the interpreter raise TypeError. */
  function LessThanZero(v: Value): (r: Outcome<bool>)
    ensures r.Raised? <==> !IsNumber(v)
    ensures r.Raised? ==> r.exc.cls == TypeError
    ensures r.Ok? ==> (r.value <==> Numeric(v) < 0.0)
  {
    if IsNumber(v) then Ok(Numeric(v) < 0.0) else Raised(Exc(TypeError, Unsupported))
  }

  /** `n >= bound` for an int n and an arbitrary bound. */
  function AtLeast(n: int, bound: Value): (r: Outcome<bool>)
    ensures r.Raised? <==> !IsNumber(bound)
    ensures r.Raised? ==> r.exc.cls == TypeError
    ensures r.Ok? ==> (r.value <==> n as real >= Numeric(bound))
  {
    if IsNumber(bound) then Ok(n as real >= Numeric(bound)) else Raised(Exc(TypeError, Unsupported))
  }

  /** len(v): only strings among the modelled values have a length. */
  function Len(v: Value): (r: Outcome<nat>)
    ensures r.Ok? <==> v.StrV?
    ensures r.Ok? ==> r.value == |v.s|
    ensures r.Raised? ==> r.exc.cls == TypeError
  {
    if v.StrV? then Ok(|v.s|) else Raised(Exc(TypeError, Unsupported))
  }
}
