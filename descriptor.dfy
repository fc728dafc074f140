/** descriptor.py: descriptors that validate a value before storing it in the
    instance, combined by multiple inheritance, and three ways of attaching
    them to a class (explicit names, a class decorator, a metaclass). */
module Descriptors {
  import opened Python

  // ---------------------------------------------------------------------
  // The descriptor classes and their checks
  // ---------------------------------------------------------------------

  /** The descriptor classes of descriptor.py. */
  datatype Kind =
    | BaseDescriptor     // Descriptor
    | Typed
    | Unsigned
    | MaxSized
    | Integer
    | UnsignedInteger
    | Float
    | UnsignedFloat
    | String
    | SizedString

  /** One __set__ override: a type test, the sign test of Unsigned, or the
      length test of MaxSized. */
  datatype Check = TypeCheck(expected: PyType) | SignCheck | SizeCheck

  /** The __set__ overrides a class runs, in its method resolution order,
      before Descriptor.__set__ stores the value. Typed precedes Unsigned in
      UnsignedInteger(Integer, Unsigned) and UnsignedFloat(Float, Unsigned),
      and precedes MaxSized in SizedString(String, MaxSized). */
  function SetChain(k: Kind): (r: seq<Check>)
    ensures SizeCheck in r <==> NeedsSize(k)
    ensures SignCheck in r <==> k in {Unsigned, UnsignedInteger, UnsignedFloat}
    ensures forall i :: 0 < i < |r| ==> !r[i].TypeCheck?
  {
    match k
    case BaseDescriptor => []
    case Typed => [TypeCheck(NoneType)]
    case Unsigned => [SignCheck]
    case MaxSized => [SizeCheck]
    case Integer => [TypeCheck(IntType)]
    case UnsignedInteger => [TypeCheck(IntType), SignCheck]
    case Float => [TypeCheck(FloatType)]
    case UnsignedFloat => [TypeCheck(FloatType), SignCheck]
    case String => [TypeCheck(StrType)]
    case SizedString => [TypeCheck(StrType), SizeCheck]
  }

  /** The classes whose __init__ resolves to MaxSized.__init__. */
  predicate NeedsSize(k: Kind)
  {
    k == MaxSized || k == SizedString
  }

  /** One override: None when it hands the value on with super().__set__,
      otherwise the exception it raises. `attrs` holds the descriptor's
      instance attributes (its options). */
  function RunCheck(c: Check, attrs: map<string, Value>, v: Value): (r: Option<Exc>)
    ensures c.TypeCheck? ==> (r.None? <==> IsInstance(v, c.expected))
    ensures c.TypeCheck? && r.Some? ==> r.value == Exc(TypeError, Expected(c.expected))
    ensures c == SignCheck ==> (r.None? <==> IsNumber(v) && Numeric(v) >= 0.0)
    ensures c == SizeCheck ==> (r.None? <==>
      v.StrV? && "size" in attrs && IsNumber(attrs["size"]) && (|v.s| as real) < Numeric(attrs["size"]))
    ensures r.Some? ==> r.value.cls in {TypeError, ValueError, AttributeError}
  {
    match c
    case TypeCheck(t) =>
      if IsInstance(v, t) then None else Some(Exc(TypeError, Expected(t)))
    case SignCheck =>
      (match LessThanZero(v)
       case Raised(e) => Some(e)
       case Ok(negative) => if negative then Some(Exc(ValueError, Text("expected >=0"))) else None)
    case SizeCheck =>
      // len(value) is evaluated before self.size, then the two are compared
      match Len(v)
      case Raised(e) => Some(e)
      case Ok(n) =>
        if "size" !in attrs then Some(Exc(AttributeError, NoAttribute("size")))
        else
          match AtLeast(n, attrs["size"])
          case Raised(e) => Some(e)
          case Ok(tooLong) => if tooLong then Some(Exc(ValueError, SizeBound(attrs["size"]))) else None
  }

  /** The chain of __set__ overrides: the first exception raised, or None
      when the value reaches Descriptor.__set__. */
  function Validate(checks: seq<Check>, attrs: map<string, Value>, v: Value): (r: Option<Exc>)
    ensures r.Some? ==> exists i :: 0 <= i < |checks| && r == RunCheck(checks[i], attrs, v)
  {
    if checks == [] then None
    else if RunCheck(checks[0], attrs, v).Some? then RunCheck(checks[0], attrs, v)
    else Validate(checks[1..], attrs, v)
  }

  /** A value reaches the store exactly when every check in the chain passes;
      otherwise the exception is that of the first check that fails. */
  lemma {:induction false} ValidateFirstFailure(checks: seq<Check>, attrs: map<string, Value>, v: Value)
    ensures Validate(checks, attrs, v).None? <==> forall i :: 0 <= i < |checks| ==> RunCheck(checks[i], attrs, v).None?
    ensures Validate(checks, attrs, v).Some? ==>
      exists i :: 0 <= i < |checks| && Validate(checks, attrs, v) == RunCheck(checks[i], attrs, v)
        && forall j :: 0 <= j < i ==> RunCheck(checks[j], attrs, v).None?
  {
    if checks != [] {
      ValidateFirstFailure(checks[1..], attrs, v);
      assert forall i :: 1 <= i < |checks| ==> checks[i] == checks[1..][i - 1];
      if RunCheck(checks[0], attrs, v).None? && Validate(checks, attrs, v).Some? {
        var i :| 0 <= i < |checks| - 1 && Validate(checks[1..], attrs, v) == RunCheck(checks[1..][i], attrs, v)
          && forall j :: 0 <= j < i ==> RunCheck(checks[1..][j], attrs, v).None?;
        assert forall j :: 0 <= j < i + 1 ==> RunCheck(checks[j], attrs, v).None? by {
          forall j | 0 <= j < i + 1 ensures RunCheck(checks[j], attrs, v).None? {
            if j > 0 { assert checks[j] == checks[1..][j - 1]; }
          }
        }
      }
    }
  }

  /** A chain of two overrides runs the first, then the second. */
  lemma ValidateTwo(c1: Check, c2: Check, attrs: map<string, Value>, v: Value)
    ensures Validate([c1, c2], attrs, v)
         == if RunCheck(c1, attrs, v).Some? then RunCheck(c1, attrs, v) else RunCheck(c2, attrs, v)
  {
    assert [c1, c2][0] == c1 && [c1, c2][1..] == [c2];
    assert [c2][0] == c2 && [c2][1..] == [];
    assert Validate([c2], attrs, v) == RunCheck(c2, attrs, v) by {
      assert Validate([c2][1..], attrs, v) == None;
    }
  }

  /** UnsignedInteger: a value that is not an int raises TypeError, a negative
      int raises ValueError, a non-negative int is stored. */
  lemma UnsignedIntegerChecks(attrs: map<string, Value>, v: Value)
    ensures !IsInstance(v, IntType) ==> Validate(SetChain(UnsignedInteger), attrs, v) == Some(Exc(TypeError, Expected(IntType)))
    ensures IsInstance(v, IntType) && Numeric(v) < 0.0 ==> Validate(SetChain(UnsignedInteger), attrs, v) == Some(Exc(ValueError, Text("expected >=0")))
    ensures Validate(SetChain(UnsignedInteger), attrs, v).None? <==> IsInstance(v, IntType) && Numeric(v) >= 0.0
  {
    ValidateTwo(TypeCheck(IntType), SignCheck, attrs, v);
  }

  /** UnsignedFloat: the same with float, so an int (even 1) is refused. */
  lemma UnsignedFloatChecks(attrs: map<string, Value>, v: Value)
    ensures !IsInstance(v, FloatType) ==> Validate(SetChain(UnsignedFloat), attrs, v) == Some(Exc(TypeError, Expected(FloatType)))
    ensures v.FloatV? && v.r < 0.0 ==> Validate(SetChain(UnsignedFloat), attrs, v) == Some(Exc(ValueError, Text("expected >=0")))
    ensures Validate(SetChain(UnsignedFloat), attrs, v).None? <==> v.FloatV? && v.r >= 0.0
  {
    ValidateTwo(TypeCheck(FloatType), SignCheck, attrs, v);
  }

  /** SizedString with an int size: a value that is not a str raises
      TypeError, a str of length size or more raises ValueError, a shorter
      str is stored. */
  lemma SizedStringChecks(attrs: map<string, Value>, v: Value, size: int)
    requires "size" in attrs && attrs["size"] == IntV(size)
    ensures !v.StrV? ==> Validate(SetChain(SizedString), attrs, v) == Some(Exc(TypeError, Expected(StrType)))
    ensures v.StrV? && |v.s| >= size ==> Validate(SetChain(SizedString), attrs, v) == Some(Exc(ValueError, SizeBound(IntV(size))))
    ensures Validate(SetChain(SizedString), attrs, v).None? <==> v.StrV? && |v.s| < size
  {
    ValidateTwo(TypeCheck(StrType), SizeCheck, attrs, v);
  }

  /** The plain type descriptors test the type and nothing else. */
  lemma TypedOnlyChecks(attrs: map<string, Value>, v: Value)
    ensures Validate(SetChain(Integer), attrs, v).None? <==> IsInstance(v, IntType)
    ensures Validate(SetChain(Float), attrs, v).None? <==> IsInstance(v, FloatType)
    ensures Validate(SetChain(String), attrs, v).None? <==> IsInstance(v, StrType)
    ensures Validate(SetChain(Typed), attrs, v).None? <==> v.NoneV?
    ensures Validate(SetChain(BaseDescriptor), attrs, v).None?
  {
  }

  /** With size 8 a 7-character name is stored and an 8-character name is
      refused, as the Stock classes declare it. */
  lemma StockNameBoundary(seven: string, eight: string)
    requires |seven| == 7 && |eight| == 8
    ensures Validate(SetChain(SizedString), map["size" := IntV(8)], StrV(seven)).None?
    ensures Validate(SetChain(SizedString), map["size" := IntV(8)], StrV(eight)) == Some(Exc(ValueError, SizeBound(IntV(8))))
  {
    SizedStringChecks(map["size" := IntV(8)], StrV(seven), 8);
    SizedStringChecks(map["size" := IntV(8)], StrV(eight), 8);
  }

  // ---------------------------------------------------------------------
  // Keyword arguments and class bodies as ordered dicts
  // ---------------------------------------------------------------------

  /** The dict built from (key, value) pairs in order; a later pair for the
      same key replaces an earlier one. */
  function DictOf<T>(items: seq<(string, T)>): map<string, T>
  {
    if items == [] then map[]
    else DictOf(items[..|items| - 1])[items[|items| - 1].0 := items[|items| - 1].1]
  }

  lemma {:induction false} DictOfLookup<T>(items: seq<(string, T)>, i: nat)
    requires i < |items|
    requires forall j :: i < j < |items| ==> items[j].0 != items[i].0
    ensures items[i].0 in DictOf(items) && DictOf(items)[items[i].0] == items[i].1
  {
    if i < |items| - 1 {
      DictOfLookup(items[..|items| - 1], i);
    }
  }

  /** Python keyword arguments and dict keys are distinct. */
  predicate DistinctKeys<T>(items: seq<(string, T)>)
  {
    forall i, j :: 0 <= i < j < |items| ==> items[i].0 != items[j].0
  }

  // ---------------------------------------------------------------------
  // Descriptor objects, instances and classes
  // ---------------------------------------------------------------------

  /** A class attribute: a descriptor instance, a descriptor class (not yet
      instantiated), or any other value. */
  datatype Member = Desc(d: Descriptor) | DescClass(kind: Kind) | Plain(v: Value)

  /** An object whose __dict__ the descriptors write into. */
  class Instance {
    var dict: map<Value, Value>

    constructor ()
      ensures dict == map[]
    {
      dict := map[];
    }
  }

  class Descriptor {
    const kind: Kind
    var name: Value
    var attrs: map<string, Value>

    /** Descriptor.__init__: the name, then setattr for each option in turn.
        Python refuses a second value for the parameter `name`. */
    constructor (kind: Kind, name: Value, opts: seq<(string, Value)>)
      requires "name" !in DictOf(opts)
      ensures this.kind == kind && this.name == name && attrs == DictOf(opts)
    {
      this.kind := kind;
      this.name := name;
      attrs := map[];
      new;
      for i := 0 to |opts|
        invariant this.name == name
        invariant attrs == DictOf(opts[..i])
      {
        assert opts[..i + 1][..i] == opts[..i];
        attrs := attrs[opts[i].0 := opts[i].1];
      }
      assert opts[..|opts|] == opts;
    }

    /** __set__: the overrides in resolution order, then the store under
        self.name; an instance is changed only when every check passes. */
    method Set(inst: Instance, value: Value) returns (r: Outcome<Unit>)
      modifies inst`dict
      ensures Validate(SetChain(kind), attrs, value).None? ==>
        r == Ok(Unit) && inst.dict == old(inst.dict)[name := value]
      ensures Validate(SetChain(kind), attrs, value).Some? ==>
        r == Raised(Validate(SetChain(kind), attrs, value).value) && inst.dict == old(inst.dict)
    {
      var failure := Validate(SetChain(kind), attrs, value);
      if failure.Some? {
        r := Raised(failure.value);
      } else {
        inst.dict := inst.dict[name := value];
        r := Ok(Unit);
      }
    }
  }

  /** Calling a descriptor class: MaxSized.__init__ refuses a missing size
      option before Descriptor.__init__ runs. */
  method New(kind: Kind, name: Value, opts: seq<(string, Value)>) returns (r: Outcome<Descriptor>)
    requires "name" !in DictOf(opts)
    ensures r.Raised? <==> NeedsSize(kind) && "size" !in DictOf(opts)
    ensures r.Raised? ==> r.exc == Exc(TypeError, Text("missing size option"))
    ensures r.Ok? ==> fresh(r.value) && r.value.kind == kind && r.value.name == name && r.value.attrs == DictOf(opts)
  {
    if NeedsSize(kind) && "size" !in DictOf(opts) {
      return Raised(Exc(TypeError, Text("missing size option")));
    }
    var d := new Descriptor(kind, name, opts);
    r := Ok(d);
  }

  /** The descriptor objects among a class's attributes. */
  function DescsOf(attrs: map<string, Member>): set<Descriptor>
  {
    set k | k in attrs && attrs[k].Desc? :: attrs[k].d
  }

  class HostClass {
    var attrs: map<string, Member>

    constructor (attrs: map<string, Member>)
      ensures this.attrs == attrs
    {
      this.attrs := attrs;
    }
  }

  /** The key of the instance __dict__ that `obj.key = value` writes: the
      descriptor's name when the class attribute is a descriptor, the
      attribute name otherwise. */
  function Slot(cls: HostClass, key: string): Value
    reads cls, DescsOf(cls.attrs)
  {
    if key in cls.attrs && cls.attrs[key].Desc? then cls.attrs[key].d.name else StrV(key)
  }

  /** The exception `obj.key = value` raises, if any. */
  function WriteFailure(cls: HostClass, key: string, value: Value): Option<Exc>
    reads cls, DescsOf(cls.attrs)
  {
    if key in cls.attrs && cls.attrs[key].Desc? then
      var d := cls.attrs[key].d;
      Validate(SetChain(d.kind), d.attrs, value)
    else None
  }

  /** `obj.key`: these descriptors define no __get__, so the instance
      __dict__ is consulted first, then the class. */
  function GetAttr(cls: HostClass, inst: Instance, key: string): (r: Outcome<Member>)
    reads cls, inst
    ensures r.Ok? <==> StrV(key) in inst.dict || key in cls.attrs
    ensures StrV(key) in inst.dict ==> r == Ok(Plain(inst.dict[StrV(key)]))
    ensures StrV(key) !in inst.dict && key in cls.attrs ==> r == Ok(cls.attrs[key])
    ensures r.Raised? ==> r.exc.cls == AttributeError
  {
    if StrV(key) in inst.dict then Ok(Plain(inst.dict[StrV(key)]))
    else if key in cls.attrs then Ok(cls.attrs[key])
    else Raised(Exc(AttributeError, NoAttribute(key)))
  }

  /** `obj.key = value`. A successful write through a descriptor bound to
      `key` is what a later read of `obj.key` returns. */
  method SetAttr(cls: HostClass, inst: Instance, key: string, value: Value) returns (r: Outcome<Unit>)
    modifies inst`dict
    ensures WriteFailure(cls, key, value).None? ==>
      r == Ok(Unit) && inst.dict == old(inst.dict)[Slot(cls, key) := value]
    ensures WriteFailure(cls, key, value).Some? ==>
      r == Raised(WriteFailure(cls, key, value).value) && inst.dict == old(inst.dict)
    ensures r.Ok? && Slot(cls, key) == StrV(key) ==> GetAttr(cls, inst, key) == Ok(Plain(value))
  {
    if key in cls.attrs && cls.attrs[key].Desc? {
      r := cls.attrs[key].d.Set(inst, value);
    } else {
      inst.dict := inst.dict[StrV(key) := value];
      r := Ok(Unit);
    }
  }

  /** The __init__ shared by Stock, Stock2 and Stock3: three attribute writes
      in order; the first refused one propagates and no instance results. */
  method InitStock(cls: HostClass, name: Value, shares: Value, price: Value) returns (r: Outcome<Instance>)
    ensures r.Ok? <==>
      WriteFailure(cls, "name", name).None? && WriteFailure(cls, "shares", shares).None?
      && WriteFailure(cls, "price", price).None?
    ensures r.Ok? ==>
      && fresh(r.value)
      && r.value.dict == map[Slot(cls, "name") := name][Slot(cls, "shares") := shares][Slot(cls, "price") := price]
    ensures r.Raised? ==>
      Some(r.exc) ==
        if WriteFailure(cls, "name", name).Some? then WriteFailure(cls, "name", name)
        else if WriteFailure(cls, "shares", shares).Some? then WriteFailure(cls, "shares", shares)
        else WriteFailure(cls, "price", price)
  {
    var inst := new Instance();
    ghost var d1 := map[Slot(cls, "name") := name];
    ghost var d2 := d1[Slot(cls, "shares") := shares];
    var w := SetAttr(cls, inst, "name", name);
    if w.Raised? { return Raised(w.exc); }
    assert inst.dict == d1;
    w := SetAttr(cls, inst, "shares", shares);
    if w.Raised? { return Raised(w.exc); }
    assert inst.dict == d2;
    w := SetAttr(cls, inst, "price", price);
    if w.Raised? { return Raised(w.exc); }
    r := Ok(inst);
  }

  // ---------------------------------------------------------------------
  // Binding names: check_attributes and checkmeta
  // ---------------------------------------------------------------------

  /** The listed descriptor instances. */
  function ListedDescs(items: seq<(string, Member)>): set<Descriptor>
  {
    set i | 0 <= i < |items| && items[i].1.Desc? :: items[i].1.d
  }

  /** The name d has after `value.name = key` ran for each pair in order:
      the key of the last pair that holds d, or its earlier name. */
  function BoundName(items: seq<(string, Member)>, d: Descriptor, prior: Value): Value
  {
    if items == [] then prior
    else if items[|items| - 1].1 == Desc(d) then StrV(items[|items| - 1].0)
    else BoundName(items[..|items| - 1], d, prior)
  }

  /** The last binding wins: a descriptor listed under several keys ends up
      named after the last of them, one listed once after its key, and one
      not listed keeps its name. */
  lemma {:induction false} BoundNameIsLastKey(items: seq<(string, Member)>, d: Descriptor, prior: Value, i: nat)
    requires i < |items| && items[i].1 == Desc(d)
    requires forall j :: i < j < |items| ==> items[j].1 != Desc(d)
    ensures BoundName(items, d, prior) == StrV(items[i].0)
  {
    if i < |items| - 1 {
      BoundNameIsLastKey(items[..|items| - 1], d, prior, i);
    }
  }

  /** One more pair: its key if it holds d, otherwise the name so far. */
  lemma BoundNameStep(items: seq<(string, Member)>, n: nat, d: Descriptor, prior: Value)
    requires n < |items|
    ensures BoundName(items[..n + 1], d, prior)
         == if items[n].1 == Desc(d) then StrV(items[n].0) else BoundName(items[..n], d, prior)
  {
    assert items[..n + 1][..n] == items[..n];
  }

  lemma {:induction false} BoundNameUnlisted(items: seq<(string, Member)>, d: Descriptor, prior: Value)
    requires forall j :: 0 <= j < |items| ==> items[j].1 != Desc(d)
    ensures BoundName(items, d, prior) == prior
  {
    if items != [] {
      BoundNameUnlisted(items[..|items| - 1], d, prior);
    }
  }

  /** The keys of (key, value) pairs. */
  function KeysOf<T>(items: seq<(string, T)>): set<string>
  {
    if items == [] then {} else KeysOf(items[..|items| - 1]) + {items[|items| - 1].0}
  }

  /** What check_attributes installs for a keyword value: the descriptor
      instance itself, or a descriptor of the given class. */
  predicate Fits(value: Member, m: Member)
  {
    && m.Desc?
    && (value.Desc? ==> m == value)
    && (value.DescClass? ==> m.d.kind == value.kind)
  }

  /** The class dictionary after installing members[i] under items[i].0 for
      each i in order. */
  function Bind(attrs: map<string, Member>, items: seq<(string, Member)>, members: seq<Member>): map<string, Member>
    requires |members| == |items|
  {
    if items == [] then attrs
    else Bind(attrs, items[..|items| - 1], members[..|items| - 1])[items[|items| - 1].0 := members[|items| - 1]]
  }

  /** With distinct keys, each key ends up holding its own member, the keys
      are the old ones plus the listed ones, and unlisted keys keep their
      entries. */
  lemma {:induction false} BindLookup(attrs: map<string, Member>, items: seq<(string, Member)>, members: seq<Member>)
    requires |members| == |items| && DistinctKeys(items)
    ensures forall i :: 0 <= i < |items| ==> items[i].0 in Bind(attrs, items, members) && Bind(attrs, items, members)[items[i].0] == members[i]
    ensures Bind(attrs, items, members).Keys == attrs.Keys + KeysOf(items)
    ensures forall k :: k in attrs && k !in KeysOf(items) ==> Bind(attrs, items, members)[k] == attrs[k]
  {
    if items != [] {
      var n := |items| - 1;
      assert DistinctKeys(items[..n]);
      BindLookup(attrs, items[..n], members[..n]);
      forall i | 0 <= i < n
        ensures items[..n][i].0 != items[n].0
      {
      }
    }
  }

  /** One iteration of check_attributes: name a descriptor instance and
      install it, or call a descriptor class with the key and install the
      result. */
  method Install(cls: HostClass, key: string, value: Member) returns (r: Outcome<Unit>, ghost m: Member)
    modifies cls`attrs, (if value.Desc? then {value.d} else {})`name
    ensures r.Ok? <==> Callable(value)
    ensures r.Raised? ==> r.exc == CallFailure(value) && cls.attrs == old(cls.attrs)
    ensures r.Ok? ==> Fits(value, m) && cls.attrs == old(cls.attrs)[key := m] && m.d.name == StrV(key)
    ensures r.Ok? && value.DescClass? ==> fresh(m.d) && m.d.attrs == map[]
  {
    m := value;
    match value
    case Desc(d) =>
      d.name := StrV(key);
      cls.attrs := cls.attrs[key := value];
      r := Ok(Unit);
    case DescClass(kind) =>
      var made := New(kind, StrV(key), []);
      if made.Raised? {
        return Raised(made.exc), m;
      }
      m := Desc(made.value);
      cls.attrs := cls.attrs[key := Desc(made.value)];
      r := Ok(Unit);
    case Plain(_) =>
      r := Raised(Exc(TypeError, Unsupported));
  }

  /** The first n pairs of check_attributes are done: each was callable and
      what was installed for it fits it, in order, over the dictionary attrs0. */
  predicate Progress(kwargs: seq<(string, Member)>, n: nat, installed: seq<Member>,
                     attrs0: map<string, Member>, attrs: map<string, Member>)
  {
    && n <= |kwargs| && |installed| == n
    && (forall i :: 0 <= i < n ==> Callable(kwargs[i].1) && Fits(kwargs[i].1, installed[i]))
    && attrs == Bind(attrs0, kwargs[..n], installed)
  }

  lemma ProgressStep(kwargs: seq<(string, Member)>, n: nat, installed: seq<Member>,
                     attrs0: map<string, Member>, attrs: map<string, Member>, m: Member)
    requires Progress(kwargs, n, installed, attrs0, attrs) && n < |kwargs|
    requires Callable(kwargs[n].1) && Fits(kwargs[n].1, m)
    ensures Progress(kwargs, n + 1, installed + [m], attrs0, attrs[kwargs[n].0 := m])
  {
    assert kwargs[..n + 1][..n] == kwargs[..n];
    assert (installed + [m])[..n] == installed;
  }

  /** The descriptors made from the classes among the first |made| pairs. */
  function MadeDescs(items: seq<(string, Member)>, made: seq<Member>): set<Descriptor>
    requires |made| <= |items|
  {
    set i | 0 <= i < |made| && items[i].1.DescClass? && made[i].Desc? :: made[i].d
  }

  /** Each descriptor made from a class is named after its key, with no options. */
  ghost predicate MadeNamed(items: seq<(string, Member)>, made: seq<Member>)
    requires |made| <= |items|
    reads MadeDescs(items, made)
  {
    forall i :: 0 <= i < |made| && items[i].1.DescClass? && made[i].Desc? ==>
      made[i].d.name == StrV(items[i].0) && made[i].d.attrs == map[]
  }

  /** Each listed descriptor instance carries the name the first n pairs bind
      it to, starting from names0. */
  ghost predicate NamedAsBound(items: seq<(string, Member)>, n: nat, names0: seq<Value>)
    requires n <= |items| && |names0| == |items|
    reads ListedDescs(items)
  {
    forall i :: 0 <= i < |items| && items[i].1.Desc? ==>
      items[i].1.d.name == BoundName(items[..n], items[i].1.d, names0[i])
  }

  /** One pass of check_attributes' loop over kwargs[done], stated against
      the whole list. */
  method InstallNext(kwargs: seq<(string, Member)>, cls: HostClass, done: nat,
                     ghost installed: seq<Member>, ghost names0: seq<Value>)
      returns (r: Outcome<Unit>, ghost m: Member)
    requires done < |kwargs| && |installed| == done && |names0| == |kwargs|
    requires forall i :: 0 <= i < done ==> Fits(kwargs[i].1, installed[i])
    requires kwargs[done].1.Desc? ==> kwargs[done].1.d !in MadeDescs(kwargs, installed)
    requires MadeNamed(kwargs, installed) && NamedAsBound(kwargs, done, names0)
    modifies cls`attrs, (if kwargs[done].1.Desc? then {kwargs[done].1.d} else {})`name
    ensures r.Ok? <==> Callable(kwargs[done].1)
    ensures r.Raised? ==> r.exc == CallFailure(kwargs[done].1) && cls.attrs == old(cls.attrs)
    ensures r.Ok? ==>
      && Fits(kwargs[done].1, m)
      && cls.attrs == old(cls.attrs)[kwargs[done].0 := m]
      && (kwargs[done].1.DescClass? ==> fresh(m.d))
      && MadeNamed(kwargs, installed + [m]) && NamedAsBound(kwargs, done + 1, names0)
  {
    var (key, value) := kwargs[done];
    r, m := Install(cls, key, value);
    if r.Raised? {
      return;
    }
    ghost var installed' := installed + [m];
    forall i | 0 <= i < done + 1 && kwargs[i].1.DescClass? && installed'[i].Desc?
      ensures installed'[i].d.name == StrV(kwargs[i].0) && installed'[i].d.attrs == map[]
    {
      if i < done {
        assert installed'[i] == installed[i];
        assert installed[i].d in MadeDescs(kwargs, installed);
      }
    }
    forall i | 0 <= i < |kwargs| && kwargs[i].1.Desc?
      ensures kwargs[i].1.d.name == BoundName(kwargs[..done + 1], kwargs[i].1.d, names0[i])
    {
      BoundNameStep(kwargs, done, kwargs[i].1.d, names0[i]);
    }
  }

  /** The name each pair's descriptor instance has (NoneV for other pairs). */
  ghost function NamesIn(items: seq<(string, Member)>): (names: seq<Value>)
    reads ListedDescs(items)
    ensures |names| == |items|
    ensures forall i :: 0 <= i < |items| && items[i].1.Desc? ==> names[i] == items[i].1.d.name
  {
    seq(|items|, i requires 0 <= i < |items| reads ListedDescs(items) =>
      if items[i].1.Desc? then items[i].1.d.name else NoneV)
  }

  /** check_attributes(**kwargs) applied to cls. A descriptor instance is named
      after its key; anything else is called with the key (only a descriptor
      class that needs no options can be); the result is installed on the
      class under that key. A call that raises stops the loop after `done`
      entries, which stay installed. */
  method CheckAttributes(kwargs: seq<(string, Member)>, cls: HostClass)
      returns (r: Outcome<Unit>, done: nat, ghost installed: seq<Member>)
    requires DistinctKeys(kwargs)
    modifies cls`attrs, ListedDescs(kwargs)`name
    ensures done <= |kwargs| && (r.Ok? <==> done == |kwargs|) && |installed| == done
    ensures r.Raised? ==> !Callable(kwargs[done].1) && r.exc == CallFailure(kwargs[done].1)
    ensures forall i :: 0 <= i < done ==> Callable(kwargs[i].1) && Fits(kwargs[i].1, installed[i])
    ensures cls.attrs == Bind(old(cls.attrs), kwargs[..done], installed)
    ensures forall i :: 0 <= i < done && kwargs[i].1.DescClass? ==>
      installed[i].Desc? && fresh(installed[i].d) && installed[i].d.name == StrV(kwargs[i].0) && installed[i].d.attrs == map[]
    ensures forall i :: 0 <= i < |kwargs| && kwargs[i].1.Desc? ==>
      kwargs[i].1.d.name == BoundName(kwargs[..done], kwargs[i].1.d, old(kwargs[i].1.d.name))
  {
    done := 0;
    installed := [];
    ghost var names0 := NamesIn(kwargs);
    while done < |kwargs|
      invariant Progress(kwargs, done, installed, old(cls.attrs), cls.attrs)
      invariant forall i :: 0 <= i < done && kwargs[i].1.DescClass? ==> fresh(installed[i].d)
      invariant MadeNamed(kwargs, installed) && NamedAsBound(kwargs, done, names0)
    {
      if kwargs[done].1.Desc? {
        assert old(allocated(kwargs[done].1.d));
      }
      ghost var attrs := cls.attrs;
      ghost var m;
      r, m := InstallNext(kwargs, cls, done, installed, names0);
      if r.Raised? {
        return;
      }
      ProgressStep(kwargs, done, installed, old(cls.attrs), attrs, m);
      installed := installed + [m];
      done := done + 1;
    }
    r := Ok(Unit);
  }

  /** checkmeta.__new__(cls, clsname, bases, methods): `body` is
      methods.items(), the namespace the class body built, one pair per key
      in insertion order. Every descriptor in it is named after its key, and
      the class is created with the namespace unchanged. */
  method CheckMeta(body: seq<(string, Member)>) returns (cls: HostClass)
    requires DistinctKeys(body)
    modifies ListedDescs(body)`name
    ensures fresh(cls) && cls.attrs == DictOf(body)
    ensures forall i :: 0 <= i < |body| && body[i].1.Desc? ==>
      body[i].1.d.name == BoundName(body, body[i].1.d, old(body[i].1.d.name))
    ensures forall i :: 0 <= i < |body| ==> body[i].0 in cls.attrs && cls.attrs[body[i].0] == body[i].1
  {
    for i := 0 to |body|
      invariant forall j :: 0 <= j < |body| && body[j].1.Desc? ==>
        body[j].1.d.name == BoundName(body[..i], body[j].1.d, old(body[j].1.d.name))
    {
      assert body[..i + 1][..i] == body[..i];
      if body[i].1.Desc? {
        body[i].1.d.name := StrV(body[i].0);
      }
    }
    assert body[..|body|] == body;
    cls := new HostClass(DictOf(body));
    forall i | 0 <= i < |body|
      ensures body[i].0 in cls.attrs && cls.attrs[body[i].0] == body[i].1
    {
      DictOfLookup(body, i);
    }
  }

  /** A class body `a = d; b = d; a = d` leaves the namespace {a: d, b: d}
      in that order, so checkmeta names d 'b'. */
  method CheckMetaSharedDescriptor() returns (d: Descriptor, cls: HostClass)
    ensures d.name == StrV("b") && cls.attrs == map["a" := Desc(d), "b" := Desc(d)]
  {
    d := new Descriptor(UnsignedInteger, NoneV, []);
    var body := [("a", Desc(d)), ("b", Desc(d))];
    assert body[0].0 == "a" && body[1].0 == "b";
    cls := CheckMeta(body);
    BoundNameIsLastKey(body, d, NoneV, 1);
    assert body[..1][..0] == [];
    assert DictOf(body[..1]) == map["a" := Desc(d)];
  }

  /** Whether check_attributes can handle a keyword value: a descriptor
      instance, or a descriptor class whose construction from a name alone
      succeeds. */
  predicate Callable(m: Member)
  {
    m.Desc? || (m.DescClass? && !NeedsSize(m.kind))
  }

  /** The exception check_attributes raises for a value it cannot handle. */
  function CallFailure(m: Member): Exc
  {
    if m.DescClass? then Exc(TypeError, Text("missing size option"))
    else Exc(TypeError, Unsupported)   // calling an object that is not callable
  }
}
