/** The Stock classes of descriptor.py: one set of validated attributes
    attached to a class in three ways. */
module Stocks {
  import opened Python
  import opened Descriptors


  /** cls.key is a descriptor of the given kind, named after key. */
  predicate IsDesc(cls: HostClass, key: string, kind: Kind)
    reads cls, DescsOf(cls.attrs)
  {
    key in cls.attrs && cls.attrs[key].Desc? && cls.attrs[key].d.kind == kind && cls.attrs[key].d.name == StrV(key)
  }

  /** The attributes the three Stock classes declare: a name of at most 7
      characters (option size=8), a non-negative int count of shares, a
      non-negative float price. */
  predicate StockShape(cls: HostClass)
    reads cls, DescsOf(cls.attrs)
  {
    && IsDesc(cls, "name", SizedString)
    && IsDesc(cls, "shares", UnsignedInteger)
    && IsDesc(cls, "price", UnsignedFloat)
    && "size" in cls.attrs["name"].d.attrs && cls.attrs["name"].d.attrs["size"] == IntV(8)
  }

  /** On a class of that shape, Stock(name, shares, price) stores each value
      under its own attribute name, and succeeds exactly when name is a str
      shorter than 8, shares a non-negative int (or bool) and price a
      non-negative float. */
  lemma StockInit(cls: HostClass, name: Value, shares: Value, price: Value)
    requires StockShape(cls)
    ensures Slot(cls, "name") == StrV("name") && Slot(cls, "shares") == StrV("shares") && Slot(cls, "price") == StrV("price")
    ensures WriteFailure(cls, "name", name).None? <==> name.StrV? && |name.s| < 8
    ensures WriteFailure(cls, "shares", shares).None? <==> IsInstance(shares, IntType) && Numeric(shares) >= 0.0
    ensures WriteFailure(cls, "price", price).None? <==> price.FloatV? && price.r >= 0.0
  {
    SizedStringChecks(cls.attrs["name"].d.attrs, name, 8);
    UnsignedIntegerChecks(cls.attrs["shares"].d.attrs, shares);
    UnsignedFloatChecks(cls.attrs["price"].d.attrs, price);
  }

  /** Writing the int 1 to price raises TypeError (1 is not a float), and so
      does a str; writing -1.5 raises ValueError. */
  lemma StockPriceRefusals(cls: HostClass)
    requires StockShape(cls)
    ensures WriteFailure(cls, "price", IntV(1)) == Some(Exc(TypeError, Expected(FloatType)))
    ensures WriteFailure(cls, "price", StrV("alot")) == Some(Exc(TypeError, Expected(FloatType)))
    ensures WriteFailure(cls, "price", FloatV(-1.5)) == Some(Exc(ValueError, Text("expected >=0")))
  {
    var attrs := cls.attrs["price"].d.attrs;
    UnsignedFloatChecks(attrs, IntV(1));
    UnsignedFloatChecks(attrs, StrV("alot"));
    UnsignedFloatChecks(attrs, FloatV(-1.5));
  }

  /** SizedString(name, size=8). */
  method NewSizedString(name: Value) returns (d: Descriptor)
    ensures fresh(d) && d.kind == SizedString && d.name == name
    ensures "size" in d.attrs && d.attrs["size"] == IntV(8)
  {
    DictOfLookup([("size", IntV(8))], 0);
    var r := New(SizedString, name, [("size", IntV(8))]);
    d := r.value;
  }

  /** A descriptor class that takes no options, called with a name. */
  method NewPlain(kind: Kind, name: Value) returns (d: Descriptor)
    requires !NeedsSize(kind)
    ensures fresh(d) && d.kind == kind && d.name == name
  {
    var r := New(kind, name, []);
    d := r.value;
  }

  /** class Stock: descriptors constructed with their names spelled out. */
  method DefineStock() returns (cls: HostClass)
    ensures fresh(cls) && StockShape(cls)
  {
    var name := NewSizedString(StrV("name"));
    var shares := NewPlain(UnsignedInteger, StrV("shares"));
    var price := NewPlain(UnsignedFloat, StrV("price"));
    cls := new HostClass(map["name" := Desc(name), "shares" := Desc(shares), "price" := Desc(price)]);
  }

  /** The keyword arguments Stock2's decorator receives. */
  function Stock2Kwargs(name: Descriptor): seq<(string, Member)>
  {
    [("name", Desc(name)), ("shares", DescClass(UnsignedInteger)), ("price", DescClass(UnsignedFloat))]
  }

  /** The three keys differ (they differ in length). */
  lemma Stock2KeysDistinct(name: Descriptor)
    ensures DistinctKeys(Stock2Kwargs(name))
  {
    var kwargs := Stock2Kwargs(name);
    assert kwargs[0].0 == "name" && kwargs[1].0 == "shares" && kwargs[2].0 == "price";
    assert |"name"| == 4 && |"shares"| == 6 && |"price"| == 5;
  }

  /** What check_attributes leaves on Stock2 once all three pairs are done:
      the instance under "name"; the made descriptors under "shares" and
      "price". */
  lemma Stock2Bound(name: Descriptor, done: nat, installed: seq<Member>)
    requires done == |installed| == 3
    requires forall i :: 0 <= i < 3 ==> Fits(Stock2Kwargs(name)[i].1, installed[i])
    ensures var attrs := Bind(map[], Stock2Kwargs(name)[..done], installed);
      && "name" in attrs && attrs["name"] == Desc(name) && installed[1].Desc? && installed[2].Desc?
      && "shares" in attrs && attrs["shares"] == installed[1] && installed[1].d.kind == UnsignedInteger
      && "price" in attrs && attrs["price"] == installed[2] && installed[2].d.kind == UnsignedFloat
  {
    var kwargs := Stock2Kwargs(name);
    assert kwargs[..done] == kwargs;
    Stock2KeysDistinct(name);
    BindLookup(map[], kwargs, installed);
    assert kwargs[0].0 == "name";
    assert kwargs[1].0 == "shares" && Fits(kwargs[1].1, installed[1]);
    assert kwargs[2].0 == "price" && Fits(kwargs[2].1, installed[2]);
  }

  /** The instance listed under "name" is named "name". */
  lemma Stock2Named(name: Descriptor, done: nat)
    requires done == 3
    ensures BoundName(Stock2Kwargs(name)[..done], name, NoneV) == StrV("name")
  {
    assert Stock2Kwargs(name)[..done] == Stock2Kwargs(name);
    BoundNameIsLastKey(Stock2Kwargs(name), name, NoneV, 0);
  }

  /** class Stock2 under @check_attributes(name=SizedString(size=8),
      shares=UnsignedInteger, price=UnsignedFloat). */
  method DefineStock2() returns (cls: HostClass)
    ensures fresh(cls) && StockShape(cls)
  {
    var name := NewSizedString(NoneV);
    cls := new HostClass(map[]);
    Stock2KeysDistinct(name);
    var r, done;
    ghost var installed;
    r, done, installed := CheckAttributes(Stock2Kwargs(name), cls);
    assert done == 3;
    Stock2Bound(name, done, installed);
    assert Stock2Kwargs(name)[0].1 == Desc(name);
    Stock2Named(name, done);
  }

  /** The class body of Stock3. */
  function Stock3Body(name: Descriptor, shares: Descriptor, price: Descriptor): seq<(string, Member)>
  {
    [("name", Desc(name)), ("shares", Desc(shares)), ("price", Desc(price))]
  }

  /** The namespace of Stock3's body has one entry per attribute name. */
  lemma Stock3KeysDistinct(name: Descriptor, shares: Descriptor, price: Descriptor)
    ensures DistinctKeys(Stock3Body(name, shares, price))
  {
    var body := Stock3Body(name, shares, price);
    assert body[0].0 == "name" && body[1].0 == "shares" && body[2].0 == "price";
    assert |"name"| == 4 && |"shares"| == 6 && |"price"| == 5;
  }

  /** The metaclass finds each instance under its own key, and names each
      after that key, provided the three are distinct objects. */
  lemma Stock3Bound(name: Descriptor, shares: Descriptor, price: Descriptor)
    requires name != shares && name != price && shares != price
    ensures var body := Stock3Body(name, shares, price);
      && var attrs := DictOf(body);
      && "name" in attrs && attrs["name"] == Desc(name)
      && "shares" in attrs && attrs["shares"] == Desc(shares)
      && "price" in attrs && attrs["price"] == Desc(price)
      && BoundName(body, name, NoneV) == StrV("name")
      && BoundName(body, shares, NoneV) == StrV("shares")
      && BoundName(body, price, NoneV) == StrV("price")
  {
    var body := Stock3Body(name, shares, price);
    assert body[0].0 == "name" && body[1].0 == "shares" && body[2].0 == "price";
    assert |"name"| == 4 && |"shares"| == 6 && |"price"| == 5;
    DictOfLookup(body, 0);
    DictOfLookup(body, 1);
    DictOfLookup(body, 2);
    BoundNameIsLastKey(body, name, NoneV, 0);
    BoundNameIsLastKey(body, shares, NoneV, 1);
    BoundNameIsLastKey(body, price, NoneV, 2);
  }

  /** class Stock3 with metaclass checkmeta: descriptors constructed without
      names and named by the metaclass. */
  method DefineStock3() returns (cls: HostClass)
    ensures fresh(cls) && StockShape(cls)
  {
    var name := NewSizedString(NoneV);
    var shares := NewPlain(UnsignedInteger, NoneV);
    var price := NewPlain(UnsignedFloat, NoneV);
    Stock3KeysDistinct(name, shares, price);
    cls := CheckMeta(Stock3Body(name, shares, price));
    Stock3Bound(name, shares, price);
    assert Stock3Body(name, shares, price)[0].1 == Desc(name);
    assert Stock3Body(name, shares, price)[1].1 == Desc(shares);
    assert Stock3Body(name, shares, price)[2].1 == Desc(price);
  }
}
