/** delegation.py: a list wrapper, mixins that guard or log the item
    operations of a dict, and a connection whose behaviour is delegated to a
    state object. */
module Delegation {
  import opened Python

  // ---------------------------------------------------------------------
  // ListLike: a wrapper that forwards to a list it owns
  // ---------------------------------------------------------------------

  class ListLike<T> {
    var items: seq<T>

    constructor ()
      ensures items == []
    {
      items := [];
    }

    /** list.append, reached through the attribute forwarding. */
    method Append(x: T)
      modifies this
      ensures items == old(items) + [x]
    {
      items := items + [x];
    }

    /** __len__: the length of the backing list. */
    method Len() returns (n: nat)
      ensures n == |items|
    {
      n := |items|;
    }
  }

  // ---------------------------------------------------------------------
  // Mapping mixins
  // ---------------------------------------------------------------------

  /** A mixin that a dict subclass lists before dict among its bases. */
  datatype Mixin = LoggedMapping | SetOnceMapping | StringKeysMapping

  /** A dict entry: the key object it was first stored under, and its value. */
  datatype Entry<V> = Entry(key: Value, value: V)

  /** A dict, its entries filed by KeyOf, so equal keys share one entry. */
  type Dict<V> = map<Value, Entry<V>>

  /** Every entry is filed under the key class of the key it holds. */
  predicate WellFormed<V>(m: Dict<V>)
  {
    forall k :: k in m ==> KeyOf(m[k].key) == k
  }

  /** `key in d`: some stored key is equal to key. */
  predicate Contains<V>(m: Dict<V>, key: Value)
  {
    KeyOf(key) in m
  }

  /** Membership by KeyOf is membership by Python's ==: a well-formed dict
      contains key exactly when one of its stored keys is equal to it. */
  lemma ContainsMeansEqualKey<V>(m: Dict<V>, key: Value)
    requires WellFormed(m)
    ensures Contains(m, key) <==> exists k :: k in m && Equal(m[k].key, key)
  {
    if Contains(m, key) {
      KeyOfMatchesEqual(m[KeyOf(key)].key, key);
    }
    forall k | k in m && Equal(m[k].key, key)
      ensures Contains(m, key)
    {
      KeyOfMatchesEqual(m[k].key, key);
    }
  }

  /** dict.__getitem__: the value stored under an equal key, KeyError when
      no stored key is equal. */
  function DictGet<V>(m: Dict<V>, key: Value): (r: Outcome<V>)
    ensures r.Ok? <==> Contains(m, key)
    ensures r.Ok? ==> r.value == m[KeyOf(key)].value
    ensures r.Raised? ==> r.exc == Exc(KeyError, MissingKey(key))
  {
    if KeyOf(key) in m then Ok(m[KeyOf(key)].value) else Raised(Exc(KeyError, MissingKey(key)))
  }

  /** dict.__setitem__: the entry of an equal key gets the new value and keeps
      its key object; otherwise a new entry holds the key as given. */
  function DictStore<V>(m: Dict<V>, key: Value, value: V): (r: Dict<V>)
    ensures r.Keys == m.Keys + {KeyOf(key)} && r[KeyOf(key)].value == value
    ensures Contains(m, key) ==> r[KeyOf(key)].key == m[KeyOf(key)].key
    ensures !Contains(m, key) ==> r[KeyOf(key)].key == key
    ensures forall k :: k in m && k != KeyOf(key) ==> r[k] == m[k]
    ensures WellFormed(m) ==> WellFormed(r)
  {
    var k := KeyOf(key);
    m[k := Entry(if k in m then m[k].key else key, value)]
  }

  /** dict.__delitem__: the dict without the entry of an equal key, KeyError
      when there is none. */
  function DictDel<V>(m: Dict<V>, key: Value): (r: Outcome<Dict<V>>)
    ensures r.Ok? <==> Contains(m, key)
    ensures r.Ok? ==> r.value.Keys == m.Keys - {KeyOf(key)}
    ensures r.Ok? ==> forall k :: k in r.value ==> r.value[k] == m[k]
    ensures r.Ok? && WellFormed(m) ==> WellFormed(r.value)
    ensures r.Raised? ==> r.exc == Exc(KeyError, MissingKey(key))
  {
    if KeyOf(key) in m then Ok(m - {KeyOf(key)}) else Raised(Exc(KeyError, MissingKey(key)))
  }

  /** obj[key] = value on a class whose bases are `bases` followed by dict:
      each mixin's __setitem__ runs its guard and hands on to the next class
      of the method resolution order with super(); dict finally stores. */
  function ChainSetItem<V>(bases: seq<Mixin>, m: Dict<V>, key: Value, value: V): (r: Outcome<Dict<V>>)
    ensures r.Ok? ==> r.value == DictStore(m, key, value)
    ensures r.Raised? ==> (r.exc.cls == KeyError && Contains(m, key)) || (r.exc.cls == TypeError && !key.StrV?)
  {
    if bases == [] then Ok(DictStore(m, key, value))
    else match bases[0]
      case LoggedMapping => ChainSetItem(bases[1..], m, key, value)
      case SetOnceMapping =>
        if KeyOf(key) in m then Raised(Exc(KeyError, AlreadySet(key)))
        else ChainSetItem(bases[1..], m, key, value)
      case StringKeysMapping =>
        if !key.StrV? then Raised(Exc(TypeError, Text("Key must be strings")))
        else ChainSetItem(bases[1..], m, key, value)
  }

  /** The guard a mixin applies to a store, as an independent statement. */
  predicate Admits<V>(mixin: Mixin, m: Dict<V>, key: Value)
  {
    match mixin
    case LoggedMapping => true
    case SetOnceMapping => !Contains(m, key)
    case StringKeysMapping => key.StrV?
  }

  /** A store succeeds exactly when every mixin admits it (and is then the
      dict store, by ChainSetItem's contract). */
  lemma {:induction false} SetItemMeaning<V>(bases: seq<Mixin>, m: Dict<V>, key: Value, value: V)
    ensures ChainSetItem(bases, m, key, value).Ok? <==> forall i :: 0 <= i < |bases| ==> Admits(bases[i], m, key)
  {
    if bases != [] {
      SetItemMeaning(bases[1..], m, key, value);
      assert forall i :: 1 <= i < |bases| ==> bases[i] == bases[1..][i - 1];
    }
  }

  /** A refused store raises the exception of the first mixin in resolution
      order that refuses, all mixins before it having admitted the key. */
  lemma {:induction false} FirstRefusal<V>(bases: seq<Mixin>, m: Dict<V>, key: Value, value: V)
    ensures ChainSetItem(bases, m, key, value).Raised? ==>
      exists i :: 0 <= i < |bases| && !Admits(bases[i], m, key)
        && (forall j :: 0 <= j < i ==> Admits(bases[j], m, key))
        && ChainSetItem(bases, m, key, value).exc == Refusal(bases[i], key)
  {
    if bases != [] && Admits(bases[0], m, key) {
      FirstRefusal(bases[1..], m, key, value);
      var r := ChainSetItem(bases, m, key, value);
      if r.Raised? {
        var i :| 0 <= i < |bases| - 1 && !Admits(bases[1..][i], m, key)
          && (forall j :: 0 <= j < i ==> Admits(bases[1..][j], m, key))
          && r.exc == Refusal(bases[1..][i], key);
        assert bases[i + 1] == bases[1..][i];
        forall j | 0 <= j < i + 1 ensures Admits(bases[j], m, key) {
          if j > 0 { assert bases[j] == bases[1..][j - 1]; }
        }
      }
    }
  }

  /** The exception a refusing mixin raises; the logging mixin never refuses. */
  function Refusal(mixin: Mixin, key: Value): Exc
    requires mixin != LoggedMapping
  {
    match mixin
    case SetOnceMapping => Exc(KeyError, AlreadySet(key))
    case StringKeysMapping => Exc(TypeError, Text("Key must be strings"))
  }

  /** With the set-once mixin among the bases, a key equal to a present one
      can never be stored again, and a store never alters an entry that was
      present. */
  lemma SetOnceKeepsEntries<V>(bases: seq<Mixin>, m: Dict<V>, key: Value, value: V)
    requires SetOnceMapping in bases
    ensures Contains(m, key) ==> ChainSetItem(bases, m, key, value).Raised?
    ensures ChainSetItem(bases, m, key, value).Ok? ==>
      && ChainSetItem(bases, m, key, value).value.Keys == m.Keys + {KeyOf(key)}
      && forall k :: k in m ==> ChainSetItem(bases, m, key, value).value[k] == m[k]
  {
    SetItemMeaning(bases, m, key, value);
    var i :| 0 <= i < |bases| && bases[i] == SetOnceMapping;
  }

  /** The set-once mixin compares keys with ==: once 1 is stored, storing True
      or 1.0 raises KeyError. */
  lemma SetOnceEqualKeys<V>(v: V, w: V)
    ensures ChainSetItem([SetOnceMapping], map[IntV(1) := Entry(IntV(1), v)], BoolV(true), w)
         == Raised(Exc(KeyError, AlreadySet(BoolV(true))))
    ensures ChainSetItem([SetOnceMapping], map[IntV(1) := Entry(IntV(1), v)], FloatV(1.0), w)
         == Raised(Exc(KeyError, AlreadySet(FloatV(1.0))))
  {
    assert KeyOf(BoolV(true)) == IntV(1);
    assert KeyOf(FloatV(1.0)) == IntV(1);
  }

  /** The logging mixin changes no result: LoggedDict stores like dict. */
  lemma {:induction false} LoggedIsTransparent<V>(bases: seq<Mixin>, m: Dict<V>, key: Value, value: V)
    ensures ChainSetItem(bases + [LoggedMapping], m, key, value) == ChainSetItem(bases, m, key, value)
    ensures ChainSetItem([LoggedMapping] + bases, m, key, value) == ChainSetItem(bases, m, key, value)
  {
    assert ([LoggedMapping] + bases)[1..] == bases;
    if bases != [] {
      assert (bases + [LoggedMapping])[1..] == bases[1..] + [LoggedMapping];
      LoggedIsTransparent(bases[1..], m, key, value);
    }
  }

  /** The order of the mixins decides which exception a doubly refused store
      raises: the key-type check wins when it comes first, the set-once check
      otherwise. */
  lemma MixinOrderMatters<V>(m: Dict<V>, key: Value, value: V)
    requires Contains(m, key) && !key.StrV?
    ensures ChainSetItem([StringKeysMapping, SetOnceMapping], m, key, value).exc.cls == TypeError
    ensures ChainSetItem([SetOnceMapping, StringKeysMapping], m, key, value).exc.cls == KeyError
  {
  }

  /** An instance of a dict subclass whose bases are `bases` followed by dict. */
  class MixinDict<V> {
    const bases: seq<Mixin>
    var items: Dict<V>

    /** The dict invariant: every entry is filed under its key's class. */
    predicate Valid()
      reads this
    {
      WellFormed(items)
    }

    constructor (bases: seq<Mixin>)
      ensures this.bases == bases && items == map[] && Valid()
    {
      this.bases := bases;
      items := map[];
    }

    /** LoggedDict(LoggedMappingMixin, dict) */
    constructor LoggedDict()
      ensures bases == [LoggedMapping] && items == map[] && Valid()
    {
      bases := [LoggedMapping];
      items := map[];
    }

    /** __getitem__: only the logging mixin overrides it, and it hands on to
        dict, which finds the entry of a stored key equal to key. */
    method GetItem(key: Value) returns (r: Outcome<V>)
      requires Valid()
      ensures r.Ok? <==> exists k :: k in items && Equal(items[k].key, key)
      ensures r.Ok? ==> r.value == items[KeyOf(key)].value
      ensures r.Raised? ==> r.exc == Exc(KeyError, MissingKey(key))
    {
      ContainsMeansEqualKey(items, key);
      r := DictGet(items, key);
    }

    /** __setitem__: the mapping changes only when every mixin admits the key. */
    method SetItem(key: Value, value: V) returns (r: Outcome<Unit>)
      requires Valid()
      modifies this
      ensures Valid()
      ensures r.Ok? <==> forall i :: 0 <= i < |bases| ==> Admits(bases[i], old(items), key)
      ensures r.Ok? ==> items == DictStore(old(items), key, value)
      ensures r.Raised? ==> items == old(items) && ChainSetItem(bases, old(items), key, value) == Raised(r.exc)
    {
      SetItemMeaning(bases, items, key, value);
      var s := ChainSetItem(bases, items, key, value);
      if s.Ok? {
        items := s.value;
        r := Ok(Unit);
      } else {
        r := Raised(s.exc);
      }
    }

    /** __delitem__: only the logging mixin overrides it, and it hands on to
        dict, which removes the entry of a stored key equal to key. */
    method DelItem(key: Value) returns (r: Outcome<Unit>)
      requires Valid()
      modifies this
      ensures Valid()
      ensures r.Ok? <==> exists k :: k in old(items) && Equal(old(items)[k].key, key)
      ensures r.Ok? ==> items == old(items) - {KeyOf(key)}
      ensures r.Raised? ==> items == old(items) && r.exc == Exc(KeyError, MissingKey(key))
    {
      ContainsMeansEqualKey(items, key);
      var d := DictDel(items, key);
      if d.Ok? {
        items := d.value;
        r := Ok(Unit);
      } else {
        r := Raised(d.exc);
      }
    }
  }

  /** On a LoggedDict, d[1] = 7 then d[1.0] returns 7, and d[True] = 8
      replaces that value and keeps the key object 1. */
  method LoggedDictEqualKeys() returns (first: Outcome<int>, second: Outcome<int>, key: Value)
    ensures first == Ok(7) && second == Ok(8) && key == IntV(1)
  {
    var d := new MixinDict<int>.LoggedDict();
    assert KeyOf(IntV(1)) == IntV(1) && KeyOf(FloatV(1.0)) == IntV(1) && KeyOf(BoolV(true)) == IntV(1);
    var w := d.SetItem(IntV(1), 7);
    assert d.items == map[IntV(1) := Entry(IntV(1), 7)];
    assert Equal(d.items[IntV(1)].key, FloatV(1.0));
    first := d.GetItem(FloatV(1.0));
    w := d.SetItem(BoolV(true), 8);
    assert d.items == map[IntV(1) := Entry(IntV(1), 8)];
    second := d.GetItem(IntV(1));
    key := d.items[IntV(1)].key;
  }

  /** On a LoggedDict, d[1] = 7 then del d[1.0] succeeds and empties it. */
  method LoggedDictDeleteEqualKey() returns (removed: Outcome<Unit>, size: nat)
    ensures removed.Ok? && size == 0
  {
    var d := new MixinDict<int>.LoggedDict();
    assert KeyOf(IntV(1)) == IntV(1) && KeyOf(FloatV(1.0)) == IntV(1);
    var w := d.SetItem(IntV(1), 7);
    assert d.items == map[IntV(1) := Entry(IntV(1), 7)];
    assert IntV(1) in d.items && Equal(d.items[IntV(1)].key, FloatV(1.0));
    removed := d.DelItem(FloatV(1.0));
    assert d.items == map[];
    size := |d.items|;
  }

  // ---------------------------------------------------------------------
  // Connection and its states
  // ---------------------------------------------------------------------

  /** The state classes; they hold no data, only the four handlers. */
  datatype State = Closed | Open

  /** The four operations a Connection forwards to its state. */
  datatype Op = OpenOp | CloseOp | ReadOp | WriteOp(data: Value)

  /** What a handler does: the result of the call, and the state it switches
      the connection to with new_state, if it does. */
  datatype Reaction = Reaction(result: Outcome<Unit>, switchTo: Option<State>)

  /** ClosedConnectionState: only open() is allowed, and it switches to Open. */
  function ClosedHandler(op: Op): (re: Reaction)
    ensures re.result.Ok? <==> op == OpenOp
    ensures re.result.Raised? ==> re.result.exc.cls == RuntimeError
    ensures re.switchTo.Some? <==> re.result.Ok?
    ensures re.switchTo.Some? ==> re.switchTo.value == Open
  {
    match op
    case ReadOp => Reaction(Raised(Exc(RuntimeError, Text("Not Open"))), None)
    case WriteOp(_) => Reaction(Raised(Exc(RuntimeError, Text("Not Open"))), None)
    case OpenOp => Reaction(Ok(Unit), Some(Open))
    case CloseOp => Reaction(Raised(Exc(RuntimeError, Text("already closed!"))), None)
  }

  /** OpenConnectionState: read and write succeed, close() switches to Closed. */
  function OpenHandler(op: Op): (re: Reaction)
    ensures re.result.Ok? <==> op != OpenOp
    ensures re.result.Raised? ==> re.result.exc == Exc(RuntimeError, Text("already open"))
    ensures re.switchTo.Some? <==> op == CloseOp
    ensures re.switchTo.Some? ==> re.switchTo.value == Closed
  {
    match op
    case ReadOp => Reaction(Ok(Unit), None)
    case WriteOp(_) => Reaction(Ok(Unit), None)
    case OpenOp => Reaction(Raised(Exc(RuntimeError, Text("already open"))), None)
    case CloseOp => Reaction(Ok(Unit), Some(Closed))
  }

  /** The transition table, stated independently of the handlers: which
      operations each state allows. */
  predicate Allowed(s: State, op: Op)
  {
    (s == Closed && op == OpenOp) || (s == Open && op != OpenOp)
  }

  /** Forwarding an operation to the handler of the current state. Every
      (state, operation) pair either succeeds or raises RuntimeError, a state
      changes only on success, and it changes exactly on open() and close(). */
  function Dispatch(s: State, op: Op): (re: Reaction)
    ensures re.result.Ok? <==> Allowed(s, op)
    ensures re.result.Raised? ==> re.result.exc.cls == RuntimeError && re.switchTo == None
    ensures re.switchTo.Some? <==> re.result.Ok? && (op == OpenOp || op == CloseOp)
    ensures re.switchTo.Some? ==> re.switchTo.value != s
  {
    match s
    case Closed => ClosedHandler(op)
    case Open => OpenHandler(op)
  }

  /** The state after a reaction. */
  function Next(s: State, re: Reaction): State
  {
    if re.switchTo.Some? then re.switchTo.value else s
  }

  class Connection {
    var state: State

    /** A new connection starts Closed. */
    constructor ()
      ensures state == Closed
    {
      state := Closed;
    }

    method NewState(s: State)
      modifies this
      ensures state == s
    {
      state := s;
    }

    /** Forwards op to the current state's handler, which alone decides the
        result and whether the state changes. */
    method Perform(op: Op) returns (r: Outcome<Unit>)
      modifies this
      ensures r == Dispatch(old(state), op).result
      ensures state == Next(old(state), Dispatch(old(state), op))
    {
      var re := Dispatch(state, op);
      if re.switchTo.Some? {
        NewState(re.switchTo.value);
      }
      r := re.result;
    }

    method Read() returns (r: Outcome<Unit>)
      modifies this
      ensures r.Ok? <==> old(state) == State.Open
      ensures r.Raised? ==> r.exc == Exc(RuntimeError, Text("Not Open"))
      ensures state == old(state)
    {
      r := Perform(ReadOp);
    }

    method Write(data: Value) returns (r: Outcome<Unit>)
      modifies this
      ensures r.Ok? <==> old(state) == State.Open
      ensures r.Raised? ==> r.exc == Exc(RuntimeError, Text("Not Open"))
      ensures state == old(state)
    {
      r := Perform(WriteOp(data));
    }

    method Open() returns (r: Outcome<Unit>)
      modifies this
      ensures r.Ok? <==> old(state) == Closed
      ensures r.Raised? ==> r.exc == Exc(RuntimeError, Text("already open"))
      ensures state == State.Open
    {
      r := Perform(OpenOp);
    }

    method Close() returns (r: Outcome<Unit>)
      modifies this
      ensures r.Ok? <==> old(state) == State.Open
      ensures r.Raised? ==> r.exc == Exc(RuntimeError, Text("already closed!"))
      ensures state == Closed
    {
      r := Perform(CloseOp);
    }
  }

  /** The results and the final state of a run of operations. */
  function Run(s: State, ops: seq<Op>): (r: (seq<Outcome<Unit>>, State))
    ensures |r.0| == |ops|
    ensures forall i :: 0 <= i < |ops| ==> (r.0[i].Raised? ==> r.0[i].exc.cls == RuntimeError)
    ensures |ops| > 0 ==> r.0[0] == Dispatch(s, ops[0]).result
    decreases |ops|
  {
    if ops == [] then ([], s)
    else
      var re := Dispatch(s, ops[0]);
      var rest := Run(Next(s, re), ops[1..]);
      ([re.result] + rest.0, rest.1)
  }

  /** Number of open() and close() calls that succeeded in a run. */
  function Switches(s: State, ops: seq<Op>): nat
    decreases |ops|
  {
    if ops == [] then 0
    else
      var re := Dispatch(s, ops[0]);
      (if re.switchTo.Some? then 1 else 0) + Switches(Next(s, re), ops[1..])
  }

  /** Successful open() and close() calls alternate: a run that starts Closed
      ends Open exactly when an odd number of them succeeded, and a run
      that makes no successful transition leaves the state as it was. */
  lemma {:induction false} RunAlternates(s: State, ops: seq<Op>)
    ensures Run(s, ops).1 == (if Switches(s, ops) % 2 == 0 then s else Flip(s))
    decreases |ops|
  {
    if ops != [] {
      var re := Dispatch(s, ops[0]);
      RunAlternates(Next(s, re), ops[1..]);
    }
  }

  function Flip(s: State): State
  {
    if s == Closed then Open else Closed
  }

  /** n open/close cycles from Closed: a connection can be reused any number
      of times, every call succeeds and it ends Closed. */
  function Cycles(n: nat): seq<Op>
  {
    if n == 0 then [] else [OpenOp, CloseOp] + Cycles(n - 1)
  }

  lemma {:induction false} CyclesSucceed(n: nat)
    ensures Run(Closed, Cycles(n)).1 == Closed
    ensures forall i :: 0 <= i < |Run(Closed, Cycles(n)).0| ==> Run(Closed, Cycles(n)).0[i].Ok?
  {
    if n > 0 {
      CyclesSucceed(n - 1);
      assert ([OpenOp, CloseOp] + Cycles(n - 1))[1..] == [CloseOp] + Cycles(n - 1);
      assert ([CloseOp] + Cycles(n - 1))[1..] == Cycles(n - 1);
    }
  }

  /** The sample runs: open() then read() succeeds and stays Open; read() on
      a new connection fails and stays Closed; open(), close(), close()
      fails on the second close. */
  lemma SampleRuns()
    ensures Run(Closed, [OpenOp, ReadOp]).0 == [Ok(Unit), Ok(Unit)]
    ensures Run(Closed, [OpenOp, ReadOp]).1 == Open
    ensures Run(Closed, [ReadOp]).0 == [Raised(Exc(RuntimeError, Text("Not Open")))]
    ensures Run(Closed, [ReadOp]).1 == Closed
    ensures Run(Closed, [OpenOp, CloseOp, CloseOp]).0
         == [Ok(Unit), Ok(Unit), Raised(Exc(RuntimeError, Text("already closed!")))]
    ensures Run(Closed, [OpenOp, CloseOp, CloseOp]).1 == Closed
  {
    assert [ReadOp][1..] == [] && [CloseOp][1..] == [];
    assert Run(State.Open, [ReadOp]).0 == [Ok(Unit)];
    assert [OpenOp, ReadOp][1..] == [ReadOp];
    assert [CloseOp, CloseOp][1..] == [CloseOp];
    assert [OpenOp, CloseOp, CloseOp][1..] == [CloseOp, CloseOp];
    assert Run(Closed, [CloseOp]).0 == [Raised(Exc(RuntimeError, Text("already closed!")))];
    assert Run(State.Open, [CloseOp, CloseOp]).0 == [Ok(Unit), Raised(Exc(RuntimeError, Text("already closed!")))];
  }

}
