# Python cookbook patterns: delegation, descriptors, class decorators, helpers

This project models, in Dafny, four Python files of a collection of
object-model recipes and proves what each recipe promises:

- `delegation.py`: a `Connection` whose behaviour is delegated to a state
  object (`ClosedConnectionState`, `OpenConnectionState`) that switches the
  connection with `new_state`. Also the dict mixins `LoggedMappingMixin`,
  `SetOnceMappingMixin` and `StringKeysMappingMixin`, chained by `super()`
  in method resolution order, and `ListLike`, a list wrapper whose
  `__len__` reports the length of the list it wraps.
- `descriptor.py`: validating descriptors combined by multiple inheritance:
  `Typed`, `Unsigned` and `MaxSized`, and their combinations
  `UnsignedInteger`, `UnsignedFloat` and `SizedString`. The descriptors
  are attached to the classes `Stock`, `Stock2` and `Stock3` in three
  ways: with their names spelled out, by the class decorator
  `check_attributes`, and by the metaclass `checkmeta`.
- `ClassDecorator.py`: the call counters `Profiled` and `pro`, and the tree
  class `Node` with `add_child`, iteration and the pre-order `depth_first`.
  Also the iterator `CountDown`, which counts down forward and up when
  reversed, and the bounded-history iterators `linehistory` and
  `HelloWorld`, built on `deque(maxlen=…)`.
- `Py_nut1.py`: `cross_product`, and `SomeFunkyClass.__getattr__`, which
  raises `InvalidAttribute` for names starting with an underscore and
  `AttributeError` otherwise.

Module layout:

- `python.dfy` (`Python`) holds the slice of the Python runtime the code
  relies on: values, `isinstance`, comparison with 0, `len`, the exception
  classes with their inheritance, and `Outcome`, the result of a call that
  either returns or raises.
- `delegation.dfy` (`Delegation`), `descriptor.dfy` (`Descriptors`),
  `class_decorator.dfy` (`ClassDecorator`) and `py_nut1.dfy` (`PyNut`)
  follow the source files.
- `stock.dfy` (`Stocks`) holds the three Stock classes of `descriptor.py`.

Objects that the Python code updates in place are Dafny classes whose
methods name what they modify:

- `Connection`, `ListLike` and the mixin dict;
- descriptor objects, instances and host classes;
- the call counters, `Node`, the deque and the two history iterators.

A super() chain is a fold over the classes in resolution order. A generator
is the sequence of values it yields; one stopped early is the sequence of
its first k values. Where a consumer can act between steps, the suspended
generator is an object whose `Next` performs one step. A dict of the mapping
mixins files its entries by key class, so keys equal under `==` (1, 1.0, True) share one
entry.

## Model

| member | source | states |
|---|---|---|
| Python.IsInstance | descriptor.py:15-16 | `isinstance(value, t)` holds exactly when t is the value's own type or its base type, so True and False are instances of int |
| Python.IsSubclass | Py_nut1.py:47-48 | `issubclass(c, d)` implies d is no deeper than c in the hierarchy, and equally deep only when it is c; every class is a subclass of Exception |
| Python.KeyOf | delegation.py:34-55 | the key a dict files a value under: a number is filed under a number of the same numeric value (an int, or a float with a fraction), any other value under itself |
| Python.KeyOfMatchesEqual | delegation.py:34-55 | two values are filed under the same dict key exactly when Python's `==` holds between them (1, 1.0 and True are one key) |
| Python.LessThanZero | descriptor.py:23 | `value < 0` raises TypeError exactly for operands that are not numbers, and otherwise is the numeric comparison |
| Python.AtLeast | descriptor.py:34 | `len(value) >= self.size` raises TypeError for a size that is not a number, and otherwise compares numerically |
| Python.Len | descriptor.py:34 | `len(value)` succeeds exactly for strings, giving their length, and raises TypeError otherwise |
| Delegation.ListLike.constructor | delegation.py:2-3 | a new ListLike wraps an empty list |
| Delegation.ListLike.Append | delegation.py:4-5 | append forwarded to the list adds the item at the end |
| Delegation.ListLike.Len | delegation.py:6-7 | `len()` is the length of the wrapped list |
| Delegation.DictGet | delegation.py:34-36 | the get that the logging mixin hands on to dict succeeds exactly when the dict contains the key, returns the value of the entry filed under it, and otherwise raises KeyError |
| Delegation.ContainsMeansEqualKey | delegation.py:52-53 | `key in d` holds exactly when some stored key is equal to key under `==` |
| Delegation.DictStore | delegation.py:42-66 | the store dict finally performs adds the key class of key, gives its entry the new value, keeps the key object of an equal key already present, leaves every other entry alone and keeps the dict well formed |
| Delegation.DictDel | delegation.py:38-40 | the delete handed on to dict removes exactly the entry of an equal key and keeps the other entries; KeyError exactly when no stored key is equal |
| Delegation.SetItemMeaning | delegation.py:42-66 | a store through a chain of mixins succeeds exactly when every mixin admits the key (the set-once mixin by `==`), and then it is the dict store |
| Delegation.FirstRefusal | delegation.py:42-66 | a refused store raises the exception of the first mixin in resolution order that refuses, every mixin before it having admitted the key |
| Delegation.ChainSetItem | delegation.py:42-66 | a successful store through the mixins is the dict store; a refused one raises KeyError for a key equal to a present one or TypeError for a key that is not a str |
| Delegation.SetOnceKeepsEntries | delegation.py:52-55 | with the set-once mixin in the chain, storing a key equal to a present one raises, and a successful store adds one key and changes no existing entry |
| Delegation.SetOnceEqualKeys | delegation.py:52-54 | once 1 is stored, storing True or 1.0 through the set-once mixin raises KeyError |
| Delegation.LoggedIsTransparent | delegation.py:42-44 | the logging mixin, placed first or last in the chain, changes neither the result nor the stored mapping |
| Delegation.MixinOrderMatters | delegation.py:52-66 | for a present non-string key, the mixin listed first decides the exception: TypeError if the string-key mixin comes first, KeyError if the set-once mixin does |
| Delegation.MixinDict.constructor | delegation.py:68 | a dict subclass with the given mixin bases starts empty |
| Delegation.MixinDict.LoggedDict | delegation.py:68 | LoggedDict is a dict with the logging mixin as its only base |
| Delegation.MixinDict.GetItem | delegation.py:34-36 | `d[key]` succeeds exactly when a stored key is equal to key and returns that entry's value; otherwise it raises KeyError |
| Delegation.MixinDict.SetItem | delegation.py:42-66 | `d[key] = value` stores exactly when every mixin admits the key, replacing the value of an equal key; a refused store leaves the mapping unchanged and raises the chain's exception; the dict stays well formed |
| Delegation.MixinDict.DelItem | delegation.py:38-40 | `del d[key]` succeeds exactly when a stored key is equal to key and removes that entry; otherwise it raises KeyError and leaves the mapping unchanged |
| Delegation.LoggedDictEqualKeys | delegation.py:33-68 | on a LoggedDict, `d[1] = 7` then `d[1.0]` gives 7, and `d[True] = 8` replaces the value while the key stays 1 |
| Delegation.LoggedDictDeleteEqualKey | delegation.py:38-68 | on a LoggedDict holding key 1, `del d[1.0]` succeeds and leaves it empty |
| Delegation.ClosedHandler | delegation.py:102-114 | in the closed state only open() succeeds, and it alone switches the connection, to Open; every other call raises RuntimeError |
| Delegation.OpenHandler | delegation.py:116-128 | in the open state every call but open() succeeds, open() raising RuntimeError('already open'); only close() switches, to Closed |
| Delegation.Dispatch | delegation.py:102-128 | each state/operation pair succeeds exactly when the transition table allows it, and otherwise raises RuntimeError without a state change; the state changes exactly on a successful open() or close(), and always to the other state |
| Delegation.Connection.constructor | delegation.py:72-73 | a new connection is Closed |
| Delegation.Connection.NewState | delegation.py:74-75 | new_state replaces the current state |
| Delegation.Connection.Perform | delegation.py:77-85 | each call is forwarded to the current state's handler, whose reaction alone decides the result and the next state |
| Delegation.Connection.Read | delegation.py:78-79 | read() succeeds exactly when Open, otherwise raises RuntimeError('Not Open'); the state never changes |
| Delegation.Connection.Write | delegation.py:80-81 | write() succeeds exactly when Open, otherwise raises RuntimeError('Not Open'); the state never changes |
| Delegation.Connection.Open | delegation.py:82-83 | open() succeeds exactly when Closed, otherwise raises RuntimeError('already open'); either way the connection is Open afterwards |
| Delegation.Connection.Close | delegation.py:84-85 | close() succeeds exactly when Open, otherwise raises RuntimeError('already closed!'); either way the connection is Closed afterwards |
| Delegation.Run | delegation.py:77-128 | a run of calls gives one result per call, the first being the current state's reaction, and every failure is a RuntimeError |
| Delegation.RunAlternates | delegation.py:102-128 | over any run of calls the final state is the starting state flipped once per successful open() or close() |
| Delegation.CyclesSucceed | delegation.py:109-128 | any number of open()/close() cycles from Closed all succeed and end Closed, so a connection can be reused |
| Delegation.SampleRuns | delegation.py:102-128 | open() then read() succeeds and stays Open; read() on a new connection raises 'Not Open'; a second close() raises 'already closed!' |
| Descriptors.SetChain | descriptor.py:12-54 | the `__set__` overrides a class runs: a size check exactly for MaxSized and SizedString, a sign check exactly for Unsigned and its two subclasses, and a type check only first in resolution order |
| Descriptors.RunCheck | descriptor.py:15-36 | a type check passes exactly for instances of the expected type and otherwise raises TypeError(expected type); the sign check passes exactly for non-negative numbers; the size check passes exactly for a str shorter than a numeric size option |
| Descriptors.Validate | descriptor.py:8-54 | a failing chain of overrides raises the exception of one of its checks |
| Descriptors.ValidateFirstFailure | descriptor.py:12-36 | a value reaches the store exactly when every `__set__` override in resolution order passes; otherwise the exception is that of the first override that fails |
| Descriptors.ValidateTwo | descriptor.py:38-54 | for a class with two overrides, the first runs and the second only if the first passes |
| Descriptors.UnsignedIntegerChecks | descriptor.py:41-42 | UnsignedInteger: a non-int raises TypeError, a negative int raises ValueError('expected >=0'), and a value is stored exactly when it is a non-negative int |
| Descriptors.UnsignedFloatChecks | descriptor.py:47-48 | UnsignedFloat: a non-float (an int included) raises TypeError, a negative float raises ValueError, and a value is stored exactly when it is a non-negative float |
| Descriptors.SizedStringChecks | descriptor.py:53-54 | SizedString: a non-str raises TypeError, a str of length size or more raises ValueError('size must be < size'), and a value is stored exactly when it is a shorter str |
| Descriptors.TypedOnlyChecks | descriptor.py:11-18 | Integer, Float, String and Typed test the type alone, and the base Descriptor stores anything |
| Descriptors.StockNameBoundary | descriptor.py:59 | with size 8, a 7-character name is stored and an 8-character one raises ValueError |
| Descriptors.DictOfLookup | descriptor.py:3-6 | in the options dict, a key maps to the value of its last occurrence |
| Descriptors.Descriptor.constructor | descriptor.py:3-6 | `Descriptor.__init__` sets the name and then one attribute per option, in order |
| Descriptors.Descriptor.Set | descriptor.py:8-36 | `__set__` stores the value under the descriptor's name exactly when the override chain passes, and otherwise raises its exception and leaves the instance unchanged |
| Descriptors.GetAttr | descriptor.py:8-9 | `obj.key` finds the instance dict entry first, then the class attribute, and raises AttributeError when neither exists |
| Descriptors.New | descriptor.py:27-31 | a MaxSized class called without a size option raises TypeError('missing size option'); otherwise a fresh descriptor with that name and options results |
| Descriptors.SetAttr | descriptor.py:8-9 | `obj.key = value` through a descriptor stores under the descriptor's name, or raises and changes nothing; through a descriptor named after its key, a later `obj.key` returns the value |
| Descriptors.InitStock | descriptor.py:62-65 | `Stock.__init__` succeeds exactly when all three writes pass; the instance then holds the three values, and otherwise the first refused write's exception propagates |
| Descriptors.BoundNameIsLastKey | descriptor.py:75-77 | a descriptor listed under several keys ends up named after the last of them |
| Descriptors.BoundNameStep | descriptor.py:75-77 | one more pair renames a descriptor exactly when that pair holds it |
| Descriptors.BoundNameUnlisted | descriptor.py:100-102 | a descriptor not listed keeps its name |
| Descriptors.BindLookup | descriptor.py:75-80 | after installing distinct keys, each key holds its own member, the keys are the old ones plus the listed ones, and the other entries are unchanged |
| Descriptors.Install | descriptor.py:76-80 | one entry: a descriptor instance is named after the key and installed, a descriptor class is called with the key and its result installed, and a value that cannot be called raises without installing |
| Descriptors.InstallNext | descriptor.py:75-80 | one loop step keeps the bookkeeping: installed members fit their values, descriptors made so far are named after their keys, and listed descriptors' names follow the pairs handled so far |
| Descriptors.CheckAttributes | descriptor.py:73-82 | the decorator handles the keyword pairs in order; it succeeds exactly when every value can be called, and otherwise stops at the first that cannot, with its exception. The class then holds each handled pair's member under its key, each made descriptor is fresh and named after its key, and each listed descriptor is named after the last key that lists it |
| Descriptors.CheckMeta | descriptor.py:97-103 | the metaclass walks the namespace, one entry per key, names each descriptor in it after the last key that lists it, and builds the class whose attributes are the namespace's entries |
| Descriptors.CheckMetaSharedDescriptor | descriptor.py:97-103 | a body `a = d; b = d; a = d` leaves the namespace {a: d, b: d}, so the metaclass names d 'b' |
| Stocks.StockInit | descriptor.py:62-65 | on a class declared like Stock, writing name succeeds exactly for a str shorter than 8, shares for a non-negative int, and price for a non-negative float, each stored under its own attribute name |
| Stocks.StockPriceRefusals | descriptor.py:67-71 | writing the str 'alot' or the int 1 to price raises TypeError, and writing -1.5 raises ValueError |
| Stocks.NewSizedString | descriptor.py:59 | `SizedString(name, size=8)` gives a fresh SizedString descriptor with size 8 |
| Stocks.NewPlain | descriptor.py:60-61 | a descriptor class that needs no options gives a fresh descriptor with the given name |
| Stocks.DefineStock | descriptor.py:57-61 | class Stock has the Stock shape: SizedString name with size 8, UnsignedInteger shares and UnsignedFloat price, each named after its attribute |
| Stocks.Stock2KeysDistinct | descriptor.py:85-86 | the decorator's three keyword names are distinct |
| Stocks.Stock2Bound | descriptor.py:85-86 | after all three pairs are handled, the instance is under name and the made descriptors, of the right kinds, are under shares and price |
| Stocks.Stock2Named | descriptor.py:85 | the SizedString instance given for name ends up named 'name' |
| Stocks.DefineStock2 | descriptor.py:84-89 | class Stock2, built by check_attributes, has the Stock shape |
| Stocks.Stock3KeysDistinct | descriptor.py:105-108 | the namespace of Stock3's body has one entry per attribute name |
| Stocks.Stock3Bound | descriptor.py:105-108 | in Stock3's body, each of the three descriptors is found under its own key and named after it |
| Stocks.DefineStock3 | descriptor.py:105-108 | class Stock3, built by checkmeta from unnamed descriptors, has the Stock shape |
| ClassDecorator.Profiled.constructor | ClassDecorator.py:5-7 | a Profiled wrapper starts with ncalls 0 |
| ClassDecorator.Profiled.Call | ClassDecorator.py:9-11 | each call adds exactly 1 to ncalls, even one that raises, and returns the wrapped function's result or exception |
| ClassDecorator.Pro.constructor | ClassDecorator.py:33-34 | the pro wrapper's counter starts at 0 |
| ClassDecorator.Pro.Call | ClassDecorator.py:36-39 | each call to the wrapper adds exactly 1 to the counter and returns func's result or exception |
| ClassDecorator.Pro.NCalls | ClassDecorator.py:40 | `ncalls()` reports the counter |
| ClassDecorator.ProfiledAdd | ClassDecorator.py:19-25 | for the profiled add: ncalls is 0, add(2, 3) is 5, then ncalls is 1 |
| ClassDecorator.ProfiledRaising | ClassDecorator.py:9-11 | a call whose wrapped function raises still counts, and the exception propagates |
| ClassDecorator.ProSub | ClassDecorator.py:45-51 | for sub under pro: sub(1, 2) is -1, then ncalls() is 1 |
| ClassDecorator.Node.constructor | ClassDecorator.py:143-145 | a new node has its value and no children |
| ClassDecorator.Node.AddChild | ClassDecorator.py:150-151 | add_child appends the node at the end of the children |
| ClassDecorator.Node.Iter | ClassDecorator.py:153-154 | iterating a node yields its children in insertion order |
| ClassDecorator.Node.DepthFirst | ClassDecorator.py:156-159 | depth_first yields the node itself first, and more nodes than the node has children |
| ClassDecorator.Forest | ClassDecorator.py:158-159 | the loop over the children yields at least one node per child, the first child first |
| ClassDecorator.DepthFirstLength | ClassDecorator.py:156-159 | depth_first yields as many nodes as the subtree has |
| ClassDecorator.ForestLength | ClassDecorator.py:158-159 | the loop over the children yields as many nodes as their subtrees have together |
| ClassDecorator.DepthFirstReaches | ClassDecorator.py:156-159 | a node appears in depth_first exactly when it is the start node or a descendant |
| ClassDecorator.ForestReaches | ClassDecorator.py:158-159 | a node appears in the children's traversals exactly when some child reaches it |
| ClassDecorator.DepthFirstRanks | ClassDecorator.py:156-159 | every node depth_first yields has a ghost rank no higher than the start node's (the bound DepthFirstStartsOnce relies on; which nodes occur is DepthFirstReaches) |
| ClassDecorator.ForestRanks | ClassDecorator.py:158-159 | every node yielded by the children's traversals ranks below the parent |
| ClassDecorator.DepthFirstStartsOnce | ClassDecorator.py:156-157 | depth_first yields the node itself first and never again |
| ClassDecorator.LeafDepthFirst | ClassDecorator.py:156-159 | a node without children yields just itself |
| ClassDecorator.TwoLeavesDepthFirst | ClassDecorator.py:156-159 | a node with two leaf children yields itself, then the two children in order |
| ClassDecorator.SampleOrder | ClassDecorator.py:161-166 | the sample tree's depth_first visits 0, 1, 3, 4, 2 |
| ClassDecorator.DepthFirstSample | ClassDecorator.py:162-166 | building the sample tree with add_child, iterating the root yields 1, 2 and depth_first yields 0, 1, 3, 4, 2 |
| ClassDecorator.Down | ClassDecorator.py:173-175 | every number the forward iteration yields lies between 1 and start |
| ClassDecorator.Up | ClassDecorator.py:178-181 | every number the reverse iteration yields lies between 1 and start |
| ClassDecorator.DownElements | ClassDecorator.py:173-175 | the forward iteration has max(start, 0) elements, and the i-th is start - i |
| ClassDecorator.UpIsReversedDown | ClassDecorator.py:178-181 | the reverse iteration is exactly the forward one backwards |
| ClassDecorator.CountDown.constructor | ClassDecorator.py:170-171 | a CountDown keeps its start |
| ClassDecorator.CountDown.Iter | ClassDecorator.py:173-175 | `__iter__` yields start, start - 1, ..., 1, and nothing when start <= 0 |
| ClassDecorator.CountDown.Reversed | ClassDecorator.py:178-181 | `__reversed__` yields 1, 2, ..., start |
| ClassDecorator.CountDownSample | ClassDecorator.py:183-186 | CountDown(5) yields 5 4 3 2 1 forward and 1 2 3 4 5 reversed |
| ClassDecorator.Keep | ClassDecorator.py:193 | a deque with maxlen n holds min(len, n) items |
| ClassDecorator.KeepAppend | ClassDecorator.py:193 | a deque that drops from the left on every append holds the same items as dropping once at the end |
| ClassDecorator.KeepSuffix | ClassDecorator.py:214 | appending at least maxlen new items pushes out everything older |
| ClassDecorator.KeepElements | ClassDecorator.py:193 | a bounded deque holds min(n, maxlen) items, the most recent ones, oldest first |
| ClassDecorator.BoundedDeque.constructor | ClassDecorator.py:193 | `deque(maxlen=n)` starts empty |
| ClassDecorator.BoundedDeque.Append | ClassDecorator.py:197 | append adds at the right and drops the leftmost items beyond maxlen |
| ClassDecorator.BoundedDeque.Clear | ClassDecorator.py:201 | clear empties the deque |
| ClassDecorator.EnumerateSnoc | ClassDecorator.py:196 | numbering one more line appends exactly that line with the next number |
| ClassDecorator.HistoryStep | ClassDecorator.py:196-197 | appending the numbered lines one at a time leaves the history that appending them all at once gives |
| ClassDecorator.NumberedStep | ClassDecorator.py:196-197 | one more step numbers the next line after the earlier ones, and recording it keeps the history that recording all of them at once gives |
| ClassDecorator.HistoryHoldsLast | ClassDecorator.py:195-198 | after k lines from an empty history, it holds the last min(k, histlen) lines with their 1-based numbers, in increasing order |
| ClassDecorator.LineHistory.constructor | ClassDecorator.py:191-193 | a linehistory keeps its lines and starts with an empty history of length histlen (default 3) |
| ClassDecorator.LineHistory.Iterate | ClassDecorator.py:195-198 | the first k steps yield the first k lines unchanged and extend the history with (lineno, line) for each, keeping the last histlen |
| ClassDecorator.LineHistory.Clear | ClassDecorator.py:200-201 | clear() empties the history |
| ClassDecorator.LineIterator.constructor | ClassDecorator.py:195 | `iter(lh)` starts before the first line |
| ClassDecorator.LineIterator.Next | ClassDecorator.py:195-198 | each `next()` records the following line with its 1-based number in the history, keeping the last histlen, then yields it; after the last line StopIteration, with nothing recorded |
| ClassDecorator.LineIterateByNext | ClassDecorator.py:195-198 | k `next()` calls on a fresh `iter(lh)` yield the first k lines and leave the history that `Iterate(k)` states: the generator object and the k-step view agree |
| ClassDecorator.ClearBetweenSteps | ClassDecorator.py:195-201 | two `next()` calls, `clear()`, then `next()` again yields the third line, and the history holds only (3, line 3) |
| ClassDecorator.HelloWorld.constructor | ClassDecorator.py:212-214 | HelloWorld keeps its chars and an empty deque as long as them |
| ClassDecorator.HelloWorld.Iterate | ClassDecorator.py:216-219 | the first k steps yield (charno, ch) with 1-based positions and append each pair to the deque |
| ClassDecorator.HelloWorld.Clear | ClassDecorator.py:221-222 | clear() empties the deque |
| ClassDecorator.CharIterator.constructor | ClassDecorator.py:216 | `iter(hw)` starts before the first character |
| ClassDecorator.CharIterator.Next | ClassDecorator.py:216-219 | each `next()` appends the following (charno, ch) to the deque, then yields it; after the last character StopIteration, with nothing appended |
| ClassDecorator.CharIterateByNext | ClassDecorator.py:216-219 | k `next()` calls on a fresh `iter(hw)` yield the first k numbered characters and leave the deque that `Iterate(k)` states |
| ClassDecorator.FullIterationKeepsAll | ClassDecorator.py:214-219 | after a full iteration the deque holds every pair of that iteration, whatever it held before |
| ClassDecorator.HelloWorldSample | ClassDecorator.py:224-227 | iterating HelloWorld('Hello world') yields (1, 'H') to (11, 'd'), and the deque then holds all of them |
| PyNut.Pairs | Py_nut1.py:22 | the list comprehension has one pair per choice of an element from each side |
| PyNut.PairsIndex | Py_nut1.py:22 | row-major order: the pair at i * len(seq2) + j is (seq1[i], seq2[j]) |
| PyNut.PairsMembership | Py_nut1.py:22 | a pair occurs exactly when its parts occur in seq1 and seq2 |
| PyNut.CrossProduct | Py_nut1.py:19-22 | cross_product raises ValueError('Sequence arguments must be non-empty!') exactly when either argument is empty, and otherwise returns the row-major pair list |
| PyNut.CrossProductSample | Py_nut1.py:19-22 | cross_product([1, 2], 'ab') is [(1, 'a'), (1, 'b'), (2, 'a'), (2, 'b')] |
| PyNut.FunkyGetAttr | Py_nut1.py:54-59 | `__getattr__` always raises a subclass of AttributeError: InvalidAttribute('Unknown private attribute ' + name) exactly when the name starts with '_', and AttributeError('Unknown attribute ' + name) otherwise |
| PyNut.FunkyGetAttrCaught | Py_nut1.py:47-59 | an `except InvalidAttribute` clause catches the error exactly for names starting with '_' |

## Left out

- Printing: `print` in the logging mixin, in `OpenConnectionState.read`/`write` and elsewhere is left out, since it only writes to stdout.
- Timing, logging and print-only recipes are left out, because they depend on the clock, the logging module or stdout. These are `timethis`, `logged`, `somedecorator`, `A.decorator1`/`decorator2`, `MyMeta.__str__` and `countdown` in `delegation.py`, and `timethis`, `optional_debug` and `Spam` in `ClassDecorator.py`.
- `typeassert` is left out, because it depends on signature introspection.
- `Date` is left out, because it reads the local time. `Point.distance` is left out, because it is floating-point arithmetic.
- `frange` is left out, because it accumulates floats.
- The file reading with `dropwhile`, `read_or_default*`, the `tag`/`xmltag` context managers, `CustomException`/`call_wrapped` and the page scraping in `Py_nut1.py` are left out: they are I/O, stdout or traceback capture.
- `ConnectionState`, the abstract base whose handlers raise NotImplementedError, is left out: a connection is only ever in one of the two concrete states.
- `ListLike.__getattr__` forwarding is modelled only for `append`, as an example of a forwarded list method; the other list methods it would forward are not modelled. The `__get__`/`MethodType` binding of `Profiled` is left out: it is language-level method binding.
- Node1 is not modelled separately. It is `Node` without `depth_first`, and `Node.constructor`, `Node.AddChild` and `Node.Iter` model it.
- ClassDecorator.Node.DepthFirst requires the tree to be ranked (every child ranks below its parent), so it rules out cycles. The rank is a ghost value fixed at construction. On a cycle, and on an acyclic tree deeper than the interpreter's recursion limit (about 1000 nested `yield from`), CPython raises RecursionError; the model has no recursion limit and traverses any ranked tree fully.
- Generators: `Iterate(k)` gives the first k steps of a fresh iteration; LineIterateByNext and CharIterateByNext prove it equal to k `Next` calls on a fresh generator object. A consumer that acts between steps, such as calling `clear()` and then resuming, is modelled by the generator objects LineIterator and CharIterator, whose `Next` performs one step. `CountDown` and `depth_first` are modelled by the sequences they yield from the state at their start; see the next line.
- ClassDecorator.Node.DepthFirst, ClassDecorator.Node.Iter, ClassDecorator.CountDown.Reversed: the model does not cover a tree changed by `add_child`, or a `start` reassigned, while an iteration is suspended. Python's `depth_first` and `__iter__` walk the children lists lazily, so a child appended between two `next()` calls is still yielded, and `__reversed__` reads `self.start` again on every step; the model computes the whole sequence from the state when the iteration starts.
- BoundedDeque.constructor takes a `nat` maxlen. The ValueError that deque raises for a negative maxlen, and an unbounded deque with maxlen None, are not modelled.
- Float values are reals that are only compared with 0. NaN and float arithmetic are not modelled.
- Python.LessThanZero, Python.AtLeast: an object with its own comparison methods is not modelled. Among the modelled values only numbers compare with an int.
- Exception texts that Python builds with `str()` of a runtime value are kept as that value (`AlreadySet`, `Expected`, `SizeBound`). The interpreter's own texts for unsupported operands and missing attributes are kept as markers.
- Descriptors.CheckAttributes calls only descriptor classes. Any other callable value, and the options a user-defined callable might accept, are outside the model: a value that is not a descriptor instance or a descriptor class raises TypeError, as calling a non-callable does.
- Descriptors.New: `expected_type` overridden through an option is not modelled. The type check always uses the class's own expected type.
- Stocks.DefineStock, Stocks.DefineStock2, Stocks.DefineStock3: StockShape checks the `size` option of the name descriptor, not that its option dict is exactly `{'size': 8}`.
- ClassDecorator.Profiled.Call, ClassDecorator.Pro.Call: the wrapped function is a pure function of its arguments that cannot call back into the wrapper. A recursive function decorated with `@Profiled` calls the wrapper again, because the decorated name is bound to the wrapper, so Python adds more than 1 to ncalls per outer call; the model does not capture that.
- ClassDecorator.CountDown: start is an int. With a float start, such as `CountDown(2.5)`, Python yields 2.5, 1.5, 0.5 forward and 1, 2 reversed, so UpIsReversedDown holds only for ints.
- PyNut.CrossProduct: the arguments are sequences. A one-shot iterator as seq2 is exhausted after the first element of seq1, and an empty iterator is truthy, so `not seq` does not refuse it and Python returns `[]` where the model raises ValueError; neither is modelled.
- ClassDecorator.LineHistory: lines is a sequence that every iteration walks again from the start. A file object, as in the recipe's usage, yields nothing on a second iteration; that is not modelled.
- Descriptors.CheckMeta takes the namespace as its items, one pair per key in first-insertion order with the last value assigned. How executing the class body builds that namespace is not modelled.
- Delegation.DictStore: a dict entry keeps the key object it was created with, as Python does, but only `==` between None, bools, ints, floats and strs is modelled; keys of other types, with their own `__eq__` and `__hash__`, are not.
- Descriptors.Instance: the instance `__dict__` is a map keyed by value structure, not by `==`. The descriptors write it under their `name`, which the recipes always give as a str; two names equal under `==` but of different types, such as 1 and True, would be two slots here but one in Python.
