/** The call counters, the Node tree, CountDown and the bounded-history
    iterators of ClassDecorator.py. Generators are modelled by the sequence
    of values they yield; a generator stopped early by the sequence of its
    first k values. */
module ClassDecorator {
  import opened Python

  // ---------------------------------------------------------------------
  // Call counters
  // ---------------------------------------------------------------------

  /** Profiled(func): a callable object that forwards each call to the
      wrapped function and counts the calls in ncalls. The count rises
      before the call, so a call that raises is counted too. */
  class Profiled<A, R> {
    const wrapped: A -> Outcome<R>
    var ncalls: nat

    constructor (func: A -> Outcome<R>)
      ensures wrapped == func && ncalls == 0
    {
      wrapped := func;
      ncalls := 0;
    }

    /** __call__: one more call, and the wrapped function's result or
        exception. */
    method Call(args: A) returns (r: Outcome<R>)
      modifies this`ncalls
      ensures ncalls == old(ncalls) + 1
      ensures r == wrapped(args)
    {
      ncalls := ncalls + 1;
      r := wrapped(args);
    }
  }

  /** pro(func): the wrapper closure with its nonlocal call counter, and
      the ncalls() accessor that reads it. */
  class Pro<A, R> {
    const func: A -> Outcome<R>
    var count: nat

    constructor (f: A -> Outcome<R>)
      ensures func == f && count == 0
    {
      func := f;
      count := 0;
    }

    /** wrapper(*args): one more call, and func's result or exception. */
    method Call(args: A) returns (r: Outcome<R>)
      modifies this`count
      ensures count == old(count) + 1
      ensures r == func(args)
    {
      count := count + 1;
      r := func(args);
    }

    /** wrapper.ncalls(): the calls so far. */
    method NCalls() returns (n: nat)
      ensures n == count
    {
      n := count;
    }
  }

  /** @Profiled def add(x, y): add.ncalls is 0, add(2, 3) is 5, and then
      add.ncalls is 1. */
  method ProfiledAdd() returns (before: nat, sum: Outcome<int>, after: nat)
    ensures before == 0 && sum == Ok(5) && after == 1
  {
    var add := new Profiled<(int, int), int>((p: (int, int)) => Ok(p.0 + p.1));
    before := add.ncalls;
    sum := add.Call((2, 3));
    after := add.ncalls;
  }

  /** A Profiled function that raises still counts the call. */
  method ProfiledRaising() returns (r: Outcome<int>, after: nat)
    ensures r == Raised(Exc(ValueError, Text("bad"))) && after == 1
  {
    var f := new Profiled<int, int>((x: int) => Raised(Exc(ValueError, Text("bad"))));
    r := f.Call(0);
    after := f.ncalls;
  }

  /** @pro def sub(x, y): sub(1, 2) is -1, and then sub.ncalls() is 1. */
  method ProSub() returns (diff: Outcome<int>, calls: nat)
    ensures diff == Ok(-1) && calls == 1
  {
    var sub := new Pro<(int, int), int>((p: (int, int)) => Ok(p.0 - p.1));
    diff := sub.Call((1, 2));
    calls := sub.NCalls();
  }

  // ---------------------------------------------------------------------
  // Node and depth_first
  // ---------------------------------------------------------------------

  /** A tree node holding a value and the list of its children. The ghost
      rank is a proof device: a node whose descendants rank strictly lower
      all the way down (Ranked) has a finite, cycle-free subtree, which is
      what depth_first needs to end. Node1 is this class without
      depth_first. */
  class Node<T> {
    const value: T
    ghost const rank: nat
    var children: seq<Node<T>>

    constructor (value: T, ghost rank: nat)
      ensures this.value == value && this.rank == rank && children == []
    {
      this.value := value;
      this.rank := rank;
      children := [];
    }

    /** add_child: the node goes at the end of the children list. */
    method AddChild(node: Node<T>)
      modifies this`children
      ensures children == old(children) + [node]
    {
      children := children + [node];
    }

    /** iter(node): the children, in the order they were added. */
    method Iter() returns (r: seq<Node<T>>)
      ensures |r| == |children| && forall i :: 0 <= i < |r| ==> r[i] == children[i]
    {
      r := children;
    }

    /** Every child ranks below its parent, all the way down. */
    ghost predicate Ranked()
      reads *
      decreases rank
    {
      forall i :: 0 <= i < |children| ==> children[i].rank < rank && children[i].Ranked()
    }

    /** depth_first(): the node itself, then each child's depth_first in
        child order (pre-order). */
    function DepthFirst(): (r: seq<Node<T>>)
      reads *
      requires Ranked()
      ensures |r| > |children| && r[0] == this
      decreases rank + 1, 0
    {
      [this] + Forest(children, rank)
    }

    /** The number of nodes in the subtree, a node reached along two paths
        counted twice. */
    ghost function Size(): nat
      reads *
      requires Ranked()
      decreases rank + 1, 0
    {
      1 + ForestSize(children, rank)
    }

    /** m is this node or a descendant. */
    ghost predicate Reaches(m: Node<T>)
      reads *
      requires Ranked()
      decreases rank
    {
      m == this || exists i :: 0 <= i < |children| && children[i].Reaches(m)
    }
  }

  /** The nodes all rank below bound and are Ranked. */
  ghost predicate RankedBelow<T>(cs: seq<Node<T>>, bound: nat)
    reads *
  {
    forall i :: 0 <= i < |cs| ==> cs[i].rank < bound && cs[i].Ranked()
  }

  /** The loop `for c in self: yield from c.depth_first()`. */
  function Forest<T>(cs: seq<Node<T>>, ghost bound: nat): (r: seq<Node<T>>)
    reads *
    requires RankedBelow(cs, bound)
    ensures |r| >= |cs|
    ensures cs != [] ==> r[0] == cs[0]
    decreases bound, |cs|
  {
    if cs == [] then [] else cs[0].DepthFirst() + Forest(cs[1..], bound)
  }

  ghost function ForestSize<T>(cs: seq<Node<T>>, bound: nat): nat
    reads *
    requires RankedBelow(cs, bound)
    decreases bound, |cs|
  {
    if cs == [] then 0 else cs[0].Size() + ForestSize(cs[1..], bound)
  }

  /** depth_first yields one node per node of the subtree. */
  lemma {:induction false} DepthFirstLength<T>(n: Node<T>)
    requires n.Ranked()
    ensures |n.DepthFirst()| == n.Size()
    decreases n.rank + 1, 0
  {
    ForestLength(n.children, n.rank);
  }

  lemma {:induction false} ForestLength<T>(cs: seq<Node<T>>, bound: nat)
    requires RankedBelow(cs, bound)
    ensures |Forest(cs, bound)| == ForestSize(cs, bound)
    decreases bound, |cs|
  {
    if cs != [] {
      DepthFirstLength(cs[0]);
      ForestLength(cs[1..], bound);
    }
  }

  /** depth_first yields exactly the nodes the node reaches. */
  lemma {:induction false} DepthFirstReaches<T>(n: Node<T>, m: Node<T>)
    requires n.Ranked()
    ensures m in n.DepthFirst() <==> n.Reaches(m)
    decreases n.rank + 1, 0
  {
    ForestReaches(n.children, n.rank, m);
  }

  lemma {:induction false} ForestReaches<T>(cs: seq<Node<T>>, bound: nat, m: Node<T>)
    requires RankedBelow(cs, bound)
    ensures m in Forest(cs, bound) <==> exists i :: 0 <= i < |cs| && cs[i].Reaches(m)
    decreases bound, |cs|
  {
    if cs != [] {
      DepthFirstReaches(cs[0], m);
      ForestReaches(cs[1..], bound, m);
      if exists i :: 0 <= i < |cs| && cs[i].Reaches(m) {
        var i :| 0 <= i < |cs| && cs[i].Reaches(m);
        if i > 0 {
          assert cs[1..][i - 1] == cs[i];
        }
      }
      if exists i :: 0 <= i < |cs[1..]| && cs[1..][i].Reaches(m) {
        var i :| 0 <= i < |cs[1..]| && cs[1..][i].Reaches(m);
        assert cs[i + 1] == cs[1..][i];
      }
    }
  }

  /** Every node depth_first yields ranks no higher than the start node. */
  lemma {:induction false} DepthFirstRanks<T>(n: Node<T>)
    requires n.Ranked()
    ensures forall k :: 0 <= k < |n.DepthFirst()| ==> n.DepthFirst()[k].rank <= n.rank
    decreases n.rank + 1, 0
  {
    ForestRanks(n.children, n.rank);
  }

  lemma {:induction false} ForestRanks<T>(cs: seq<Node<T>>, bound: nat)
    requires RankedBelow(cs, bound)
    ensures forall k :: 0 <= k < |Forest(cs, bound)| ==> Forest(cs, bound)[k].rank < bound
    decreases bound, |cs|
  {
    if cs != [] {
      DepthFirstRanks(cs[0]);
      ForestRanks(cs[1..], bound);
      var head: seq<Node<T>>, tail: seq<Node<T>> := cs[0].DepthFirst(), Forest(cs[1..], bound);
      forall k | 0 <= k < |head + tail|
        ensures (head + tail)[k].rank < bound
      {
        if k < |head| {
          assert (head + tail)[k] == head[k];
        } else {
          assert (head + tail)[k] == tail[k - |head|];
        }
      }
    }
  }

  /** depth_first starts with the node itself and never yields it again. */
  lemma DepthFirstStartsOnce<T>(n: Node<T>)
    requires n.Ranked()
    ensures |n.DepthFirst()| > 0 && n.DepthFirst()[0] == n
    ensures forall k :: 0 < k < |n.DepthFirst()| ==> n.DepthFirst()[k] != n
  {
    ForestRanks(n.children, n.rank);
    forall k | 0 < k < |n.DepthFirst()|
      ensures n.DepthFirst()[k] != n
    {
      assert n.DepthFirst()[k] == Forest(n.children, n.rank)[k - 1];
    }
  }

  /** The values of a list of nodes. */
  function Values<T>(nodes: seq<Node<T>>): seq<T>
  {
    seq(|nodes|, i requires 0 <= i < |nodes| => nodes[i].value)
  }

  /** A node without children: depth_first yields just the node. */
  lemma LeafDepthFirst<T>(n: Node<T>)
    requires n.children == []
    ensures n.Ranked() && n.DepthFirst() == [n]
  {
    assert n.DepthFirst() == [n] + Forest([], n.rank);
  }

  /** depth_first of a node whose children are two leaves. */
  lemma TwoLeavesDepthFirst<T>(n: Node<T>, a: Node<T>, b: Node<T>)
    requires a.children == [] && b.children == [] && a.rank < n.rank && b.rank < n.rank
    requires n.children == [a, b]
    ensures n.Ranked() && n.DepthFirst() == [n, a, b]
  {
    LeafDepthFirst(a);
    LeafDepthFirst(b);
    assert [a, b][1..] == [b] && [b][1..] == [];
    assert Forest([b], n.rank) == b.DepthFirst() + Forest([], n.rank);
    assert Forest([a, b], n.rank) == a.DepthFirst() + Forest([b], n.rank);
  }

  /** A root with children c1 and c2, and c1 with children n3 and n4:
      depth_first visits root, c1, n3, n4, c2. */
  lemma SampleOrder(root: Node<int>, c1: Node<int>, c2: Node<int>, n3: Node<int>, n4: Node<int>)
    requires root.value == 0 && c1.value == 1 && c2.value == 2 && n3.value == 3 && n4.value == 4
    requires root.rank == 2 && c1.rank == 1 && c2.rank == 1 && n3.rank == 0 && n4.rank == 0
    requires root.children == [c1, c2] && c1.children == [n3, n4]
    requires c2.children == [] && n3.children == [] && n4.children == []
    ensures root.Ranked() && root.DepthFirst() == [root, c1, n3, n4, c2]
    ensures Values(root.DepthFirst()) == [0, 1, 3, 4, 2]
  {
    TwoLeavesDepthFirst(c1, n3, n4);
    LeafDepthFirst(c2);
    assert [c1, c2][1..] == [c2] && [c2][1..] == [];
    assert Forest([c2], 2) == c2.DepthFirst() + Forest([], 2);
    assert Forest([c1, c2], 2) == c1.DepthFirst() + Forest([c2], 2);
    var order := Values([root, c1, n3, n4, c2]);
    assert |order| == 5 && order[0] == 0 && order[1] == 1 && order[2] == 3 && order[3] == 4 && order[4] == 2;
  }

  /** root(0) with children 1 and 2, and 1 with children 3 and 4: iterating
      root yields 1, 2, and depth_first yields 0, 1, 3, 4, 2. */
  method DepthFirstSample() returns (top: seq<int>, order: seq<int>)
    ensures top == [1, 2]
    ensures order == [0, 1, 3, 4, 2]
  {
    var root := new Node(0, 2);
    var child1 := new Node(1, 1);
    var child2 := new Node(2, 1);
    root.AddChild(child1);
    root.AddChild(child2);
    var n3 := new Node(3, 0);
    var n4 := new Node(4, 0);
    child1.AddChild(n3);
    child1.AddChild(n4);
    var kids := root.Iter();
    top := Values(kids);
    SampleOrder(root, child1, child2, n3, n4);
    order := Values(root.DepthFirst());
  }

  // ---------------------------------------------------------------------
  // CountDown
  // ---------------------------------------------------------------------

  /** start, start - 1, ..., 1; nothing when start <= 0. */
  function Down(start: int): (r: seq<int>)
    ensures forall i :: 0 <= i < |r| ==> 1 <= r[i] <= start
    decreases start
  {
    if start <= 0 then [] else [start] + Down(start - 1)
  }

  /** 1, 2, ..., start; nothing when start <= 0. */
  function Up(start: int): (r: seq<int>)
    ensures forall i :: 0 <= i < |r| ==> 1 <= r[i] <= start
    decreases start
  {
    if start <= 0 then [] else Up(start - 1) + [start]
  }

  /** The reverse of a sequence, by its first element. */
  function Reverse<T>(s: seq<T>): seq<T>
  {
    if s == [] then [] else Reverse(s[1..]) + [s[0]]
  }

  /** The forward sequence has start elements and counts down from start. */
  lemma {:induction false} DownElements(start: int)
    ensures |Down(start)| == if start <= 0 then 0 else start
    ensures forall i :: 0 <= i < |Down(start)| ==> Down(start)[i] == start - i
    decreases start
  {
    if start > 0 {
      DownElements(start - 1);
      forall i | 0 < i < |Down(start)|
        ensures Down(start)[i] == start - i
      {
        assert Down(start)[i] == Down(start - 1)[i - 1];
      }
    }
  }

  /** reversed(CountDown(start)) yields the forward sequence backwards. */
  lemma {:induction false} UpIsReversedDown(start: int)
    ensures Up(start) == Reverse(Down(start))
    decreases start
  {
    if start > 0 {
      UpIsReversedDown(start - 1);
      assert Down(start)[1..] == Down(start - 1);
    }
  }

  class CountDown {
    const start: int

    constructor (start: int)
      ensures this.start == start
    {
      this.start := start;
    }

    /** __iter__: n from start, yield n then decrement, while n > 0. */
    method Iter() returns (r: seq<int>)
      ensures r == Down(start)
    {
      r := [];
      var n := start;
      while n > 0
        invariant r + Down(n) == Down(start)
        decreases n
      {
        assert Down(n) == [n] + Down(n - 1);
        r := r + [n];
        n := n - 1;
      }
    }

    /** __reversed__: n from 1, yield n then increment, while n <= start. */
    method Reversed() returns (r: seq<int>)
      ensures r == Up(start)
    {
      r := [];
      var n := 1;
      while n <= start
        invariant 1 <= n && (n <= start + 1 || n == 1)
        invariant r == Up(n - 1)
        decreases start - n
      {
        r := r + [n];
        n := n + 1;
      }
    }
  }

  /** for i in CountDown(5) yields 5 4 3 2 1; reversed yields 1 2 3 4 5. */
  method CountDownSample() returns (forward: seq<int>, backward: seq<int>)
    ensures forward == [5, 4, 3, 2, 1] && backward == [1, 2, 3, 4, 5]
  {
    var c := new CountDown(5);
    forward := c.Iter();
    backward := c.Reversed();
  }

  // ---------------------------------------------------------------------
  // Bounded history: deque(maxlen=n), linehistory, HelloWorld
  // ---------------------------------------------------------------------

  /** The last n elements of s, or all of s when it is shorter. */
  function Keep<T>(s: seq<T>, n: nat): (r: seq<T>)
    ensures |r| == if |s| <= n then |s| else n
  {
    if |s| <= n then s else s[|s| - n..]
  }

  /** Dropping from the left as one goes keeps the same elements as
      dropping once at the end. */
  lemma KeepAppend<T>(s: seq<T>, t: seq<T>, n: nat)
    ensures Keep(Keep(s, n) + t, n) == Keep(s + t, n)
  {
    if |s| > n {
      var k := s[|s| - n..];
      assert (s + t)[|s + t| - n..] == (k + t)[|k + t| - n..] by {
        assert k + t == (s + t)[|s| - n..];
      }
    }
  }

  /** Enough new elements push out everything older. */
  lemma KeepSuffix<T>(s: seq<T>, t: seq<T>)
    ensures Keep(s + t, |t|) == t
  {
    assert (s + t)[|s|..] == t;
  }

  /** Keep holds the most recent elements, in order. */
  lemma KeepElements<T>(s: seq<T>, n: nat)
    ensures |Keep(s, n)| == if |s| <= n then |s| else n
    ensures forall j :: 0 <= j < |Keep(s, n)| ==> Keep(s, n)[j] == s[|s| - |Keep(s, n)| + j]
  {
  }

  /** collections.deque(maxlen=n), used only through append and clear. */
  class BoundedDeque<T> {
    const maxlen: nat
    var items: seq<T>

    ghost predicate Valid()
      reads this
    {
      |items| <= maxlen
    }

    constructor (maxlen: nat)
      ensures this.maxlen == maxlen && items == [] && Valid()
    {
      this.maxlen := maxlen;
      items := [];
    }

    /** append(x): once maxlen items are held, the leftmost is dropped. */
    method Append(x: T)
      requires Valid()
      modifies this`items
      ensures Valid() && items == Keep(old(items) + [x], maxlen)
    {
      if |items| < maxlen {
        items := items + [x];
      } else if maxlen > 0 {
        assert (items + [x])[1..] == items[1..] + [x];
        items := items[1..] + [x];
      }
    }

    /** clear(). */
    method Clear()
      modifies this`items
      ensures Valid() && items == []
    {
      items := [];
    }
  }

  /** enumerate(s, start): each element paired with its position, counted
      from start. */
  function Enumerate<T>(s: seq<T>, start: int): (r: seq<(int, T)>)
  {
    seq(|s|, i requires 0 <= i < |s| => (start + i, s[i]))
  }

  /** Numbering one more element appends it with the next number. */
  lemma EnumerateSnoc<T>(s: seq<T>, x: T, start: int)
    ensures Enumerate(s + [x], start) == Enumerate(s, start) + [(start + |s|, x)]
  {
  }

  /** Appending the numbered items one at a time leaves the same history as
      appending them all at once. */
  lemma HistoryStep<T>(d0: seq<(int, T)>, s: seq<T>, x: T, n: nat)
    ensures Keep(Keep(d0 + Enumerate(s, 1), n) + [(|s| + 1, x)], n) == Keep(d0 + Enumerate(s + [x], 1), n)
  {
    KeepAppend(d0 + Enumerate(s, 1), [(|s| + 1, x)], n);
    EnumerateSnoc(s, x, 1);
    assert d0 + Enumerate(s, 1) + [(|s| + 1, x)] == d0 + Enumerate(s + [x], 1);
  }

  /** One more step of an iteration over s: line i + 1 is numbered and
      recorded after the first i. */
  lemma NumberedStep<L>(h0: seq<(int, L)>, s: seq<L>, i: nat, n: nat)
    requires i < |s|
    ensures Enumerate(s[..i + 1], 1) == Enumerate(s[..i], 1) + [(i + 1, s[i])]
    ensures Keep(Keep(h0 + Enumerate(s[..i], 1), n) + [(i + 1, s[i])], n) == Keep(h0 + Enumerate(s[..i + 1], 1), n)
  {
    assert s[..i + 1] == s[..i] + [s[i]];
    EnumerateSnoc(s[..i], s[i], 1);
    HistoryStep(h0, s[..i], s[i], n);
  }

  /** After k lines from an empty history, the history holds the last
      min(k, n) lines with their 1-based line numbers, oldest first. */
  lemma HistoryHoldsLast<L>(lines: seq<L>, k: nat, n: nat)
    requires k <= |lines|
    ensures var h := Keep(Enumerate(lines[..k], 1), n);
      && |h| == (if k <= n then k else n)
      && forall j :: 0 <= j < |h| ==> h[j] == (k - |h| + j + 1, lines[k - |h| + j])
  {
    var e := Enumerate(lines[..k], 1);
    var h := Keep(e, n);
    KeepElements(e, n);
    forall j | 0 <= j < |h|
      ensures h[j] == (k - |h| + j + 1, lines[k - |h| + j])
    {
      var i := k - |h| + j;
      assert h[j] == e[i];
      assert lines[..k][i] == lines[i];
    }
  }

  /** linehistory(lines, histlen): iterating yields the lines unchanged and
      keeps (lineno, line) for the last histlen of them. L is whatever the
      iterable of lines yields (str for a text file). */
  class LineHistory<L> {
    const lines: seq<L>
    const history: BoundedDeque<(int, L)>

    constructor (lines: seq<L>, histlen: nat := 3)
      ensures this.lines == lines && fresh(history)
      ensures history.maxlen == histlen && history.items == [] && history.Valid()
    {
      this.lines := lines;
      history := new BoundedDeque(histlen);
    }

    /** The first k steps of iter(self): record (lineno, line), then yield
        the line. A new iteration numbers the lines from 1 again, while the
        history carries on. */
    method Iterate(k: nat) returns (yielded: seq<L>)
      requires k <= |lines| && history.Valid()
      modifies history`items
      ensures yielded == lines[..k]
      ensures history.Valid() && history.items == Keep(old(history.items) + Enumerate(lines[..k], 1), history.maxlen)
    {
      ghost var h0 := history.items;
      yielded := [];
      var i := 0;
      while i < k
        invariant i <= k && yielded == lines[..i]
        invariant history.Valid() && history.items == Keep(h0 + Enumerate(lines[..i], 1), history.maxlen)
      {
        NumberedStep(h0, lines, i, history.maxlen);
        assert lines[..i + 1] == yielded + [lines[i]];
        history.Append((i + 1, lines[i]));
        yielded := yielded + [lines[i]];
        i := i + 1;
      }
    }

    /** clear(): the history is emptied. */
    method Clear()
      modifies history`items
      ensures history.Valid() && history.items == []
    {
      history.Clear();
    }
  }

  /** The generator iter(lh) returns, suspended after `lineno` lines: each
      next() records the following line in lh's history, then yields it. */
  class LineIterator<L> {
    const source: LineHistory<L>
    var lineno: nat

    constructor (source: LineHistory<L>)
      ensures this.source == source && lineno == 0
    {
      this.source := source;
      lineno := 0;
    }

    /** next(it): the next line, recorded with its 1-based number before it
        is yielded; None (StopIteration) after the last line, with nothing
        recorded. */
    method Next() returns (r: Option<L>)
      requires lineno <= |source.lines| && source.history.Valid()
      modifies this`lineno, source.history`items
      ensures lineno <= |source.lines| && source.history.Valid()
      ensures old(lineno) < |source.lines| ==>
        && r == Some(source.lines[old(lineno)]) && lineno == old(lineno) + 1
        && source.history.items == Keep(old(source.history.items) + [(lineno, r.value)], source.history.maxlen)
      ensures old(lineno) == |source.lines| ==>
        r == None && lineno == old(lineno) && source.history.items == old(source.history.items)
    {
      if lineno < |source.lines| {
        var line := source.lines[lineno];
        source.history.Append((lineno + 1, line));
        lineno := lineno + 1;
        r := Some(line);
      } else {
        r := None;
      }
    }
  }

  /** k calls of next() on a fresh iter(lh) do what Iterate(k) states: they
      yield the first k lines and record each with its number. */
  method LineIterateByNext<L>(lh: LineHistory<L>, k: nat) returns (yielded: seq<L>)
    requires k <= |lh.lines| && lh.history.Valid()
    modifies lh.history`items
    ensures yielded == lh.lines[..k]
    ensures lh.history.Valid() && lh.history.items == Keep(old(lh.history.items) + Enumerate(lh.lines[..k], 1), lh.history.maxlen)
  {
    ghost var h0 := lh.history.items;
    var it := new LineIterator(lh);
    yielded := [];
    var i := 0;
    while i < k
      invariant it.source == lh && it.lineno == i && i <= k && yielded == lh.lines[..i]
      invariant lh.history.Valid() && lh.history.items == Keep(h0 + Enumerate(lh.lines[..i], 1), lh.history.maxlen)
    {
      NumberedStep(h0, lh.lines, i, lh.history.maxlen);
      var r := it.Next();
      assert lh.lines[..i + 1] == yielded + [r.value];
      yielded := yielded + [r.value];
      i := i + 1;
    }
  }

  /** it = iter(lh); next(it); next(it); lh.clear(); next(it): the iteration
      resumes at line 3, and the history holds only that line. */
  method ClearBetweenSteps() returns (third: Option<string>, history: seq<(int, string)>)
    ensures third == Some("c") && history == [(3, "c")]
  {
    var lh := new LineHistory(["a", "b", "c"]);
    var it := new LineIterator(lh);
    var r := it.Next();
    r := it.Next();
    lh.Clear();
    third := it.Next();
    history := lh.history.items;
  }

  /** HelloWorld(chars): iterating yields (charno, ch) from 1 and records
      each pair in a deque as long as chars. */
  class HelloWorld {
    const chars: string
    const pairs: BoundedDeque<(int, char)>

    constructor (chars: string)
      ensures this.chars == chars && fresh(pairs)
      ensures pairs.maxlen == |chars| && pairs.items == [] && pairs.Valid()
    {
      this.chars := chars;
      pairs := new BoundedDeque(|chars|);
    }

    /** The first k steps of iter(self): record the pair, then yield it. */
    method Iterate(k: nat) returns (yielded: seq<(int, char)>)
      requires k <= |chars| && pairs.Valid()
      modifies pairs`items
      ensures yielded == Enumerate(chars[..k], 1)
      ensures pairs.Valid() && pairs.items == Keep(old(pairs.items) + yielded, pairs.maxlen)
    {
      ghost var p0 := pairs.items;
      yielded := [];
      var i := 0;
      while i < k
        invariant i <= k && yielded == Enumerate(chars[..i], 1)
        invariant pairs.Valid() && pairs.items == Keep(p0 + yielded, pairs.maxlen)
      {
        NumberedStep(p0, chars, i, pairs.maxlen);
        pairs.Append((i + 1, chars[i]));
        yielded := yielded + [(i + 1, chars[i])];
        i := i + 1;
      }
    }

    /** clear(): the deque is emptied. */
    method Clear()
      modifies pairs`items
      ensures pairs.Valid() && pairs.items == []
    {
      pairs.Clear();
    }
  }

  /** The generator iter(hw) returns, suspended after `charno` characters:
      each next() appends the following (charno, ch) pair to hw's deque,
      then yields it. */
  class CharIterator {
    const source: HelloWorld
    var charno: nat

    constructor (source: HelloWorld)
      ensures this.source == source && charno == 0
    {
      this.source := source;
      charno := 0;
    }

    /** next(it): the next numbered character, appended to the deque before
        it is yielded; None (StopIteration) after the last one. */
    method Next() returns (r: Option<(int, char)>)
      requires charno <= |source.chars| && source.pairs.Valid()
      modifies this`charno, source.pairs`items
      ensures charno <= |source.chars| && source.pairs.Valid()
      ensures old(charno) < |source.chars| ==>
        && r == Some((charno, source.chars[old(charno)])) && charno == old(charno) + 1
        && source.pairs.items == Keep(old(source.pairs.items) + [r.value], source.pairs.maxlen)
      ensures old(charno) == |source.chars| ==>
        r == None && charno == old(charno) && source.pairs.items == old(source.pairs.items)
    {
      if charno < |source.chars| {
        var pair := (charno + 1, source.chars[charno]);
        source.pairs.Append(pair);
        charno := charno + 1;
        r := Some(pair);
      } else {
        r := None;
      }
    }
  }

  /** k calls of next() on a fresh iter(hw) do what Iterate(k) states: they
      yield the first k numbered characters and append each to the deque. */
  method CharIterateByNext(hw: HelloWorld, k: nat) returns (yielded: seq<(int, char)>)
    requires k <= |hw.chars| && hw.pairs.Valid()
    modifies hw.pairs`items
    ensures yielded == Enumerate(hw.chars[..k], 1)
    ensures hw.pairs.Valid() && hw.pairs.items == Keep(old(hw.pairs.items) + yielded, hw.pairs.maxlen)
  {
    ghost var p0 := hw.pairs.items;
    var it := new CharIterator(hw);
    yielded := [];
    var i := 0;
    while i < k
      invariant it.source == hw && it.charno == i && i <= k && yielded == Enumerate(hw.chars[..i], 1)
      invariant hw.pairs.Valid() && hw.pairs.items == Keep(p0 + yielded, hw.pairs.maxlen)
    {
      NumberedStep(p0, hw.chars, i, hw.pairs.maxlen);
      var r := it.Next();
      yielded := yielded + [r.value];
      i := i + 1;
    }
  }

  /** After a full iteration the deque holds every pair of that iteration,
      whatever an earlier iteration left in it. */
  lemma FullIterationKeepsAll(old_items: seq<(int, char)>, chars: string)
    ensures Keep(old_items + Enumerate(chars[..|chars|], 1), |chars|) == Enumerate(chars, 1)
  {
    assert chars[..|chars|] == chars;
    KeepSuffix(old_items, Enumerate(chars, 1));
  }

  /** HelloWorld("Hello world"): iterating yields (1, 'H') through
      (11, 'd'), and the deque then holds all eleven pairs. */
  method HelloWorldSample() returns (yielded: seq<(int, char)>, kept: seq<(int, char)>)
    ensures |yielded| == 11 && yielded[0] == (1, 'H') && yielded[10] == (11, 'd')
    ensures kept == yielded
  {
    var h := new HelloWorld("Hello world");
    yielded := h.Iterate(11);
    FullIterationKeepsAll([], h.chars);
    kept := h.pairs.items;
  }
}
