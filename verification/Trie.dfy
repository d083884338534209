/** The longest-prefix-match tree of lib/classifier.c as a value.

    Nodes hold at most TRIE_PREFIX_BITS bits, so a long prefix needs a chain of
    intermediate nodes that carry no rules.  The tree is a path-compressed
    representation of a multiset of prefixes; the lemmas below say so. */
module Trie {
  import opened Bits

  const TRIE_PREFIX_BITS: nat := 32

  datatype Trie =
    | Null
    | Node(bits: BitString, rules: nat, edge0: Trie, edge1: Trie)
  {
    predicate IsLeaf() { Node? && edge0.Null? && edge1.Null? }

    function Edge(bit: bool): Trie
      requires Node?
    {
      if bit then edge1 else edge0
    }

    function WithEdge(bit: bool, child: Trie): Trie
      requires Node?
    {
      if bit then this.(edge1 := child) else this.(edge0 := child)
    }
  }

  /** A chain of nodes spelling `p`, with `n` rules at its end. */
  function BranchCreate(p: BitString, n: nat): (t: Trie)
    ensures t.Node?
    ensures p != [] ==> t.bits != [] && t.bits[0] == p[0]
    decreases |p|
  {
    if |p| <= TRIE_PREFIX_BITS then
      Node(p, n, Null, Null)
    else
      var sub := BranchCreate(p[TRIE_PREFIX_BITS..], n);
      Node(p[..TRIE_PREFIX_BITS], 0, Null, Null).WithEdge(sub.bits[0], sub)
  }

  function Insert(t: Trie, p: BitString): Trie
    requires p != []
    decreases t
  {
    match t
    case Null => BranchCreate(p, 1)
    case Node(bits, rules, _, _) =>
      var eq := EqualBits(bits, p);
      if eq < |bits| then
        // Mismatch: a new node goes above this one.
        var oldBranch := bits[eq];
        var parent := BranchCreate(p[..eq], if eq == |p| then 1 else 0)
                      .WithEdge(oldBranch, t.(bits := bits[eq..]));
        if eq < |p| then parent.WithEdge(!oldBranch, BranchCreate(p[eq..], 1)) else parent
      else if eq == |p| then
        t.(rules := rules + 1)
      else
        t.WithEdge(p[eq], Insert(t.Edge(p[eq]), p[eq..]))
  }

  /** One turn of the pruning loop: what replaces a node in its parent's edge. */
  function Prune(t: Trie): (r: Trie)
    requires t.Node?
  {
    if t.rules != 0 || (t.edge0.Node? && t.edge1.Node?) then t
    else
      var next := if t.edge0.Node? then t.edge0 else t.edge1;
      if next.Null? then Null
      else if |t.bits| + |next.bits| > TRIE_PREFIX_BITS then t
      else next.(bits := t.bits + next.bits)
  }

  /** Removes one occurrence of `p`.  The tree stays as it is when `p` is not in it,
      the case the source only warns about. */
  function Remove(t: Trie, p: BitString): (r: Trie)
    decreases t
  {
    match t
    case Null => t
    case Node(bits, rules, _, _) =>
      var eq := EqualBits(bits, p);
      if eq < |bits| then t
      else if eq == |p| then
        if rules == 0 then t else Prune(t.(rules := rules - 1))
      else
        var child := t.Edge(p[eq]);
        var child' := Remove(child, p[eq..]);
        if child.Node? && child'.Null? then
          Prune(t.WithEdge(p[eq], Null))
        else
          t.WithEdge(p[eq], child')
  }

  /** How many rules are stored at exactly the prefix `q`. */
  function Count(t: Trie, q: BitString): nat
    decreases t
  {
    match t
    case Null => 0
    case Node(bits, rules, _, _) =>
      if !(bits <= q) then 0
      else if |q| == |bits| then rules
      else Count(t.Edge(q[|bits|]), q[|bits|..])
  }

  /** Shape of every reachable tree: nodes are short, only the root may have no
      bits, a child sits on the edge its first bit names, and leaves hold
      rules. */
  predicate Shaped(t: Trie, root: bool)
    decreases t
  {
    t.Node? ==>
      && |t.bits| <= TRIE_PREFIX_BITS
      && (root || t.bits != [])
      && (t.IsLeaf() ==> t.rules > 0)
      && Shaped(t.edge0, false) && Shaped(t.edge1, false)
      && (t.edge0.Node? ==> t.edge0.bits[0] == false)
      && (t.edge1.Node? ==> t.edge1.bits[0] == true)
  }

  /** `t` stores exactly the multiset `m` of non-empty prefixes. */
  ghost predicate Represents(t: Trie, m: multiset<BitString>)
  {
    Shaped(t, true) && [] !in m && forall q: BitString :: Count(t, q) == m[q]
  }

  lemma {:induction false} BranchShaped(p: BitString, n: nat)
    requires p != [] && n > 0
    ensures Shaped(BranchCreate(p, n), false)
    decreases |p|
  {
    if |p| > TRIE_PREFIX_BITS {
      BranchShaped(p[TRIE_PREFIX_BITS..], n);
    }
  }

  lemma {:induction false} BranchCount(p: BitString, n: nat, q: BitString)
    ensures Count(BranchCreate(p, n), q) == if q == p then n else 0
    decreases |p|
  {
    var t := BranchCreate(p, n);
    if |p| > TRIE_PREFIX_BITS {
      var hi, lo := p[..TRIE_PREFIX_BITS], p[TRIE_PREFIX_BITS..];
      if hi <= q && |q| > TRIE_PREFIX_BITS {
        var rest := q[TRIE_PREFIX_BITS..];
        BranchCount(lo, n, rest);
        assert q == hi + rest && p == hi + lo;
        assert q == p <==> rest == lo;
      }
    }
  }

  /** A child on the edge that `q` does not take, or whose first bit differs,
      contributes nothing. */
  lemma CountNeedsFirstBit(t: Trie, q: BitString)
    requires t.Node? && t.bits != []
    requires q == [] || q[0] != t.bits[0]
    ensures Count(t, q) == 0
  {
  }

  /** Splitting a node's bits off into a new parent does not change counts. */
  lemma CountShift(t: Trie, eq: nat, q: BitString)
    requires t.Node? && eq <= |t.bits|
    ensures Count(t, q) ==
            if t.bits[..eq] <= q then Count(t.(bits := t.bits[eq..]), q[eq..]) else 0
  {
    if t.bits[..eq] <= q {
      var rest := q[eq..];
      assert q == t.bits[..eq] + rest;
      assert t.bits == t.bits[..eq] + t.bits[eq..];
      assert t.bits <= q <==> t.bits[eq..] <= rest by {
        if t.bits[eq..] <= rest {
          assert forall i :: 0 <= i < |t.bits| ==> t.bits[i] == q[i];
        }
        if t.bits <= q {
          assert forall i :: 0 <= i < |t.bits| - eq ==> t.bits[eq..][i] == rest[i];
        }
      }
      if t.bits <= q && |q| > |t.bits| {
        assert rest[|t.bits| - eq..] == q[|t.bits|..];
      }
    }
  }

  /** Insertion keeps the shape; below the root it keeps the first bit. */
  lemma {:induction false} InsertShaped(t: Trie, p: BitString, root: bool)
    requires Shaped(t, root) && p != []
    requires !root && t.Node? ==> t.bits[0] == p[0]
    ensures Shaped(Insert(t, p), root)
    ensures Insert(t, p).Node?
    ensures !root ==> Insert(t, p).bits[0] == p[0]
    decreases t
  {
    match t
    case Null => BranchShaped(p, 1);
    case Node(bits, rules, _, _) =>
      var eq := EqualBits(bits, p);
      if eq < |bits| {
        if eq < |p| { BranchShaped(p[eq..], 1); }
      } else if eq < |p| {
        InsertShaped(t.Edge(p[eq]), p[eq..], false);
      }
  }

  /** Insertion adds one to the count of `p` and changes no other count,
      whether it splits a node, extends a branch or adds to a node. */
  lemma {:induction false} InsertCount(t: Trie, p: BitString, root: bool, q: BitString)
    requires Shaped(t, root) && p != []
    ensures Count(Insert(t, p), q) == Count(t, q) + if q == p then 1 else 0
    decreases t
  {
    match t
    case Null => BranchCount(p, 1, q);
    case Node(bits, rules, _, _) =>
      var eq := EqualBits(bits, p);
      if eq < |bits| {
        CountShift(t, eq, q);
        InsertSplitCount(t, p, eq, q);
      } else if eq < |p| && bits <= q && |q| > eq {
        var bit := p[eq];
        assert p == bits + p[eq..] && q == bits + q[eq..];
        assert q == p <==> q[eq..] == p[eq..];
        if q[eq] == bit {
          InsertCount(t.Edge(bit), p[eq..], false, q[eq..]);
        }
      }
  }

  /** What a split makes of a node: its upper bits, with the old node's lower part
      and the new branch below. */
  lemma InsertSplit(t: Trie, p: BitString, eq: nat)
    requires t.Node? && p != [] && |t.bits| <= TRIE_PREFIX_BITS && eq == EqualBits(t.bits, p) < |t.bits|
    ensures var low := t.(bits := t.bits[eq..]);
            var top := Node(p[..eq], if eq == |p| then 1 else 0, Null, Null).WithEdge(t.bits[eq], low);
            Insert(t, p) == if eq < |p| then top.WithEdge(!t.bits[eq], BranchCreate(p[eq..], 1)) else top
  {
  }

  lemma InsertSplitCount(t: Trie, p: BitString, eq: nat, q: BitString)
    requires t.Node? && p != [] && |t.bits| <= TRIE_PREFIX_BITS
    requires eq == EqualBits(t.bits, p) < |t.bits|
    ensures Count(Insert(t, p), q) ==
            (if t.bits[..eq] <= q then Count(t.(bits := t.bits[eq..]), q[eq..]) else 0)
            + if q == p then 1 else 0
  {
    var hi := p[..eq];
    assert hi == t.bits[..eq];
    InsertSplit(t, p, eq);
    var low := t.(bits := t.bits[eq..]);
    if hi <= q {
      SplitCount(t, p, eq, q, low);
    } else {
      assert q != p;
      NotBelow(Insert(t, p), q);
    }
  }

  lemma NotBelow(t: Trie, q: BitString)
    requires t.Node? && !(t.bits <= q)
    ensures Count(t, q) == 0
  {
  }

  lemma SplitCount(t: Trie, p: BitString, eq: nat, q: BitString, low: Trie)
    requires t.Node? && p != [] && |t.bits| <= TRIE_PREFIX_BITS && eq == EqualBits(t.bits, p) < |t.bits|
    requires low == t.(bits := t.bits[eq..]) && p[..eq] <= q
    ensures Count(Insert(t, p), q) == Count(low, q[eq..]) + if q == p then 1 else 0
  {
    hide Insert, BranchCreate, EqualBits;
    InsertSplit(t, p, eq);
    var hi, rest := p[..eq], q[eq..];
    assert q == hi + rest && p == hi + p[eq..];
    assert q == p <==> rest == p[eq..];
    if rest == [] || rest[0] != low.bits[0] { CountNeedsFirstBit(low, rest); }
    if eq < |p| { BranchCount(p[eq..], 1, rest); }
    FirstDiffers(t.bits, p, eq);
  }

  lemma FirstDiffers(a: BitString, b: BitString, eq: nat)
    requires eq == EqualBits(a, b) < |a|
    ensures eq < |b| ==> b[eq] != a[eq]
  {
  }

  /** Pruning an emptied node keeps the shape and every count. */
  lemma PruneShaped(t: Trie, root: bool)
    requires t.Node? && |t.bits| <= TRIE_PREFIX_BITS && (root || t.bits != [])
    requires Shaped(t.edge0, false) && Shaped(t.edge1, false)
    requires t.edge0.Node? ==> t.edge0.bits[0] == false
    requires t.edge1.Node? ==> t.edge1.bits[0] == true
    ensures Shaped(Prune(t), root)
    ensures !root && Prune(t).Node? ==> Prune(t).bits[0] == t.bits[0]
  {
  }

  lemma PruneCount(t: Trie, q: BitString)
    requires t.Node? && Shaped(t.edge0, false) && Shaped(t.edge1, false)
    requires t.edge0.Node? ==> t.edge0.bits[0] == false
    requires t.edge1.Node? ==> t.edge1.bits[0] == true
    ensures Count(Prune(t), q) == Count(t, q)
  {
    var r := Prune(t);
    if r != t && r.Node? {
      CountShift(r, |t.bits|, q);
      var next := if t.edge0.Node? then t.edge0 else t.edge1;
      assert r.bits[..|t.bits|] == t.bits && r.bits[|t.bits|..] == next.bits;
      assert r.(bits := next.bits) == next;
      if t.bits <= q {
        var rest := q[|t.bits|..];
        if rest == [] || rest[0] != next.bits[0] { CountNeedsFirstBit(next, rest); }
      }
    }
  }

  /** Changing one child changes only the counts on its side. */
  lemma WithEdgeCount(t: Trie, bit: bool, child: Trie, q: BitString)
    requires t.Node?
    ensures Count(t.WithEdge(bit, child), q) ==
            if t.bits < q && q[|t.bits|] == bit then Count(child, q[|t.bits|..]) else Count(t, q)
  {
  }

  lemma {:induction false} RemoveShaped(t: Trie, p: BitString, root: bool)
    requires Shaped(t, root)
    ensures Shaped(Remove(t, p), root)
    ensures !root && t.Node? && Remove(t, p).Node? ==> Remove(t, p).bits[0] == t.bits[0]
    ensures t.Null? ==> Remove(t, p).Null?
    decreases t
  {
    match t
    case Null =>
    case Node(bits, rules, _, _) =>
      var eq := EqualBits(bits, p);
      if eq == |bits| {
        if eq == |p| {
          if rules > 0 { PruneShaped(t.(rules := rules - 1), root); }
        } else {
          var child := t.Edge(p[eq]);
          RemoveShaped(child, p[eq..], false);
          if child.Node? && Remove(child, p[eq..]).Null? {
            PruneShaped(t.WithEdge(p[eq], Null), root);
          }
        }
      }
  }

  /** Removal takes one from the count of `p` when it is there, and changes no
      other count, through every merge and every pruned ancestor. */
  lemma {:induction false} RemoveCount(t: Trie, p: BitString, root: bool, q: BitString)
    requires Shaped(t, root)
    ensures Count(Remove(t, p), q) == Count(t, q) - if q == p && Count(t, p) > 0 then 1 else 0
    decreases t
  {
    hide Remove, Count, EqualBits;
    if t.Null? {
      RemoveNull(t, p, q);
    } else if t.bits < p {
      if t.bits < q && q[|t.bits|] == p[|t.bits|] {
        RemoveCount(t.Edge(p[|t.bits|]), p[|t.bits|..], false, q[|t.bits|..]);
      }
      RemoveBelowCount(t, p, q);
    } else {
      RemoveHereCount(t, p, q);
    }
  }

  lemma RemoveNull(t: Trie, p: BitString, q: BitString)
    requires t.Null?
    ensures Remove(t, p).Null? && Count(Remove(t, p), q) == 0 == Count(t, q)
  {
  }

  /** Removal below a node: the child's new subtree, and pruning if that is gone. */
  lemma RemoveBelow(t: Trie, p: BitString)
    requires t.Node? && t.bits < p
    ensures var child := t.Edge(p[|t.bits|]);
            var child' := Remove(child, p[|t.bits|..]);
            Remove(t, p) == if child.Node? && child'.Null? then Prune(t.WithEdge(p[|t.bits|], child')) else t.WithEdge(p[|t.bits|], child')
  {
    assert EqualBits(t.bits, p) == |t.bits|;
  }

  lemma CountBelowNode(t: Trie, q: BitString)
    requires t.Node? && t.bits < q
    ensures Count(t, q) == Count(t.Edge(q[|t.bits|]), q[|t.bits|..])
  {
  }

  lemma RemoveHereCount(t: Trie, p: BitString, q: BitString)
    requires t.Node? && Shaped(t, true) && !(t.bits < p)
    ensures Count(Remove(t, p), q) == Count(t, q) - if q == p && Count(t, p) > 0 then 1 else 0
  {
    if p == t.bits {
      if t.rules > 0 { PruneCount(t.(rules := t.rules - 1), q); }
    } else {
      assert EqualBits(t.bits, p) < |t.bits|;
    }
  }

  lemma RemoveBelowCount(t: Trie, p: BitString, q: BitString)
    requires t.Node? && Shaped(t, true) && t.bits < p
    requires t.bits < q && q[|t.bits|] == p[|t.bits|] ==>
               var child, p', q' := t.Edge(p[|t.bits|]), p[|t.bits|..], q[|t.bits|..];
               Count(Remove(child, p'), q') == Count(child, q') - if q' == p' && Count(child, p') > 0 then 1 else 0
    ensures Count(Remove(t, p), q) == Count(t, q) - if q == p && Count(t, p) > 0 then 1 else 0
  {
    hide Remove, Count, Prune, EqualBits;
    var n := |t.bits|;
    var child := t.Edge(p[n]);
    var child' := Remove(child, p[n..]);
    RemoveBelow(t, p);
    RemoveShaped(child, p[n..], false);
    WithEdgeCount(t, p[n], child', q);
    CountBelowNode(t, p);
    if t.bits < q {
      CountBelowNode(t, q);
      assert q == p <==> q[n..] == p[n..] by { assert p == t.bits + p[n..] && q == t.bits + q[n..]; }
    }
    if child.Node? && child'.Null? { PruneCount(t.WithEdge(p[n], child'), q); }
  }

  /** A tree that is there holds some rule. */
  lemma {:induction false} NonNullHoldsRule(t: Trie, root: bool) returns (q: BitString)
    requires Shaped(t, root) && t.Node?
    ensures Count(t, q) > 0
    decreases t
  {
    if t.rules > 0 {
      q := t.bits;
    } else {
      var bit := t.edge1.Node?;
      var rest := NonNullHoldsRule(t.Edge(bit), false);
      if rest == [] || rest[0] != t.Edge(bit).bits[0] { CountNeedsFirstBit(t.Edge(bit), rest); }
      q := t.bits + rest;
      assert q[|t.bits|..] == rest;
    }
  }

  /** Insertion into a multiset of prefixes. */
  lemma InsertRepresents(t: Trie, m: multiset<BitString>, p: BitString)
    requires Represents(t, m) && p != []
    ensures Represents(Insert(t, p), m + multiset{p})
  {
    InsertShaped(t, p, true);
    forall q: BitString ensures Count(Insert(t, p), q) == (m + multiset{p})[q] {
      InsertCount(t, p, true, q);
    }
  }

  /** Removal from a multiset of prefixes; absent prefixes are ignored. */
  lemma RemoveRepresents(t: Trie, m: multiset<BitString>, p: BitString)
    requires Represents(t, m)
    ensures Represents(Remove(t, p), m - multiset{p})
  {
    RemoveShaped(t, p, true);
    forall q: BitString ensures Count(Remove(t, p), q) == (m - multiset{p})[q] {
      RemoveCount(t, p, true, q);
    }
  }

  /** The root pointer is null exactly when nothing is stored. */
  lemma NullIffEmpty(t: Trie, m: multiset<BitString>)
    requires Represents(t, m)
    ensures t.Null? <==> m == multiset{}
  {
    if t.Node? {
      var q := NonNullHoldsRule(t, true);
      assert q in m;
    } else {
      assert forall q: BitString :: m[q] == Count(t, q) == 0;
    }
  }

  datatype Op = Add(p: BitString) | Del(p: BitString)

  ghost function RunTrie(t: Trie, ops: seq<Op>): Trie
    requires forall i :: 0 <= i < |ops| && ops[i].Add? ==> ops[i].p != []
    decreases |ops|
  {
    if ops == [] then t
    else
      var t' := if ops[0].Add? then Insert(t, ops[0].p) else Remove(t, ops[0].p);
      RunTrie(t', ops[1..])
  }

  ghost function RunMultiset(m: multiset<BitString>, ops: seq<Op>): multiset<BitString>
    decreases |ops|
  {
    if ops == [] then m
    else
      var m' := if ops[0].Add? then m + multiset{ops[0].p} else m - multiset{ops[0].p};
      RunMultiset(m', ops[1..])
  }

  /** Over every run of insertions and removals the tree is the multiset, so a
      run that removes all it inserted ends with a null root. */
  lemma {:induction false} RunRepresents(t: Trie, m: multiset<BitString>, ops: seq<Op>)
    requires forall i :: 0 <= i < |ops| && ops[i].Add? ==> ops[i].p != []
    requires Represents(t, m)
    ensures Represents(RunTrie(t, ops), RunMultiset(m, ops))
    ensures RunTrie(t, ops).Null? <==> RunMultiset(m, ops) == multiset{}
    decreases |ops|
  {
    if ops == [] {
      NullIffEmpty(t, m);
    } else if ops[0].Add? {
      InsertRepresents(t, m, ops[0].p);
      RunRepresents(Insert(t, ops[0].p), m + multiset{ops[0].p}, ops[1..]);
    } else {
      RemoveRepresents(t, m, ops[0].p);
      RunRepresents(Remove(t, ops[0].p), m - multiset{ops[0].p}, ops[1..]);
    }
  }

  // ---- Lookup ----

  /** The node a walk that stands at `prev` takes for `bit`; before the first
      node it is the root. */
  function Next(t: Trie, prev: Trie, bit: bool): Trie
  {
    if prev.Null? then t else prev.Edge(bit)
  }

  /** Count at `path` extended by `r`. */
  ghost function CountBelow(t: Trie, path: BitString, r: BitString): nat
  {
    Count(t, path + r)
  }

  /** Everything stored strictly below `path` is found from `prev`. */
  ghost predicate Below(t: Trie, path: BitString, prev: Trie)
  {
    (prev.Null? ==> path == []) &&
    forall r: BitString {:trigger CountBelow(t, path, r)} :: r != [] ==> CountBelow(t, path, r) == Count(Next(t, prev, r[0]), r)
  }

  /** Stored prefixes are non-empty and at most `n` bits long. */
  ghost predicate PrefixesFit(t: Trie, n: nat)
  {
    Count(t, []) == 0 && forall q: BitString :: Count(t, q) > 0 ==> |q| <= n
  }

  lemma BelowStep(t: Trie, path: BitString, prev: Trie, bit: bool)
    requires Below(t, path, prev) && Next(t, prev, bit).Node?
    requires prev.Node? ==> Next(t, prev, bit).bits != [] && Next(t, prev, bit).bits[0] == bit
    ensures var node := Next(t, prev, bit);
            Below(t, path + node.bits, node) && Count(t, path + node.bits) == node.rules
  {
    var node := Next(t, prev, bit);
    if prev.Null? { assert path + node.bits == node.bits; }
    else { assert CountBelow(t, path, node.bits) == Count(node, node.bits); }
    forall r: BitString | r != []
      ensures CountBelow(t, path + node.bits, r) == Count(Next(t, node, r[0]), r)
    {
      BelowStepAt(t, path, prev, bit, r);
    }
  }

  lemma BelowStepAt(t: Trie, path: BitString, prev: Trie, bit: bool, r: BitString)
    requires Below(t, path, prev) && Next(t, prev, bit).Node? && r != []
    requires prev.Node? ==> Next(t, prev, bit).bits != [] && Next(t, prev, bit).bits[0] == bit
    ensures var node := Next(t, prev, bit);
            CountBelow(t, path + node.bits, r) == Count(node.Edge(r[0]), r)
  {
    var node := Next(t, prev, bit);
    var r' := node.bits + r;
    assert (path + node.bits) + r == path + r';
    assert CountBelow(t, path, r') == Count(Next(t, prev, r'[0]), r');
    assert r'[|node.bits|..] == r;
  }

  /** A node's own bits stay within the longest stored prefix. */
  lemma NodeFits(t: Trie, path: BitString, prev: Trie, bit: bool, n: nat)
    requires Below(t, path, prev) && PrefixesFit(t, n)
    requires Next(t, prev, bit).Node? && Shaped(Next(t, prev, bit), prev.Null?)
    requires prev.Node? ==> Next(t, prev, bit).bits[0] == bit
    ensures |path| + |Next(t, prev, bit).bits| <= n
  {
    var node := Next(t, prev, bit);
    var q := NonNullHoldsRule(node, prev.Null?);
    assert node.bits <= q;
    assert CountBelow(t, path, q) > 0;
  }

  /** A prefix of length `n` that matches `v` is stored. */
  ghost predicate MatchesAt(t: Trie, v: BitString, n: nat)
  {
    1 <= n <= |v| && Count(t, v[..n]) > 0
  }

  /** `plens` are the lengths of the stored prefixes that match `v`. */
  ghost predicate MatchLens(t: Trie, v: BitString, plens: set<nat>)
  {
    forall n: nat :: n in plens <==> MatchesAt(t, v, n)
  }

  /** Any value that shares the first `maskBits` bits of `v` has the same
      matching lengths. */
  ghost predicate Decides(t: Trie, v: BitString, maskBits: nat, plens: set<nat>)
  {
    maskBits <= |v| && forall v': BitString :: SharesPrefix(v, v', maskBits) ==> MatchLens(t, v', plens)
  }

  ghost predicate SharesPrefix(v: BitString, v': BitString, n: nat)
  {
    n <= |v| == |v'| && v'[..n] == v[..n]
  }

  /** Matching lengths beyond `ofs` add nothing when every count there is zero. */
  lemma ExtendLens(t: Trie, v: BitString, ofs: nat, plens: set<nat>, v': BitString)
    requires ofs <= |v'| && ofs <= |v| && v'[..ofs] == v[..ofs]
    requires MatchLens(t, v[..ofs], plens)
    requires forall n: nat :: ofs < n <= |v'| ==> CountBelow(t, v[..ofs], v'[ofs..n]) == 0
    ensures MatchLens(t, v', plens)
  {
    forall n: nat ensures n in plens <==> MatchesAt(t, v', n) {
      assert n in plens <==> MatchesAt(t, v[..ofs], n);
      if 1 <= n <= ofs {
        assert v'[..n] == v'[..ofs][..n] == v[..ofs][..n];
      } else if ofs < n <= |v'| {
        assert v'[..n] == v[..ofs] + v'[ofs..n];
      }
    }
  }

  lemma MismatchDecides(t: Trie, v: BitString, ofs: nat, prev: Trie, eq: nat,
                        plens: set<nat>, v': BitString)
    requires ofs < |v| == |v'|
    requires Below(t, v[..ofs], prev) && Next(t, prev, v[ofs]).Node?
    requires MatchLens(t, v[..ofs], plens)
    requires prev.Node? ==> Next(t, prev, v[ofs]).bits != [] && Next(t, prev, v[ofs]).bits[0] == v[ofs]
    requires eq == EqualBits(Next(t, prev, v[ofs]).bits, v[ofs..]) < |Next(t, prev, v[ofs]).bits|
    requires ofs + eq < |v| && v'[..ofs + eq + 1] == v[..ofs + eq + 1]
    ensures MatchLens(t, v', plens)
  {
    var node := Next(t, prev, v[ofs]);
    assert v'[..ofs] == v'[..ofs + eq + 1][..ofs] == v[..ofs];
    forall n: nat | ofs < n <= |v'| ensures CountBelow(t, v[..ofs], v'[ofs..n]) == 0 {
      var r := v'[ofs..n];
      assert v'[..ofs + eq + 1][ofs] == v[..ofs + eq + 1][ofs];
      assert v'[..ofs + eq + 1][ofs + eq] == v[..ofs + eq + 1][ofs + eq];
      assert |r| > eq ==> r[eq] == v[ofs..][eq];
      assert !(node.bits <= r);
    }
    ExtendLens(t, v, ofs, plens, v');
  }

  lemma FullMatchLens(t: Trie, v: BitString, ofs: nat, prev: Trie, plens: set<nat>)
    requires ofs < |v|
    requires Below(t, v[..ofs], prev) && Next(t, prev, v[ofs]).Node? && Count(t, []) == 0
    requires MatchLens(t, v[..ofs], plens)
    requires prev.Node? ==> Next(t, prev, v[ofs]).bits != [] && Next(t, prev, v[ofs]).bits[0] == v[ofs]
    requires ofs + |Next(t, prev, v[ofs]).bits| <= |v|
    requires v[ofs..ofs + |Next(t, prev, v[ofs]).bits|] == Next(t, prev, v[ofs]).bits
    ensures var node := Next(t, prev, v[ofs]);
            var ofs' := ofs + |node.bits|;
            MatchLens(t, v[..ofs'], if node.rules > 0 then plens + {ofs'} else plens)
  {
    var node := Next(t, prev, v[ofs]);
    var ofs' := ofs + |node.bits|;
    var w := v[..ofs'];
    assert w == v[..ofs] + node.bits;
    BelowStep(t, v[..ofs], prev, v[ofs]);
    assert w[..ofs'] == w;
    var plens' := if node.rules > 0 then plens + {ofs'} else plens;
    forall n: nat ensures n in plens' <==> MatchesAt(t, w, n) {
      assert n in plens <==> MatchesAt(t, v[..ofs], n);
      if 1 <= n <= ofs {
        assert w[..n] == v[..ofs][..n];
      } else if ofs < n < ofs' {
        InnerLength(t, v, ofs, prev, n);
        assert w[..n] == v[..n];
      }
    }
  }

  /** No prefix ends inside a node's bits. */
  lemma InnerLength(t: Trie, v: BitString, ofs: nat, prev: Trie, n: nat)
    requires ofs < |v| && Below(t, v[..ofs], prev) && Next(t, prev, v[ofs]).Node?
    requires ofs < n < ofs + |Next(t, prev, v[ofs]).bits| <= |v|
    ensures Count(t, v[..n]) == 0
  {
    assert v[..n] == v[..ofs] + v[ofs..n];
    assert CountBelow(t, v[..ofs], v[ofs..n]) == Count(Next(t, prev, v[ofs]), v[ofs..n]);
  }

  lemma DeadEndDecides(t: Trie, v: BitString, ofs: nat, prev: Trie, maskBits: nat,
                       plens: set<nat>, v': BitString)
    requires ofs <= |v| == |v'|
    requires Below(t, v[..ofs], prev) && MatchLens(t, v[..ofs], plens)
    requires if prev.Null? || prev.IsLeaf() then t.Null? || prev.Node? else ofs < |v| && prev.Edge(v[ofs]).Null?
    requires maskBits == if prev.Null? || prev.IsLeaf() then ofs else ofs + 1
    requires v'[..maskBits] == v[..maskBits]
    ensures MatchLens(t, v', plens)
  {
    assert v'[..ofs] == v'[..maskBits][..ofs] == v[..ofs];
    forall n: nat | ofs < n <= |v'| ensures CountBelow(t, v[..ofs], v'[ofs..n]) == 0 {
      var r := v'[ofs..n];
      if maskBits == ofs + 1 {
        assert r[0] == v'[..maskBits][ofs] == v[..maskBits][ofs] == v[ofs];
      }
      assert Next(t, prev, r[0]).Null?;
    }
    ExtendLens(t, v, ofs, plens, v');
  }

  /** What the walk knows when it stands at `prev` after `ofs` bits of `v`. */
  ghost predicate Walk(t: Trie, v: BitString, prev: Trie, ofs: nat, plens: set<nat>)
  {
    && Shaped(t, true) && PrefixesFit(t, |v|)
    && ofs < |v| && Below(t, v[..ofs], prev) && MatchLens(t, v[..ofs], plens)
    && Shaped(Next(t, prev, v[ofs]), prev.Null?)
    && (prev.Node? && Next(t, prev, v[ofs]).Node? ==> Next(t, prev, v[ofs]).bits[0] == v[ofs])
    && (prev.Node? ==> Shaped(prev, true) && Count(t, v[..ofs]) == prev.rules)
  }

  lemma WalkStart(t: Trie, v: BitString)
    requires v != [] && Shaped(t, true) && PrefixesFit(t, |v|)
    ensures Walk(t, v, Null, 0, {})
  {
    forall r: BitString | r != [] ensures CountBelow(t, v[..0], r) == Count(t, r) {
      assert v[..0] + r == r;
    }
  }

  lemma WalkMismatch(t: Trie, v: BitString, prev: Trie, ofs: nat, plens: set<nat>, eq: nat)
    requires Walk(t, v, prev, ofs, plens) && Next(t, prev, v[ofs]).Node?
    requires eq == EqualBits(Next(t, prev, v[ofs]).bits, v[ofs..]) < |Next(t, prev, v[ofs]).bits|
    ensures Decides(t, v, ofs + eq + 1, plens)
  {
    NodeFits(t, v[..ofs], prev, v[ofs], |v|);
    var n := ofs + eq + 1;
    forall v': BitString | SharesPrefix(v, v', n) ensures MatchLens(t, v', plens) {
      MismatchDecides(t, v, ofs, prev, eq, plens, v');
    }
  }

  lemma WalkStep(t: Trie, v: BitString, prev: Trie, ofs: nat, plens: set<nat>, node: Trie, ofs': nat)
    requires Walk(t, v, prev, ofs, plens) && node == Next(t, prev, v[ofs]) && node.Node?
    requires EqualBits(node.bits, v[ofs..]) == |node.bits| && ofs' == ofs + |node.bits|
    ensures ofs' <= |v| && Below(t, v[..ofs'], node) && Count(t, v[..ofs']) == node.rules
    ensures MatchLens(t, v[..ofs'], if node.rules > 0 then plens + {ofs'} else plens)
  {
    hide Walk, Below, MatchLens, EqualBits, Next, Count;
    WalkFacts(t, v, prev, ofs, plens);
    FullMatchAt(node.bits, v, ofs);
    FullMatchLens(t, v, ofs, prev, plens);
    BelowStep(t, v[..ofs], prev, v[ofs]);
  }

  lemma WalkFacts(t: Trie, v: BitString, prev: Trie, ofs: nat, plens: set<nat>)
    requires Walk(t, v, prev, ofs, plens)
    ensures ofs < |v| && Below(t, v[..ofs], prev) && MatchLens(t, v[..ofs], plens) && Count(t, []) == 0
    ensures prev.Node? && Next(t, prev, v[ofs]).Node? ==> Next(t, prev, v[ofs]).bits != [] && Next(t, prev, v[ofs]).bits[0] == v[ofs]
  {
    hide Below, MatchLens;
  }

  lemma FullValueDecides(t: Trie, v: BitString, ofs: nat, plens: set<nat>)
    requires ofs == |v| && MatchLens(t, v[..ofs], plens)
    ensures MatchLens(t, v, plens) && Decides(t, v, |v|, plens)
  {
    assert v[..ofs] == v;
    forall v': BitString | SharesPrefix(v, v', |v|) ensures MatchLens(t, v', plens) {
      assert v' == v'[..|v|] == v[..|v|] == v;
    }
  }

  lemma WalkEnd(t: Trie, v: BitString, prev: Trie, ofs: nat, plens: set<nat>)
    requires Walk(t, v, prev, ofs, plens) && Next(t, prev, v[ofs]).Null?
    ensures Decides(t, v, if prev.Null? || prev.IsLeaf() then ofs else ofs + 1, plens)
  {
    var maskBits := if prev.Null? || prev.IsLeaf() then ofs else ofs + 1;
    forall v': BitString | SharesPrefix(v, v', maskBits)
      ensures MatchLens(t, v', plens)
    {
      DeadEndDecides(t, v, ofs, prev, maskBits, plens, v');
    }
  }

  /** What a lookup answers: the matching lengths, and how many leading bits
      decide them. */
  ghost predicate Answer(t: Trie, v: BitString, maskBits: nat, plens: set<nat>)
  {
    MatchLens(t, v, plens) && Decides(t, v, maskBits, plens) && forall n: nat :: n in plens ==> n <= maskBits
  }

  lemma AnswerFrom(t: Trie, v: BitString, ofs: nat, maskBits: nat, plens: set<nat>)
    requires ofs <= maskBits <= |v| && MatchLens(t, v[..ofs], plens) && Decides(t, v, maskBits, plens)
    ensures Answer(t, v, maskBits, plens)
  {
    forall n: nat | n in plens ensures n <= ofs { assert MatchesAt(t, v[..ofs], n); }
    assert SharesPrefix(v, v, maskBits);
  }

  // ---- How many bits a lookup looks at ----

  /** No stored prefix that shares the first `n` bits of `v` goes on beyond them: these
      bits tell of each stored prefix whether it matches. */
  ghost predicate Settles(t: Trie, v: BitString, n: nat)
  {
    n <= |v| && forall q: BitString :: Count(t, q) > 0 && |q| > n ==> q[..n] != v[..n]
  }

  ghost function SettlingFrom(t: Trie, v: BitString, n: nat): nat
    decreases |v| - n
  {
    if n >= |v| || Settles(t, v, n) then n else SettlingFrom(t, v, n + 1)
  }

  /** The fewest leading bits of `v` that settle every stored prefix. */
  ghost function DecidingBits(t: Trie, v: BitString): nat { SettlingFrom(t, v, 0) }

  lemma {:induction false} SettlingIs(t: Trie, v: BitString, n: nat, k: nat)
    requires k <= n && Settles(t, v, n) && forall j: nat :: k <= j < n ==> !Settles(t, v, j)
    ensures SettlingFrom(t, v, k) == n
    decreases n - k
  {
    if k < n { SettlingIs(t, v, n, k + 1); }
  }

  /** A stored prefix that goes on beyond `n` bits of `v` is settled by no fewer. */
  lemma GoesOn(t: Trie, v: BitString, q: BitString, n: nat)
    requires n <= |v| && Count(t, q) > 0 && |q| > n && q[..n] == v[..n]
    ensures forall j: nat :: j <= n ==> !Settles(t, v, j)
  {
    forall j: nat | j <= n ensures !Settles(t, v, j) {
      assert q[..j] == q[..n][..j] == v[..n][..j] == v[..j];
    }
  }

  lemma {:induction false} SettlingSettles(t: Trie, v: BitString, n: nat)
    requires n <= |v| && PrefixesFit(t, |v|)
    ensures n <= SettlingFrom(t, v, n) <= |v| && Settles(t, v, SettlingFrom(t, v, n))
    decreases |v| - n
  {
    if n < |v| && !Settles(t, v, n) { SettlingSettles(t, v, n + 1); }
  }

  /** The deciding bits reach to the end of every stored prefix that matches. */
  lemma DecidingCovers(t: Trie, v: BitString)
    requires PrefixesFit(t, |v|)
    ensures DecidingBits(t, v) <= |v| && forall n: nat :: MatchesAt(t, v, n) ==> n <= DecidingBits(t, v)
  {
    SettlingSettles(t, v, 0);
    var d := DecidingBits(t, v);
    forall n: nat | d < n <= |v| ensures !MatchesAt(t, v, n) { assert v[..n][..d] == v[..d]; }
  }

  /** Values that share the deciding bits have the same. */
  lemma DecidingSame(t: Trie, v: BitString, v': BitString)
    requires PrefixesFit(t, |v|) && |v'| == |v| && SharesPrefix(v, v', DecidingBits(t, v))
    ensures DecidingBits(t, v') == DecidingBits(t, v)
  {
    hide DecidingBits, PrefixesFit;
    var n := DecidingBits(t, v);
    DecidingCovers(t, v);
    LeastSettling(t, v);
    forall k: nat | k <= n ensures Settles(t, v', k) <==> Settles(t, v, k) {
      assert v'[..k] == v'[..n][..k] && v[..k] == v[..n][..k];
    }
    SettlesLeast(t, v', n);
  }

  lemma LeastSettling(t: Trie, v: BitString)
    requires PrefixesFit(t, |v|)
    ensures Settles(t, v, DecidingBits(t, v)) && forall k: nat :: k < DecidingBits(t, v) ==> !Settles(t, v, k)
  {
    SettlingSettles(t, v, 0);
    NoneSettlesBefore(t, v, 0);
  }

  lemma {:induction false} NoneSettlesBefore(t: Trie, v: BitString, n: nat)
    ensures forall k: nat :: n <= k < SettlingFrom(t, v, n) ==> !Settles(t, v, k)
    decreases |v| - n
  {
    hide Settles;
    if n < |v| && !Settles(t, v, n) { NoneSettlesBefore(t, v, n + 1); }
  }

  lemma SettlesLeast(t: Trie, v: BitString, n: nat)
    requires Settles(t, v, n) && forall k: nat :: k < n ==> !Settles(t, v, k)
    ensures DecidingBits(t, v) == n
  {
    SettlingIs(t, v, n, 0);
  }

  /** The deciding bits decide the matching lengths. */
  lemma SettledDecides(t: Trie, v: BitString)
    requires PrefixesFit(t, |v|)
    ensures Decides(t, v, DecidingBits(t, v), set n: nat | n <= |v| && MatchesAt(t, v, n))
  {
    hide DecidingBits;
    var d := DecidingBits(t, v);
    DecidingCovers(t, v);
    forall v': BitString | SharesPrefix(v, v', d) ensures MatchLens(t, v', set n: nat | n <= |v| && MatchesAt(t, v, n)) {
      forall n: nat ensures MatchesAt(t, v, n) <==> MatchesAt(t, v', n) { SameLength(t, v, v', d, n); }
    }
  }

  lemma SameLength(t: Trie, v: BitString, v': BitString, d: nat, n: nat)
    requires PrefixesFit(t, |v|) && SharesPrefix(v, v', d) && d == DecidingBits(t, v)
    ensures MatchesAt(t, v, n) <==> MatchesAt(t, v', n)
  {
    SettlingSettles(t, v, 0);
    if n <= d {
      assert v[..n] == v[..d][..n] == v'[..d][..n] == v'[..n];
    } else if n <= |v| {
      assert v[..n][..d] == v[..d] && v'[..n][..d] == v'[..d];
    }
  }

  /** The bits that decide the matching lengths settle every stored prefix. */
  lemma AnswerSettles(t: Trie, v: BitString, maskBits: nat, plens: set<nat>)
    requires Answer(t, v, maskBits, plens) && PrefixesFit(t, |v|)
    ensures Settles(t, v, maskBits)
  {
    forall q: BitString | Count(t, q) > 0 && |q| > maskBits ensures q[..maskBits] != v[..maskBits] {
      if q[..maskBits] == v[..maskBits] { LengthIsAnswered(t, v, maskBits, plens, q); }
    }
  }

  lemma LengthIsAnswered(t: Trie, v: BitString, maskBits: nat, plens: set<nat>, q: BitString)
    requires Decides(t, v, maskBits, plens) && Count(t, []) == 0 && Count(t, q) > 0
    requires maskBits <= |q| <= |v| && q[..maskBits] == v[..maskBits]
    ensures |q| in plens
  {
    var v' := q + v[|q|..];
    assert v'[..|q|] == q && v'[..maskBits] == q[..maskBits];
    assert SharesPrefix(v, v', maskBits) && MatchesAt(t, v', |q|);
  }

  /** An answer that looks at no bit too many. */
  ghost predicate Lean(t: Trie, v: BitString, maskBits: nat)
  {
    maskBits == 0 || (maskBits <= |v| && exists q: BitString :: Count(t, q) > 0 && |q| >= maskBits && q[..maskBits - 1] == v[..maskBits - 1])
  }

  lemma LeanIsDeciding(t: Trie, v: BitString, maskBits: nat, plens: set<nat>)
    requires Answer(t, v, maskBits, plens) && PrefixesFit(t, |v|) && maskBits <= |v| && Lean(t, v, maskBits)
    ensures maskBits == DecidingBits(t, v)
  {
    hide Answer, PrefixesFit, Settles;
    AnswerSettles(t, v, maskBits, plens);
    if maskBits > 0 {
      var q: BitString :| Count(t, q) > 0 && |q| >= maskBits && q[..maskBits - 1] == v[..maskBits - 1];
      GoesOn(t, v, q, maskBits - 1);
    }
    SettlingIs(t, v, maskBits, 0);
  }

  /** Some stored prefix passes through the node that the walk comes to next. */
  lemma PassesThrough(t: Trie, path: BitString, prev: Trie, bit: bool) returns (q: BitString)
    requires Below(t, path, prev) && Count(t, []) == 0
    requires Next(t, prev, bit).Node? && Shaped(Next(t, prev, bit), prev.Null?)
    requires prev.Node? ==> Next(t, prev, bit).bits[0] == bit
    ensures Count(t, q) > 0 && path + Next(t, prev, bit).bits <= q
  {
    var node := Next(t, prev, bit);
    var r := NonNullHoldsRule(node, prev.Null?);
    CountNeedsBits(node, r);
    assert CountBelow(t, path, r) > 0;
    q := path + r;
    PrefixOfSum(path, node.bits, r);
  }

  lemma CountNeedsBits(t: Trie, q: BitString)
    requires t.Node? && Count(t, q) > 0
    ensures t.bits <= q
  {
  }

  lemma PrefixOfSum(a: BitString, b: BitString, c: BitString)
    requires b <= c
    ensures a + b <= a + c
  {
    assert c == b + c[|b|..];
    assert a + c == (a + b) + c[|b|..];
  }

  // ---- Turns of the walk ----

  lemma WalkNext(t: Trie, v: BitString, node: Trie, ofs: nat, plens: set<nat>, root: bool)
    requires Shaped(t, true) && PrefixesFit(t, |v|) && node.Node? && Shaped(node, root)
    requires ofs <= |v| && Count(t, v[..ofs]) == node.rules && Below(t, v[..ofs], node) && MatchLens(t, v[..ofs], plens)
    ensures if ofs == |v| then Answer(t, v, |v|, plens) else Walk(t, v, node, ofs, plens)
  {
    hide Below, MatchLens, Count, PrefixesFit;
    if ofs == |v| {
      FullValueDecides(t, v, ofs, plens);
      AnswerFrom(t, v, ofs, |v|, plens);
    }
  }

  /** The turn of the walk that mismatches. */
  lemma WalkStop(t: Trie, v: BitString, prev: Trie, ofs: nat, plens: set<nat>, node: Trie, eq: nat)
    requires Walk(t, v, prev, ofs, plens) && node == Next(t, prev, v[ofs]) && node.Node?
    requires eq == EqualBits(node.bits, v[ofs..]) < |node.bits|
    ensures Answer(t, v, ofs + eq + 1, plens) && ofs + eq < |v| && Lean(t, v, ofs + eq + 1)
  {
    hide Answer, Below, MatchLens, Count, Shaped;
    WalkMismatch(t, v, prev, ofs, plens, eq);
    AnswerFrom(t, v, ofs, ofs + eq + 1, plens);
    var q := PassesThrough(t, v[..ofs], prev, v[ofs]);
    SharesStart(v, ofs, node.bits, eq, q);
  }

  lemma SharesStart(v: BitString, ofs: nat, bits: BitString, eq: nat, q: BitString)
    requires ofs <= |v| && eq <= EqualBits(bits, v[ofs..]) && v[..ofs] + bits <= q
    ensures ofs + eq <= |q| && ofs + eq <= |v| && q[..ofs + eq] == v[..ofs + eq] && |q| >= ofs + |bits|
  {
    forall k | 0 <= k < ofs + eq ensures q[k] == v[k] {
      assert q[k] == (v[..ofs] + bits)[k];
      if k >= ofs { assert v[ofs..][k - ofs] == v[k]; }
    }
  }

  /** A turn of the walk that matches the whole node. */
  lemma WalkOn(t: Trie, v: BitString, prev: Trie, ofs: nat, plens: set<nat>, node: Trie, eq: nat)
    requires Walk(t, v, prev, ofs, plens) && node == Next(t, prev, v[ofs]) && node.Node?
    requires eq == EqualBits(node.bits, v[ofs..]) == |node.bits|
    ensures var plens' := if node.rules > 0 then plens + {ofs + eq} else plens;
            if ofs + eq >= |v| then Answer(t, v, |v|, plens') && Lean(t, v, |v|) else Walk(t, v, node, ofs + eq, plens')
  {
    hide Walk, Answer, Below, MatchLens, Count, Shaped, PrefixesFit, Lean;
    WalkShape(t, v, prev, ofs, plens);
    WalkStep(t, v, prev, ofs, plens, node, ofs + eq);
    WalkNext(t, v, node, ofs + eq, if node.rules > 0 then plens + {ofs + eq} else plens, prev.Null?);
    if ofs + eq >= |v| { WholeIsLean(t, v, prev, ofs, plens, node, eq); }
  }

  lemma WalkShape(t: Trie, v: BitString, prev: Trie, ofs: nat, plens: set<nat>)
    requires Walk(t, v, prev, ofs, plens)
    ensures Shaped(t, true) && PrefixesFit(t, |v|) && ofs < |v| && Shaped(Next(t, prev, v[ofs]), prev.Null?)
  {
    hide Below, MatchLens, Count;
  }

  lemma WholeIsLean(t: Trie, v: BitString, prev: Trie, ofs: nat, plens: set<nat>, node: Trie, eq: nat)
    requires Walk(t, v, prev, ofs, plens) && node == Next(t, prev, v[ofs]) && node.Node?
    requires eq == EqualBits(node.bits, v[ofs..]) == |node.bits| && ofs + eq == |v|
    ensures Lean(t, v, |v|)
  {
    hide Below, MatchLens, Count, Shaped;
    var q := PassesThrough(t, v[..ofs], prev, v[ofs]);
    SharesStart(v, ofs, node.bits, eq, q);
    assert q[..|v| - 1] == q[..|v|][..|v| - 1] == v[..|v|][..|v| - 1] == v[..|v| - 1];
  }

  lemma WalkTurn(t: Trie, v: BitString, prev: Trie, ofs: nat, plens: set<nat>, node: Trie, eq: nat)
    requires Walk(t, v, prev, ofs, plens) && node == Next(t, prev, v[ofs]) && node.Node?
    requires eq == EqualBits(node.bits, v[ofs..])
    ensures var plens' := if node.rules > 0 then plens + {ofs + eq} else plens;
            if eq < |node.bits| then Answer(t, v, ofs + eq + 1, plens) && ofs + eq < |v| && Lean(t, v, ofs + eq + 1)
            else if ofs + eq >= |v| then Answer(t, v, |v|, plens') && Lean(t, v, |v|)
            else Walk(t, v, node, ofs + eq, plens')
  {
    hide Walk, Answer, Lean;
    if eq < |node.bits| {
      WalkStop(t, v, prev, ofs, plens, node, eq);
    } else {
      WalkOn(t, v, prev, ofs, plens, node, eq);
    }
  }

  /** The walk falls off the tree. */
  lemma WalkDone(t: Trie, v: BitString, prev: Trie, ofs: nat, plens: set<nat>)
    requires Walk(t, v, prev, ofs, plens) && Next(t, prev, v[ofs]).Null?
    ensures var maskBits := if prev.Null? || prev.IsLeaf() then ofs else ofs + 1;
            Answer(t, v, maskBits, plens) && maskBits <= |v| && Lean(t, v, maskBits)
  {
    hide Answer, Lean;
    WalkEnd(t, v, prev, ofs, plens);
    AnswerFrom(t, v, ofs, if prev.Null? || prev.IsLeaf() then ofs else ofs + 1, plens);
    FallIsLean(t, v, prev, ofs, plens);
  }

  lemma WalkPlace(t: Trie, v: BitString, prev: Trie, ofs: nat, plens: set<nat>)
    requires Walk(t, v, prev, ofs, plens)
    ensures ofs < |v| && (prev.Null? ==> ofs == 0) && Below(t, v[..ofs], prev) && (prev.Node? ==> Shaped(prev, true))
  {
    hide MatchLens, PrefixesFit, Count, Shaped;
  }

  /** A leaf that the walk has come to stores the value so far. */
  lemma LeafHolds(t: Trie, v: BitString, prev: Trie, ofs: nat, plens: set<nat>)
    requires Walk(t, v, prev, ofs, plens) && prev.Node? && prev.IsLeaf()
    ensures Count(t, v[..ofs]) > 0
  {
    hide MatchLens, PrefixesFit;
  }

  lemma FallIsLean(t: Trie, v: BitString, prev: Trie, ofs: nat, plens: set<nat>)
    requires Walk(t, v, prev, ofs, plens) && Next(t, prev, v[ofs]).Null?
    ensures Lean(t, v, if prev.Null? || prev.IsLeaf() then ofs else ofs + 1)
  {
    hide Walk, Count, Below, Shaped;
    WalkPlace(t, v, prev, ofs, plens);
    if prev.Null? {
    } else if prev.IsLeaf() {
      if ofs > 0 {
        var q := v[..ofs];
        LeafHolds(t, v, prev, ofs, plens);
        assert q[..ofs - 1] == v[..ofs - 1];
      }
    } else {
      var q := PassesThroughOther(t, v, prev, ofs);
      assert q[..ofs] == v[..ofs];
    }
  }

  lemma PassesThroughOther(t: Trie, v: BitString, prev: Trie, ofs: nat) returns (q: BitString)
    requires ofs < |v| && Below(t, v[..ofs], prev) && prev.Node? && Shaped(prev, true) && !prev.IsLeaf() && prev.Edge(v[ofs]).Null?
    ensures Count(t, q) > 0 && |q| > ofs && q[..ofs] == v[..ofs]
  {
    hide Below;
    var other := prev.Edge(!v[ofs]);
    var r := NonNullHoldsRule(other, false);
    CountNeedsBits(other, r);
    CountFrom(t, v[..ofs], prev, r);
    q := v[..ofs] + r;
  }

  lemma CountFrom(t: Trie, path: BitString, prev: Trie, r: BitString)
    requires Below(t, path, prev) && r != []
    ensures Count(t, path + r) == Count(Next(t, prev, r[0]), r)
  {
    assert CountBelow(t, path, r) == Count(Next(t, prev, r[0]), r);
  }

  /** The walk of trie_lookup_value: `plens` are exactly the lengths of stored
      prefixes that match `v`, and `maskBits` leading bits decide them, which are the
      fewest that settle every stored prefix. */
  method LookupValue(t: Trie, v: BitString) returns (maskBits: nat, plens: set<nat>)
    requires v != [] && Shaped(t, true) && PrefixesFit(t, |v|)
    ensures Answer(t, v, maskBits, plens) && maskBits == DecidingBits(t, v)
  {
    hide Walk, Answer, Shaped, PrefixesFit, Lean, DecidingBits;
    var prev, node, ofs := Null, t, 0;
    plens := {};
    WalkStart(t, v);
    while node.Node?
      invariant ofs < |v| && Walk(t, v, prev, ofs, plens) && node == Next(t, prev, v[ofs])
      decreases node
    {
      var eq := EqualBits(node.bits, v[ofs..]);
      WalkTurn(t, v, prev, ofs, plens, node, eq);
      if eq < |node.bits| {
        LeanIsDeciding(t, v, ofs + eq + 1, plens);
        return ofs + eq + 1, plens;
      }
      ofs := ofs + eq;
      if node.rules > 0 {
        plens := plens + {ofs};
      }
      if ofs >= |v| {
        LeanIsDeciding(t, v, |v|, plens);
        return |v|, plens;
      }
      prev, node := node, node.Edge(v[ofs]);
    }
    maskBits := if prev.Null? || prev.IsLeaf() then ofs else ofs + 1;
    WalkDone(t, v, prev, ofs, plens);
    LeanIsDeciding(t, v, maskBits, plens);
  }
}
