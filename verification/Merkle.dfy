/** The Merkle root over the heads of all sagas, and what it binds. */
module Merkle {
  import opened Texts
  import opened Jcs
  import opened Chain

  /** A saga id and the hash its chain ends in. */
  type Head = Entry<Text>

  const LEAF_NAMES := ["saga_id", "chain_head"]

  function LeafText(p: Head): Text {
    Emit(Record(LEAF_NAMES, [Str(p.key), Str(p.val)]))
  }

  function Leaves(h: Hash, pairs: seq<Head>): (r: seq<Text>)
    ensures |r| == |pairs|
  {
    seq(|pairs|, i requires 0 <= i < |pairs| => h(LeafText(pairs[i])))
  }

  /** One level up: hash neighbours together, an odd last one with itself. */
  function NextLevel(h: Hash, level: seq<Text>): (r: seq<Text>)
    ensures |r| == (|level| + 1) / 2
  {
    if level == [] then []
    else if |level| == 1 then [h(level[0] + level[0])]
    else [h(level[0] + level[1])] + NextLevel(h, level[2..])
  }

  function Top(h: Hash, level: seq<Text>): Text
    requires level != []
    decreases |level|
  {
    if |level| == 1 then level[0] else Top(h, NextLevel(h, level))
  }

  function Root(h: Hash, pairs: seq<Head>): Text {
    if pairs == [] then Prefixed(h, [])
    else A("sha256:") + Top(h, Leaves(h, SortEntries(pairs)))
  }

  function Rest(level: seq<Text>, i: nat): seq<Text> {
    if i <= |level| then level[i..] else []
  }

  lemma RestStep(h: Hash, level: seq<Text>, i: nat)
    requires i < |level|
    ensures var right := if i + 1 < |level| then level[i + 1] else level[i];
            NextLevel(h, Rest(level, i)) == [h(level[i] + right)] + NextLevel(h, Rest(level, i + 2))
  {
    if i + 2 <= |level| {
      assert Rest(level, i)[2..] == Rest(level, i + 2);
    }
  }

  /** `merkleRoot`. */
  method MerkleRoot(h: Hash, pairs: seq<Head>) returns (root: Text)
    ensures root == Root(h, pairs)
  {
    var sorted := SortEntries(pairs);
    var level := Leaves(h, sorted);
    if |level| == 0 {
      return Prefixed(h, []);
    }
    while |level| > 1
      invariant level != []
      invariant Top(h, level) == Top(h, Leaves(h, sorted))
      decreases |level|
    {
      var next: seq<Text> := [];
      var i := 0;
      while i < |level|
        invariant 0 <= i <= |level| + 1
        invariant next + NextLevel(h, Rest(level, i)) == NextLevel(h, level)
      {
        var left := level[i];
        var right := if i + 1 < |level| then level[i + 1] else left;
        RestStep(h, level, i);
        next := next + [h(left + right)];
        i := i + 2;
      }
      assert next == NextLevel(h, level);
      assert Top(h, level) == Top(h, next);
      level := next;
    }
    return A("sha256:") + level[0];
  }

  // ---------------------------------------------------------------- the tree behind a root

  datatype Tree = Leaf(text: Text) | Node(left: Tree, right: Tree)

  ghost function Digest(h: Hash, t: Tree): Text {
    match t
    case Leaf(text) => h(text)
    case Node(l, r) => h(Digest(h, l) + Digest(h, r))
  }

  /** Every text fed to the hash on the way to the root of the tree. */
  ghost function TextsOf(h: Hash, t: Tree): set<Text> {
    match t
    case Leaf(text) => {text}
    case Node(l, r) => {Digest(h, l) + Digest(h, r)} + TextsOf(h, l) + TextsOf(h, r)
  }

  ghost function LeafTexts(t: Tree): set<Text> {
    match t
    case Leaf(text) => {text}
    case Node(l, r) => LeafTexts(l) + LeafTexts(r)
  }

  ghost function AllLeaves(ts: seq<Tree>): set<Text> {
    if ts == [] then {} else LeafTexts(ts[0]) + AllLeaves(ts[1..])
  }

  ghost function Digests(h: Hash, ts: seq<Tree>): (r: seq<Text>)
    ensures |r| == |ts|
  {
    seq(|ts|, i requires 0 <= i < |ts| => Digest(h, ts[i]))
  }

  ghost function Pair(ts: seq<Tree>): (r: seq<Tree>)
    ensures |r| == (|ts| + 1) / 2
  {
    if ts == [] then []
    else if |ts| == 1 then [Node(ts[0], ts[0])]
    else [Node(ts[0], ts[1])] + Pair(ts[2..])
  }

  ghost function TopTree(ts: seq<Tree>): Tree
    requires ts != []
    decreases |ts|
  {
    if |ts| == 1 then ts[0] else TopTree(Pair(ts))
  }

  lemma {:induction false} PairDigests(h: Hash, ts: seq<Tree>)
    ensures Digests(h, Pair(ts)) == NextLevel(h, Digests(h, ts))
  {
    if |ts| >= 2 {
      PairDigests(h, ts[2..]);
      assert Digests(h, ts)[2..] == Digests(h, ts[2..]);
      var rest := Pair(ts[2..]);
      assert Digests(h, [Node(ts[0], ts[1])] + rest) == [Digest(h, Node(ts[0], ts[1]))] + Digests(h, rest);
    }
  }

  lemma {:induction false} PairLeaves(ts: seq<Tree>)
    ensures AllLeaves(Pair(ts)) == AllLeaves(ts)
  {
    if |ts| == 1 {
      assert AllLeaves(ts) == LeafTexts(ts[0]) + AllLeaves(ts[1..]);
    } else if |ts| >= 2 {
      PairLeaves(ts[2..]);
      assert ts[1..][1..] == ts[2..];
      assert AllLeaves(ts) == LeafTexts(ts[0]) + (LeafTexts(ts[1]) + AllLeaves(ts[2..]));
    }
  }

  lemma {:induction false} TopTreeDigest(h: Hash, ts: seq<Tree>)
    requires ts != []
    ensures Digest(h, TopTree(ts)) == Top(h, Digests(h, ts))
    ensures LeafTexts(TopTree(ts)) == AllLeaves(ts)
    decreases |ts|
  {
    if |ts| == 1 {
      assert AllLeaves(ts) == LeafTexts(ts[0]) + AllLeaves(ts[1..]);
    } else {
      PairDigests(h, ts);
      PairLeaves(ts);
      TopTreeDigest(h, Pair(ts));
    }
  }

  // ---------------------------------------------------------------- binding

  /** The only thing asked of the hash: 64 hexadecimal digits, whatever they are. */
  ghost predicate HexDigests(h: Hash) {
    forall t :: |h(t)| == 64 && forall i :: 0 <= i < 64 ==> 0x30 <= h(t)[i] <= 0x39 || 0x61 <= h(t)[i] <= 0x66
  }

  /** Leaves are printed objects. */
  ghost predicate Proper(t: Tree) {
    forall x: Text :: x in LeafTexts(t) ==> x != [] && x[0] == 0x7b
  }

  ghost function LastHashed(h: Hash, t: Tree): Text {
    match t
    case Leaf(text) => text
    case Node(l, r) => Digest(h, l) + Digest(h, r)
  }

  /** Equal digests come from equal trees, or a collision is at hand. A leaf can never pass for an inner node. */
  lemma {:induction false} SameDigest(h: Hash, s: Tree, t: Tree)
    requires HexDigests(h) && Proper(s) && Proper(t)
    requires Digest(h, s) == Digest(h, t)
    ensures s == t || Collides(h, TextsOf(h, s) + TextsOf(h, t))
  {
    var x, y := LastHashed(h, s), LastHashed(h, t);
    assert x in TextsOf(h, s) && y in TextsOf(h, t);
    if x == y {
      match (s, t)
      case (Leaf(_), Leaf(_)) =>
      case (Node(a, b), Node(c, d)) =>
        DigestLength(h, a);
        DigestLength(h, b);
        DigestLength(h, c);
        DigestLength(h, d);
        assert x[..64] == Digest(h, a) && y[..64] == Digest(h, c);
        assert x[64..] == Digest(h, b) && y[64..] == Digest(h, d);
        SameDigest(h, a, c);
        SameDigest(h, b, d);
        if a != c { CollidesMore(h, TextsOf(h, a) + TextsOf(h, c), TextsOf(h, s) + TextsOf(h, t)); }
        if b != d { CollidesMore(h, TextsOf(h, b) + TextsOf(h, d), TextsOf(h, s) + TextsOf(h, t)); }
      case (Leaf(u), Node(c, d)) =>
        DigestLength(h, c);
        assert u in LeafTexts(s);
      case (Node(a, b), Leaf(u)) =>
        DigestLength(h, a);
        assert u in LeafTexts(t);
    }
  }

  lemma DigestLength(h: Hash, t: Tree)
    requires HexDigests(h)
    ensures |Digest(h, t)| == 64 && Digest(h, t)[0] != 0x7b
  {
    assert Digest(h, t) == h(LastHashed(h, t));
  }

  ghost function LeafTrees(pairs: seq<Head>): (r: seq<Tree>)
    ensures |r| == |pairs|
  {
    seq(|pairs|, i requires 0 <= i < |pairs| => Leaf(LeafText(pairs[i])))
  }

  ghost function TreeOf(pairs: seq<Head>): Tree
    requires pairs != []
  {
    TopTree(LeafTrees(SortEntries(pairs)))
  }

  /** Every text `merkleRoot` hashes for these pairs. */
  ghost function HashedFor(h: Hash, pairs: seq<Head>): set<Text> {
    if pairs == [] then {[]} else TextsOf(h, TreeOf(pairs))
  }

  lemma LeafNamesGood()
    ensures GoodNames(LEAF_NAMES) && LEAF_NAMES[..2] == LEAF_NAMES
  {
    assert |LEAF_NAMES[0]| != |LEAF_NAMES[1]|;
  }

  lemma LeafTextHead(p: Head)
    ensures LeafText(p) != [] && LeafText(p)[0] == 0x7b
  {
  }

  lemma LeafTextExact(p: Head, q: Head)
    ensures LeafText(p) == LeafText(q) <==> p == q
  {
    LeafNamesGood();
    var xs, ys := [Str(p.key), Str(p.val)], [Str(q.key), Str(q.val)];
    RecordFields(LEAF_NAMES, xs);
    RecordFields(LEAF_NAMES, ys);
    CanonicalExact(Record(LEAF_NAMES, xs), Record(LEAF_NAMES, ys));
    hide Emit, Record, WellFormed;
    if LeafText(p) == LeafText(q) {
      RecordsAgree(LEAF_NAMES, xs, ys);
      assert Meaning(xs[0]) == Meaning(ys[0]) && Meaning(xs[1]) == Meaning(ys[1]);
    }
  }

  lemma {:induction false} AllLeavesOf(pairs: seq<Head>, x: Text)
    ensures x in AllLeaves(LeafTrees(pairs)) <==> exists p :: p in pairs && LeafText(p) == x
  {
    if pairs != [] {
      assert LeafTrees(pairs)[1..] == LeafTrees(pairs[1..]);
      AllLeavesOf(pairs[1..], x);
      if x == LeafText(pairs[0]) { assert pairs[0] in pairs; }
      if exists p :: p in pairs && LeafText(p) == x {
        var p :| p in pairs && LeafText(p) == x;
        assert p == pairs[0] || p in pairs[1..];
      }
    }
  }

  lemma TreeFacts(h: Hash, pairs: seq<Head>)
    requires pairs != []
    ensures Root(h, pairs) == A("sha256:") + Digest(h, TreeOf(pairs))
    ensures Proper(TreeOf(pairs))
    ensures forall p :: p in pairs <==> LeafText(p) in LeafTexts(TreeOf(pairs))
  {
    var sorted := SortEntries(pairs);
    var ts := LeafTrees(sorted);
    TopTreeDigest(h, ts);
    assert Digests(h, ts) == Leaves(h, sorted);
    forall x: Text | x in LeafTexts(TreeOf(pairs)) ensures x != [] && x[0] == 0x7b {
      AllLeavesOf(sorted, x);
      var p :| p in sorted && LeafText(p) == x;
      LeafTextHead(p);
    }
    forall p ensures p in pairs <==> LeafText(p) in LeafTexts(TreeOf(pairs)) {
      AllLeavesOf(sorted, LeafText(p));
      if LeafText(p) in LeafTexts(TreeOf(pairs)) {
        var q :| q in sorted && LeafText(q) == LeafText(p);
        LeafTextExact(p, q);
      }
    }
  }

  /** Merkle binding: equal roots come from the same set of heads, whatever the number of leaves and
      despite the duplicated odd one, or two different texts among those hashed collide. */
  lemma MerkleBinding(h: Hash, a: seq<Head>, b: seq<Head>)
    requires HexDigests(h)
    requires Root(h, a) == Root(h, b)
    ensures (forall p :: p in a <==> p in b) || Collides(h, HashedFor(h, a) + HashedFor(h, b))
  {
    if a != [] && b != [] {
      TreeFacts(h, a);
      TreeFacts(h, b);
      var s, t := TreeOf(a), TreeOf(b);
      assert Root(h, a)[|A("sha256:")|..] == Digest(h, s) && Root(h, b)[|A("sha256:")|..] == Digest(h, t);
      SameDigest(h, s, t);
    } else if a != [] {
      EmptyRoot(h, a);
    } else if b != [] {
      EmptyRoot(h, b);
    }
  }

  lemma EmptyRoot(h: Hash, a: seq<Head>)
    requires HexDigests(h) && a != []
    requires Root(h, a) == Prefixed(h, [])
    ensures Collides(h, HashedFor(h, a) + {[]})
  {
    TreeFacts(h, a);
    var t := TreeOf(a);
    var x := LastHashed(h, t);
    assert Root(h, a)[|A("sha256:")|..] == Digest(h, t) && Prefixed(h, [])[|A("sha256:")|..] == h([]);
    assert x in TextsOf(h, t);
    match t
    case Leaf(u) => assert u in LeafTexts(t);
    case Node(l, r) => DigestLength(h, l);
  }

  /** The order in which the heads are handed over never reaches the root. */
  lemma RootIgnoresOrder(h: Hash, a: seq<Head>, b: seq<Head>)
    requires DistinctKeys(a) && DistinctKeys(b)
    requires forall p :: p in a <==> p in b
    ensures Root(h, a) == Root(h, b)
  {
    SortIgnoresOrder(a, b);
    assert a != [] ==> a[0] in b;
    assert b != [] ==> b[0] in a;
  }

  // ---------------------------------------------------------------- the levels of the tree

  /** Each node of a level hashes its two children, or its one child twice. */
  predicate Above(h: Hash, lower: seq<Text>, upper: seq<Text>) {
    && |upper| == (|lower| + 1) / 2
    && forall i :: 0 <= i < |upper| ==>
         upper[i] == h(lower[2 * i] + if 2 * i + 1 < |lower| then lower[2 * i + 1] else lower[2 * i])
  }

  lemma {:induction false} NextAbove(h: Hash, level: seq<Text>)
    ensures Above(h, level, NextLevel(h, level))
  {
    if |level| > 1 {
      NextAbove(h, level[2..]);
      var rest, upper := NextLevel(h, level[2..]), NextLevel(h, level);
      forall i | 0 <= i < |upper|
        ensures upper[i] == h(level[2 * i] + if 2 * i + 1 < |level| then level[2 * i + 1] else level[2 * i])
      {
        if i > 0 {
          assert upper[i] == rest[i - 1];
          assert level[2..][2 * (i - 1)] == level[2 * i];
        }
      }
    }
  }

  lemma {:induction false} TopLevels(h: Hash, level: seq<Text>) returns (levels: seq<seq<Text>>)
    requires level != []
    ensures levels != [] && levels[0] == level && |levels[|levels| - 1]| == 1 && Top(h, level) == levels[|levels| - 1][0]
    ensures forall k :: 0 <= k < |levels| - 1 ==> Above(h, levels[k], levels[k + 1])
    decreases |level|
  {
    if |level| == 1 {
      levels := [level];
    } else {
      var rest := TopLevels(h, NextLevel(h, level));
      NextAbove(h, level);
      levels := [level] + rest;
      forall k | 0 <= k < |levels| - 1 ensures Above(h, levels[k], levels[k + 1]) {
        if k > 0 { assert Above(h, rest[k - 1], rest[(k - 1) + 1]); }
      }
    }
  }

  /** The root is the top of levels that begin with the hashed leaves, in the order of the saga ids. */
  lemma RootLevels(h: Hash, pairs: seq<Head>) returns (order: seq<Head>, levels: seq<seq<Text>>)
    requires DistinctKeys(pairs) && pairs != []
    ensures |order| == |pairs| && (forall p :: p in order <==> p in pairs)
    ensures forall i, j :: 0 <= i < j < |order| ==> Below(order[i].key, order[j].key)
    ensures levels != [] && |levels[0]| == |order| && forall i :: 0 <= i < |order| ==> levels[0][i] == h(LeafText(order[i]))
    ensures forall k :: 0 <= k < |levels| - 1 ==> Above(h, levels[k], levels[k + 1])
    ensures |levels[|levels| - 1]| == 1 && Root(h, pairs) == A("sha256:") + levels[|levels| - 1][0]
  {
    order := SortEntries(pairs);
    SortExact(pairs);
    hide Below, LeafText;
    levels := TopLevels(h, Leaves(h, order));
  }

  lemma LeafRecord(p: Head)
    ensures LeafText(p) == Emit(Obj([Entry(A("saga_id"), Str(p.key)), Entry(A("chain_head"), Str(p.val))]))
  {
    hide A, Emit;
    assert Record(LEAF_NAMES, [Str(p.key), Str(p.val)]) == Obj([Entry(A("saga_id"), Str(p.key)), Entry(A("chain_head"), Str(p.val))]);
  }

  /** The text of a leaf. */
  lemma LeafShape(p: Head)
    ensures LeafText(p) == [0x7b] + (Quoted(A("chain_head")) + [0x3a] + Quoted(p.val)) + [0x2c]
                           + (Quoted(A("saga_id")) + [0x3a] + Quoted(p.key)) + [0x7d]
  {
    var a, b := Entry(A("chain_head"), Str(p.val)), Entry(A("saga_id"), Str(p.key));
    LeafRecord(p);
    LeafOrder(a.key, b.key);
    hide A, Quoted, Less, SortEntries, LeafText, EmitMembers;
    TwoSorted(b, a);
    EmitTwo([b, a], a, b);
  }

  lemma LeafOrder(head: Text, id: Text)
    requires head == A("chain_head") && id == A("saga_id")
    ensures Less(head, id) && !Less(id, head)
  {
    assert A("chain_head")[0] < A("saga_id")[0];
    assert Less(head, id);
    LessAsymmetric(head, id);
  }

  lemma EmitTwo(ms: seq<Entry<Json>>, a: Entry<Json>, b: Entry<Json>)
    requires SortEntries(ms) == [a, b]
    ensures Emit(Obj(ms)) == [0x7b] + (Quoted(a.key) + [0x3a] + Emit(a.val)) + [0x2c] + (Quoted(b.key) + [0x3a] + Emit(b.val)) + [0x7d]
  {
    assert a in SortEntries(ms) && b in SortEntries(ms);
    hide Quoted, SortEntries;
    var parts := MembersJoined(Obj(ms), [a, b]);
    assert parts[..1] == [parts[0]];
    hide EmitMembers;
  }

  lemma TwoSorted(a: Entry<Json>, b: Entry<Json>)
    requires !Less(a.key, b.key) && Less(b.key, a.key)
    ensures SortEntries([a, b]) == [b, a]
  {
    assert [a, b][1..] == [b] && [b][1..] == [];
    assert SortEntries([b]) == [b];
    assert InsertEntry(a, [b]) == [b] + InsertEntry(a, []);
  }
}
