/**
  The red-black tree of tree.h, as instantiated for the stream table. A node's parent
  pointer is modelled by a path (zipper): the focused subtree together with the chain of
  ancestors above it. The colour-fixing loops keep the shape of the source: each iteration
  looks at the focus, its parent, its grandparent or its sibling, recolours, rotates and
  moves the focus.
 */
module RedBlackTree {
  import opened Bytes

  datatype Color = Red | Black

  datatype Tree<V> = Leaf | Node(color: Color, left: Tree<V>, key: u32, value: V, right: Tree<V>)

  /** What lies above a focused subtree, nearest ancestor first. */
  datatype Path<V> =
    | Top
    | InLeft(color: Color, key: u32, value: V, right: Tree<V>, up: Path<V>)
    | InRight(color: Color, left: Tree<V>, key: u32, value: V, up: Path<V>)

  /** The whole tree: the subtree put back under its ancestors. */
  function Plug<V>(path: Path<V>, t: Tree<V>): Tree<V>
    decreases path
  {
    match path
    case Top => t
    case InLeft(c, k, v, r, up) => Plug(up, Node(c, t, k, v, r))
    case InRight(c, l, k, v, up) => Plug(up, Node(c, l, k, v, t))
  }

  function Depth<V>(path: Path<V>): nat {
    if path.Top? then 0 else 1 + Depth(path.up)
  }

  /** A null pointer counts as black. */
  predicate IsRed<V>(t: Tree<V>) {
    t.Node? && t.color == Red
  }

  function Blacken<V>(t: Tree<V>): Tree<V> {
    if t.Node? then t.(color := Black) else t
  }

  // ------------------------------------------------------------ contents

  datatype Entry<V> = Entry(key: u32, value: V)

  /** The entries in left-to-right order. */
  function Entries<V>(t: Tree<V>): seq<Entry<V>> {
    match t
    case Leaf => []
    case Node(_, l, k, v, r) => Entries(l) + [Entry(k, v)] + Entries(r)
  }

  function Before<V>(path: Path<V>): seq<Entry<V>> {
    match path
    case Top => []
    case InLeft(_, _, _, _, up) => Before(up)
    case InRight(_, l, k, v, up) => Before(up) + Entries(l) + [Entry(k, v)]
  }

  function After<V>(path: Path<V>): seq<Entry<V>> {
    match path
    case Top => []
    case InLeft(_, k, v, r, up) => [Entry(k, v)] + Entries(r) + After(up)
    case InRight(_, _, _, _, up) => After(up)
  }

  lemma {:induction false} PlugEntries<V>(path: Path<V>, t: Tree<V>)
    ensures Entries(Plug(path, t)) == Before(path) + Entries(t) + After(path)
    decreases path
  {
    match path
    case Top =>
    case InLeft(c, k, v, r, up) =>
      PlugEntries(up, Node(c, t, k, v, r));
      Regroup(Before(up), Entries(t), [Entry(k, v)], Entries(r), After(up));
    case InRight(c, l, k, v, up) =>
      PlugEntries(up, Node(c, l, k, v, t));
      Regroup(Before(up), Entries(l), [Entry(k, v)], Entries(t), After(up));
  }

  lemma Regroup<T>(a: seq<T>, b: seq<T>, c: seq<T>, d: seq<T>, e: seq<T>)
    ensures a + (b + c + d) + e == a + b + (c + d + e)
    ensures a + (b + c + d) + e == (a + b + c) + d + e
    ensures b + c + (d + e) == b + c + d + e
  {
  }

  /** Replacing a subtree by one with the same entries leaves the entries of the whole tree alone. */
  lemma PlugSameEntries<V>(path: Path<V>, t: Tree<V>, u: Tree<V>)
    requires Entries(t) == Entries(u)
    ensures Entries(Plug(path, t)) == Entries(Plug(path, u))
  {
    PlugEntries(path, t);
    PlugEntries(path, u);
  }

  // ------------------------------------------------------------ rotations

  function RotateLeft<V>(t: Tree<V>): Tree<V>
    requires t.Node? && t.right.Node?
  {
    t.right.(left := t.(right := t.right.left))
  }

  function RotateRight<V>(t: Tree<V>): Tree<V>
    requires t.Node? && t.left.Node?
  {
    t.left.(right := t.(left := t.left.right))
  }

  lemma RotateLeftEntries<V>(t: Tree<V>)
    requires t.Node? && t.right.Node?
    ensures Entries(RotateLeft(t)) == Entries(t)
  {
    var m := t.right;
    Regroup(Entries(t.left), [Entry(t.key, t.value)], Entries(m.left), [Entry(m.key, m.value)], Entries(m.right));
    assert Entries(t.left) + [Entry(t.key, t.value)] + (Entries(m.left) + [Entry(m.key, m.value)] + Entries(m.right))
        == Entries(t.left) + [Entry(t.key, t.value)] + Entries(m.left) + [Entry(m.key, m.value)] + Entries(m.right);
  }

  lemma RotateRightEntries<V>(t: Tree<V>)
    requires t.Node? && t.left.Node?
    ensures Entries(RotateRight(t)) == Entries(t)
  {
    RotateLeftEntries(RotateRight(t));
  }

  /** Search order: keys strictly increase from left to right. */
  ghost predicate Ascending<V>(es: seq<Entry<V>>) {
    forall i, j :: 0 <= i < j < |es| ==> es[i].key < es[j].key
  }

  ghost function ToMap<V>(es: seq<Entry<V>>): map<u32, V>
    requires Ascending(es)
  {
    map e | e in es :: e.key := e.value
  }

  /** One entry more or less in an ascending list is one key more or less in its map. */
  lemma ToMapInsert<V>(a: seq<Entry<V>>, e: Entry<V>, b: seq<Entry<V>>)
    requires Ascending(a + [e] + b)
    ensures Ascending(a + b)
    ensures e.key !in ToMap(a + b)
    ensures ToMap(a + [e] + b) == ToMap(a + b)[e.key := e.value]
    ensures ToMap(a + b) == ToMap(a + [e] + b) - {e.key}
  {
    AscendingDrop(a, e, b);
    Members(a, e, b);
    ToMapOneMore(a + [e] + b, a + b, e);
  }

  lemma Members<V>(a: seq<Entry<V>>, e: Entry<V>, b: seq<Entry<V>>)
    requires Ascending(a + [e] + b)
    ensures e in a + [e] + b
    ensures forall x :: x in a + b ==> x in a + [e] + b && x.key != e.key
    ensures forall x :: x in a + [e] + b ==> x == e || x in a + b
  {
    var es := a + [e] + b;
    assert es[|a|] == e;
    forall x | x in a + b ensures x in es && x.key != e.key {
      var i :| 0 <= i < |a + b| && (a + b)[i] == x;
      assert es[if i < |a| then i else i + 1] == x;
    }
  }

  lemma ToMapOneMore<V>(es: seq<Entry<V>>, rest: seq<Entry<V>>, e: Entry<V>)
    requires Ascending(es) && Ascending(rest) && e in es
    requires forall x :: x in rest ==> x in es && x.key != e.key
    requires forall x :: x in es ==> x == e || x in rest
    ensures e.key !in ToMap(rest)
    ensures ToMap(es) == ToMap(rest)[e.key := e.value]
    ensures ToMap(rest) == ToMap(es) - {e.key}
  {
    ToMapAt(es);
    ToMapAt(rest);
    hide ToMap, Ascending;
    var m := ToMap(rest)[e.key := e.value];
    assert e.key in ToMap(es) && ToMap(es)[e.key] == e.value;
    forall k ensures k in ToMap(es) <==> k in m {
    }
    assert ToMap(es) == m;
  }

  lemma ToMapAt<V>(es: seq<Entry<V>>)
    requires Ascending(es)
    ensures forall x :: x in es ==> x.key in ToMap(es) && ToMap(es)[x.key] == x.value
    ensures forall k :: k in ToMap(es) ==> Entry(k, ToMap(es)[k]) in es
  {
  }

  lemma AscendingDrop<V>(a: seq<Entry<V>>, e: Entry<V>, b: seq<Entry<V>>)
    requires Ascending(a + [e] + b)
    ensures Ascending(a + b)
  {
    var es := a + [e] + b;
    forall i, j | 0 <= i < j < |a + b| ensures (a + b)[i].key < (a + b)[j].key {
      var i', j' := if i < |a| then i else i + 1, if j < |a| then j else j + 1;
      assert es[i'] == (a + b)[i] && es[j'] == (a + b)[j];
    }
  }

  // ------------------------------------------------------------ colour invariants

  /** No red node has a red child. */
  predicate NoRedRed<V>(t: Tree<V>) {
    match t
    case Leaf => true
    case Node(c, l, _, _, r) =>
      NoRedRed(l) && NoRedRed(r) && (c == Red ==> !IsRed(l) && !IsRed(r))
  }

  function Weight(c: Color): nat {
    if c == Black then 1 else 0
  }

  /** Black nodes on the leftmost search path. */
  function BlackHeight<V>(t: Tree<V>): nat {
    if t.Leaf? then 0 else BlackHeight(t.left) + Weight(t.color)
  }

  /** Every search path carries the same number of black nodes. */
  predicate Balanced<V>(t: Tree<V>) {
    t.Leaf? || (Balanced(t.left) && Balanced(t.right) && BlackHeight(t.left) == BlackHeight(t.right))
  }

  /** The ancestors obey the colour rule among themselves and towards their other children; the topmost is black. */
  predicate PathColors<V>(path: Path<V>) {
    match path
    case Top => true
    case InLeft(c, _, _, r, up) =>
      NoRedRed(r) && PathColors(up) && (c == Red ==> !IsRed(r) && !up.Top? && up.color == Black)
    case InRight(c, l, _, _, up) =>
      NoRedRed(l) && PathColors(up) && (c == Red ==> !IsRed(l) && !up.Top? && up.color == Black)
  }

  /** A balanced subtree of black height h fits under this path. */
  predicate Fits<V>(path: Path<V>, h: nat) {
    match path
    case Top => true
    case InLeft(c, _, _, r, up) => Balanced(r) && BlackHeight(r) == h && Fits(up, h + Weight(c))
    case InRight(c, l, _, _, up) => Balanced(l) && BlackHeight(l) == h && Fits(up, h + Weight(c))
  }

  predicate ColorsOk<V>(t: Tree<V>) {
    NoRedRed(t) && Balanced(t) && !IsRed(t)
  }

  lemma {:induction false} PlugColors<V>(path: Path<V>, t: Tree<V>)
    requires NoRedRed(t) && Balanced(t)
    requires PathColors(path) && Fits(path, BlackHeight(t))
    requires IsRed(t) ==> !path.Top? && path.color == Black
    ensures ColorsOk(Plug(path, t))
    decreases path
  {
    match path
    case Top =>
    case InLeft(c, k, v, r, up) => PlugColors(up, Node(c, t, k, v, r));
    case InRight(c, l, k, v, up) => PlugColors(up, Node(c, l, k, v, t));
  }

  lemma {:induction false} UnplugColors<V>(path: Path<V>, t: Tree<V>)
    requires ColorsOk(Plug(path, t))
    ensures NoRedRed(t) && Balanced(t) && PathColors(path) && Fits(path, BlackHeight(t))
    ensures IsRed(t) ==> !path.Top? && path.color == Black
    decreases path
  {
    match path
    case Top =>
    case InLeft(c, k, v, r, up) => UnplugColors(up, Node(c, t, k, v, r));
    case InRight(c, l, k, v, up) => UnplugColors(up, Node(c, l, k, v, t));
  }

  /** The full invariant of a stream table tree. */
  ghost predicate RbTree<V>(t: Tree<V>) {
    ColorsOk(t) && Ascending(Entries(t))
  }

  // ------------------------------------------------------------ height bound

  function Size<V>(t: Tree<V>): nat {
    if t.Leaf? then 0 else Size(t.left) + 1 + Size(t.right)
  }

  function Height<V>(t: Tree<V>): nat {
    if t.Leaf? then 0
    else 1 + if Height(t.left) < Height(t.right) then Height(t.right) else Height(t.left)
  }

  function Pow2(n: nat): (r: nat)
    ensures r > 0
  {
    if n == 0 then 1 else 2 * Pow2(n - 1)
  }

  lemma {:induction false} Pow2Sum(a: nat, b: nat)
    ensures Pow2(a + b) == Pow2(a) * Pow2(b)
  {
    if a > 0 {
      Pow2Sum(a - 1, b);
    }
  }

  lemma {:induction false} Pow2Monotone(a: nat, b: nat)
    requires a <= b
    ensures Pow2(a) <= Pow2(b)
    decreases b
  {
    if a < b {
      Pow2Monotone(a, b - 1);
    }
  }

  lemma {:induction false} HeightVsBlackHeight<V>(t: Tree<V>)
    requires NoRedRed(t) && Balanced(t)
    ensures Height(t) <= 2 * BlackHeight(t) + if IsRed(t) then 1 else 0
    ensures Pow2(BlackHeight(t)) <= Size(t) + 1
  {
    if t.Node? {
      HeightVsBlackHeight(t.left);
      HeightVsBlackHeight(t.right);
    }
  }

  /** The height promised in tree.h, 2*log2(n+1), stated without logarithms: 2^height <= (n+1)^2. */
  lemma HeightBound<V>(t: Tree<V>)
    requires ColorsOk(t)
    ensures Pow2(Height(t)) <= (Size(t) + 1) * (Size(t) + 1)
  {
    HeightVsBlackHeight(t);
    var h := BlackHeight(t);
    Pow2Monotone(Height(t), h + h);
    Pow2Sum(h, h);
    SquareMonotone(Pow2(h), Size(t) + 1);
  }

  lemma SquareMonotone(p: nat, n: nat)
    requires p <= n
    ensures p * p <= n * n
  {
    assert p * p <= p * n <= n * n;
  }
}
