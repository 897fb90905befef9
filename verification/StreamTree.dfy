/**
  RB_FIND, RB_INSERT and RB_REMOVE with their colour fix-up loops (tree.h), and the
  mutable stream table built on them. The loops are proved against the in-order entry
  list and the red-black invariants of RedBlackTree; the table class presents itself to
  its users as a finite map.
 */
module StreamTable {
  import opened Bytes
  import opened RedBlackTree

  datatype Option<V> = None | Some(value: V)

  /** The parent node, with the focus back in its place. */
  function Parent<V>(path: Path<V>, t: Tree<V>): (p: Tree<V>)
    requires !path.Top?
    ensures p.Node? && p.color == path.color
    ensures Plug(path, t) == Plug(path.up, p)
  {
    match path
    case InLeft(c, k, v, r, _) => Node(c, t, k, v, r)
    case InRight(c, l, k, v, _) => Node(c, l, k, v, t)
  }

  /** A well-coloured subtree of black height h. */
  ghost predicate Good<V>(t: Tree<V>, h: nat) {
    NoRedRed(t) && Balanced(t) && BlackHeight(t) == h
  }

  /** The colour rules of a node, one level down ... */
  lemma Children<V>(t: Tree<V>, h: nat)
    requires t.Node? && Good(t, h)
    ensures Weight(t.color) <= h
    ensures Good(t.left, h - Weight(t.color)) && Good(t.right, h - Weight(t.color))
    ensures IsRed(t) ==> !IsRed(t.left) && !IsRed(t.right)
  {
  }

  /** ... and one level up. */
  lemma Join<V>(c: Color, l: Tree<V>, k: u32, v: V, r: Tree<V>, h: nat)
    requires Good(l, h) && Good(r, h)
    requires c == Red ==> !IsRed(l) && !IsRed(r)
    ensures Good(Node(c, l, k, v, r), h + Weight(c))
  {
  }

  // ------------------------------------------------------------ RB_INSERT

  /** Loop invariant of RB_INSERT_COLOR: `elm` is red, and the only broken rule may be a red parent above it. */
  ghost predicate InsertFocus<V>(path: Path<V>, elm: Tree<V>) {
    && IsRed(elm) && NoRedRed(elm) && Balanced(elm)
    && PathColors(path) && Fits(path, BlackHeight(elm))
  }

  /** RB_INSERT_COLOR */
  method InsertColor<V>(start: Path<V>, node: Tree<V>) returns (t: Tree<V>)
    requires InsertFocus(start, node)
    ensures ColorsOk(t)
    ensures Entries(t) == Entries(Plug(start, node))
  {
    var path, elm := start, node;
    while !path.Top? && path.color == Red
      invariant InsertFocus(path, elm)
      invariant Entries(Plug(path, elm)) == Entries(Plug(start, node))
      decreases Depth(path)
    {
      if path.up.InLeft? {
        path, elm := InsertFixLeft(path, elm);
      } else {
        path, elm := InsertFixRight(path, elm);
      }
    }
    if path.Top? {
      t := Blacken(elm);
    } else {
      PlugColors(path, elm);
      t := Plug(path, elm);
    }
  }

  /** One iteration when the red parent is the left child of its own parent. */
  method InsertFixLeft<V>(path: Path<V>, elm: Tree<V>) returns (path': Path<V>, elm': Tree<V>)
    requires InsertFocus(path, elm) && !path.Top? && path.color == Red && path.up.InLeft?
    ensures InsertFocus(path', elm')
    ensures Entries(Plug(path', elm')) == Entries(Plug(path, elm))
    ensures Depth(path') < Depth(path)
  {
    var parent, gparent := Parent(path, elm), path.up;
    var uncle := gparent.right;
    assert PathColors(gparent) && Fits(gparent, BlackHeight(elm));
    hide Entries;
    if IsRed(uncle) {
      path' := gparent.up;
      elm' := InsertRecolourLeft(path, elm);
      PlugSameEntries(gparent.up, Parent(gparent, parent), elm');
    } else {
      var top := InsertRotateLeft(path, elm);
      PlugSameEntries(gparent.up, Parent(gparent, parent), top);
      path', elm' := InLeft(top.color, top.key, top.value, top.right, gparent.up), top.left;
      assert Plug(path', elm') == Plug(gparent.up, top);
      assert PathColors(gparent.up) && Fits(gparent.up, BlackHeight(elm) + 1);
    }
  }

  /** A red uncle and the red parent turn black, and the grandparent red. */
  method InsertRecolourLeft<V>(path: Path<V>, elm: Tree<V>) returns (top: Tree<V>)
    requires InsertFocus(path, elm) && !path.Top? && path.color == Red && path.up.InLeft? && IsRed(path.up.right)
    ensures InsertFocus(path.up.up, top)
    ensures Entries(top) == Entries(Parent(path.up, Parent(path, elm)))
  {
    ghost var h := BlackHeight(elm);
    var parent, gparent := Parent(path, elm), path.up;
    var uncle := gparent.right;
    assert PathColors(gparent) && Fits(gparent, h);
    top := Node(Red, Blacken(parent), gparent.key, gparent.value, Blacken(uncle));
    Children(uncle, h);
    Join(Black, parent.left, parent.key, parent.value, parent.right, h);
    Join(Black, uncle.left, uncle.key, uncle.value, uncle.right, h);
    Join(Red, Blacken(parent), gparent.key, gparent.value, Blacken(uncle), h + 1);
  }

  /** With a black uncle, one or two rotations put a black node on top of two red ones. */
  method InsertRotateLeft<V>(path: Path<V>, elm: Tree<V>) returns (top: Tree<V>)
    requires InsertFocus(path, elm) && !path.Top? && path.color == Red && path.up.InLeft? && !IsRed(path.up.right)
    ensures top.Node? && top.color == Black && IsRed(top.left)
    ensures Good(top.left, BlackHeight(elm)) && Good(top.right, BlackHeight(elm))
    ensures Entries(top) == Entries(Parent(path.up, Parent(path, elm)))
  {
    ghost var h := BlackHeight(elm);
    var parent, gparent := Parent(path, elm), path.up;
    var uncle := gparent.right;
    Children(elm, h);
    assert PathColors(gparent) && Fits(gparent, h);
    if path.InRight? {
      assert Good(path.left, h) && !IsRed(path.left);
      Join(Red, path.left, path.key, path.value, elm.left, h);
      RotateLeftEntries(parent);
      parent := RotateLeft(parent);
    }
    assert Good(parent.left, h) && Good(parent.right, h) && IsRed(parent.left) && !IsRed(parent.right);
    top := Node(Red, Blacken(parent), gparent.key, gparent.value, uncle);
    Join(Red, parent.right, gparent.key, gparent.value, uncle, h);
    assert Entries(top) == Entries(Parent(gparent, Parent(path, elm))) by {
      assert Entries(Blacken(parent)) == Entries(parent);
    }
    RotateRightEntries(top);
    top := RotateRight(top);
  }

  /** The mirror image: the red parent is a right child. */
  method InsertFixRight<V>(path: Path<V>, elm: Tree<V>) returns (path': Path<V>, elm': Tree<V>)
    requires InsertFocus(path, elm) && !path.Top? && path.color == Red && path.up.InRight?
    ensures InsertFocus(path', elm')
    ensures Entries(Plug(path', elm')) == Entries(Plug(path, elm))
    ensures Depth(path') < Depth(path)
  {
    var parent, gparent := Parent(path, elm), path.up;
    var uncle := gparent.left;
    assert PathColors(gparent) && Fits(gparent, BlackHeight(elm));
    hide Entries;
    if IsRed(uncle) {
      path' := gparent.up;
      elm' := InsertRecolourRight(path, elm);
      PlugSameEntries(gparent.up, Parent(gparent, parent), elm');
    } else {
      var top := InsertRotateRight(path, elm);
      PlugSameEntries(gparent.up, Parent(gparent, parent), top);
      path', elm' := InRight(top.color, top.left, top.key, top.value, gparent.up), top.right;
      assert Plug(path', elm') == Plug(gparent.up, top);
      assert PathColors(gparent.up) && Fits(gparent.up, BlackHeight(elm) + 1);
    }
  }

  method InsertRecolourRight<V>(path: Path<V>, elm: Tree<V>) returns (top: Tree<V>)
    requires InsertFocus(path, elm) && !path.Top? && path.color == Red && path.up.InRight? && IsRed(path.up.left)
    ensures InsertFocus(path.up.up, top)
    ensures Entries(top) == Entries(Parent(path.up, Parent(path, elm)))
  {
    ghost var h := BlackHeight(elm);
    var parent, gparent := Parent(path, elm), path.up;
    var uncle := gparent.left;
    assert PathColors(gparent) && Fits(gparent, h);
    top := Node(Red, Blacken(uncle), gparent.key, gparent.value, Blacken(parent));
    Children(uncle, h);
    Join(Black, parent.left, parent.key, parent.value, parent.right, h);
    Join(Black, uncle.left, uncle.key, uncle.value, uncle.right, h);
    Join(Red, Blacken(uncle), gparent.key, gparent.value, Blacken(parent), h + 1);
  }

  /** With a black uncle, one or two rotations put a black node on top of two red ones. */
  method InsertRotateRight<V>(path: Path<V>, elm: Tree<V>) returns (top: Tree<V>)
    requires InsertFocus(path, elm) && !path.Top? && path.color == Red && path.up.InRight? && !IsRed(path.up.left)
    ensures top.Node? && top.color == Black && IsRed(top.right)
    ensures Good(top.left, BlackHeight(elm)) && Good(top.right, BlackHeight(elm))
    ensures Entries(top) == Entries(Parent(path.up, Parent(path, elm)))
  {
    ghost var h := BlackHeight(elm);
    var parent, gparent := Parent(path, elm), path.up;
    var uncle := gparent.left;
    Children(elm, h);
    assert PathColors(gparent) && Fits(gparent, h);
    if path.InLeft? {
      assert Good(path.right, h) && !IsRed(path.right);
      Join(Red, elm.right, path.key, path.value, path.right, h);
      RotateRightEntries(parent);
      parent := RotateRight(parent);
    }
    assert Good(parent.right, h) && Good(parent.left, h) && IsRed(parent.right) && !IsRed(parent.left);
    top := Node(Red, uncle, gparent.key, gparent.value, Blacken(parent));
    Join(Red, uncle, gparent.key, gparent.value, parent.left, h);
    assert Entries(top) == Entries(Parent(gparent, Parent(path, elm))) by {
      assert Entries(Blacken(parent)) == Entries(parent);
    }
    RotateLeftEntries(top);
    top := RotateLeft(top);
  }

  /** The key lies strictly between what is left and what is right of the focus. */
  ghost predicate Around<V>(path: Path<V>, key: u32) {
    && (forall e :: e in Before(path) ==> e.key < key)
    && (forall e :: e in After(path) ==> key < e.key)
  }

  /**
    The search loop shared by RB_FIND, RB_INSERT and the lookup before RB_REMOVE: descend
    from the root until the key or a null child is reached, remembering the ancestors.
   */
  method Descend<V>(root: Tree<V>, key: u32) returns (path: Path<V>, focus: Tree<V>)
    requires Ascending(Entries(root))
    ensures Plug(path, focus) == root
    ensures focus.Node? ==> focus.key == key
    ensures Around(path, key)
  {
    path, focus := Top, root;
    while focus.Node? && focus.key != key
      invariant Plug(path, focus) == root
      invariant Around(path, key)
      decreases focus
    {
      FocusOrder(path, focus, root);
      if key < focus.key {
        path, focus := InLeft(focus.color, focus.key, focus.value, focus.right, path), focus.left;
      } else {
        path, focus := InRight(focus.color, focus.left, focus.key, focus.value, path), focus.right;
      }
    }
  }

  lemma FocusOrder<V>(path: Path<V>, focus: Tree<V>, root: Tree<V>)
    requires Plug(path, focus) == root && Ascending(Entries(root)) && focus.Node?
    ensures forall e :: e in Entries(focus.left) ==> e.key < focus.key
    ensures forall e :: e in Entries(focus.right) ==> focus.key < e.key
  {
    PlugEntries(path, focus);
    MiddleOrder(Before(path), Entries(focus.left), Entry(focus.key, focus.value), Entries(focus.right), After(path));
  }

  lemma MiddleOrder<V>(b: seq<Entry<V>>, l: seq<Entry<V>>, m: Entry<V>, r: seq<Entry<V>>, a: seq<Entry<V>>)
    requires Ascending(b + (l + [m] + r) + a)
    ensures forall e :: e in l ==> e.key < m.key
    ensures forall e :: e in r ==> m.key < e.key
  {
    var es := b + (l + [m] + r) + a;
    assert es[|b| + |l|] == m;
    assert forall i :: 0 <= i < |l| ==> es[|b| + i] == l[i];
    assert forall i :: 0 <= i < |r| ==> es[|b| + |l| + 1 + i] == r[i];
  }

  /** RB_INSERT: returns the node already holding the key, if any, and then changes nothing. */
  method RbInsert<V>(root: Tree<V>, key: u32, value: V) returns (root': Tree<V>, existing: Option<V>)
    requires RbTree(root)
    ensures RbTree(root')
    ensures key in ToMap(Entries(root)) ==>
              root' == root && existing == Some(ToMap(Entries(root))[key])
    ensures key !in ToMap(Entries(root)) ==>
              existing == None && ToMap(Entries(root')) == ToMap(Entries(root))[key := value]
  {
    var path, focus := Descend(root, key);
    if focus.Node? {
      PresentKey(path, focus);
      return root, Some(focus.value);
    }
    var node := Node(Red, Leaf, key, value, Leaf);
    AbsentKey(path, node);
    UnplugColors(path, focus);
    root' := InsertColor(path, node);
    existing := None;
  }

  /** Hanging a new node where the search ran out adds exactly its key. */
  lemma AbsentKey<V>(path: Path<V>, node: Tree<V>)
    requires node.Node? && node.left.Leaf? && node.right.Leaf?
    requires Ascending(Entries(Plug(path, Leaf)))
    requires Around(path, node.key)
    ensures Ascending(Entries(Plug(path, node)))
    ensures node.key !in ToMap(Entries(Plug(path, Leaf)))
    ensures ToMap(Entries(Plug(path, node))) == ToMap(Entries(Plug(path, Leaf)))[node.key := node.value]
  {
    PlugEntries(path, Leaf);
    PlugEntries(path, node);
    var b, e, a := Before(path), Entry(node.key, node.value), After(path);
    assert Entries(node) == [e];
    assert b + Entries<V>(Leaf) + a == b + a;
    AscendingInsert(b, e, a);
    ToMapInsert(b, e, a);
  }

  /** A key found by the search is in the map, with the value stored beside it. */
  lemma PresentKey<V>(path: Path<V>, focus: Tree<V>)
    requires focus.Node? && Ascending(Entries(Plug(path, focus)))
    ensures var m := ToMap(Entries(Plug(path, focus)));
            focus.key in m && m[focus.key] == focus.value
  {
    PlugEntries(path, focus);
    var es := Entries(Plug(path, focus));
    assert es[|Before(path)| + |Entries(focus.left)|] == Entry(focus.key, focus.value);
    assert Entry(focus.key, focus.value) in es;
  }

  lemma AscendingInsert<V>(b: seq<Entry<V>>, e: Entry<V>, a: seq<Entry<V>>)
    requires Ascending(b + a)
    requires forall x :: x in b ==> x.key < e.key
    requires forall x :: x in a ==> e.key < x.key
    ensures Ascending(b + [e] + a)
  {
    var es := b + [e] + a;
    forall i, j | 0 <= i < j < |es| ensures es[i].key < es[j].key {
      if i != |b| && j != |b| {
        var i', j' := if i < |b| then i else i - 1, if j < |b| then j else j - 1;
        assert (b + a)[i'] == es[i] && (b + a)[j'] == es[j];
      }
    }
  }

  // ------------------------------------------------------------ RB_REMOVE

  /**
    Loop invariant of RB_REMOVE_COLOR: the focus is one black node short of what its place
    needs. A red focus may even have a red child: painting it black, the loop's last act,
    mends both.
   */
  ghost predicate RemoveFocus<V>(path: Path<V>, elm: Tree<V>) {
    && NoRedRed(Blacken(elm)) && Balanced(elm)
    && PathColors(path) && Fits(path, BlackHeight(elm) + 1)
  }

  /** RB_REMOVE_COLOR */
  method RemoveColor<V>(start: Path<V>, child: Tree<V>) returns (t: Tree<V>)
    requires RemoveFocus(start, child)
    ensures ColorsOk(t)
    ensures Entries(t) == Entries(Plug(start, child))
  {
    var path, elm := start, child;
    while !IsRed(elm) && !path.Top?
      invariant RemoveFocus(path, elm)
      invariant Entries(Plug(path, elm)) == Entries(Plug(start, child))
      decreases Depth(path), if IsRed(elm) then 0 else 1
    {
      var done;
      if path.InLeft? {
        path, elm, done := RemoveFixLeft(path, elm);
      } else {
        path, elm, done := RemoveFixRight(path, elm);
      }
      if done {
        t := Plug(path, elm);
        return;
      }
    }
    PlugSameEntries(path, elm, Blacken(elm));
    PlugColors(path, Blacken(elm));
    t := Plug(path, Blacken(elm));
  }

  /** One iteration when the short side is the left one. `done` is the source's break. */
  method RemoveFixLeft<V>(path0: Path<V>, elm: Tree<V>) returns (path': Path<V>, elm': Tree<V>, done: bool)
    requires RemoveFocus(path0, elm) && path0.InLeft? && !IsRed(elm)
    ensures Entries(Plug(path', elm')) == Entries(Plug(path0, elm))
    ensures done ==> ColorsOk(Plug(path', elm'))
    ensures !done ==> RemoveFocus(path', elm') && Depth(path') <= Depth(path0)
    ensures !done && Depth(path') == Depth(path0) ==> IsRed(elm')
  {
    hide Entries;
    var path := path0;
    assert path.right.Node?;
    if IsRed(path.right) {
      path := RaiseSiblingLeft(path0, elm);
    }
    assert Good(path.right, BlackHeight(elm) + 1) && path.right.Node? && path.right.color == Black;
    if !IsRed(path.right.left) && !IsRed(path.right.right) {
      elm' := RecolourLeft(path, elm);
      PlugSameEntries(path.up, Parent(path, elm), elm');
      path', done := path.up, false;
    } else {
      elm' := FinishLeft(path, elm);
      PlugSameEntries(path.up, Parent(path, elm), elm');
      PlugColors(path.up, elm');
      path', done := path.up, true;
    }
  }

  /** A red sibling is rotated above the parent, so that the focus gets a black one. */
  method RaiseSiblingLeft<V>(path: Path<V>, elm: Tree<V>) returns (path': Path<V>)
    requires RemoveFocus(path, elm) && path.InLeft? && !IsRed(elm) && IsRed(path.right)
    ensures RemoveFocus(path', elm) && path'.InLeft? && path'.color == Red
    ensures path'.right.Node? && path'.right.color == Black
    ensures Entries(Plug(path', elm)) == Entries(Plug(path, elm))
    ensures Depth(path') == Depth(path) + 1
  {
    var top := Node(Red, elm, path.key, path.value, path.right.(color := Black));
    Children(path.right, BlackHeight(elm) + 1);
    RotateLeftEntries(top);
    PlugSameEntries(path.up, Parent(path, elm), RotateLeft(top));
    top := RotateLeft(top);
    path' := InLeft(Red, path.key, path.value, top.left.right, InLeft(Black, top.key, top.value, top.right, path.up));
    assert Plug(path', elm) == Plug(path.up, top);
  }

  /** With two black nephews the sibling turns red, and the deficit moves to the parent. */
  method RecolourLeft<V>(path: Path<V>, elm: Tree<V>) returns (top: Tree<V>)
    requires path.InLeft? && NoRedRed(elm) && Balanced(elm) && !IsRed(elm)
    requires Good(path.right, BlackHeight(elm) + 1) && path.right.Node? && path.right.color == Black
    requires !IsRed(path.right.left) && !IsRed(path.right.right)
    ensures NoRedRed(Blacken(top)) && Balanced(top) && top.Node? && top.color == path.color
    ensures BlackHeight(top) == BlackHeight(elm) + Weight(path.color)
    ensures Entries(top) == Entries(Parent(path, elm))
  {
    ghost var h := BlackHeight(elm);
    var tmp := path.right;
    Children(tmp, h + 1);
    top := Node(path.color, elm, path.key, path.value, tmp.(color := Red));
    Join(Red, tmp.left, tmp.key, tmp.value, tmp.right, h);
    Join(Black, elm, path.key, path.value, tmp.(color := Red), h);
  }

  /** The last rotations: the sibling has a red child to give away, and the missing black node is made good. */
  method FinishLeft<V>(path: Path<V>, elm: Tree<V>) returns (top: Tree<V>)
    requires path.InLeft? && NoRedRed(elm) && Balanced(elm) && !IsRed(elm)
    requires Good(path.right, BlackHeight(elm) + 1) && path.right.Node? && path.right.color == Black
    requires IsRed(path.right.left) || IsRed(path.right.right)
    ensures Good(top, BlackHeight(elm) + 1 + Weight(path.color)) && top.Node? && top.color == path.color
    ensures Entries(top) == Entries(Parent(path, elm))
  {
    ghost var h := BlackHeight(elm);
    var tmp := path.right;
    Children(tmp, h + 1);
    if !IsRed(tmp.right) {
      var inner := tmp.left;
      Children(inner, h);
      tmp := Node(Red, Blacken(inner), tmp.key, tmp.value, tmp.right);
      Join(Red, inner.right, tmp.key, tmp.value, tmp.right, h);
      assert Entries(tmp) == Entries(path.right) by { assert Entries(Blacken(inner)) == Entries(inner); }
      RotateRightEntries(tmp);
      tmp := RotateRight(tmp);
      Join(Black, inner.left, inner.key, inner.value, tmp.right, h);
    }
    Children(tmp, h + 1);
    Children(tmp.right, h);
    top := Node(Black, elm, path.key, path.value, Node(path.color, tmp.left, tmp.key, tmp.value, Blacken(tmp.right)));
    assert Entries(top) == Entries(Parent(path, elm)) by { assert Entries(Blacken(tmp.right)) == Entries(tmp.right); }
    Join(Black, elm, path.key, path.value, tmp.left, h);
    Join(Black, tmp.right.left, tmp.right.key, tmp.right.value, tmp.right.right, h);
    Join(path.color, RotateLeft(top).left, tmp.key, tmp.value, Blacken(tmp.right), h + 1);
    RotateLeftEntries(top);
    top := RotateLeft(top);
  }

  /** The mirror image: the short side is the right one. */
  method RemoveFixRight<V>(path0: Path<V>, elm: Tree<V>) returns (path': Path<V>, elm': Tree<V>, done: bool)
    requires RemoveFocus(path0, elm) && path0.InRight? && !IsRed(elm)
    ensures Entries(Plug(path', elm')) == Entries(Plug(path0, elm))
    ensures done ==> ColorsOk(Plug(path', elm'))
    ensures !done ==> RemoveFocus(path', elm') && Depth(path') <= Depth(path0)
    ensures !done && Depth(path') == Depth(path0) ==> IsRed(elm')
  {
    hide Entries;
    var path := path0;
    assert path.left.Node?;
    if IsRed(path.left) {
      path := RaiseSiblingRight(path0, elm);
    }
    assert Good(path.left, BlackHeight(elm) + 1) && path.left.Node? && path.left.color == Black;
    if !IsRed(path.left.left) && !IsRed(path.left.right) {
      elm' := RecolourRight(path, elm);
      PlugSameEntries(path.up, Parent(path, elm), elm');
      path', done := path.up, false;
    } else {
      elm' := FinishRight(path, elm);
      PlugSameEntries(path.up, Parent(path, elm), elm');
      PlugColors(path.up, elm');
      path', done := path.up, true;
    }
  }

  /** A red sibling is rotated above the parent, so that the focus gets a black one. */
  method RaiseSiblingRight<V>(path: Path<V>, elm: Tree<V>) returns (path': Path<V>)
    requires RemoveFocus(path, elm) && path.InRight? && !IsRed(elm) && IsRed(path.left)
    ensures RemoveFocus(path', elm) && path'.InRight? && path'.color == Red
    ensures path'.left.Node? && path'.left.color == Black
    ensures Entries(Plug(path', elm)) == Entries(Plug(path, elm))
    ensures Depth(path') == Depth(path) + 1
  {
    var top := Node(Red, path.left.(color := Black), path.key, path.value, elm);
    Children(path.left, BlackHeight(elm) + 1);
    RotateRightEntries(top);
    PlugSameEntries(path.up, Parent(path, elm), RotateRight(top));
    top := RotateRight(top);
    path' := InRight(Red, top.right.left, path.key, path.value, InRight(Black, top.left, top.key, top.value, path.up));
    assert Plug(path', elm) == Plug(path.up, top);
  }

  /** With two black nephews the sibling turns red, and the deficit moves to the parent. */
  method RecolourRight<V>(path: Path<V>, elm: Tree<V>) returns (top: Tree<V>)
    requires path.InRight? && NoRedRed(elm) && Balanced(elm) && !IsRed(elm)
    requires Good(path.left, BlackHeight(elm) + 1) && path.left.Node? && path.left.color == Black
    requires !IsRed(path.left.left) && !IsRed(path.left.right)
    ensures NoRedRed(Blacken(top)) && Balanced(top) && top.Node? && top.color == path.color
    ensures BlackHeight(top) == BlackHeight(elm) + Weight(path.color)
    ensures Entries(top) == Entries(Parent(path, elm))
  {
    ghost var h := BlackHeight(elm);
    var tmp := path.left;
    Children(tmp, h + 1);
    top := Node(path.color, tmp.(color := Red), path.key, path.value, elm);
    Join(Red, tmp.left, tmp.key, tmp.value, tmp.right, h);
    Join(Black, tmp.(color := Red), path.key, path.value, elm, h);
  }

  /** The last rotations: the sibling has a red child to give away, and the missing black node is made good. */
  method FinishRight<V>(path: Path<V>, elm: Tree<V>) returns (top: Tree<V>)
    requires path.InRight? && NoRedRed(elm) && Balanced(elm) && !IsRed(elm)
    requires Good(path.left, BlackHeight(elm) + 1) && path.left.Node? && path.left.color == Black
    requires IsRed(path.left.left) || IsRed(path.left.right)
    ensures Good(top, BlackHeight(elm) + 1 + Weight(path.color)) && top.Node? && top.color == path.color
    ensures Entries(top) == Entries(Parent(path, elm))
  {
    ghost var h := BlackHeight(elm);
    var tmp := path.left;
    Children(tmp, h + 1);
    if !IsRed(tmp.left) {
      var inner := tmp.right;
      Children(inner, h);
      tmp := Node(Red, tmp.left, tmp.key, tmp.value, Blacken(inner));
      Join(Red, tmp.left, tmp.key, tmp.value, inner.left, h);
      assert Entries(tmp) == Entries(path.left) by { assert Entries(Blacken(inner)) == Entries(inner); }
      RotateLeftEntries(tmp);
      tmp := RotateLeft(tmp);
      Join(Black, tmp.left, inner.key, inner.value, inner.right, h);
    }
    Children(tmp, h + 1);
    Children(tmp.left, h);
    top := Node(Black, Node(path.color, Blacken(tmp.left), tmp.key, tmp.value, tmp.right), path.key, path.value, elm);
    assert Entries(top) == Entries(Parent(path, elm)) by { assert Entries(Blacken(tmp.left)) == Entries(tmp.left); }
    Join(Black, tmp.right, path.key, path.value, elm, h);
    Join(Black, tmp.left.left, tmp.left.key, tmp.left.value, tmp.left.right, h);
    Join(path.color, Blacken(tmp.left), tmp.key, tmp.value, RotateRight(top).right, h + 1);
    RotateRightEntries(top);
    top := RotateRight(top);
  }

  /** Unlinking a node with at most one child: the child moves up, and a lost black node is repaired. */
  method Splice<V>(path: Path<V>, color: Color, child: Tree<V>) returns (root': Tree<V>)
    requires NoRedRed(child) && Balanced(child) && PathColors(path)
    requires Fits(path, BlackHeight(child) + Weight(color))
    requires color == Red ==> !IsRed(child)
    ensures ColorsOk(root')
    ensures Entries(root') == Before(path) + Entries(child) + After(path)
  {
    PlugEntries(path, child);
    if color == Black {
      root' := RemoveColor(path, child);
    } else {
      PlugColors(path, child);
      root' := Plug(path, child);
    }
  }

  /** The path `rel` continued upwards by `above`. */
  function Graft<V>(rel: Path<V>, above: Path<V>): Path<V> {
    match rel
    case Top => above
    case InLeft(c, k, v, r, up) => InLeft(c, k, v, r, Graft(up, above))
    case InRight(c, l, k, v, up) => InRight(c, l, k, v, Graft(up, above))
  }

  lemma {:induction false} GraftPlug<V>(rel: Path<V>, above: Path<V>, t: Tree<V>)
    ensures Plug(Graft(rel, above), t) == Plug(above, Plug(rel, t))
    ensures Before(Graft(rel, above)) == Before(above) + Before(rel)
    ensures After(Graft(rel, above)) == After(rel) + After(above)
    decreases rel
  {
    match rel
    case Top =>
    case InLeft(c, k, v, r, up) => GraftPlug(up, above, Node(c, t, k, v, r));
    case InRight(c, l, k, v, up) => GraftPlug(up, above, Node(c, l, k, v, t));
  }

  /** Relabelling the node at the joint does not touch colours or black heights. */
  lemma {:induction false} GraftRelabel<V>(rel: Path<V>, above: Path<V>, above': Path<V>, h: nat)
    requires PathColors(Graft(rel, above)) && Fits(Graft(rel, above), h)
    requires !above.Top? && !above'.Top? && above.color == above'.color
    requires PathColors(above) ==> PathColors(above')
    requires forall n: nat :: Fits(above, n) ==> Fits(above', n)
    ensures PathColors(Graft(rel, above')) && Fits(Graft(rel, above'), h)
    decreases rel
  {
    match rel
    case Top =>
    case InLeft(c, _, _, _, up) => GraftRelabel(up, above, above', h + Weight(c));
    case InRight(c, _, _, _, up) => GraftRelabel(up, above, above', h + Weight(c));
  }

  /** RB_REMOVE of the node under focus. */
  method RemoveNode<V>(path: Path<V>, victim: Tree<V>) returns (root': Tree<V>)
    requires victim.Node? && ColorsOk(Plug(path, victim))
    ensures ColorsOk(root')
    ensures Entries(root') == Before(path) + Entries(victim.left) + Entries(victim.right) + After(path)
  {
    UnplugColors(path, victim);
    Children(victim, BlackHeight(victim));
    if victim.left.Leaf? {
      assert Before(path) + Entries(victim.left) == Before(path);
      root' := Splice(path, victim.color, victim.right);
    } else if victim.right.Leaf? {
      assert Before(path) + Entries(victim.left) + Entries(victim.right) == Before(path) + Entries(victim.left);
      root' := Splice(path, victim.color, victim.left);
    } else {
      root' := ReplaceBySuccessor(path, victim);
    }
  }

  /** The case of two children: the successor takes the place and the colour of the removed node. */
  method ReplaceBySuccessor<V>(path: Path<V>, victim: Tree<V>) returns (root': Tree<V>)
    requires victim.Node? && victim.right.Node? && ColorsOk(Plug(path, victim))
    ensures ColorsOk(root')
    ensures Entries(root') == Before(path) + Entries(victim.left) + Entries(victim.right) + After(path)
  {
    // The successor: leftmost node of the right subtree.
    var rel, elm := Top, victim.right;
    while elm.left.Node?
      invariant elm.Node? && Plug(rel, elm) == victim.right && Before(rel) == []
      decreases elm
    {
      rel, elm := InLeft(elm.color, elm.key, elm.value, elm.right, rel), elm.left;
    }
    var above := InRight(victim.color, victim.left, elm.key, elm.value, path);
    SuccessorColors(path, victim, rel, elm);
    SuccessorEntries(path, victim, rel, elm);
    root' := Splice(Graft(rel, above), elm.color, elm.right);
  }

  lemma SuccessorColors<V>(path: Path<V>, n: Tree<V>, rel: Path<V>, elm: Tree<V>)
    requires n.Node? && elm.Node? && ColorsOk(Plug(path, n)) && Plug(rel, elm) == n.right
    ensures var p := Graft(rel, InRight(n.color, n.left, elm.key, elm.value, path));
            PathColors(p) && Fits(p, BlackHeight(elm))
    ensures NoRedRed(elm) && Balanced(elm)
  {
    var before := InRight(n.color, n.left, n.key, n.value, path);
    GraftPlug(rel, before, elm);
    UnplugColors(Graft(rel, before), elm);
    GraftRelabel(rel, before, InRight(n.color, n.left, elm.key, elm.value, path), BlackHeight(elm));
  }

  lemma SuccessorEntries<V>(path: Path<V>, n: Tree<V>, rel: Path<V>, elm: Tree<V>)
    requires n.Node? && elm.Node? && elm.left.Leaf? && Before(rel) == [] && Plug(rel, elm) == n.right
    ensures var p := Graft(rel, InRight(n.color, n.left, elm.key, elm.value, path));
            Before(p) + Entries(elm.right) + After(p) ==
              Before(path) + Entries(n.left) + Entries(n.right) + After(path)
  {
    var e := [Entry(elm.key, elm.value)];
    GraftPlug(rel, InRight(n.color, n.left, elm.key, elm.value, path), elm);
    PlugEntries(rel, elm);
    assert Entries(elm) == e + Entries(elm.right);
    SuccessorShuffle(Before(path) + Entries(n.left), e, Entries(elm.right), After(rel), After(path));
  }

  lemma SuccessorShuffle<T>(a: seq<T>, b: seq<T>, c: seq<T>, d: seq<T>, e: seq<T>)
    ensures (a + b + []) + c + (d + e) == a + ([] + (b + c) + d) + e
  {
  }

  /** RB_REMOVE by key, after the lookup that session_remove_stream makes first. */
  method RbRemove<V>(root: Tree<V>, key: u32) returns (root': Tree<V>)
    requires RbTree(root) && key in ToMap(Entries(root))
    ensures RbTree(root')
    ensures ToMap(Entries(root')) == ToMap(Entries(root)) - {key}
  {
    var path, focus := Descend(root, key);
    FoundKey(path, focus, key);
    root' := RemoveNode(path, focus);
    DroppedKey(path, focus);
  }

  /** The search does not miss a key that is there. */
  lemma FoundKey<V>(path: Path<V>, focus: Tree<V>, key: u32)
    requires Ascending(Entries(Plug(path, focus))) && key in ToMap(Entries(Plug(path, focus)))
    requires focus.Node? ==> focus.key == key
    requires Around(path, key)
    ensures focus.Node?
  {
    if focus.Leaf? {
      PlugEntries(path, focus);
      assert false;
    }
  }

  lemma MiddleOut<T>(a: seq<T>, b: seq<T>, c: seq<T>, d: seq<T>, e: seq<T>)
    ensures a + (b + c + d) + e == (a + b) + c + (d + e)
    ensures a + b + d + e == (a + b) + (d + e)
  {
  }

  lemma DroppedKey<V>(path: Path<V>, n: Tree<V>)
    requires n.Node? && Ascending(Entries(Plug(path, n)))
    ensures var rest := Before(path) + Entries(n.left) + Entries(n.right) + After(path);
            Ascending(rest) && ToMap(rest) == ToMap(Entries(Plug(path, n))) - {n.key}
  {
    PlugEntries(path, n);
    var a, e, b := Before(path) + Entries(n.left), Entry(n.key, n.value), Entries(n.right) + After(path);
    MiddleOut(Before(path), Entries(n.left), [e], Entries(n.right), After(path));
    ToMapInsert(a, e, b);
  }

  // ------------------------------------------------------------ the table object

  /** RB_HEAD: a mutable table of streams by id. */
  class Table<V> {
    var root: Tree<V>

    ghost predicate Valid()
      reads this
    {
      RbTree(root)
    }

    ghost function Contents(): map<u32, V>
      requires Valid()
      reads this
    {
      ToMap(Entries(root))
    }

    constructor ()
      ensures Valid() && Contents() == map[]
    {
      root := Leaf;
    }

    /** A table of n streams is at most 2*log2(n+1) deep. */
    lemma DepthBound()
      requires Valid()
      ensures Pow2(Height(root)) <= (Size(root) + 1) * (Size(root) + 1)
    {
      HeightBound(root);
    }

    /** RB_FIND */
    method Find(key: u32) returns (res: Option<V>)
      requires Valid()
      ensures res == if key in Contents() then Some(Contents()[key]) else None
    {
      var tmp := root;
      ghost var path := Top;
      while tmp.Node?
        invariant Plug(path, tmp) == root
        invariant Around(path, key)
        decreases tmp
      {
        FocusOrder(path, tmp, root);
        if key < tmp.key {
          path := InLeft(tmp.color, tmp.key, tmp.value, tmp.right, path);
          tmp := tmp.left;
        } else if tmp.key < key {
          path := InRight(tmp.color, tmp.left, tmp.key, tmp.value, path);
          tmp := tmp.right;
        } else {
          PresentKey(path, tmp);
          return Some(tmp.value);
        }
      }
      PlugEntries(path, tmp);
      res := None;
    }

    /** RB_INSERT on the table. */
    method Insert(key: u32, value: V) returns (existing: Option<V>)
      requires Valid()
      modifies this
      ensures Valid()
      ensures key in old(Contents()) ==>
                root == old(root) && existing == Some(old(Contents())[key])
      ensures key !in old(Contents()) ==>
                existing == None && Contents() == old(Contents())[key := value]
    {
      root, existing := RbInsert(root, key, value);
    }

    /** session_remove_stream: find, then RB_REMOVE. */
    method Remove(key: u32)
      requires Valid() && key in Contents()
      modifies this
      ensures Valid() && Contents() == old(Contents()) - {key}
    {
      root := RbRemove(root, key);
    }
  }
}
