/** What the walk lists, stated over positions in the tree.

    A position is the sequence of child indices leading from the walk root to
    an entry. The lemmas show that the walk lists exactly the entries that are
    listable and reached through entered directories, in pre-order, and with
    the depth bounds the configuration promises. */
module WalkOrder {
  import opened Seqs
  import opened FileWalk

  type Pos = seq<nat>

  /** `q` leads from `n` to an entry of the tree. */
  predicate ValidPos(n: Node, q: Pos)
    decreases |q|
  {
    q == [] || (q[0] < |n.children| && ValidPos(n.children[q[0]], q[1..]))
  }

  /** The entry at position `q` below `n`. */
  function At(n: Node, q: Pos): Node
    requires ValidPos(n, q)
    decreases |q|
  {
    if q == [] then n else At(n.children[q[0]], q[1..])
  }

  /** The walk from `n` reaches the entry at `q`: every entry on the way down
      to it is a directory the walk descends into. */
  predicate Reached(n: Node, w: Walker, q: Pos)
    decreases |q|
  {
    q == [] || (Entered(n, w) && q[0] < |n.children| && Reached(n.children[q[0]], w, q[1..]))
  }

  /** The walk from `n` lists the entry at `q`. */
  predicate Listed(n: Node, w: Walker, q: Pos)
    decreases |q|
  {
    if q == [] then Listable(n, w)
    else Entered(n, w) && q[0] < |n.children| && Listed(n.children[q[0]], w, q[1..])
  }

  /** Pre-order on positions: an entry comes before everything below it, and
      the subtree of an earlier sibling before that of a later one. */
  predicate Before(p: Pos, q: Pos)
    decreases |p|
  {
    if p == [] then q != []
    else q != [] && (p[0] < q[0] || (p[0] == q[0] && Before(p[1..], q[1..])))
  }

  predicate PreOrdered(ps: seq<Pos>)
  {
    forall i, j :: 0 <= i < j < |ps| ==> Before(ps[i], ps[j])
  }

  /** Every position in `ps`, with `i` put in front. */
  function Under(i: nat, ps: seq<Pos>): seq<Pos>
  {
    seq(|ps|, j requires 0 <= j < |ps| => [i] + ps[j])
  }

  /** The positions of the entries `Walk` lists, in the order it lists them. */
  function WalkPos(n: Node, w: Walker): seq<Pos>
    decreases n, |n.children| + 1
  {
    if !Listable(n, w) then []
    else [[]] + (if n.isDir then PosUpTo(n, w, |n.children|) else [])
  }

  function PosUpTo(n: Node, w: Walker, k: nat): seq<Pos>
    requires k <= |n.children|
    decreases n, k
  {
    if k == 0 then [] else PosUpTo(n, w, k - 1) + Under(k - 1, WalkPos(n.children[k - 1], w))
  }

  /** The paths of the entries at positions `ps`. */
  function PathsAt(n: Node, ps: seq<Pos>): (r: seq<string>)
    requires forall k :: 0 <= k < |ps| ==> ValidPos(n, ps[k])
    ensures |r| == |ps|
  {
    seq(|ps|, k requires 0 <= k < |ps| => At(n, ps[k]).path)
  }

  /** A listed entry is an entry of the tree, is listable, and is reached. */
  lemma {:induction false} ListedMeans(n: Node, w: Walker, q: Pos)
    ensures Listed(n, w, q) <==> ValidPos(n, q) && Reached(n, w, q) && Listable(At(n, q), w)
    decreases |q|
  {
    if q != [] && q[0] < |n.children| {
      ListedMeans(n.children[q[0]], w, q[1..]);
    }
  }

  /** Below an entry the walk does not descend into (a failed entry, a file, a
      too-deep or an excluded directory) nothing is listed, whatever the
      entries down there look like. */
  lemma {:induction false} PrunedBelow(n: Node, w: Walker, p: Pos, q: Pos)
    requires ValidPos(n, p) && !Entered(At(n, p), w) && q != []
    ensures !Listed(n, w, p + q)
    decreases |p|
  {
    if p == [] {
      assert p + q == q;
    } else {
      assert (p + q)[0] == p[0] && (p + q)[1..] == p[1..] + q;
      PrunedBelow(n.children[p[0]], w, p[1..], q);
    }
  }

  lemma UnderMember(i: nat, ps: seq<Pos>, q: Pos)
    ensures q in Under(i, ps) <==> q != [] && q[0] == i && q[1..] in ps
  {
    if q != [] && q[0] == i && q[1..] in ps {
      var j :| 0 <= j < |ps| && ps[j] == q[1..];
      assert Under(i, ps)[j] == q;
    }
  }

  /** The walk lists an entry exactly when `Listed` says so. */
  lemma {:induction false} WalkPosListed(n: Node, w: Walker)
    ensures forall q :: q in WalkPos(n, w) <==> Listed(n, w, q)
    decreases n, |n.children| + 1
  {
    if Listable(n, w) && n.isDir {
      PosUpToListed(n, w, |n.children|);
    }
  }

  lemma {:induction false} PosUpToListed(n: Node, w: Walker, k: nat)
    requires k <= |n.children|
    ensures forall q :: q in PosUpTo(n, w, k) <==>
      q != [] && q[0] < k && Listed(n.children[q[0]], w, q[1..])
    decreases n, k
  {
    if k > 0 {
      PosUpToListed(n, w, k - 1);
      var c := n.children[k - 1];
      WalkPosListed(c, w);
      forall q ensures q in Under(k - 1, WalkPos(c, w)) <==>
        q != [] && q[0] == k - 1 && Listed(c, w, q[1..])
      {
        UnderMember(k - 1, WalkPos(c, w), q);
      }
    }
  }

  lemma BeforeUnder(i: nat, p: Pos, q: Pos)
    ensures Before([i] + p, [i] + q) <==> Before(p, q)
  {
    // Dafny finds this proof alone; these steps keep its resource use low.
    assert ([i] + p)[1..] == p && ([i] + q)[1..] == q;
  }

  /** The walk lists entries in pre-order. */
  lemma {:induction false} WalkPosPreOrdered(n: Node, w: Walker)
    ensures PreOrdered(WalkPos(n, w))
    ensures forall q :: q in WalkPos(n, w) ==> q != [] || WalkPos(n, w)[0] == q
    decreases n, |n.children| + 1
  {
    if Listable(n, w) && n.isDir {
      var ps := PosUpTo(n, w, |n.children|);
      PosUpToPreOrdered(n, w, |n.children|);
      assert forall j :: 0 <= j < |ps| ==> ps[j] in ps;
    }
  }

  lemma {:induction false} PosUpToPreOrdered(n: Node, w: Walker, k: nat)
    requires k <= |n.children|
    ensures PreOrdered(PosUpTo(n, w, k))
    ensures forall q :: q in PosUpTo(n, w, k) ==> q != [] && q[0] < k
    decreases n, k
  {
    if k > 0 {
      PosUpToPreOrdered(n, w, k - 1);
      var c := n.children[k - 1];
      WalkPosPreOrdered(c, w);
      var a := PosUpTo(n, w, k - 1);
      var sub := WalkPos(c, w);
      var b := Under(k - 1, sub);
      forall i, j | 0 <= i < j < |b| ensures Before(b[i], b[j]) {
        BeforeUnder(k - 1, sub[i], sub[j]);
      }
      assert forall j :: 0 <= j < |a| ==> a[j] in a;
      assert PreOrdered(a + b);
    }
  }

  /** `Walk` lists the paths of the entries at `WalkPos`, in the same order. */
  lemma {:induction false} WalkIsPathsAtWalkPos(n: Node, w: Walker)
    ensures forall k :: 0 <= k < |WalkPos(n, w)| ==> ValidPos(n, WalkPos(n, w)[k])
    ensures Walk(n, w) == PathsAt(n, WalkPos(n, w))
    decreases n, |n.children| + 1
  {
    if Listable(n, w) && n.isDir {
      PosUpToPaths(n, w, |n.children|);
      var ps := PosUpTo(n, w, |n.children|);
      var all := WalkPos(n, w);
      assert all == [[]] + ps;
      assert forall k :: 1 <= k < |all| ==> all[k] == ps[k - 1];
    }
  }

  lemma {:induction false} PosUpToPaths(n: Node, w: Walker, k: nat)
    requires k <= |n.children|
    ensures forall j :: 0 <= j < |PosUpTo(n, w, k)| ==> ValidPos(n, PosUpTo(n, w, k)[j])
    ensures WalkUpTo(n, w, k) == PathsAt(n, PosUpTo(n, w, k))
    decreases n, k
  {
    if k > 0 {
      var c := n.children[k - 1];
      var a := PosUpTo(n, w, k - 1);
      var sub := WalkPos(c, w);
      PosUpToPaths(n, w, k - 1);
      WalkIsPathsAtWalkPos(c, w);
      PathsAtAppendUnder(n, k - 1, a, sub);
      assert PosUpTo(n, w, k) == a + Under(k - 1, sub);
      assert WalkUpTo(n, w, k) == PathsAt(n, a) + PathsAt(c, sub);
    }
  }

  /** The paths at the positions `a`, followed by those at positions below
      the child `i`. */
  lemma PathsAtAppendUnder(n: Node, i: nat, a: seq<Pos>, sub: seq<Pos>)
    requires i < |n.children|
    requires forall j :: 0 <= j < |a| ==> ValidPos(n, a[j])
    requires forall j :: 0 <= j < |sub| ==> ValidPos(n.children[i], sub[j])
    ensures forall j :: 0 <= j < |a + Under(i, sub)| ==> ValidPos(n, (a + Under(i, sub))[j])
    ensures PathsAt(n, a + Under(i, sub)) == PathsAt(n, a) + PathsAt(n.children[i], sub)
  {
    // Dafny finds this proof alone; these steps keep its resource use low.
    var c := n.children[i];
    var b := Under(i, sub);
    forall j | 0 <= j < |b| ensures ValidPos(n, b[j]) && At(n, b[j]) == At(c, sub[j]) {
      assert b[j][0] == i && b[j][1..] == sub[j];
    }
    var ps := a + b;
    forall j | 0 <= j < |ps| ensures ValidPos(n, ps[j]) {
      if j >= |a| { assert ps[j] == b[j - |a|]; }
    }
    assert PathsAt(n, ps) == PathsAt(n, a) + PathsAt(c, sub);
  }

  /** A tree whose child paths have at most one separator more than their
      parent's. `filepath.Join` of a directory and an entry name yields this on
      a Unix host. On a Windows host it does so only when the walk root is
      written with backslashes: `Join` cleans its result and turns every '/'
      into '\\', so the children of a root written `a/b` already carry two
      separators where the root has none. */
  predicate WellFormed(n: Node, sep: char)
    decreases n
  {
    forall i :: 0 <= i < |n.children| ==>
      Seps(n.children[i].path, sep) <= Seps(n.path, sep) + 1 && WellFormed(n.children[i], sep)
  }

  /** Every listed directory is at most `depth` deep, in any tree. In a
      well-formed tree every listed file below the root is at most
      `depth + 1` deep. */
  lemma {:induction false} ListedDepth(n: Node, w: Walker, q: Pos)
    requires Listed(n, w, q)
    ensures ValidPos(n, q)
    ensures At(n, q).isDir ==> RelDepth(At(n, q), w) <= w.depth
    ensures WellFormed(n, w.sep) && !At(n, q).isDir && q != [] ==> RelDepth(At(n, q), w) <= w.depth + 1
    decreases |q|
  {
    ListedMeans(n, w, q);
    if q != [] {
      ListedDepth(n.children[q[0]], w, q[1..]);
    }
  }

  /** An entry whose visit failed is dropped without ending the walk: the
      walk of its directory is the walk without it. */
  lemma FailedEntrySkipped(n: Node, w: Walker, i: nat)
    requires i < |n.children| && n.children[i].failed
    ensures Walk(n.(children := n.children[..i] + n.children[i + 1..]), w) == Walk(n, w)
  {
    var m := n.(children := n.children[..i] + n.children[i + 1..]);
    assert Listable(m, w) == Listable(n, w);
    forall k: nat | k <= i ensures WalkUpTo(m, w, k) == WalkUpTo(n, w, k) {
      WalkUpToSame(n, m, w, i, k);
    }
    forall k: nat | i < k <= |n.children| ensures WalkUpTo(m, w, k - 1) == WalkUpTo(n, w, k) {
      WalkUpToShifted(n, m, w, i, k);
    }
  }

  lemma {:induction false} WalkUpToSame(n: Node, m: Node, w: Walker, i: nat, k: nat)
    requires i < |n.children| && m.children == n.children[..i] + n.children[i + 1..]
    requires k <= i
    ensures WalkUpTo(m, w, k) == WalkUpTo(n, w, k)
  {
    if k > 0 {
      WalkUpToSame(n, m, w, i, k - 1);
      assert m.children[k - 1] == n.children[k - 1];
    }
  }

  lemma {:induction false} WalkUpToShifted(n: Node, m: Node, w: Walker, i: nat, k: nat)
    requires i < |n.children| && n.children[i].failed
    requires m.children == n.children[..i] + n.children[i + 1..]
    requires i < k <= |n.children|
    ensures WalkUpTo(m, w, k - 1) == WalkUpTo(n, w, k)
  {
    if k == i + 1 {
      WalkUpToSame(n, m, w, i, i);
    } else {
      WalkUpToShifted(n, m, w, i, k - 1);
      assert m.children[k - 2] == n.children[k - 1];
    }
  }

  /** The walk of `n` is exactly the paths of the listed entries, each once,
      in pre-order. */
  lemma WalkListsListedInPreOrder(n: Node, w: Walker)
    ensures forall k :: 0 <= k < |WalkPos(n, w)| ==> ValidPos(n, WalkPos(n, w)[k])
    ensures Walk(n, w) == PathsAt(n, WalkPos(n, w))
    ensures forall q :: q in WalkPos(n, w) <==> Listed(n, w, q)
    ensures PreOrdered(WalkPos(n, w))
    ensures NoDup(WalkPos(n, w))
  {
    WalkIsPathsAtWalkPos(n, w);
    WalkPosListed(n, w);
    WalkPosPreOrdered(n, w);
    var ps := WalkPos(n, w);
    forall i, j | 0 <= i < j < |ps| ensures ps[i] != ps[j] {
      BeforeIrreflexive(ps[i]);
    }
  }

  /** No position comes before itself. */
  lemma {:induction false} BeforeIrreflexive(p: Pos)
    ensures !Before(p, p)
    decreases |p|
  {
    if p != [] {
      BeforeIrreflexive(p[1..]);
    }
  }

  /** An entry the walk reaches that did not fail and is not a too-deep
      directory is listed exactly when no exclude pattern matches its base
      name or its path. */
  lemma ReachedListedIffNotExcluded(n: Node, w: Walker, q: Pos)
    requires ValidPos(n, q) && Reached(n, w, q)
    requires !At(n, q).failed && !TooDeep(At(n, q), w)
    ensures Listed(n, w, q) <==>
      forall i :: 0 <= i < |w.skips| ==>
        !w.matches(w.skips[i], At(n, q).name) && !w.matches(w.skips[i], At(n, q).path)
  {
    ListedMeans(n, w, q);
  }
}
