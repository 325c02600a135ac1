/** Cycle detection: an iterative depth-first search with backtrack markers on an explicit stack. */
module LayerCycles {
  import opened Common
  import opened LayerConfig

  datatype Color = White | Gray | Black

  type Entry = (string, bool)

  function ColorOf(color: map<string, Color>, n: string): Color {
    if n in color then color[n] else White
  }

  /* ---- What the stack stands for ---- */

  /** A layer whose backtrack marker is on the stack, and the entries above it that it pushed. */
  datatype Frame = Frame(node: string, pending: seq<string>)

  /** `done` lists the layers that were ever blackened; `base` is the start that is still to be visited. */
  datatype Search = Search(done: seq<string>, base: seq<string>, frames: seq<Frame>)

  function Entries(names: seq<string>): seq<Entry> {
    seq(|names|, i requires 0 <= i < |names| => (names[i], false))
  }

  function StackOf(base: seq<string>, frames: seq<Frame>): seq<Entry> {
    if frames == [] then Entries(base)
    else
      var top := frames[|frames| - 1];
      StackOf(base, frames[..|frames| - 1]) + [(top.node, true)] + Entries(top.pending)
  }

  function Top(s: Search): Frame
    requires s.frames != []
  {
    s.frames[|s.frames| - 1]
  }

  /** The search after its top frame was replaced. */
  function WithTop(s: Search, f: Frame): Search
    requires s.frames != []
  {
    s.(frames := s.frames[..|s.frames| - 1] + [f])
  }

  predicate OnPath(s: Search, n: string) {
    exists i :: 0 <= i < |s.frames| && s.frames[i].node == n
  }

  /* ---- The invariant ---- */

  predicate Linked(c: Config, s: Search, j: int) {
    0 < j < |s.frames| ==> Edge(c, s.frames[j - 1].node, s.frames[j].node)
  }

  predicate ParentLinked(parent: map<string, string>, s: Search, j: int) {
    0 < j < |s.frames| && s.frames[j].node !in s.done
    ==> s.frames[j].node in parent && parent[s.frames[j].node] == s.frames[j - 1].node
  }

  predicate Explored(c: Config, s: Search, j: int, v: string) {
    0 < j < |s.frames| && Edge(c, s.frames[j - 1].node, v)
    ==> v in s.done || v in s.frames[j - 1].pending || s.frames[j].node == v
  }

  /** The frames are a path along dependencies; a layer visited again is on top and pushes nothing. */
  ghost predicate PathOk(c: Config, s: Search) {
    && (forall i, j :: 0 <= i < j < |s.frames| ==> s.frames[i].node != s.frames[j].node)
    && (forall j :: Linked(c, s, j))
    && (forall i :: 0 <= i < |s.frames| && s.frames[i].node in s.done
          ==> i == |s.frames| - 1 && s.frames[i].pending == [])
  }

  predicate ColorsOk(color: map<string, Color>, s: Search) {
    && (forall n :: n in s.done ==> ColorOf(color, n) == if OnPath(s, n) then Gray else Black)
    && (forall i :: 0 <= i < |s.frames| ==> ColorOf(color, s.frames[i].node) == Gray)
    && (forall n :: n in color && n !in s.done && !OnPath(s, n) ==> color[n] == White)
  }

  /** Entries are dependencies of their frame's layer, and no layer waits above its own marker unless done. */
  ghost predicate PendingOk(c: Config, s: Search) {
    && (s.frames != [] ==> s.base == []) && |s.base| <= 1
    && (forall i, v :: 0 <= i < |s.frames| && v in s.frames[i].pending ==> Edge(c, s.frames[i].node, v))
    && (forall i, j, v :: 0 <= j <= i < |s.frames| && v in s.frames[i].pending && v !in s.done ==> s.frames[j].node != v)
  }

  /** The parent of a layer on the path is the one below it; of a layer not visited yet, the frame of its
      topmost entry. */
  ghost predicate ParentsOk(parent: map<string, string>, s: Search) {
    && (forall j :: ParentLinked(parent, s, j))
    && (forall i, v :: TopmostEntry(s, i, v) && v !in s.done && !OnPath(s, v)
          ==> v in parent && parent[v] == s.frames[i].node)
  }

  /** The entry of v that is nearest to the top of the stack was pushed by frame i. */
  predicate TopmostEntry(s: Search, i: int, v: string) {
    0 <= i < |s.frames| && v in s.frames[i].pending && forall j :: i < j < |s.frames| ==> v !in s.frames[j].pending
  }

  ghost predicate LookedAt(c: Config, s: Search, k: nat)
    requires s.frames != []
  {
    forall j :: 0 <= j < k && j < |DepsOf(c, Top(s).node)|
      ==> DepsOf(c, Top(s).node)[j] in s.done || DepsOf(c, Top(s).node)[j] in Top(s).pending
  }

  /** Of the layers on the path every dependency is done, waiting, or next on the path; of the top one
      only the first k were looked at. */
  ghost predicate Complete(c: Config, s: Search, k: nat) {
    && (forall j, v :: Explored(c, s, j, v))
    && (s.frames != [] ==> LookedAt(c, s, k))
  }

  ghost predicate Inv(c: Config, color: map<string, Color>, parent: map<string, string>, s: Search, k: nat) {
    && Finished(c, s.done) && PathOk(c, s) && ColorsOk(color, s) && PendingOk(c, s) && ParentsOk(parent, s)
    && Complete(c, s, k)
  }

  /** All dependencies of the top layer were looked at. */
  ghost predicate Settled(c: Config, color: map<string, Color>, parent: map<string, string>, s: Search) {
    Inv(c, color, parent, s, if s.frames == [] then 0 else |DepsOf(c, Top(s).node)|)
  }

  /* ---- The steps ---- */

  /** Popping a marker: the layer is black now, and done. */
  function Backtracked(s: Search): Search
    requires s.frames != []
  {
    var n := Top(s).node;
    Search(if n in s.done then s.done else s.done + [n], s.base, s.frames[..|s.frames| - 1])
  }

  lemma {:induction false} BacktrackFinishes(c: Config, s: Search, n: string)
    requires Finished(c, s.done) && n !in s.done && s.frames != [] && Top(s) == Frame(n, [])
    requires LookedAt(c, s, |DepsOf(c, n)|)
    ensures Finished(c, s.done + [n])
  {
    var all := s.done + [n];
    forall i, d | 0 <= i < |all| && Edge(c, all[i], d) ensures d in all[..i] {
      if i == |s.done| {
        var j :| 0 <= j < |DepsOf(c, n)| && DepsOf(c, n)[j] == d;
        assert all[..i] == s.done;
      } else {
        assert all[..i] == s.done[..i];
      }
    }
  }

  /** The search without its top frame. */
  ghost predicate Popped(s: Search, t: Search) {
    && s.frames != [] && t.frames == s.frames[..|s.frames| - 1] && t.base == s.base
    && forall v :: v in t.done <==> v in s.done || v == Top(s).node
  }

  lemma {:induction false} PopPath(s: Search, t: Search, v: string)
    requires Popped(s, t)
    ensures OnPath(t, v) ==> OnPath(s, v)
    ensures OnPath(s, v) ==> OnPath(t, v) || v == Top(s).node
  {
    if OnPath(t, v) {
      var i :| 0 <= i < |t.frames| && t.frames[i].node == v;
      assert s.frames[i].node == v;
    }
    if OnPath(s, v) {
      var i :| 0 <= i < |s.frames| && s.frames[i].node == v;
      assert i < |t.frames| ==> t.frames[i].node == v;
    }
  }

  lemma {:induction false} PopKeepsColors(c: Config, color: map<string, Color>, s: Search, t: Search)
    requires Popped(s, t) && PathOk(c, s) && ColorsOk(color, s)
    ensures ColorsOk(color[Top(s).node := Black], t)
  {
    forall v ensures (OnPath(t, v) ==> OnPath(s, v)) && (OnPath(s, v) ==> OnPath(t, v) || v == Top(s).node) {
      PopPath(s, t, v);
    }
  }

  lemma {:induction false} PopKeepsPath(c: Config, parent: map<string, string>, s: Search, t: Search)
    requires Popped(s, t) && PathOk(c, s) && PendingOk(c, s) && Top(s).pending == []
    ensures PathOk(c, t) && PendingOk(c, t)
  {
    forall j ensures Linked(c, t, j) {
      assert Linked(c, s, j);
    }
  }

  lemma {:induction false} PopTopmost(s: Search, t: Search, i: nat, v: string)
    requires Popped(s, t) && Top(s).pending == [] && TopmostEntry(t, i, v)
    ensures TopmostEntry(s, i, v)
  {
    forall j | i < j < |s.frames| ensures v !in s.frames[j].pending {
      assert j < |t.frames| ==> s.frames[j] == t.frames[j];
    }
  }

  lemma {:induction false} PopKeepsParents(c: Config, parent: map<string, string>, s: Search, t: Search)
    requires Popped(s, t) && Top(s).pending == [] && ParentsOk(parent, s)
    ensures ParentsOk(parent, t)
  {
    var m := |t.frames|;
    forall i, v | TopmostEntry(t, i, v) && v !in t.done && !OnPath(t, v)
      ensures v in parent && parent[v] == t.frames[i].node
    {
      PopPath(s, t, v);
      PopTopmost(s, t, i, v);
    }
    forall j ensures ParentLinked(parent, t, j) {
      assert ParentLinked(parent, s, j);
    }
  }

  lemma {:induction false} PopKeepsComplete(c: Config, s: Search, t: Search, k: nat)
    requires Popped(s, t) && Complete(c, s, k)
    ensures Complete(c, t, if t.frames == [] then 0 else |DepsOf(c, Top(t).node)|)
  {
    forall j, v ensures Explored(c, t, j, v) {
      assert Explored(c, s, j, v);
    }
    if t.frames != [] {
      var m := |t.frames|;
      assert t.frames[m - 1] == s.frames[m - 1] && s.frames[m] == Top(s);
      forall j | 0 <= j < |DepsOf(c, Top(t).node)|
        ensures DepsOf(c, Top(t).node)[j] in t.done || DepsOf(c, Top(t).node)[j] in Top(t).pending
      {
        assert Explored(c, s, m, DepsOf(c, Top(t).node)[j]);
      }
    }
  }

  lemma {:induction false} BacktrackKeeps(c: Config, color: map<string, Color>, parent: map<string, string>, s: Search)
    requires s.frames != [] && Settled(c, color, parent, s) && Top(s).pending == []
    ensures Settled(c, color[Top(s).node := Black], parent, Backtracked(s))
  {
    var n, t := Top(s).node, Backtracked(s);
    if n !in s.done {
      BacktrackFinishes(c, s, n);
    }
    PopKeepsColors(c, color, s, t);
    PopKeepsPath(c, parent, s, t);
    PopKeepsParents(c, parent, s, t);
    PopKeepsComplete(c, s, t, |DepsOf(c, n)|);
  }

  /** Popping an entry: its layer goes on top of the path. */
  function Entered(s: Search): Search
    requires s.frames != [] ==> Top(s).pending != []
    requires s.frames == [] ==> s.base != []
  {
    if s.frames == [] then s.(base := [], frames := [Frame(s.base[|s.base| - 1], [])])
    else
      var f := Top(s);
      var t := WithTop(s, f.(pending := f.pending[..|f.pending| - 1]));
      t.(frames := t.frames + [Frame(f.pending[|f.pending| - 1], [])])
  }

  function NextNode(s: Search): string
    requires s.frames != [] ==> Top(s).pending != []
    requires s.frames == [] ==> s.base != []
  {
    if s.frames == [] then s.base[|s.base| - 1] else Top(s).pending[|Top(s).pending| - 1]
  }

  /** Frame for frame, t is s with the last entry n taken off and n put on top. */
  ghost predicate EnteredAs(s: Search, t: Search, n: string) {
    var m := |s.frames|;
    && t.done == s.done && t.base == [] && |t.frames| == m + 1 && t.frames[m] == Frame(n, [])
    && (m == 0 ==> s.base == [n])
    && (m > 0 ==> s.frames[m - 1].pending == t.frames[m - 1].pending + [n]
                  && t.frames[m - 1].node == s.frames[m - 1].node)
    && forall i :: 0 <= i < m - 1 ==> t.frames[i] == s.frames[i]
  }

  lemma {:induction false} EntersAs(c: Config, s: Search)
    requires PendingOk(c, s)
    requires s.frames != [] ==> Top(s).pending != []
    requires s.frames == [] ==> s.base != []
    ensures EnteredAs(s, Entered(s), NextNode(s))
  {
  }

  lemma {:induction false} EnterNodes(s: Search, t: Search, n: string)
    requires EnteredAs(s, t, n)
    ensures forall i :: 0 <= i < |s.frames| ==> t.frames[i].node == s.frames[i].node
    ensures forall v :: OnPath(t, v) <==> OnPath(s, v) || v == n
    ensures forall i, v :: 0 <= i < |s.frames| && v in t.frames[i].pending ==> v in s.frames[i].pending
    ensures forall i, v :: 0 <= i < |s.frames| && v in s.frames[i].pending ==> v in t.frames[i].pending || v == n
  {
    var m := |s.frames|;
    forall i | 0 <= i < m ensures t.frames[i].node == s.frames[i].node {
      assert i < m - 1 ==> t.frames[i] == s.frames[i];
    }
    forall i, v | 0 <= i < m && v in t.frames[i].pending ensures v in s.frames[i].pending {
      assert i < m - 1 ==> t.frames[i] == s.frames[i];
    }
    forall i, v | 0 <= i < m && v in s.frames[i].pending ensures v in t.frames[i].pending || v == n {
      assert i < m - 1 ==> t.frames[i] == s.frames[i];
    }
    forall v ensures OnPath(t, v) <==> OnPath(s, v) || v == n {
      if OnPath(s, v) {
        var i :| 0 <= i < m && s.frames[i].node == v;
        assert t.frames[i].node == v;
      }
      assert t.frames[m].node == n;
    }
  }

  /** An entry that is popped is not on the path. */
  lemma {:induction false} NextIsOffPath(c: Config, s: Search, t: Search, n: string)
    requires EnteredAs(s, t, n) && PathOk(c, s) && PendingOk(c, s)
    ensures !OnPath(s, n)
  {
    var m := |s.frames|;
    forall i | 0 <= i < m ensures s.frames[i].node != n {
      assert n in s.frames[m - 1].pending;
    }
  }

  lemma {:induction false} EnterKeepsPath(c: Config, s: Search, t: Search, n: string)
    requires EnteredAs(s, t, n) && PathOk(c, s) && PendingOk(c, s)
    ensures PathOk(c, t)
  {
    var m := |s.frames|;
    NextIsOffPath(c, s, t, n);
    EnterNodes(s, t, n);
    forall i, j | 0 <= i < j < |t.frames| ensures t.frames[i].node != t.frames[j].node {
      assert t.frames[i].node == s.frames[i].node;
      assert j < m ==> t.frames[j].node == s.frames[j].node;
    }
    forall j ensures Linked(c, t, j) {
      assert Linked(c, s, j);
      assert j == m > 0 ==> n in s.frames[m - 1].pending;
    }
    assert m > 0 ==> n in s.frames[m - 1].pending;
    forall i | 0 <= i < m ensures t.frames[i].node !in t.done {
      assert t.frames[i].node == s.frames[i].node;
    }
  }

  lemma {:induction false} EnterKeepsPending(c: Config, s: Search, t: Search, n: string)
    requires EnteredAs(s, t, n) && PendingOk(c, s)
    ensures PendingOk(c, t)
  {
    EnterNodes(s, t, n);
  }

  lemma {:induction false} EnterKeepsColors(c: Config, color: map<string, Color>, s: Search, t: Search, n: string)
    requires EnteredAs(s, t, n) && PathOk(c, s) && PendingOk(c, s) && ColorsOk(color, s)
    ensures ColorsOk(color[n := Gray], t)
  {
    NextIsOffPath(c, s, t, n);
    EnterNodes(s, t, n);
  }

  lemma {:induction false} EnterTopmost(s: Search, t: Search, n: string, i: nat, v: string)
    requires EnteredAs(s, t, n) && TopmostEntry(t, i, v) && v != n
    ensures i < |s.frames| && TopmostEntry(s, i, v) && s.frames[i].node == t.frames[i].node
  {
    EnterNodes(s, t, n);
    assert t.frames[|s.frames|].pending == [];
    forall j | i < j < |s.frames| ensures v !in s.frames[j].pending {
      assert v !in t.frames[j].pending;
    }
  }

  lemma {:induction false} EnterKeepsParents(c: Config, parent: map<string, string>, s: Search, t: Search, n: string)
    requires EnteredAs(s, t, n) && PathOk(c, s) && PendingOk(c, s) && ParentsOk(parent, s)
    ensures ParentsOk(parent, t)
  {
    var m := |s.frames|;
    NextIsOffPath(c, s, t, n);
    EnterNodes(s, t, n);
    forall j ensures ParentLinked(parent, t, j) {
      assert ParentLinked(parent, s, j);
      assert j == m > 0 ==> TopmostEntry(s, m - 1, n);
    }
    forall i, v | TopmostEntry(t, i, v) && v !in t.done && !OnPath(t, v)
      ensures v in parent && parent[v] == t.frames[i].node
    {
      EnterTopmost(s, t, n, i, v);
    }
  }

  lemma {:induction false} EnterKeepsComplete(c: Config, s: Search, t: Search, n: string)
    requires EnteredAs(s, t, n) && Complete(c, s, if s.frames == [] then 0 else |DepsOf(c, Top(s).node)|)
    ensures Complete(c, t, 0)
  {
    var m := |s.frames|;
    EnterNodes(s, t, n);
    forall j, v ensures Explored(c, t, j, v) {
      assert Explored(c, s, j, v);
      if j == m > 0 && Edge(c, s.frames[m - 1].node, v) {
        var k :| 0 <= k < |DepsOf(c, s.frames[m - 1].node)| && DepsOf(c, s.frames[m - 1].node)[k] == v;
        assert v in s.done || v in s.frames[m - 1].pending;
      } else if 0 < j < m {
        assert t.frames[j - 1] == s.frames[j - 1] && t.frames[j].node == s.frames[j].node;
      }
    }
  }

  lemma {:induction false} EnterKeeps(c: Config, color: map<string, Color>, parent: map<string, string>, s: Search)
    requires Settled(c, color, parent, s)
    requires s.frames != [] ==> Top(s).pending != []
    requires s.frames == [] ==> s.base != []
    ensures EnteredAs(s, Entered(s), NextNode(s)) && !OnPath(s, NextNode(s))
    ensures Inv(c, color[NextNode(s) := Gray], parent, Entered(s), 0)
  {
    var n, t := NextNode(s), Entered(s);
    EntersAs(c, s);
    NextIsOffPath(c, s, t, n);
    EnterKeepsPath(c, s, t, n);
    EnterKeepsPending(c, s, t, n);
    EnterKeepsColors(c, color, s, t, n);
    EnterKeepsParents(c, parent, s, t, n);
    EnterKeepsComplete(c, s, t, n);
  }

  /** Looking at dependency k of the top layer. */
  predicate LooksAt(c: Config, s: Search, k: nat, d: string) {
    s.frames != [] && k < |DepsOf(c, Top(s).node)| && DepsOf(c, Top(s).node)[k] == d
  }

  function Pushed(s: Search, d: string): Search
    requires s.frames != []
  {
    WithTop(s, Frame(Top(s).node, Top(s).pending + [d]))
  }

  lemma {:induction false} PushNodes(s: Search, d: string)
    requires s.frames != []
    ensures var t := Pushed(s, d);
            && |t.frames| == |s.frames|
            && (forall i :: 0 <= i < |s.frames| ==> t.frames[i].node == s.frames[i].node)
            && (forall v :: OnPath(t, v) <==> OnPath(s, v))
            && (forall i :: 0 <= i < |s.frames| - 1 ==> t.frames[i] == s.frames[i])
            && t.frames[|s.frames| - 1].pending == Top(s).pending + [d]
  {
    var t := Pushed(s, d);
    forall i | 0 <= i < |s.frames| ensures t.frames[i].node == s.frames[i].node {
      assert i < |s.frames| - 1 ==> t.frames[i] == s.frames[i];
    }
  }

  lemma {:induction false} PushTopmost(s: Search, d: string, i: nat, v: string)
    requires s.frames != [] && TopmostEntry(Pushed(s, d), i, v)
    ensures Pushed(s, d).frames[i].node == s.frames[i].node
    ensures if v == d then i == |s.frames| - 1 else TopmostEntry(s, i, v)
  {
    var t, m := Pushed(s, d), |s.frames|;
    PushNodes(s, d);
    assert d in t.frames[m - 1].pending;
    if v != d {
      assert v in s.frames[i].pending;
      forall j | i < j < m ensures v !in s.frames[j].pending {
        assert v !in t.frames[j].pending;
      }
    }
  }

  lemma {:induction false} PushKeepsParents(c: Config, parent: map<string, string>, s: Search, d: string)
    requires s.frames != [] && ParentsOk(parent, s) && !OnPath(s, d)
    ensures ParentsOk(parent[d := Top(s).node], Pushed(s, d))
  {
    var t, m, p := Pushed(s, d), |s.frames|, parent[d := Top(s).node];
    PushNodes(s, d);
    forall j ensures ParentLinked(p, t, j) {
      assert ParentLinked(parent, s, j);
      assert 0 < j < m ==> t.frames[j].node == s.frames[j].node && OnPath(s, s.frames[j].node);
    }
    forall i, v | TopmostEntry(t, i, v) && v !in t.done && !OnPath(t, v)
      ensures v in p && p[v] == t.frames[i].node
    {
      PushTopmost(s, d, i, v);
    }
  }

  lemma {:induction false} PushKeepsPending(c: Config, s: Search, d: string)
    requires s.frames != [] && PathOk(c, s) && PendingOk(c, s) && !OnPath(s, d) && Edge(c, Top(s).node, d)
    requires Top(s).node !in s.done
    ensures PathOk(c, Pushed(s, d)) && PendingOk(c, Pushed(s, d))
  {
    PushNodes(s, d);
    forall j ensures Linked(c, Pushed(s, d), j) {
      assert Linked(c, s, j);
    }
  }

  lemma {:induction false} PushKeepsComplete(c: Config, s: Search, k: nat, d: string)
    requires LooksAt(c, s, k, d) && Complete(c, s, k)
    ensures Complete(c, Pushed(s, d), k + 1)
  {
    PushNodes(s, d);
    assert Top(Pushed(s, d)).node == Top(s).node;
    forall j, v ensures Explored(c, Pushed(s, d), j, v) {
      assert Explored(c, s, j, v);
    }
  }

  /** A dependency that was never visited waits on top and knows its parent. */
  lemma {:induction false} PushKeeps(
    c: Config, color: map<string, Color>, parent: map<string, string>, s: Search, k: nat, d: string)
    requires LooksAt(c, s, k, d) && Inv(c, color, parent, s, k) && ColorOf(color, d) == White
    requires Top(s).node !in s.done
    ensures Inv(c, color, parent[d := Top(s).node], Pushed(s, d), k + 1)
  {
    WhiteIsNew(color, s, d);
    PushNodes(s, d);
    PushKeepsParents(c, parent, s, d);
    PushKeepsPending(c, s, d);
    PushKeepsComplete(c, s, k, d);
  }

  lemma {:induction false} WhiteIsNew(color: map<string, Color>, s: Search, d: string)
    requires ColorsOk(color, s)
    ensures ColorOf(color, d) == White ==> d !in s.done && !OnPath(s, d)
    ensures ColorOf(color, d) == Black ==> d in s.done
    ensures ColorOf(color, d) == Gray ==> OnPath(s, d)
  {
  }

  /** A black dependency changes nothing. */
  lemma {:induction false} SkipKeeps(
    c: Config, color: map<string, Color>, parent: map<string, string>, s: Search, k: nat, d: string)
    requires LooksAt(c, s, k, d) && Inv(c, color, parent, s, k) && ColorOf(color, d) == Black
    ensures Inv(c, color, parent, s, k + 1)
  {
    WhiteIsNew(color, s, d);
  }

  /** Of a layer that is done every dependency is black. */
  lemma {:induction false} DoneSkips(
    c: Config, color: map<string, Color>, parent: map<string, string>, s: Search, k: nat, d: string)
    requires LooksAt(c, s, k, d) && Inv(c, color, parent, s, k) && Top(s).node in s.done
    ensures ColorOf(color, d) == Black
  {
    var n := Top(s).node;
    EdgeDescends(c, s.done, n, d);
    forall i | 0 <= i < |s.frames| ensures s.frames[i].node != d {
      assert i < |s.frames| - 1 ==> s.frames[i].node !in s.done;
    }
  }

  /* ---- The stack ---- */

  lemma {:induction false} StackOfPushed(s: Search, d: string)
    requires s.frames != []
    ensures StackOf(s.base, Pushed(s, d).frames) == StackOf(s.base, s.frames) + [(d, false)]
  {
    var init, top := s.frames[..|s.frames| - 1], Top(s);
    var t := Pushed(s, d).frames;
    assert t[..|t| - 1] == init && t[|t| - 1] == Frame(top.node, top.pending + [d]);
    EntriesSnoc(top.pending, d);
  }

  lemma {:induction false} EntriesSnoc(names: seq<string>, d: string)
    ensures Entries(names + [d]) == Entries(names) + [(d, false)]
  {
  }

  /** The last entry of the stack is the top frame's marker when nothing waits above it, and else what is
      entered next. */
  lemma {:induction false} TopOfStack(s: Search)
    requires (s.frames != [] || s.base != []) && (s.frames != [] ==> s.base == []) && |s.base| <= 1
    ensures var stack := StackOf(s.base, s.frames);
            && stack != []
            && if s.frames != [] && Top(s).pending == []
               then stack[|stack| - 1] == (Top(s).node, true)
                    && stack[..|stack| - 1] == StackOf(s.base, s.frames[..|s.frames| - 1])
               else stack[|stack| - 1] == (NextNode(s), false)
                    && stack[..|stack| - 1] + [(NextNode(s), true)] == StackOf([], Entered(s).frames)
  {
    if s.frames == [] {
      BaseEntered(s);
    } else if Top(s).pending != [] {
      TopEntered(s);
    }
  }

  lemma {:induction false} BaseEntered(s: Search)
    requires s.frames == [] && |s.base| == 1
    ensures StackOf([], Entered(s).frames) == [(s.base[0], true)]
    ensures StackOf(s.base, []) == [(s.base[0], false)]
  {
    var t := Entered(s).frames;
    assert t[..|t| - 1] == [];
  }

  lemma {:induction false} TopEntered(s: Search)
    requires s.frames != [] && Top(s).pending != [] && s.base == []
    ensures var stack := StackOf([], s.frames);
            && stack != [] && stack[|stack| - 1] == (NextNode(s), false)
            && stack[..|stack| - 1] + [(NextNode(s), true)] == StackOf([], Entered(s).frames)
  {
    var f, n := Top(s), NextNode(s);
    var rest := f.pending[..|f.pending| - 1];
    var init := s.frames[..|s.frames| - 1];
    var below := StackOf([], init) + [(f.node, true)];
    EntriesSnoc(rest, n);
    assert f.pending == rest + [n];
    assert StackOf([], s.frames) == below + Entries(rest) + [(n, false)];
    var t := Entered(s).frames;
    var u := init + [Frame(f.node, rest)];
    assert t == u + [Frame(n, [])] && t[..|t| - 1] == u && u[..|u| - 1] == init;
    assert StackOf([], u) == below + Entries(rest);
  }

  /* ---- Termination ---- */

  function AllNames(c: Config): set<string> {
    (set n | n in c.defs) + set n, d | n in c.defs && d in c.defs[n].dependsOn :: d
  }

  function Unvisited(names: set<string>, s: Search): set<string> {
    set n | n in names && n !in s.done && !OnPath(s, n)
  }

  function Weight(stack: seq<Entry>): nat {
    if stack == [] then 0 else Weight(stack[..|stack| - 1]) + if stack[|stack| - 1].1 then 1 else 2
  }

  lemma {:induction false} WeightSnoc(stack: seq<Entry>, e: Entry)
    ensures Weight(stack + [e]) == Weight(stack) + if e.1 then 1 else 2
  {
    assert (stack + [e])[..|stack + [e]| - 1] == stack;
  }

  lemma {:induction false} EnterShrinks(c: Config, s: Search, t: Search, n: string)
    requires EnteredAs(s, t, n) && n in AllNames(c) && !OnPath(s, n)
    ensures n in s.done ==> Unvisited(AllNames(c), t) == Unvisited(AllNames(c), s)
    ensures n !in s.done ==> |Unvisited(AllNames(c), t)| < |Unvisited(AllNames(c), s)|
  {
    EnterNodes(s, t, n);
    if n !in s.done {
      assert n in Unvisited(AllNames(c), s);
      SubsetSize(Unvisited(AllNames(c), t), Unvisited(AllNames(c), s) - {n});
    }
  }

  lemma {:induction false} BacktrackSame(c: Config, s: Search)
    requires s.frames != []
    ensures Unvisited(AllNames(c), Backtracked(s)) == Unvisited(AllNames(c), s)
  {
    forall v ensures (OnPath(Backtracked(s), v) ==> OnPath(s, v))
        && (OnPath(s, v) ==> OnPath(Backtracked(s), v) || v == Top(s).node)
    {
      PopPath(s, Backtracked(s), v);
    }
    assert OnPath(s, Top(s).node);
  }

  /* ---- The cycle found ---- */

  function Reversed(s: seq<string>): seq<string> {
    seq(|s|, i requires 0 <= i < |s| => s[|s| - 1 - i])
  }

  /** The layers of the path from the bottom up, each the parent of the next. */
  ghost predicate Chain(parent: map<string, string>, nodes: seq<string>) {
    Distinct(nodes) && forall j :: ChainLink(parent, nodes, j)
  }

  predicate ChainLink(parent: map<string, string>, nodes: seq<string>, j: int) {
    0 < j < |nodes| ==> nodes[j] in parent && parent[nodes[j]] == nodes[j - 1]
  }

  /** The path is rebuilt from the parents, from the layer being looked at down to the gray dependency. */
  method BuildCycle(parent: map<string, string>, node: string, dep: string, ghost nodes: seq<string>, ghost q: nat)
    returns (path: seq<string>)
    requires Chain(parent, nodes) && q < |nodes| && nodes[q] == dep && nodes[|nodes| - 1] == node
    ensures path == nodes[q..] + [dep]
  {
    ghost var i := |nodes| - 1;
    path := [dep];
    var cur := node;
    while cur != dep
      invariant q <= i < |nodes| && cur == nodes[i] && path == [dep] + Reversed(nodes[i + 1..])
      decreases i
    {
      assert ChainLink(parent, nodes, i);
      ReversedCons(nodes, i);
      path := path + [cur];
      cur := if cur in parent then parent[cur] else dep;
      i := i - 1;
    }
    path := path + [dep];
    ReversedPath(dep, nodes[q + 1..]);
    path := Reversed(path);
  }

  lemma {:induction false} ReversedCons(nodes: seq<string>, i: nat)
    requires i < |nodes|
    ensures Reversed(nodes[i..]) == Reversed(nodes[i + 1..]) + [nodes[i]]
  {
  }

  lemma {:induction false} ReversedPath(d: string, up: seq<string>)
    ensures Reversed([d] + Reversed(up) + [d]) == [d] + up + [d]
  {
  }

  function NodesOf(s: Search): seq<string> {
    seq(|s.frames|, i requires 0 <= i < |s.frames| => s.frames[i].node)
  }

  lemma {:induction false} PathIsChain(c: Config, parent: map<string, string>, s: Search)
    requires PathOk(c, s) && ParentsOk(parent, s) && s.frames != [] && Top(s).node !in s.done
    ensures Chain(parent, NodesOf(s))
  {
    var nodes := NodesOf(s);
    forall j ensures ChainLink(parent, nodes, j) {
      assert ParentLinked(parent, s, j);
      assert 0 < j < |nodes| ==> s.frames[j].node !in s.done;
    }
  }

  lemma {:induction false} UpPathIsCycle(c: Config, s: Search, q: nat)
    requires PathOk(c, s) && q < |s.frames| && Edge(c, Top(s).node, s.frames[q].node)
    ensures IsCycle(c, NodesOf(s)[q..] + [s.frames[q].node])
    ensures Distinct((NodesOf(s)[q..] + [s.frames[q].node])[1..])
  {
    var m, p := |s.frames|, NodesOf(s)[q..] + [s.frames[q].node];
    forall i | 0 <= i < |p| - 1 ensures Edge(c, p[i], p[i + 1]) {
      assert p[i] == s.frames[q + i].node;
      assert p[i + 1] == s.frames[if q + i + 1 < m then q + i + 1 else q].node;
      assert Linked(c, s, q + i + 1);
    }
    var r := p[1..];
    forall i, j | 0 <= i < j < |r| ensures r[i] != r[j] {
      assert r[i] == s.frames[q + i + 1].node;
      assert r[j] == s.frames[if q + j + 1 < m then q + j + 1 else q].node;
    }
  }

  /** A gray dependency closes a cycle. */
  method ReportCycle(c: Config, parent: map<string, string>, node: string, dep: string, ghost s: Search)
    returns (path: seq<string>)
    requires PathOk(c, s) && ParentsOk(parent, s) && s.frames != [] && Top(s).node == node && node !in s.done
    requires OnPath(s, dep) && Edge(c, node, dep)
    ensures IsCycle(c, path) && Distinct(path[1..])
  {
    ghost var q :| 0 <= q < |s.frames| && s.frames[q].node == dep;
    PathIsChain(c, parent, s);
    path := BuildCycle(parent, node, dep, NodesOf(s), q);
    UpPathIsCycle(c, s, q);
  }

  lemma {:induction false} PushStep(
    c: Config, color: map<string, Color>, parent: map<string, string>, s: Search, k: nat, d: string)
    requires LooksAt(c, s, k, d) && Inv(c, color, parent, s, k) && ColorOf(color, d) == White
    requires Top(s).node !in s.done
    ensures var t := Pushed(s, d);
            && Inv(c, color, parent[d := Top(s).node], t, k + 1)
            && StackOf(t.base, t.frames) == StackOf(s.base, s.frames) + [(d, false)]
            && t.done == s.done && t.base == s.base && t.frames != [] && Top(t).node == Top(s).node
            && t.frames[0].node == s.frames[0].node && forall v :: OnPath(t, v) <==> OnPath(s, v)
  {
    PushKeeps(c, color, parent, s, k, d);
    StackOfPushed(s, d);
    PushNodes(s, d);
  }

  /** From s, the first k dependencies of its top layer were looked at. */
  ghost predicate Looking(c: Config, color: map<string, Color>, parent: map<string, string>, s: Search, t: Search,
                          stack: seq<Entry>, k: nat) {
    && s.frames != [] && t.frames != [] && Top(t).node == Top(s).node && t.frames[0].node == s.frames[0].node
    && t.done == s.done && t.base == s.base && (forall v :: OnPath(t, v) <==> OnPath(s, v))
    && Inv(c, color, parent, t, k) && stack == StackOf(t.base, t.frames)
    && (Top(s).node in s.done ==> t == s)
  }

  method LookAtDep(c: Config, node: string, dep: string, color: map<string, Color>, parent: map<string, string>,
                   stack: seq<Entry>, ghost s: Search, ghost t: Search, ghost k: nat)
    returns (cycle: Option<seq<string>>, newParent: map<string, string>, newStack: seq<Entry>, ghost u: Search)
    requires Looking(c, color, parent, s, t, stack, k) && LooksAt(c, t, k, dep) && Top(t).node == node
    ensures cycle.Some? ==> IsCycle(c, cycle.value) && Distinct(cycle.value[1..])
    ensures cycle.None? ==> Looking(c, color, newParent, s, u, newStack, k + 1)
  {
    cycle, newParent, newStack, u := None, parent, stack, t;
    WhiteIsNew(color, t, dep);
    if node in t.done {
      DoneSkips(c, color, parent, t, k, dep);
    }
    match ColorOf(color, dep)
    case Gray =>
      var path := ReportCycle(c, parent, node, dep, t);
      cycle := Some(path);
    case White =>
      PushStep(c, color, parent, t, k, dep);
      newParent := parent[dep := node];
      newStack := stack + [(dep, false)];
      u := Pushed(t, dep);
    case Black =>
      SkipKeeps(c, color, parent, t, k, dep);
  }

  /** The dependencies of the layer just entered, in order. */
  method LookAtDeps(c: Config, node: string, color: map<string, Color>, parent: map<string, string>,
                    stack: seq<Entry>, ghost s: Search)
    returns (cycle: Option<seq<string>>, newParent: map<string, string>, newStack: seq<Entry>, ghost t: Search)
    requires s.frames != [] && Top(s) == Frame(node, []) && Inv(c, color, parent, s, 0)
    requires stack == StackOf(s.base, s.frames)
    ensures cycle.Some? ==> IsCycle(c, cycle.value) && Distinct(cycle.value[1..])
    ensures cycle.None? ==> Looking(c, color, newParent, s, t, newStack, |DepsOf(c, node)|)
  {
    newParent, newStack, t, cycle := parent, stack, s, None;
    var deps := DepsOf(c, node);
    for k := 0 to |deps|
      invariant cycle.None? && Looking(c, color, newParent, s, t, newStack, k)
    {
      cycle, newParent, newStack, t := LookAtDep(c, node, deps[k], color, newParent, newStack, s, t, k);
      if cycle.Some? {
        return;
      }
    }
  }

  lemma {:induction false} NextIsNamed(c: Config, s: Search)
    requires PendingOk(c, s) && (s.frames != [] ==> Top(s).pending != [])
    requires s.frames == [] ==> s.base != [] && s.base[0] in c.defs
    ensures NextNode(s) in AllNames(c)
  {
    if s.frames != [] {
      assert Edge(c, Top(s).node, NextNode(s));
    }
  }

  /** The search from `start`, which found the layers in `before` done. */
  ghost predicate Searching(c: Config, color: map<string, Color>, parent: map<string, string>, start: string,
                            before: seq<string>, s: Search, stack: seq<Entry>) {
    Settled(c, color, parent, s) && stack == StackOf(s.base, s.frames) && FromStart(s, start, before)
  }

  predicate FromStart(s: Search, start: string, before: seq<string>) {
    && (s.frames == [] && s.base != [] ==> s.base == [start])
    && (s.frames == [] && s.base == [] ==> start in s.done)
    && (s.frames != [] ==> s.base == [] && s.frames[0].node == start)
    && forall n :: n in before ==> n in s.done
  }

  lemma {:induction false} BacktrackFromStart(s: Search, start: string, before: seq<string>)
    requires FromStart(s, start, before) && s.frames != []
    ensures FromStart(Backtracked(s), start, before)
  {
  }

  lemma {:induction false} BacktrackStep(c: Config, color: map<string, Color>, parent: map<string, string>, start: string,
                                         before: seq<string>, s: Search, stack: seq<Entry>)
    requires Searching(c, color, parent, start, before, s, stack) && stack != [] && stack[|stack| - 1].1
    ensures s.frames != [] && Top(s).node == stack[|stack| - 1].0
    ensures Searching(c, color[Top(s).node := Black], parent, start, before, Backtracked(s), stack[..|stack| - 1])
    ensures Unvisited(AllNames(c), Backtracked(s)) == Unvisited(AllNames(c), s)
  {
    TopOfStack(s);
    BacktrackKeeps(c, color, parent, s);
    BacktrackFromStart(s, start, before);
    BacktrackSame(c, s);
  }

  /** The top of the stack is an entry to be visited. */
  lemma {:induction false} EntryOnTop(c: Config, s: Search, start: string, before: seq<string>, stack: seq<Entry>)
    requires PendingOk(c, s) && FromStart(s, start, before) && stack == StackOf(s.base, s.frames)
    requires stack != [] && !stack[|stack| - 1].1 && start in c.defs
    ensures (s.frames == [] ==> s.base == [start]) && (s.frames != [] ==> Top(s).pending != [])
    ensures NextNode(s) == stack[|stack| - 1].0 && NextNode(s) in AllNames(c)
    ensures stack[..|stack| - 1] + [(NextNode(s), true)] == StackOf([], Entered(s).frames)
    ensures Entered(s).frames != [] && Entered(s).frames[0].node == start
  {
    TopOfStack(s);
    NextIsNamed(c, s);
  }

  lemma {:induction false} EnterStep(c: Config, color: map<string, Color>, parent: map<string, string>, start: string,
                                     before: seq<string>, s: Search, stack: seq<Entry>)
    requires Searching(c, color, parent, start, before, s, stack) && stack != [] && !stack[|stack| - 1].1
    requires start in c.defs
    ensures var n := stack[|stack| - 1].0;
            && (s.frames == [] ==> s.base != []) && (s.frames != [] ==> Top(s).pending != []) && EnteredAs(s, Entered(s), n)
            && Inv(c, color[n := Gray], parent, Entered(s), 0)
            && stack[..|stack| - 1] + [(n, true)] == StackOf([], Entered(s).frames)
            && Entered(s).frames[0].node == start
            && (n in s.done ==> Unvisited(AllNames(c), Entered(s)) == Unvisited(AllNames(c), s))
            && (n !in s.done ==> |Unvisited(AllNames(c), Entered(s))| < |Unvisited(AllNames(c), s)|)
  {
    EntryOnTop(c, s, start, before, stack);
    EnterKeeps(c, color, parent, s);
    EnterShrinks(c, s, Entered(s), NextNode(s));
  }

  lemma {:induction false} SameUnvisited(names: set<string>, s: Search, t: Search)
    requires t.done == s.done && forall v :: OnPath(t, v) <==> OnPath(s, v)
    ensures Unvisited(names, t) == Unvisited(names, s)
  {
  }

  lemma {:induction false} PopWeight(stack: seq<Entry>)
    requires stack != []
    ensures var rest, e := stack[..|stack| - 1], stack[|stack| - 1];
            && Weight(rest) < Weight(stack)
            && (!e.1 ==> Weight(rest + [(e.0, true)]) < Weight(stack))
  {
    WeightSnoc(stack[..|stack| - 1], (stack[|stack| - 1].0, true));
  }

  /** Fewer layers are left to visit, or as many with a lighter stack. */
  predicate Shrinks(c: Config, s: Search, stack: seq<Entry>, t: Search, newStack: seq<Entry>) {
    || |Unvisited(AllNames(c), t)| < |Unvisited(AllNames(c), s)|
    || (|Unvisited(AllNames(c), t)| == |Unvisited(AllNames(c), s)| && Weight(newStack) < Weight(stack))
  }

  /** Entering a layer and looking at its dependencies. */
  method VisitNext(c: Config, start: string, color: map<string, Color>, parent: map<string, string>, stack: seq<Entry>,
                   ghost before: seq<string>, ghost s: Search)
    returns (cycle: Option<seq<string>>, newColor: map<string, Color>, newParent: map<string, string>,
             newStack: seq<Entry>, ghost t: Search)
    requires Searching(c, color, parent, start, before, s, stack) && stack != [] && !stack[|stack| - 1].1
    requires start in c.defs
    ensures cycle.Some? ==> IsCycle(c, cycle.value) && Distinct(cycle.value[1..])
    ensures cycle.None? ==> Searching(c, newColor, newParent, start, before, t, newStack)
    ensures cycle.None? ==> Shrinks(c, s, stack, t, newStack)
  {
    EnterStep(c, color, parent, start, before, s, stack);
    PopWeight(stack);
    var node := stack[|stack| - 1].0;
    newColor := color[node := Gray];
    ghost var entered := Entered(s);
    cycle, newParent, newStack, t := LookAtDeps(c, node, newColor, parent, stack[..|stack| - 1] + [(node, true)], entered);
    if cycle.None? {
      SameUnvisited(AllNames(c), entered, t);
    }
  }

  /** The search from one start; afterwards the start and all that was visited are done. */
  method SearchFrom(c: Config, start: string, color: map<string, Color>, parent: map<string, string>, ghost before: seq<string>)
    returns (cycle: Option<seq<string>>, newColor: map<string, Color>, newParent: map<string, string>, ghost done: seq<string>)
    requires start in c.defs && Settled(c, color, parent, Search(before, [], [])) && start !in before
    ensures cycle.Some? ==> IsCycle(c, cycle.value) && Distinct(cycle.value[1..])
    ensures cycle.None? ==> Settled(c, newColor, newParent, Search(done, [], [])) && start in done
    ensures cycle.None? ==> forall n :: n in before ==> n in done
  {
    newColor, newParent, done, cycle := color, parent, before, None;
    var stack: seq<Entry> := [(start, false)];
    ghost var s := Search(before, [start], []);
    SearchStarts(c, color, parent, start, before);
    while stack != []
      invariant cycle.None? && Searching(c, newColor, newParent, start, before, s, stack)
      decreases |Unvisited(AllNames(c), s)|, Weight(stack)
    {
      if stack[|stack| - 1].1 {
        BacktrackStep(c, newColor, newParent, start, before, s, stack);
        PopWeight(stack);
        newColor := newColor[stack[|stack| - 1].0 := Black];
        stack := stack[..|stack| - 1];
        s := Backtracked(s);
      } else {
        cycle, newColor, newParent, stack, s := VisitNext(c, start, newColor, newParent, stack, before, s);
        if cycle.Some? {
          return;
        }
      }
    }
    SearchEnds(c, newColor, newParent, start, before, s);
    done := s.done;
  }

  lemma {:induction false} SearchStarts(
    c: Config, color: map<string, Color>, parent: map<string, string>, start: string, before: seq<string>)
    requires Settled(c, color, parent, Search(before, [], []))
    ensures Searching(c, color, parent, start, before, Search(before, [start], []), [(start, false)])
  {
    assert Entries([start]) == [(start, false)];
    IdleSettled(c, color, parent, before, [start]);
  }

  /** With no layer on the path, all that matters are the colors. */
  lemma {:induction false} IdleSettled(
    c: Config, color: map<string, Color>, parent: map<string, string>, done: seq<string>, base: seq<string>)
    requires Finished(c, done) && ColorsOk(color, Search(done, [], [])) && |base| <= 1
    ensures Settled(c, color, parent, Search(done, base, []))
  {
    var s, t := Search(done, [], []), Search(done, base, []);
    assert forall n :: OnPath(t, n) <==> OnPath(s, n);
    assert ColorsOk(color, t);
  }

  lemma {:induction false} SearchEnds(
    c: Config, color: map<string, Color>, parent: map<string, string>, start: string, before: seq<string>, s: Search)
    requires Searching(c, color, parent, start, before, s, [])
    ensures Settled(c, color, parent, Search(s.done, [], [])) && start in s.done && forall n :: n in before ==> n in s.done
  {
    assert s == Search(s.done, [], []);
  }

  /** A cycle is reported exactly when there is one, and what is reported is one, without repetition;
      otherwise the layers were blackened in an order that puts dependencies first. */
  method DetectCycle(c: Config) returns (r: Result<(), seq<string>>, ghost done: seq<string>)
    requires WellFormed(c)
    ensures r.Err? ==> IsCycle(c, r.error) && Distinct(r.error[1..])
    ensures r.Ok? ==> Finished(c, done) && AllListed(c, done) && forall p :: !IsCycle(c, p)
  {
    var color: map<string, Color> := map n | n in c.defs :: White;
    var parent: map<string, string> := map[];
    done := [];
    for k := 0 to |c.names|
      invariant Settled(c, color, parent, Search(done, [], []))
      invariant forall i :: 0 <= i < k ==> c.names[i] in done
    {
      var start := c.names[k];
      WhiteIsNew(color, Search(done, [], []), start);
      if ColorOf(color, start) != White {
        continue;
      }
      var found;
      found, color, parent, done := SearchFrom(c, start, color, parent, done);
      if found.Some? {
        return Err(found.value), done;
      }
    }
    forall p ensures !IsCycle(c, p) {
      FinishedMeansAcyclic(c, done, p);
    }
    r := Ok(());
  }
}
