/** Which layers a change activates: the ones it touches and everything that depends on them. */
module LayerActivation {
  import opened Common
  import opened LayerConfig

  /** Whether a changed file matches one of the globs of a layer; glob matching is a library's. */
  type FileMatcher = (string, seq<string>) -> bool

  predicate Touched(touches: FileMatcher, c: Config, files: seq<string>, n: string) {
    n in c.defs && (c.defs[n].alwaysRun || exists i :: 0 <= i < |files| && touches(files[i], c.defs[n].paths))
  }

  /** A walk along dependencies, inside the order, from n to a layer the change touches. */
  ghost predicate Leads(touches: FileMatcher, c: Config, files: seq<string>, n: string, p: seq<string>) {
    && p != [] && p[0] == n && IsWalk(c, p) && (forall i :: 0 <= i < |p| ==> p[i] in c.order)
    && Touched(touches, c, files, p[|p| - 1])
  }

  ghost predicate Affected(touches: FileMatcher, c: Config, files: seq<string>, n: string) {
    exists p :: Leads(touches, c, files, n, p)
  }

  lemma {:induction false} TouchedIsAffected(touches: FileMatcher, c: Config, files: seq<string>, n: string)
    requires n in c.order && Touched(touches, c, files, n)
    ensures Affected(touches, c, files, n)
  {
    assert Leads(touches, c, files, n, [n]);
  }

  lemma {:induction false} DependentIsAffected(touches: FileMatcher, c: Config, files: seq<string>, n: string, d: string)
    requires n in c.order && Edge(c, n, d) && Affected(touches, c, files, d)
    ensures Affected(touches, c, files, n)
  {
    var p :| Leads(touches, c, files, d, p);
    var q := [n] + p;
    assert forall i :: 1 <= i < |q| ==> q[i] == p[i - 1];
    assert IsWalk(c, q) by {
      forall i | 0 <= i < |q| - 1 ensures Edge(c, q[i], q[i + 1]) {
        assert i > 0 ==> Edge(c, p[i - 1], p[i]);
      }
    }
    assert Leads(touches, c, files, n, q);
  }

  /** Nothing outside the active set depends on anything inside. */
  predicate CascadeDone(c: Config, active: set<string>, k: nat)
    requires k <= |c.order|
  {
    forall i :: 0 <= i < k && c.order[i] !in active ==> forall d :: d in DepsOf(c, c.order[i]) ==> d !in active
  }

  /** A set that holds the touched layers and that nothing depends on from outside holds every affected layer. */
  lemma {:induction false} CascadeReaches(touches: FileMatcher, c: Config, files: seq<string>, active: set<string>, n: string, p: seq<string>)
    requires CascadeDone(c, active, |c.order|) && Leads(touches, c, files, n, p)
    requires forall m :: m in c.order && Touched(touches, c, files, m) ==> m in active
    ensures n in active
    decreases |p|
  {
    if |p| > 1 {
      assert Edge(c, p[0], p[1]);
      assert IsWalk(c, p[1..]) by {
        forall i | 0 <= i < |p[1..]| - 1 ensures Edge(c, p[1..][i], p[1..][i + 1]) {
          assert Edge(c, p[i + 1], p[i + 2]);
        }
      }
      assert Leads(touches, c, files, p[1], p[1..]);
      CascadeReaches(touches, c, files, active, p[1], p[1..]);
      assert p[1] in DepsOf(c, n);
    }
  }

  method Seeds(touches: FileMatcher, c: Config, files: seq<string>) returns (active: set<string>)
    ensures forall n :: n in active <==> n in c.order && Touched(touches, c, files, n)
  {
    active := {};
    for i := 0 to |c.order|
      invariant forall n :: n in active <==> n in c.order[..i] && Touched(touches, c, files, n)
    {
      var name := c.order[i];
      assert c.order[..i + 1] == c.order[..i] + [name];
      if name in c.defs {
        if c.defs[name].alwaysRun {
          active := active + {name};
          continue;
        }
        for j := 0 to |files|
          invariant forall k :: 0 <= k < j ==> !touches(files[k], c.defs[name].paths)
          invariant forall n :: n in active <==> n in c.order[..i] && Touched(touches, c, files, n)
        {
          if touches(files[j], c.defs[name].paths) {
            active := active + {name};
            break;
          }
        }
      }
    }
    assert c.order[..|c.order|] == c.order;
  }

  /** One pass of the cascade over the order. */
  method CascadeOnce(touches: FileMatcher, c: Config, files: seq<string>, before: set<string>)
    returns (active: set<string>, changed: bool)
    requires forall n :: n in before ==> n in c.order && Affected(touches, c, files, n)
    ensures before <= active && (changed <==> active != before)
    ensures forall n :: n in active ==> n in c.order && Affected(touches, c, files, n)
    ensures !changed ==> CascadeDone(c, active, |c.order|)
  {
    active, changed := before, false;
    for i := 0 to |c.order|
      invariant before <= active && (changed <==> active != before)
      invariant forall n :: n in active ==> n in c.order && Affected(touches, c, files, n)
      invariant !changed ==> CascadeDone(c, active, i)
    {
      var name := c.order[i];
      if name in active {
        continue;
      }
      var deps := DepsOf(c, name);
      var j := 0;
      while j < |deps| && deps[j] !in active
        invariant j <= |deps| && forall k :: 0 <= k < j ==> deps[k] !in active
      {
        j := j + 1;
      }
      if j < |deps| {
        DependentIsAffected(touches, c, files, name, deps[j]);
        active := active + {name};
        changed := true;
      }
    }
  }

  function Members(s: seq<string>): set<string> {
    set n | n in s
  }

  /** The layers of the order that are in `active`, in order. */
  function Keep(order: seq<string>, active: set<string>): (r: seq<string>)
    ensures forall n :: n in r <==> n in order && n in active
  {
    if order == [] then []
    else (if order[0] in active then [order[0]] else []) + Keep(order[1..], active)
  }

  /** Passes are repeated until one changes nothing. */
  method Cascade(touches: FileMatcher, c: Config, files: seq<string>, seeds: set<string>) returns (found: set<string>)
    requires forall n :: n in seeds <==> n in c.order && Touched(touches, c, files, n)
    ensures forall n :: n in found ==> n in c.order && Affected(touches, c, files, n)
    ensures seeds <= found && CascadeDone(c, found, |c.order|)
  {
    found := seeds;
    forall n | n in found ensures Affected(touches, c, files, n) {
      TouchedIsAffected(touches, c, files, n);
    }
    while true
      invariant forall n :: n in found ==> n in c.order && Affected(touches, c, files, n)
      invariant seeds <= found
      decreases |Members(c.order) - found|
    {
      var next, changed := CascadeOnce(touches, c, files, found);
      if !changed {
        break;
      }
      Grows(Members(c.order), found, next);
      found := next;
    }
  }

  /** Active are exactly the layers from which dependencies lead, inside the order, to a layer the change
      touches; they are listed in order. */
  method ActiveLayers(touches: FileMatcher, c: Config, files: seq<string>) returns (r: seq<string>)
    ensures forall n :: n in r <==> Affected(touches, c, files, n)
    ensures r == Keep(c.order, Members(r))
  {
    var seeds := Seeds(touches, c, files);
    var found := Cascade(touches, c, files, seeds);
    forall n | Affected(touches, c, files, n) ensures n in found {
      var p :| Leads(touches, c, files, n, p);
      CascadeReaches(touches, c, files, found, n, p);
    }
    KeepExactly(c.order, found);
    r := Keep(c.order, found);
  }

  lemma {:induction false} KeepExactly(order: seq<string>, found: set<string>)
    requires found <= Members(order)
    ensures Members(Keep(order, found)) == found
  {
  }

  lemma {:induction false} Grows(all: set<string>, a: set<string>, b: set<string>)
    requires a <= b <= all && a != b
    ensures |all - b| < |all - a|
  {
    var x :| x in b && x !in a;
    assert all - b <= (all - a) - {x};
    assert |(all - a) - {x}| == |all - a| - 1;
    SubsetSize(all - b, (all - a) - {x});
  }

  /** A larger change activates no fewer layers. */
  lemma {:induction false} MoreFilesActivateMore(touches: FileMatcher, c: Config, files: seq<string>, more: seq<string>, n: string)
    requires Affected(touches, c, files, n) && forall f :: f in files ==> f in more
    ensures Affected(touches, c, more, n)
  {
    var p :| Leads(touches, c, files, n, p);
    var last := p[|p| - 1];
    if !c.defs[last].alwaysRun {
      var i :| 0 <= i < |files| && touches(files[i], c.defs[last].paths);
      assert files[i] in more;
    }
    assert Leads(touches, c, more, n, p);
  }
}
