/** Visible edges that the daemon adds to a graph that is already collapsed: PLT jumps and indirect
    jumps it decides to allow. Nothing is collapsed again, so a block that was no exit gets no
    fastpaths; this says exactly when that does no harm.
 */
module LateEdges {
  import opened ControlFlow
  import opened Collapse

  /** h is g with the edges xs filed under their sources. */
  ghost predicate Extended(g: Graph, xs: set<Edge>, h: Graph) {
    && h.hidden == g.hidden && h.fallthrough == g.fallthrough
    && (forall b, e :: e in Out(g, b) ==> e in Out(h, b))
    && (forall x :: x in xs ==> x in Out(h, x.source))
    && (forall b, e :: e in Out(h, b) ==> e in Out(g, b) || (e in xs && e.source == b))
  }

  ghost predicate AllVisible(xs: set<Edge>) {
    forall x :: x in xs ==> IsVisible(x)
  }

  /** Block c was an exit already, or no other collapsed block reaches it. */
  ghost predicate Ready(g0: Graph, roots: set<Block>, c: Block) {
    IsExit(g0, c) || forall b :: b in roots && Reaches(g0, b, c) ==> b == c
  }

  ghost predicate AllReady(g0: Graph, roots: set<Block>, xs: set<Edge>) {
    forall x :: x in xs ==> Ready(g0, roots, x.source)
  }

  // ----- Visible edges do not change what is reached internally

  lemma {:induction false} InternalWalks(g0: Graph, xs: set<Edge>, h0: Graph, b: Block, w: seq<Edge>)
    requires Extended(g0, xs, h0) && AllVisible(xs) && Visible(w) == []
    ensures Walk(g0, b, w) <==> Walk(h0, b, w)
    decreases w
  {
    if w != [] {
      InternalWalks(g0, xs, h0, w[0].target, w[1..]);
    }
  }

  lemma SameReach(g0: Graph, xs: set<Edge>, h0: Graph, b: Block, c: Block)
    requires Extended(g0, xs, h0) && AllVisible(xs)
    ensures Reaches(g0, b, c) <==> Reaches(h0, b, c)
  {
    if Reaches(g0, b, c) {
      var w :| Walk(g0, b, w) && Visible(w) == [] && End(b, w) == c;
      InternalWalks(g0, xs, h0, b, w);
    }
    if Reaches(h0, b, c) {
      var w :| Walk(h0, b, w) && Visible(w) == [] && End(b, w) == c;
      InternalWalks(g0, xs, h0, b, w);
    }
  }

  lemma ExitGrows(g0: Graph, xs: set<Edge>, h0: Graph, c: Block)
    requires Extended(g0, xs, h0) && AllVisible(xs)
    ensures IsExit(h0, c) <==> IsExit(g0, c) || exists x :: x in xs && x.source == c
  {
    if IsExit(g0, c) && Out(h0, c) != [] {
      var e := Out(h0, c)[0];
      if Out(g0, c) == [] {
        assert e in Out(h0, c) && IsVisible(e);
      } else {
        var f :| f in Out(g0, c) && IsVisible(f);
        assert f in Out(h0, c);
      }
    }
    if x :| x in xs && x.source == c {
      assert x in Out(h0, c) && IsVisible(x);
    }
    if IsExit(h0, c) && !IsExit(g0, c) {
      var e := Out(g0, c)[0];
      assert e in Out(h0, c);
      var f :| f in Out(h0, c) && IsVisible(f);
      assert f in xs && f.source == c;
    }
  }

  lemma Filed(g: Graph, xs: set<Edge>, h: Graph, b: Block, e: Edge)
    requires Extended(g, xs, h)
    ensures e in Out(h, b) <==> e in Out(g, b) || (e in xs && e.source == b)
  {
  }

  lemma ExtendedNext(g: Graph, xs: set<Edge>, h: Graph, x: Edge, h': Graph)
    requires Extended(g, xs, h) && h'.hidden == h.hidden && h'.fallthrough == h.fallthrough
    requires forall b :: b != x.source ==> Out(h', b) == Out(h, b)
    requires forall e :: e in Out(h', x.source) <==> e in Out(h, x.source) || e == x
    ensures Extended(g, xs + {x}, h')
  {
  }

  // ----- Collapsing and adding

  lemma ExtendedPartial(g0: Graph, roots: set<Block>, g: Graph, xs: set<Edge>, h0: Graph, h: Graph)
    requires Fresh(g0) && Partial(g0, roots, g)
    requires AllVisible(xs) && Extended(g0, xs, h0) && Extended(g, xs, h)
    ensures Fresh(h0) && Partial(h0, roots, h)
  {
    hide Reaches, IsExit, Extended, Out;
    FreshExtended(g0, xs, h0);
    HiddenSame(g, xs, h);
    forall b, e
      ensures e in Out(h0, b) ==> e in Out(h, b)
      ensures e in Out(h, b) ==> e in Out(h0, b) || IsFastpathFor(h0, roots, b, e)
    {
      Filed(g0, xs, h0, b, e);
      Filed(g, xs, h, b, e);
      if e in Out(h, b) && e !in Out(h0, b) {
        SameReach(g0, xs, h0, b, e.target);
        ExitGrows(g0, xs, h0, e.target);
      }
    }
    forall e | e in h.hidden
      ensures Covered(h0, roots, e.source)
    {
      var b :| b in roots && Reaches(g0, b, e.source);
      SameReach(g0, xs, h0, b, e.source);
    }
  }

  lemma FreshExtended(g0: Graph, xs: set<Edge>, h0: Graph)
    requires Fresh(g0) && AllVisible(xs) && Extended(g0, xs, h0)
    ensures Fresh(h0)
  {
  }

  lemma HiddenSame(g: Graph, xs: set<Edge>, h: Graph)
    requires Extended(g, xs, h)
    ensures h.hidden == g.hidden
  {
  }

  /** The extended graphs correspond again if all sources were ready. */
  lemma {:induction false} ReadyCollapsed(g0: Graph, roots: set<Block>, g: Graph, xs: set<Edge>, h0: Graph, h: Graph)
    requires Fresh(g0) && Collapsed(g0, roots, g) && AllReady(g0, roots, xs)
    requires AllVisible(xs) && Extended(g0, xs, h0) && Extended(g, xs, h)
    ensures Collapsed(h0, roots, h)
  {
    hide Reaches, IsExit, Partial;
    ExtendedPartial(g0, roots, g, xs, h0, h);
    forall b, c | b in roots && Reaches(h0, b, c)
      ensures Done(h0, h, b, c)
    {
      SameReach(g0, xs, h0, b, c);
      ExitGrows(g0, xs, h0, c);
      assert Done(g0, g, b, c);
      if IsExit(h0, c) && b != c {
        assert IsExit(g0, c) by {
          if x :| x in xs && x.source == c { assert Ready(g0, roots, c); }
        }
        var f :| f in Out(g, b) && f.kind.Fastpath? && f.target == c;
        assert f in Out(h, b);
      }
    }
  }

  // ----- A source that is not ready

  /** From a collapsed block, internal moves of the collapsed graph lead to it or to old exits only. */
  lemma {:induction false} OnlyExits(g0: Graph, roots: set<Block>, g: Graph, xs: set<Edge>, h: Graph, r: Block, b: Block, w: seq<Edge>)
    requires Fresh(g0) && Collapsed(g0, roots, g) && Extended(g, xs, h) && AllVisible(xs)
    requires r in roots && Reaches(g0, r, b)
    requires Walk(h, b, w) && Visible(w) == []
    ensures End(b, w) == b || IsExit(g0, End(b, w))
    decreases w
  {
    hide IsExit, Reaches;
    if w != [] {
      var f := w[0];
      assert Done(g0, g, r, b);
      assert f in Out(g, b) && f !in Out(g0, b) && IsFastpathFor(g0, roots, b, f);
      OnlyExits(g0, roots, g, xs, h, b, f.target, w[1..]);
    }
  }

  lemma OnlyAtSource(g0: Graph, roots: set<Block>, g: Graph, xs: set<Edge>, h: Graph, x: Edge, c: Block)
    requires Fresh(g0) && Collapsed(g0, roots, g) && Extended(g, xs, h)
    requires x in Out(h, c) && IsVisible(x)
    ensures x.source == c
  {
  }

  lemma NothingHidden(g: Graph)
    requires Fresh(g)
    ensures g.hidden == {}
  {
  }

  /** The new edge cannot be shown by a collapsed block that reaches its source. */
  lemma {:induction false} UnreadyLoses(g0: Graph, roots: set<Block>, g: Graph, xs: set<Edge>, h0: Graph, h: Graph, x: Edge, b: Block)
    requires Fresh(g0) && Collapsed(g0, roots, g)
    requires AllVisible(xs) && Extended(g0, xs, h0) && Extended(g, xs, h)
    requires x in xs && !IsExit(g0, x.source) && b in roots && Reaches(g0, b, x.source) && b != x.source
    ensures Realisable(h0, b, [x]) && !Realisable(h, b, [x])
  {
    hide IsExit, Reaches, Extended, Collapsed, Fresh, Out, Walk, Visible;
    SameReach(g0, xs, h0, b, x.source);
    Filed(g0, xs, h0, x.source, x);
    assert h0.hidden == {} by { FreshExtended(g0, xs, h0); NothingHidden(h0); }
    ReachesShows(h0, b, x.source, x);
    forall w | Walk(h, b, w)
      ensures Visible(w) != [x]
    {
      if Visible(w) == [x] {
        var k := SplitAtVisible(h, b, w);
        assert [x][0] == w[k];
        ReachesSelf(g0, b);
        OnlyExits(g0, roots, g, xs, h, b, b, w[..k]);
        OnlyAtSource(g0, roots, g, xs, h, x, End(b, w[..k]));
      }
    }
  }

  /** The main result: after adding visible edges to both, the collapsed graph behaves as the original
      one if and only if every new edge starts at a block that was an exit or that no other collapsed
      block reaches, and no block is stranded. It never shows more. */
  lemma {:induction false} ExtensionPreserves(g0: Graph, roots: set<Block>, g: Graph, xs: set<Edge>, h0: Graph, h: Graph)
    requires Fresh(g0) && Collapsed(g0, roots, g)
    requires AllVisible(xs) && Extended(g0, xs, h0) && Extended(g, xs, h)
    ensures SameBehaviour(h0, h) <==> AllReady(g0, roots, xs) && NoneStranded(h0, roots)
    ensures forall b, vis :: Realisable(h, b, vis) ==> Realisable(h0, b, vis)
  {
    hide Reaches, IsExit, Collapsed, Partial, NoneStranded;
    ExtendedPartial(g0, roots, g, xs, h0, h) by { PartialOf(g0, roots, g); }
    forall b, vis | Realisable(h, b, vis)
      ensures Realisable(h0, b, vis)
    {
      var w :| Walk(h, b, w) && Visible(w) == vis;
      var w0 := CollapsedSound(h0, roots, h, b, w);
    }
    if AllReady(g0, roots, xs) {
      ReadyCollapsed(g0, roots, g, xs, h0, h);
      CollapsePreserves(h0, roots, h);
    } else {
      var x :| x in xs && !Ready(g0, roots, x.source);
      var b :| b in roots && Reaches(g0, b, x.source) && b != x.source;
      UnreadyLoses(g0, roots, g, xs, h0, h, x, b);
    }
  }

  lemma PartialOf(g0: Graph, roots: set<Block>, g: Graph)
    requires Collapsed(g0, roots, g)
    ensures Partial(g0, roots, g)
  {
  }
}
