/** What the daemon emits over two batches. */
module SeenBatches {
  import opened SeenWindow

  lemma OneMoreLine(w: Window, n: nat, hs: seq<Hash>, h: Hash)
    requires n >= 1 && |w.queue| <= n
    ensures Run(w, n, hs + [h]) == Observe(Run(w, n, hs), n, h)
    ensures EmittedLines(w, n, hs + [h]) == EmittedLines(w, n, hs) + (if h in Run(w, n, hs).seen then [] else [h])
  {
    assert (hs + [h])[..|hs|] == hs;
  }

  lemma {:induction false} RunInOrder(w: Window, n: nat, a: seq<Hash>, b: seq<Hash>)
    requires n >= 1 && |w.queue| <= n
    ensures Run(w, n, a + b) == Run(Run(w, n, a), n, b)
    decreases |b|
  {
    if b == [] {
      assert a + b == a;
    } else {
      assert (a + b)[..|a + b| - 1] == a + b[..|b| - 1];
      RunInOrder(w, n, a, b[..|b| - 1]);
    }
  }

  /** Both functions grow by the same pieces. */
  ghost predicate GrowAlike(f: seq<Hash> -> seq<Hash>, g: seq<Hash> -> seq<Hash>, piece: (seq<Hash>, Hash) -> seq<Hash>) {
    forall x, h :: f(x + [h]) == f(x) + piece(x, h) && g(x + [h]) == g(x) + piece(x, h)
  }

  lemma {:induction false} GrownAlike(
    f: seq<Hash> -> seq<Hash>, g: seq<Hash> -> seq<Hash>, piece: (seq<Hash>, Hash) -> seq<Hash>, b: seq<Hash>)
    requires g([]) == [] && GrowAlike(f, g, piece)
    ensures f(b) == f([]) + g(b)
    decreases |b|
  {
    if b != [] {
      var front, h := b[..|b| - 1], b[|b| - 1];
      GrownAlike(f, g, piece, front);
      assert b == front + [h];
    }
  }

  function EmittedBehind(w: Window, n: nat, a: seq<Hash>): seq<Hash> -> seq<Hash>
    requires n >= 1 && |w.queue| <= n
  {
    (x: seq<Hash>) => EmittedLines(w, n, a + x)
  }

  function Emission(w: Window, n: nat, a: seq<Hash>): (seq<Hash>, Hash) -> seq<Hash>
    requires n >= 1 && |w.queue| <= n
  {
    (x: seq<Hash>, h: Hash) => if h in Run(w, n, a + x).seen then [] else [h]
  }

  lemma EmissionsGrowAlike(w: Window, n: nat, a: seq<Hash>)
    requires n >= 1 && |w.queue| <= n
    ensures GrowAlike(EmittedBehind(w, n, a), EmittedBehind(Run(w, n, a), n, []), Emission(w, n, a))
  {
    var f, g, piece := EmittedBehind(w, n, a), EmittedBehind(Run(w, n, a), n, []), Emission(w, n, a);
    forall x, h
      ensures f(x + [h]) == f(x) + piece(x, h) && g(x + [h]) == g(x) + piece(x, h)
    {
      SamePiece(w, n, a, x, h);
      assert [] + x == x && [] + (x + [h]) == x + [h];
    }
  }

  lemma SamePiece(w: Window, n: nat, a: seq<Hash>, x: seq<Hash>, h: Hash)
    requires n >= 1 && |w.queue| <= n
    ensures var piece := if h in Run(w, n, a + x).seen then [] else [h];
            && EmittedLines(w, n, a + (x + [h])) == EmittedLines(w, n, a + x) + piece
            && EmittedLines(Run(w, n, a), n, x + [h]) == EmittedLines(Run(w, n, a), n, x) + piece
  {
    RunInOrder(w, n, a, x);
    assert a + (x + [h]) == a + x + [h];
    OneMoreLine(w, n, a + x, h);
    OneMoreLine(Run(w, n, a), n, x, h);
  }

  lemma NothingEmitted(w: Window, n: nat)
    requires n >= 1 && |w.queue| <= n
    ensures EmittedBehind(w, n, [])([]) == []
  {
    var none: seq<Hash> := [];
    assert none + none == none;
  }

  lemma BehindIs(w: Window, n: nat, a: seq<Hash>, x: seq<Hash>)
    requires n >= 1 && |w.queue| <= n
    ensures EmittedBehind(w, n, a)(x) == EmittedLines(w, n, a + x)
  {
  }

  /** What two batches emit is what the first emits, and then what the second does after it. */
  lemma EmittedInOrder(w: Window, n: nat, a: seq<Hash>, b: seq<Hash>)
    requires n >= 1 && |w.queue| <= n
    ensures EmittedLines(w, n, a + b) == EmittedLines(w, n, a) + EmittedLines(Run(w, n, a), n, b)
  {
    EmissionsGrowAlike(w, n, a);
    NothingEmitted(Run(w, n, a), n);
    GrownAlike(EmittedBehind(w, n, a), EmittedBehind(Run(w, n, a), n, []), Emission(w, n, a), b);
    BehindIs(w, n, a, []);
    BehindIs(w, n, a, b);
    BehindIs(Run(w, n, a), n, [], b);
    assert a + [] == a && [] + b == b;
  }
}
