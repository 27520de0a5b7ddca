/** Playing the solver's move list one token at a time (`animateMoves`,
    main.js:216-225), as a function of the cubie list: the specification
    the session's `AnimateMoves` loop is proved against. */
module Sequencer {
  import opened Wrappers
  import opened Faces
  import opened Lattice
  import opened Moves

  /** One call of `performMoveAnimation`: the baked cubie list when it
      resolves, None when it throws. A token that names no face has no
      `layerMap` entry, and the filter throws on its first call, that is,
      unless the cubie list is empty. */
  function Step(cs: seq<Cubie>, token: string): (r: Option<seq<Cubie>>)
    ensures r.Some? <==> ParseMove(token).Some? || |cs| == 0
    ensures r.Some? ==> |r.value| == |cs|
  {
    match ParseMove(token)
    case Some(m) => Some(ApplyMove(m, cs))
    case None => if |cs| == 0 then Some(cs) else None
  }

  /** The tokens applied strictly in list order, each to the result of the
      one before; the first one that throws ends the loop. The result is the
      final cubie list and how many tokens completed. */
  function Play(cs: seq<Cubie>, tokens: seq<string>): (r: (seq<Cubie>, nat))
    ensures r.1 <= |tokens|
    ensures |r.0| == |cs|
    decreases |tokens|
  {
    if |tokens| == 0 then (cs, 0)
    else
      match Step(cs, tokens[0])
      case None => (cs, 0)
      case Some(next) =>
        var r := Play(next, tokens[1..]);
        (r.0, r.1 + 1)
  }

  /** Sequencing: once a list has been played to its end, playing a longer
      list continues from the state it reached. */
  lemma {:induction false} PlayAppend(cs: seq<Cubie>, a: seq<string>, b: seq<string>)
    requires Play(cs, a).1 == |a|
    ensures Play(cs, a + b) == (Play(Play(cs, a).0, b).0, |a| + Play(Play(cs, a).0, b).1)
    decreases |a|
  {
    if |a| > 0 {
      assert (a + b)[0] == a[0];
      assert (a + b)[1..] == a[1..] + b;
      var next := Step(cs, a[0]).value;
      PlayAppend(next, a[1..], b);
    } else {
      assert a + b == b;
    }
  }

  /** The loop stops exactly at the first token that throws: every token
      before it completed, and that one fails on the state reached. */
  lemma {:induction false} PlayStopsAtFailure(cs: seq<Cubie>, tokens: seq<string>)
    requires Play(cs, tokens).1 < |tokens|
    ensures Step(Play(cs, tokens).0, tokens[Play(cs, tokens).1]).None?
    ensures Play(cs, tokens[..Play(cs, tokens).1]) == (Play(cs, tokens).0, Play(cs, tokens).1)
    decreases |tokens|
  {
    var k := Play(cs, tokens).1;
    if k > 0 {
      var next := Step(cs, tokens[0]).value;
      PlayStopsAtFailure(next, tokens[1..]);
      assert tokens[..k][1..] == tokens[1..][..k - 1];
    }
  }

  /** A move list played on the lattice leaves a lattice: every move of it
      found nine cubies in its layer. */
  lemma {:induction false} PlayPreservesLattice(cs: seq<Cubie>, tokens: seq<string>)
    requires IsLattice(cs)
    ensures IsLattice(Play(cs, tokens).0)
    decreases |tokens|
  {
    if |tokens| > 0 {
      match ParseMove(tokens[0])
      case Some(m) =>
        MovePreservesLattice(m, cs);
        PlayPreservesLattice(ApplyMove(m, cs), tokens[1..]);
      case None =>
    }
  }

  /** A face token followed by its prime form restores every cubie. */
  lemma TokenThenPrime(f: Face, cs: seq<Cubie>)
    ensures Play(cs, [[Letter(f)], [Letter(f), '\'']]) == (cs, 2)
  {
    ParseFaceTokens(f);
    var m := Move(f, false, false);
    MoveThenInverse(m, cs);
    assert Inverse(m) == Move(f, true, false);
    var ts := [[Letter(f)], [Letter(f), '\'']];
    var c1 := ApplyMove(m, cs);
    assert ts[1..][1..] == [];
    assert Play(cs, ts[1..][1..]) == (cs, 0);
    assert Step(c1, ts[1..][0]) == Some(cs);
    assert Play(c1, ts[1..]) == (cs, 1);
    assert Step(cs, ts[0]) == Some(c1);
  }

  /** Four equal tokens restore every cubie. */
  lemma FourTokens(t: string, cs: seq<Cubie>)
    requires ParseMove(t).Some?
    ensures Play(cs, [t, t, t, t]) == (cs, 4)
  {
    var m := ParseMove(t).value;
    FourMoves(m, cs);
    var c1 := ApplyMove(m, cs);
    var c2 := ApplyMove(m, c1);
    var c3 := ApplyMove(m, c2);
    assert Play(cs, []) == (cs, 0);
    assert Play(c3, [t]) == (cs, 1);
    assert [t, t] == [t] + [t];
    assert Play(c2, [t, t]) == (cs, 2) by {
      assert [t, t][1..] == [t];
    }
    assert Play(c1, [t, t, t]) == (cs, 3) by {
      assert [t, t, t][1..] == [t, t];
    }
    assert [t, t, t, t][1..] == [t, t, t];
  }

  /** What the move list shows while it plays: each move's list item is
      highlighted before it starts and un-highlighted after it completes;
      the final alert says the cube is solved. */
  datatype Event = Begin(index: nat) | End(index: nat) | Solved

  /** The highlight events of the first `k` moves: two per move. */
  function Highlights(k: nat): (r: seq<Event>)
    ensures |r| == 2 * k
  {
    if k == 0 then [] else Highlights(k - 1) + [Begin(k - 1), End(k - 1)]
  }

  /** The events of a run in which `k` moves completed: then either the
      final alert, or the highlight of move `k`, which threw. */
  function Trace(k: nat, solved: bool): seq<Event>
  {
    Highlights(k) + if solved then [Solved] else [Begin(k)]
  }

  lemma {:induction false} HighlightsOrder(k: nat)
    ensures forall i :: 0 <= i < k ==> Highlights(k)[2 * i] == Begin(i) && Highlights(k)[2 * i + 1] == End(i)
  {
    if k > 0 {
      var h := Highlights(k - 1);
      HighlightsOrder(k - 1);
      assert Highlights(k) == h + [Begin(k - 1), End(k - 1)];
      forall i | 0 <= i < k ensures Highlights(k)[2 * i] == Begin(i) && Highlights(k)[2 * i + 1] == End(i) {
        if i < k - 1 {
          assert Highlights(k)[2 * i] == h[2 * i] && Highlights(k)[2 * i + 1] == h[2 * i + 1];
        }
      }
    }
  }

  /** Strict one-at-a-time order: move `i` begins right after move `i - 1`
      ends, every move that began ended before the next began, and the
      completion alert comes once, last, and only when every move completed. */
  lemma TraceOrder(k: nat, solved: bool)
    ensures |Trace(k, solved)| == 2 * k + 1
    ensures forall i :: 0 <= i < k ==> Trace(k, solved)[2 * i] == Begin(i) && Trace(k, solved)[2 * i + 1] == End(i)
    ensures Trace(k, solved)[2 * k] == if solved then Solved else Begin(k)
    ensures forall p :: 0 <= p < 2 * k ==> !Trace(k, solved)[p].Solved?
  {
    HighlightsOrder(k);
    forall p | 0 <= p < 2 * k ensures !Trace(k, solved)[p].Solved? {
      assert Trace(k, solved)[p] == Highlights(k)[p];
      var i := p / 2;
      assert i < k;
      if p == 2 * i {
        assert Highlights(k)[p] == Begin(i);
      } else {
        assert p == 2 * i + 1;
        assert Highlights(k)[p] == End(i);
      }
    }
  }
}
