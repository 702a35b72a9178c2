/**
 * Two parties that each follow a fixed list of sends and receives over a pair
 * of reliable in-order channels. Whatever the interleaving, a party only ever
 * receives the token its list names, and the pair cannot get stuck.
 */
module Dialogue {

  datatype Act<T> = Snd(tok: T) | Rcv(tok: T)

  /** The two lists answer each other: a send against a receive of the same
      token, or both sides sending first and then each taking the other's. */
  ghost predicate Matched<T(!new)>(a: seq<Act<T>>, b: seq<Act<T>>)
    decreases |a|
  {
    if a == [] || b == [] then a == b
    else if a[0].Snd? != b[0].Snd? then
      a[0].tok == b[0].tok && Matched(a[1..], b[1..])
    else
      && a[0].Snd? && b[0].Snd? && |a| >= 2 && |b| >= 2
      && a[1] == Rcv(b[0].tok) && b[1] == Rcv(a[0].tok)
      && Matched(a[2..], b[2..])
  }

  lemma {:induction false} MatchedAppend<T(!new)>(a: seq<Act<T>>, b: seq<Act<T>>, c: seq<Act<T>>, d: seq<Act<T>>)
    requires Matched(a, b) && Matched(c, d)
    ensures Matched(a + c, b + d)
    decreases |a|
  {
    if a == [] {
      assert a + c == c && b + d == d;
    } else if a[0].Snd? && b[0].Snd? {
      MatchedAppend(a[2..], b[2..], c, d);
      assert (a + c)[2..] == a[2..] + c && (b + d)[2..] == b[2..] + d;
    } else {
      MatchedAppend(a[1..], b[1..], c, d);
      assert (a + c)[1..] == a[1..] + c && (b + d)[1..] == b[1..] + d;
    }
  }

  lemma {:induction false} MatchedSymmetric<T(!new)>(a: seq<Act<T>>, b: seq<Act<T>>)
    requires Matched(a, b)
    ensures Matched(b, a)
    decreases |a|
  {
    if a != [] {
      if a[0].Snd? && b[0].Snd? {
        MatchedSymmetric(a[2..], b[2..]);
      } else {
        MatchedSymmetric(a[1..], b[1..]);
      }
    }
  }

  function Sends<T>(toks: seq<T>): (r: seq<Act<T>>)
    ensures |r| == |toks| && forall i :: 0 <= i < |toks| ==> r[i] == Snd(toks[i])
  {
    seq(|toks|, i requires 0 <= i < |toks| => Snd(toks[i]))
  }

  function Takes<T>(toks: seq<T>): (r: seq<Act<T>>)
    ensures |r| == |toks| && forall i :: 0 <= i < |toks| ==> r[i] == Rcv(toks[i])
  {
    seq(|toks|, i requires 0 <= i < |toks| => Rcv(toks[i]))
  }

  lemma {:induction false} SendsMatchTakes<T(!new)>(toks: seq<T>)
    ensures Matched(Sends(toks), Takes(toks))
    decreases |toks|
  {
    if toks != [] {
      SendsMatchTakes(toks[1..]);
      assert Sends(toks)[1..] == Sends(toks[1..]) && Takes(toks)[1..] == Takes(toks[1..]);
    }
  }

  /** What each party still has to do, and what is under way in between. */
  datatype Config<T> = Config(a: seq<Act<T>>, b: seq<Act<T>>, ab: seq<T>, ba: seq<T>)

  /** A token under way counts as not yet sent. */
  ghost predicate Coherent<T(!new)>(c: Config<T>) {
    Matched(Sends(c.ab) + c.a, Sends(c.ba) + c.b)
  }

  function Mirror<T>(c: Config<T>): Config<T> {
    Config(c.b, c.a, c.ba, c.ab)
  }

  lemma MirrorCoherent<T(!new)>(c: Config<T>)
    requires Coherent(c)
    ensures Coherent(Mirror(c))
  {
    MatchedSymmetric(Sends(c.ab) + c.a, Sends(c.ba) + c.b);
  }

  /** Sending any number of the tokens named next keeps the pair coherent. */
  lemma SendKeeps<T(!new)>(c: Config<T>, toks: seq<T>, rest: seq<Act<T>>)
    requires Coherent(c) && c.a == Sends(toks) + rest
    ensures Coherent(c.(a := rest, ab := c.ab + toks))
  {
    assert Sends(c.ab + toks) + rest == Sends(c.ab) + c.a;
  }

  /** A party about to receive, with something under way to it, finds the token
      its list names. */
  lemma ReceiveKeeps<T(!new)>(c: Config<T>, x: T, rest: seq<Act<T>>)
    requires Coherent(c) && c.b == [Rcv(x)] + rest && c.ab != []
    ensures c.ab[0] == x
    ensures Coherent(c.(b := rest, ab := c.ab[1..]))
  {
    var left, right := Sends(c.ab) + c.a, Sends(c.ba) + c.b;
    var left', right' := Sends(c.ab[1..]) + c.a, Sends(c.ba) + rest;
    assert left[0] == Snd(c.ab[0]) && left[1..] == left';
    if c.ba == [] {
      assert right == c.b && right' == rest && right[1..] == rest;
    } else {
      assert right[0] == Snd(c.ba[0]);
      assert right[1].Rcv?;
      assert right[1] == Rcv(x) && right[2..] == rest;
      assert right' == [right[0]] + rest;
      assert left'[0] == Rcv(c.ba[0]) && left'[1..] == left[2..];
    }
  }

  /** Receiving several tokens in a row. */
  lemma {:induction false} ReceiveManyKeeps<T(!new)>(c: Config<T>, k: nat)
    requires Coherent(c) && k <= |c.b| && k <= |c.ab|
    requires forall i :: 0 <= i < k ==> c.b[i].Rcv?
    ensures forall i :: 0 <= i < k ==> c.ab[i] == c.b[i].tok
    ensures Coherent(c.(b := c.b[k..], ab := c.ab[k..]))
    decreases k
  {
    hide Matched;
    if k == 0 {
      assert c.b[0..] == c.b && c.ab[0..] == c.ab;
    } else {
      ReceiveManyKeeps(c, k - 1);
      var d := c.(b := c.b[k - 1..], ab := c.ab[k - 1..]);
      assert d.b == [Rcv(c.b[k - 1].tok)] + c.b[k..];
      assert d.ab[1..] == c.ab[k..];
      ReceiveKeeps(d, c.b[k - 1].tok, c.b[k..]);
    }
  }

  /** A party whose next act needs nothing from outside, or finds it there. */
  predicate CanAct<T>(todo: seq<Act<T>>, inbox: seq<T>) {
    todo != [] && (todo[0].Snd? || inbox != [])
  }

  /** No deadlock: unless both lists are done, one of the parties can act. */
  lemma NeverStuck<T(!new)>(c: Config<T>)
    requires Coherent(c)
    requires c.a != [] || c.b != []
    ensures CanAct(c.a, c.ba) || CanAct(c.b, c.ab)
  {
    var left, right := Sends(c.ab) + c.a, Sends(c.ba) + c.b;
    if c.a == [] || (c.a[0].Rcv? && c.ba == []) {
      if c.ab == [] {
        assert left == c.a;
        if c.ba == [] { assert right == c.b; }
      } else {
        assert left[0] == Snd(c.ab[0]);
      }
    }
  }

  /** What is under way is awaited. */
  lemma UnderWayIsAwaited<T(!new)>(c: Config<T>)
    requires Coherent(c) && c.ab != []
    ensures c.b != []
  {
    var left, right := Sends(c.ab) + c.a, Sends(c.ba) + c.b;
    assert left[0] == Snd(c.ab[0]);
    if c.ba != [] {
      assert right[0] == Snd(c.ba[0]) && right[1].Rcv?;
    } else {
      assert right == c.b;
    }
  }

  /** A party that is done, with nothing of its sends under way, means that the
      other one is done too. */
  lemma DoneTogether<T(!new)>(c: Config<T>)
    requires Coherent(c) && c.a == [] && c.ab == []
    ensures c.b == [] && c.ba == []
  {
    assert Sends(c.ab) + c.a == [];
    assert Sends(c.ba) + c.b == [];
  }
}
