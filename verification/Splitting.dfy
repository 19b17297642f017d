/** std_split: one loop counts the delimiters, another fills an array of that size
    (src/mylolib.c:899-963). */
module Splitting {
  import opened Defines

  predicate Occurs(s: string, d: string, i: int) {
    0 <= i && i + |d| <= |s| && s[i..i + |d|] == d
  }

  /** The first occurrence of `d` at or after `p`. */
  function Next(s: string, d: string, p: nat): (r: Option<nat>)
    requires p <= |s|
    ensures r.Some? ==> p <= r.value && Occurs(s, d, r.value)
    ensures forall j: nat :: p <= j && (r.Some? ==> j < r.value) ==> !Occurs(s, d, j)
    decreases |s| - p
  {
    if Occurs(s, d, p) then Some(p)
    else if p == |s| then None
    else Next(s, d, p + 1)
  }

  function Pieces(s: string, d: string, p: nat): (r: seq<string>)
    requires p <= |s| && d != ""
    ensures |r| >= 1
    decreases |s| - p
  {
    match Next(s, d, p)
    case None => [s[p..]]
    case Some(i) => [s[p..i]] + Pieces(s, d, i + |d|)
  }

  function Join(xs: seq<string>, d: string): string {
    if xs == [] then ""
    else if |xs| == 1 then xs[0]
    else xs[0] + d + Join(xs[1..], d)
  }

  // ---- The C code ----

  /** strstr from position `p`. */
  method Strstr(s: string, d: string, p: nat) returns (i: int)
    requires p <= |s|
    ensures match Next(s, d, p) case None => i == -1 case Some(k) => i == k
  {
    i := p;
    while i < |s| && !Occurs(s, d, i)
      invariant p <= i <= |s| && Next(s, d, p) == Next(s, d, i)
    {
      i := i + 1;
    }
    if !Occurs(s, d, i) {
      i := -1;
    }
  }

  /** The second loop stores exactly as many pieces as the first one counted. */
  method Split(s: string, d: string) returns (pieces: array<string>)
    ensures fresh(pieces)
    ensures d != "" ==> pieces[..] == Pieces(s, d, 0)
    ensures d == "" ==> pieces.Length == |s| && forall k :: 0 <= k < |s| ==> pieces[k] == [s[k]]
  {
    if d == "" {
      pieces := new string[|s|](i requires 0 <= i < |s| => [s[i]]);
      return;
    }
    pieces := SplitAt(s, d);
  }

  method SplitAt(s: string, d: string) returns (pieces: array<string>)
    requires d != ""
    ensures fresh(pieces) && pieces[..] == Pieces(s, d, 0)
  {
    var count := CountPieces(s, d);
    pieces := new string[count](i => "");
    ghost var all := Pieces(s, d, 0);
    var idx, p := 0, 0;
    var next := Strstr(s, d, p);
    while next != -1
      invariant 0 <= p <= |s| && 0 <= idx < count && Pieces(s, d, p) == all[idx..]
      invariant match Next(s, d, p) case None => next == -1 case Some(k) => next == k
      invariant forall k :: 0 <= k < idx ==> pieces[k] == all[k]
      decreases |s| - p
    {
      assert all[idx] == Pieces(s, d, p)[0] == s[p..next];
      assert all[idx..][1..] == all[idx + 1..];
      pieces[idx] := s[p..next];
      idx := idx + 1;
      p := next + |d|;
      next := Strstr(s, d, p);
    }
    assert all[idx..] == [s[p..]];
    pieces[idx] := s[p..];
  }

  method CountPieces(s: string, d: string) returns (count: nat)
    requires d != ""
    ensures count == |Pieces(s, d, 0)|
  {
    count := 1;
    var p := 0;
    var next := Strstr(s, d, p);
    while next != -1
      invariant 0 <= p <= |s| && count - 1 + |Pieces(s, d, p)| == |Pieces(s, d, 0)|
      invariant match Next(s, d, p) case None => next == -1 case Some(k) => next == k
      decreases |s| - p
    {
      count := count + 1;
      p := next + |d|;
      next := Strstr(s, d, p);
    }
  }

  // ---- Split and join ----

  /** Joining the pieces gives the source back. */
  lemma {:induction false} JoinPieces(s: string, d: string, p: nat)
    requires p <= |s| && d != ""
    ensures Join(Pieces(s, d, p), d) == s[p..]
    decreases |s| - p
  {
    match Next(s, d, p)
    case None =>
    case Some(i) =>
      JoinPieces(s, d, i + |d|);
      var rest := Pieces(s, d, i + |d|);
      assert ([s[p..i]] + rest)[1..] == rest;
      assert s[p..] == s[p..i] + s[i..i + |d|] + s[i + |d|..];
  }

  /** No piece contains the delimiter. */
  lemma {:induction false} PiecesClean(s: string, d: string, p: nat, k: nat, j: nat)
    requires p <= |s| && d != "" && k < |Pieces(s, d, p)|
    ensures !Occurs(Pieces(s, d, p)[k], d, j)
    decreases |s| - p
  {
    var x := Pieces(s, d, p)[k];
    match Next(s, d, p)
    case None =>
      assert s[p..|s|] == s[p..];
      Shifted(s, d, p, |s|, j);
    case Some(i) =>
      if k == 0 {
        Shifted(s, d, p, i, j);
      } else {
        PiecesClean(s, d, i + |d|, k - 1, j);
      }
  }

  /** An occurrence within s[p..q] is one within s. */
  lemma Shifted(s: string, d: string, p: nat, q: nat, j: nat)
    requires p <= q <= |s|
    ensures Occurs(s[p..q], d, j) ==> Occurs(s, d, p + j) && p + j + |d| <= q
  {
    if Occurs(s[p..q], d, j) {
      forall k | 0 <= k < |d| ensures s[p + j..p + j + |d|][k] == d[k] {
        assert s[p..q][j..j + |d|][k] == s[p + j + k];
      }
    }
  }

  /** Splitting a join gives the pieces back exactly when the delimiter shows up nowhere too early:
      not inside `x + d` before its end for any piece but the last, and not inside the last. */
  predicate Early(x: string, d: string) {
    exists j: nat :: j < |x| && Occurs(x + d, d, j)
  }

  predicate Separable(xs: seq<string>, d: string)
    requires xs != []
  {
    && (forall k :: 0 <= k < |xs| - 1 ==> !Early(xs[k], d))
    && Next(xs[|xs| - 1], d, 0).None?
  }

  lemma {:induction false} SplitJoin(xs: seq<string>, d: string)
    requires xs != [] && d != ""
    ensures Pieces(Join(xs, d), d, 0) == xs <==> Separable(xs, d)
    decreases |xs|
  {
    var x := xs[0];
    if |xs| == 1 {
      OnePiece(x, d);
    } else {
      SplitJoin(xs[1..], d);
      SplitFirst(x, Join(xs[1..], d), d);
      if !Early(x, d) { SeparableTail(xs, d); }
      assert xs == [x] + xs[1..];
    }
  }

  /** The first piece of a join comes out whole unless the delimiter shows up too early. */
  lemma SplitFirst(x: string, tail: string, d: string)
    requires d != ""
    ensures var s := x + d + tail;
      if Early(x, d) then Pieces(s, d, 0)[0] != x
      else Pieces(s, d, 0) == [x] + Pieces(tail, d, 0)
  {
    hide Pieces;
    var s := x + d + tail;
    EarlyInJoin(x, d, tail);
    var i := FirstDelimiter(x, tail, d);
    PiecesOpen(s, d, i);
    if !Early(x, d) {
      assert i == |x| && s[..i] == x && s[|x| + |d|..] == tail;
      PiecesSuffix(s, d, |x| + |d|, tail);
    }
  }

  lemma FirstDelimiter(x: string, tail: string, d: string) returns (i: nat)
    requires d != ""
    ensures Next(x + d + tail, d, 0) == Some(i) && i <= |x|
    ensures (i == |x| || Occurs(x + d + tail, d, i)) && i + |d| <= |x + d + tail|
  {
    var s := x + d + tail;
    assert s[|x|..|x| + |d|] == d;
    assert Occurs(s, d, |x|);
    i := Next(s, d, 0).value;
  }

  lemma PiecesOpen(s: string, d: string, i: nat)
    requires d != "" && Next(s, d, 0) == Some(i) && i + |d| <= |s|
    ensures Pieces(s, d, 0) == [s[..i]] + Pieces(s, d, i + |d|)
  {
    hide Occurs, Next;
    assert s[0..i] == s[..i];
  }

  lemma OnePiece(x: string, d: string)
    requires d != ""
    ensures Pieces(x, d, 0) == [x] <==> Next(x, d, 0).None?
  {
    assert x[0..] == x;
    if Next(x, d, 0).Some? {
      assert |Pieces(x, d, 0)| >= 2;
    }
  }

  lemma SeparableTail(xs: seq<string>, d: string)
    requires |xs| > 1 && !Early(xs[0], d)
    ensures Separable(xs, d) <==> Separable(xs[1..], d)
  {
    assert forall k :: 0 < k < |xs| ==> xs[1..][k - 1] == xs[k];
    if Separable(xs[1..], d) {
      forall k | 0 <= k < |xs| - 1 ensures !Early(xs[k], d) {
        if k > 0 { assert !Early(xs[1..][k - 1], d); }
      }
    }
  }

  /** An occurrence that begins in `x` looks no further than `x + d`. */
  lemma EarlyInJoin(x: string, d: string, rest: string)
    ensures Early(x, d) <==> exists j: nat :: j < |x| && Occurs(x + d + rest, d, j)
  {
    forall j: nat | j < |x| ensures Occurs(x + d, d, j) <==> Occurs(x + d + rest, d, j) {
      assert j + |d| <= |x + d|;
      assert (x + d + rest)[j..j + |d|] == (x + d)[j..j + |d|];
    }
  }

  /** What comes before the position does not matter to the pieces after it. */
  lemma {:induction false} PiecesSuffix(s: string, d: string, p: nat, t: string)
    requires p <= |s| && d != "" && t == s[p..]
    ensures Pieces(s, d, p) == Pieces(t, d, 0)
  {
    PiecesMoved(s, d, p, t, 0);
  }

  lemma {:induction false} PiecesMoved(s: string, d: string, p: nat, t: string, q: nat)
    requires p + q <= |s| && d != "" && t == s[p..]
    ensures Pieces(s, d, p + q) == Pieces(t, d, q)
    decreases |s| - p - q
  {
    NextMoved(s, d, p, t, q);
    match Next(t, d, q)
    case None =>
      assert s[p + q..] == t[q..];
    case Some(i) =>
      assert s[p + q..p + i] == t[q..i];
      PiecesMoved(s, d, p, t, i + |d|);
  }

  lemma {:induction false} NextMoved(s: string, d: string, p: nat, t: string, q: nat)
    requires p + q <= |s| && t == s[p..]
    ensures match Next(t, d, q)
      case None => Next(s, d, p + q).None?
      case Some(i) => Next(s, d, p + q) == Some(p + i)
    decreases |s| - p - q
  {
    if q + |d| <= |t| {
      assert t[q..q + |d|] == s[p + q..p + q + |d|];
    }
    if !Occurs(t, d, q) && q < |t| {
      NextMoved(s, d, p, t, q + 1);
    }
  }
}
