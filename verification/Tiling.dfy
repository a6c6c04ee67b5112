/** Cutting a text into the pieces a scanner matches and the plain text between them. */
module Tiling {
  import opened Strings

  /** A piece of the text: `Hit(k)` is an occurrence of keyword `k`. */
  datatype Piece = Plain(s: string) | Hit(k: string)
  {
    function Str(): string { if Plain? then s else k }
  }

  /** What a scanner would match at a position, if anything. */
  type Matcher = nat -> Option<string>

  predicate Fits(text: string, i: nat, s: string) {
    i + |s| <= |text| && text[i..i + |s|] == s
  }

  /** Matches are non-empty and end before `end`. */
  ghost predicate Bounded(m: Matcher, end: nat) {
    forall i: nat | m(i).Some? :: m(i).value != "" && i + |m(i).value| <= end
  }

  /** Matches are non-empty and really there. */
  ghost predicate Honest(m: Matcher, text: string) {
    Bounded(m, |text|) && forall i: nat | m(i).Some? :: Fits(text, i, m(i).value)
  }

  function Join(ps: seq<Piece>): string {
    if ps == [] then "" else ps[0].Str() + Join(ps[1..])
  }

  /** Where piece `j` starts, relative to the first. */
  function Offset(ps: seq<Piece>, j: nat): nat
    requires j <= |ps|
  {
    if j == 0 then 0 else |ps[0].Str()| + Offset(ps[1..], j - 1)
  }

  /** A hit is what the scanner matches at `i`; a plain piece is non-empty and nothing matches
      anywhere inside it, not even something running on into what follows. */
  ghost predicate Right(m: Matcher, i: nat, p: Piece) {
    match p
    case Hit(k) => m(i) == Some(k)
    case Plain(s) => s != "" && forall q: nat | i <= q < i + |s| :: m(q) == None
  }

  /** Piece `j` is right where it stands. */
  ghost predicate RightAt(m: Matcher, base: nat, ps: seq<Piece>, j: nat)
    requires j < |ps|
  {
    Right(m, base + Offset(ps, j), ps[j])
  }

  /** Pieces `j` and `j + 1` are not both plain. */
  predicate Parted(ps: seq<Piece>, j: nat)
    requires j + 1 < |ps|
  {
    ps[j].Hit? || ps[j + 1].Hit?
  }

  ghost predicate AllRight(m: Matcher, base: nat, ps: seq<Piece>) {
    forall j: nat | j < |ps| :: RightAt(m, base, ps, j)
  }

  predicate AllParted(ps: seq<Piece>) {
    forall j: nat | j + 1 < |ps| :: Parted(ps, j)
  }

  /** `ps` covers `text[base..]` without loss, every piece is right where it stands, and plain
      pieces are never adjacent. */
  ghost predicate Tiles(m: Matcher, text: string, base: nat, ps: seq<Piece>) {
    && base <= |text|
    && Join(ps) == text[base..]
    && AllRight(m, base, ps)
    && AllParted(ps)
  }

  /** `s` as a plain piece before `ps`, unless empty. */
  function Prepend(s: string, ps: seq<Piece>): seq<Piece> {
    if s == "" then ps else [Plain(s)] + ps
  }

  /** Scanning from `i`, with plain text pending since `beg`. */
  ghost function Scan(m: Matcher, text: string, beg: nat, i: nat): seq<Piece>
    requires Bounded(m, |text|) && beg <= i <= |text|
    decreases |text| - i
  {
    if i == |text| then Prepend(text[beg..i], []) else
    match m(i)
    case None => Scan(m, text, beg, i + 1)
    case Some(k) => Prepend(text[beg..i], [Hit(k)] + Scan(m, text, i + |k|, i + |k|))
  }

  // ----- the same, piece by piece -----

  /** From `base` on, `ps` reaches up to `end` with every piece right where it stands. */
  ghost predicate Shaped(m: Matcher, end: nat, base: nat, ps: seq<Piece>)
    decreases |ps|
  {
    if ps == [] then base == end else
      && Right(m, base, ps[0]) && (|ps| > 1 ==> Parted(ps, 0))
      && Shaped(m, end, base + |ps[0].Str()|, ps[1..])
  }

  lemma AllRightStep(m: Matcher, base: nat, ps: seq<Piece>)
    requires ps != []
    ensures AllRight(m, base, ps) <==> Right(m, base, ps[0]) && AllRight(m, base + |ps[0].Str()|, ps[1..])
  {
    var next, tail := base + |ps[0].Str()|, ps[1..];
    assert RightAt(m, base, ps, 0) <==> Right(m, base, ps[0]);
    forall j: nat | j < |tail| ensures RightAt(m, next, tail, j) <==> RightAt(m, base, ps, j + 1) {
    }
    if Right(m, base, ps[0]) && AllRight(m, next, tail) {
      forall j: nat | j < |ps| ensures RightAt(m, base, ps, j) {
        assert j > 0 ==> RightAt(m, next, tail, j - 1);
      }
    }
  }

  lemma AllPartedStep(ps: seq<Piece>)
    requires ps != []
    ensures AllParted(ps) <==> (|ps| > 1 ==> Parted(ps, 0)) && AllParted(ps[1..])
  {
    var tail := ps[1..];
    forall j: nat | j + 1 < |tail| ensures Parted(tail, j) <==> Parted(ps, j + 1) {
    }
    if (|ps| > 1 ==> Parted(ps, 0)) && AllParted(tail) {
      forall j: nat | j + 1 < |ps| ensures Parted(ps, j) {
        assert j > 0 ==> Parted(tail, j - 1);
      }
    }
  }

  lemma {:induction false} ShapedMeans(m: Matcher, end: nat, base: nat, ps: seq<Piece>)
    ensures Shaped(m, end, base, ps) <==> base + |Join(ps)| == end && AllRight(m, base, ps) && AllParted(ps)
    decreases |ps|
  {
    if ps != [] {
      AllRightStep(m, base, ps);
      AllPartedStep(ps);
      ShapedMeans(m, end, base + |ps[0].Str()|, ps[1..]);
    }
  }

  lemma TilesIsShaped(m: Matcher, text: string, ps: seq<Piece>)
    ensures Tiles(m, text, 0, ps) <==> Join(ps) == text && Shaped(m, |text|, 0, ps)
  {
    ShapedMeans(m, |text|, 0, ps);
    assert text[0..] == text;
  }

  // ----- scanning tiles the text -----

  lemma ShapedCons(m: Matcher, end: nat, base: nat, p: Piece, rest: seq<Piece>)
    requires Right(m, base, p) && (p.Hit? || rest == [] || rest[0].Hit?)
    requires Shaped(m, end, base + |p.Str()|, rest)
    ensures Shaped(m, end, base, [p] + rest)
  {
    assert ([p] + rest)[1..] == rest;
  }

  lemma PendingShaped(m: Matcher, end: nat, beg: nat, s: string, rest: seq<Piece>)
    requires forall q: nat | beg <= q < beg + |s| :: m(q) == None
    requires Shaped(m, end, beg + |s|, rest) && (rest == [] || rest[0].Hit?)
    ensures Shaped(m, end, beg, Prepend(s, rest))
  {
    if s != "" {
      ShapedCons(m, end, beg, Plain(s), rest);
    }
  }

  lemma HitShaped(m: Matcher, end: nat, beg: nat, s: string, k: string, tail: seq<Piece>)
    requires forall q: nat | beg <= q < beg + |s| :: m(q) == None
    requires m(beg + |s|) == Some(k) && Shaped(m, end, beg + |s| + |k|, tail)
    ensures Shaped(m, end, beg, Prepend(s, [Hit(k)] + tail))
  {
    ShapedCons(m, end, beg + |s|, Hit(k), tail);
    PendingShaped(m, end, beg, s, [Hit(k)] + tail);
  }

  lemma {:induction false} ScanShaped(m: Matcher, text: string, beg: nat, i: nat)
    requires Bounded(m, |text|) && beg <= i <= |text|
    requires forall q: nat | beg <= q < i :: m(q) == None
    ensures Shaped(m, |text|, beg, Scan(m, text, beg, i))
    decreases |text| - i
  {
    if i == |text| {
      PendingShaped(m, |text|, beg, text[beg..i], []);
    } else {
      match m(i) {
        case None =>
          ScanShaped(m, text, beg, i + 1);
        case Some(k) =>
          ScanShaped(m, text, i + |k|, i + |k|);
          HitShaped(m, |text|, beg, text[beg..i], k, Scan(m, text, i + |k|, i + |k|));
      }
    }
  }

  lemma JoinCons(p: Piece, ps: seq<Piece>)
    ensures Join([p] + ps) == p.Str() + Join(ps)
  {
    assert ([p] + ps)[1..] == ps;
  }

  lemma JoinPending(s: string, ps: seq<Piece>)
    ensures Join(Prepend(s, ps)) == s + Join(ps)
  {
    if s != "" {
      JoinCons(Plain(s), ps);
    }
  }

  lemma JoinHit(s: string, k: string, tail: seq<Piece>)
    ensures Join(Prepend(s, [Hit(k)] + tail)) == s + (k + Join(tail))
  {
    JoinPending(s, [Hit(k)] + tail);
    JoinCons(Hit(k), tail);
  }

  lemma Slices(text: string, beg: nat, i: nat, k: string)
    requires beg <= i && Fits(text, i, k)
    ensures text[beg..i] + (k + text[i + |k|..]) == text[beg..]
  {
    assert k + text[i + |k|..] == text[i..];
  }

  lemma {:induction false} ScanJoins(m: Matcher, text: string, beg: nat, i: nat)
    requires Honest(m, text) && beg <= i <= |text|
    ensures Join(Scan(m, text, beg, i)) == text[beg..]
    decreases |text| - i
  {
    if i == |text| {
      JoinPending(text[beg..i], []);
      assert text[beg..i] == text[beg..];
    } else {
      match m(i) {
        case None =>
          ScanJoins(m, text, beg, i + 1);
        case Some(k) =>
          ScanJoins(m, text, i + |k|, i + |k|);
          JoinHit(text[beg..i], k, Scan(m, text, i + |k|, i + |k|));
          Slices(text, beg, i, k);
      }
    }
  }

  // ----- there is only one tiling -----

  /** No first piece is shorter than another: a longer plain piece would run over a place where the
      shorter tiling has a hit. */
  lemma HeadNoShorter(m: Matcher, end: nat, base: nat, ps: seq<Piece>, qs: seq<Piece>)
    requires Bounded(m, end) && Shaped(m, end, base, ps) && Shaped(m, end, base, qs)
    requires ps != [] && qs != []
    requires base + |qs[0].Str()| <= end
    ensures |qs[0].Str()| <= |ps[0].Str()|
  {
  }

  lemma SameHead(m: Matcher, base: nat, p: Piece, q: Piece, a: string, b: string)
    requires Right(m, base, p) && Right(m, base, q)
    requires p.Str() + a == q.Str() + b && |p.Str()| == |q.Str()|
    ensures p == q && a == b
  {
    var n := |p.Str()|;
    assert p.Str() == (p.Str() + a)[..n] && a == (p.Str() + a)[n..];
    assert q.Str() == (q.Str() + b)[..n] && b == (q.Str() + b)[n..];
  }

  lemma Heads(m: Matcher, end: nat, base: nat, ps: seq<Piece>, qs: seq<Piece>)
    requires Bounded(m, end) && Shaped(m, end, base, ps) && Shaped(m, end, base, qs)
    requires Join(ps) == Join(qs) && ps != []
    ensures qs != [] && ps[0] == qs[0] && Join(ps[1..]) == Join(qs[1..])
  {
    assert ps[0].Str() != "";
    ShapedMeans(m, end, base, ps);
    HeadNoShorter(m, end, base, ps, qs);
    HeadNoShorter(m, end, base, qs, ps);
    SameHead(m, base, ps[0], qs[0], Join(ps[1..]), Join(qs[1..]));
  }

  lemma SameParts(ps: seq<Piece>, qs: seq<Piece>)
    requires ps != [] && qs != [] && ps[0] == qs[0] && ps[1..] == qs[1..]
    ensures ps == qs
  {
    assert ps == [ps[0]] + ps[1..] && qs == [qs[0]] + qs[1..];
  }

  lemma {:induction false} ShapedUnique(m: Matcher, end: nat, base: nat, ps: seq<Piece>, qs: seq<Piece>)
    requires Bounded(m, end) && Shaped(m, end, base, ps) && Shaped(m, end, base, qs)
    requires Join(ps) == Join(qs)
    ensures ps == qs
    decreases |ps|
  {
    if ps != [] {
      Heads(m, end, base, ps, qs);
      ShapedUnique(m, end, base + |ps[0].Str()|, ps[1..], qs[1..]);
      SameParts(ps, qs);
    } else if qs != [] {
      Heads(m, end, base, qs, ps);
    }
  }

  /** A text is tiled in exactly one way, and left-to-right scanning finds it. */
  lemma TilesExact(m: Matcher, text: string, ps: seq<Piece>)
    requires Honest(m, text)
    ensures Tiles(m, text, 0, ps) <==> ps == Scan(m, text, 0, 0)
  {
    var scan := Scan(m, text, 0, 0);
    TilesIsShaped(m, text, ps);
    ScanShaped(m, text, 0, 0);
    ScanJoins(m, text, 0, 0);
    assert text[0..] == text;
    if Tiles(m, text, 0, ps) {
      ShapedUnique(m, |text|, 0, ps, scan);
    }
  }
}
